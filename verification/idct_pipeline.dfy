/** The two-dimensional transform as one monolithic actor and as a pipeline of actors connected by token
    streams (Idct2D.hpp, Block2Row.hpp, Transpose.hpp, Column2Block.hpp, RangeAdjust.hpp).  An actor is a
    function on the streams of its eight channels; what two actors agree on for one block they agree on for
    every stream, because each of them works block by block. */
module IdctPipeline {
  import opened Idct
  import I = Idct

  type Block = b: seq<int> | |b| == 64 witness seq(64, _ => 0)

  /** Level adjustment and clipping of one token. */
  datatype Range = Range(levelAdj: int, min: int, max: int)

  function Adjust(r: Range, x: int): int {
    var val := x + r.levelAdj;
    if val < r.min then r.min else if val > r.max then r.max else val
  }

  // ---- the monolithic transform of a block ----------------------------------------------------------

  function RowOf(b: Block, row: nat): Vec
    requires row < 8
  {
    b[8 * row..8 * row + 8]
  }

  function ColumnOf(b: Block, col: nat): Vec
    requires col < 8
  {
    seq(8, k requires 0 <= k < 8 => b[8 * k + col])
  }

  function RowPass(b: Block): Block {
    seq(64, n requires 0 <= n < 64 => Network(ROW, RowOf(b, n / 8))[n % 8])
  }

  function ColPass(b: Block): Block {
    seq(64, n requires 0 <= n < 64 => Network(COL, ColumnOf(b, n % 8))[n / 8])
  }

  function AdjustAll(r: Range, s: seq<int>): (t: seq<int>)
    ensures |t| == |s|
  {
    seq(|s|, n requires 0 <= n < |s| => Adjust(r, s[n]))
  }

  function Transform(r: Range, b: Block): Block {
    AdjustAll(r, ColPass(RowPass(b)))
  }

  /** The monolithic actor on a stream: it fires on every complete block. */
  function Monolithic(r: Range, stream: seq<int>): seq<int> {
    if |stream| < 64 then [] else Transform(r, stream[..64]) + Monolithic(r, stream[64..])
  }

  // ---- the pipeline ------------------------------------------------------------------------------------

  type Channels = c: seq<seq<int>> | |c| == 8 witness [[], [], [], [], [], [], [], []]

  const NOTHING: Channels := [[], [], [], [], [], [], [], []]

  function Join(a: Channels, b: Channels): Channels {
    seq(8, j requires 0 <= j < 8 => a[j] + b[j])
  }

  predicate Available(c: Channels, n: nat) {
    forall j :: 0 <= j < 8 ==> n <= |c[j]|
  }

  function First(c: Channels, n: nat): Channels
    requires Available(c, n)
  {
    seq(8, j requires 0 <= j < 8 => c[j][..n])
  }

  function Drop(c: Channels, n: nat): Channels
    requires Available(c, n)
  {
    seq(8, j requires 0 <= j < 8 => c[j][n..])
  }

  /** The tokens at position i of the eight channels. */
  function At(c: Channels, i: nat): Vec
    requires Available(c, i + 1)
  {
    seq(8, j requires 0 <= j < 8 => c[j][i])
  }

  /** One token for every channel. */
  function Each(v: Vec): Channels {
    seq(8, j requires 0 <= j < 8 => [v[j]])
  }

  /** All eight tokens on channel s. */
  function On(s: nat, v: Vec): Channels {
    seq(8, j requires 0 <= j < 8 => if j == s then v else [])
  }

  /** A block goes out column by column: channel j gets entry j of every row. */
  function RowsOf(b: Block): Channels {
    seq(8, j requires 0 <= j < 8 => seq(8, i requires 0 <= i < 8 => b[8 * i + j]))
  }

  function Block2Row(stream: seq<int>): Channels {
    if |stream| < 64 then NOTHING else Join(RowsOf(stream[..64]), Block2Row(stream[64..]))
  }

  /** A row or column actor: one token from every channel, one to every channel. */
  function IdctActor(p: Params, c: Channels): Channels
    decreases |c[0]|
  {
    if !Available(c, 1) then NOTHING else Join(Each(Network(p, At(c, 0))), IdctActor(p, Drop(c, 1)))
  }

  function NextState(state: nat): nat {
    if state == 7 then 0 else state + 1
  }

  /** The eight-state transposing actor: in state s it puts what it reads on channel s. */
  function Transpose(c: Channels, state: nat): Channels
    decreases |c[0]|
  {
    if !Available(c, 1) then NOTHING
    else Join(On(state, At(c, 0)), Transpose(Drop(c, 1), NextState(state)))
  }

  /** Eight tokens of channel j make row j of a block. */
  function BlockOf(c: Channels): Block
    requires Available(c, 8)
  {
    seq(64, n requires 0 <= n < 64 => c[n / 8][n % 8])
  }

  function Column2Block(c: Channels): seq<int>
    decreases |c[0]|
  {
    if !Available(c, 8) then [] else BlockOf(First(c, 8)) + Column2Block(Drop(c, 8))
  }

  function Pipeline(r: Range, stream: seq<int>): seq<int> {
    AdjustAll(r, Column2Block(IdctActor(COL, Transpose(IdctActor(ROW, Block2Row(stream)), 0))))
  }

  // ---- every actor works block by block -----------------------------------------------------------------

  predicate Length(c: Channels, n: nat) {
    forall j :: 0 <= j < 8 ==> |c[j]| == n
  }

  lemma JoinDrop(a: Channels, b: Channels, n: nat, k: nat)
    requires Length(a, n) && k <= n
    ensures Available(Join(a, b), k) && First(Join(a, b), k) == First(a, k)
            && Drop(Join(a, b), k) == Join(Drop(a, k), b)
    ensures k < n ==> At(Join(a, b), k) == At(a, k)
    ensures Length(Drop(a, k), n - k)
  {
    forall j | 0 <= j < 8 ensures (a[j] + b[j])[..k] == a[j][..k] && (a[j] + b[j])[k..] == a[j][k..] + b[j] {
    }
  }

  lemma JoinNothing(a: Channels, b: Channels)
    requires Length(a, 0)
    ensures Join(a, b) == b
  {
    forall j | 0 <= j < 8 ensures a[j] + b[j] == b[j] {
    }
  }

  lemma JoinRight(a: Channels)
    ensures Join(a, NOTHING) == a
  {
    forall j | 0 <= j < 8 ensures Join(a, NOTHING)[j] == a[j] {
      assert a[j] + NOTHING[j] == a[j];
    }
  }

  lemma JoinOn(a: Channels, s: nat, v: Vec)
    requires s < 8
    ensures a[s := a[s] + v] == Join(a, On(s, v))
  {
    forall j | 0 <= j < 8 ensures a[s := a[s] + v][j] == Join(a, On(s, v))[j] {
      assert j != s ==> a[j] + [] == a[j];
    }
  }

  lemma JoinAssoc(a: Channels, b: Channels, c: Channels)
    ensures Join(Join(a, b), c) == Join(a, Join(b, c))
  {
    forall j | 0 <= j < 8 ensures (a[j] + b[j]) + c[j] == a[j] + (b[j] + c[j]) {
    }
  }

  lemma {:induction false} IdctActorJoin(p: Params, a: Channels, b: Channels, n: nat)
    requires Length(a, n)
    ensures IdctActor(p, Join(a, b)) == Join(IdctActor(p, a), IdctActor(p, b))
    decreases n
  {
    if n == 0 {
      JoinNothing(a, b);
      JoinNothing(NOTHING, IdctActor(p, b));
    } else {
      JoinDrop(a, b, n, 1);
      JoinDrop(a, b, n, 0);
      IdctActorJoin(p, Drop(a, 1), b, n - 1);
      JoinAssoc(Each(Network(p, At(a, 0))), IdctActor(p, Drop(a, 1)), IdctActor(p, b));
    }
  }

  /** The state after n firings. */
  function StateAfter(state: nat, n: nat): nat
    decreases n
  {
    if n == 0 then state else StateAfter(NextState(state), n - 1)
  }

  lemma FullTurn()
    ensures StateAfter(0, 8) == 0
  {
    assert StateAfter(4, 4) == 0;
    assert StateAfter(0, 8) == StateAfter(2, 6) == StateAfter(4, 4);
  }

  lemma {:induction false} TransposeJoin(a: Channels, b: Channels, state: nat, n: nat)
    requires Length(a, n)
    ensures Transpose(Join(a, b), state) == Join(Transpose(a, state), Transpose(b, StateAfter(state, n)))
    decreases n
  {
    if n == 0 {
      JoinNothing(a, b);
      JoinNothing(NOTHING, Transpose(b, state));
      assert |a[0]| == 0;
      assert Transpose(a, state) == NOTHING;
    } else {
      JoinDrop(a, b, n, 1);
      JoinDrop(a, b, n, 0);
      var next := NextState(state);
      TransposeJoin(Drop(a, 1), b, next, n - 1);
      JoinAssoc(On(state, At(a, 0)), Transpose(Drop(a, 1), next), Transpose(b, StateAfter(state, n)));
    }
  }

  /** Eight firings bring the transposing actor back to its first state, so it works block by block. */
  lemma TransposeBlocks(a: Channels, b: Channels)
    requires Length(a, 8)
    ensures Transpose(Join(a, b), 0) == Join(Transpose(a, 0), Transpose(b, 0))
  {
    TransposeJoin(a, b, 0, 8);
    FullTurn();
  }

  lemma {:induction false} IdctActorAt(p: Params, c: Channels, n: nat, i: nat)
    requires Length(c, n)
    ensures Length(IdctActor(p, c), n)
    ensures i < n ==> At(IdctActor(p, c), i) == Network(p, At(c, i))
    decreases n
  {
    if n > 0 {
      hide Network;
      var r := IdctActor(p, Drop(c, 1));
      IdctActorAt(p, Drop(c, 1), n - 1, if i > 0 then i - 1 else 0);
      if 0 < i < n {
        assert At(Drop(c, 1), i - 1) == At(c, i);
        assert At(IdctActor(p, c), i) == At(r, i - 1);
      } else if i == 0 {
        assert At(IdctActor(p, c), 0) == Network(p, At(c, 0));
      }
    }
  }

  lemma TransposeOnce(c: Channels, state: nat, s: nat)
    requires Available(c, 1) && state < 8 && s < 8
    ensures Transpose(c, state)[s] == (if s == state then At(c, 0) else []) + Transpose(Drop(c, 1), NextState(state))[s]
  {
  }

  /** From state s on, the i-th read goes to channel s + i. */
  lemma {:induction false} TransposeAt(c: Channels, state: nat, n: nat, s: nat)
    requires Length(c, n) && 0 < n && state + n <= 8 && s < 8
    ensures Transpose(c, state)[s] == if state <= s < state + n then At(c, s - state) else []
    decreases n
  {
    TransposeOnce(c, state, s);
    var rest := Drop(c, 1);
    if n > 1 {
      hide Transpose, Drop, At;
      AtDrop(c, n);
      TransposeAt(rest, state + 1, n - 1, s);
    } else {
      assert |rest[0]| == 0;
      assert Transpose(rest, NextState(state)) == NOTHING;
    }
  }

  lemma AtDrop(c: Channels, n: nat)
    requires Length(c, n) && 0 < n
    ensures Length(Drop(c, 1), n - 1)
    ensures forall k :: 0 <= k < n - 1 ==> At(Drop(c, 1), k) == At(c, k + 1)
  {
    forall k | 0 <= k < n - 1 ensures At(Drop(c, 1), k) == At(c, k + 1) {
    }
  }

  // ---- one block ---------------------------------------------------------------------------------------------

  lemma RowsActor(b: Block, i: nat)
    requires i < 8
    ensures Length(RowsOf(b), 8) && Length(IdctActor(ROW, RowsOf(b)), 8)
    ensures At(IdctActor(ROW, RowsOf(b)), i) == Network(ROW, RowOf(b, i))
  {
    hide Network;
    IdctActorAt(ROW, RowsOf(b), 8, i);
    assert At(RowsOf(b), i) == RowOf(b, i);
  }

  lemma TransposedActor(b: Block, i: nat)
    requires i < 8
    ensures Transpose(IdctActor(ROW, RowsOf(b)), 0)[i] == Network(ROW, RowOf(b, i))
  {
    hide Network, IdctActor;
    RowsActor(b, i);
    TransposeAt(IdctActor(ROW, RowsOf(b)), 0, 8, i);
  }

  /** What the columns of the row-transformed block are, seen from the transposed channels. */
  lemma RowsTransposed(b: Block)
    ensures var t := Transpose(IdctActor(ROW, RowsOf(b)), 0);
            Length(t, 8) && forall k :: 0 <= k < 8 ==> At(t, k) == ColumnOf(RowPass(b), k)
  {
    hide Network, IdctActor, Transpose, RowPass;
    var t := Transpose(IdctActor(ROW, RowsOf(b)), 0);
    forall i | 0 <= i < 8 ensures t[i] == Network(ROW, RowOf(b, i)) {
      TransposedActor(b, i);
    }
    forall k | 0 <= k < 8 ensures At(t, k) == ColumnOf(RowPass(b), k) {
      forall i | 0 <= i < 8 ensures At(t, k)[i] == ColumnOf(RowPass(b), k)[i] {
        RowPassAt(b, i, k);
      }
    }
  }

  lemma RowPassAt(b: Block, i: nat, k: nat)
    requires i < 8 && k < 8
    ensures RowPass(b)[8 * i + k] == Network(ROW, RowOf(b, i))[k]
  {
    hide Network;
    assert (8 * i + k) / 8 == i && (8 * i + k) % 8 == k;
  }

  lemma OneBlock(u: Channels)
    requires Length(u, 8)
    ensures First(u, 8) == u && Length(Drop(u, 8), 0) && Column2Block(Drop(u, 8)) == [] && Column2Block(u) == BlockOf(u)
  {
    forall j | 0 <= j < 8 ensures u[j][..8] == u[j] {
    }
    assert First(u, 8) == u;
    assert |Drop(u, 8)[0]| == 0;
    assert Column2Block(Drop(u, 8)) == [];
  }

  /** Column actors and block assembly compute the column pass. */
  lemma ColumnsAssembled(t: Channels, m: Block)
    requires Length(t, 8) && forall k :: 0 <= k < 8 ==> At(t, k) == ColumnOf(m, k)
    ensures var u := IdctActor(COL, t); Length(u, 8) && Column2Block(u) == ColPass(m)
  {
    hide Network, IdctActor, Column2Block, ColumnOf;
    var u := IdctActor(COL, t);
    IdctActorAt(COL, t, 8, 0);
    OneBlock(u);
    forall n | 0 <= n < 64 ensures BlockOf(u)[n] == ColPass(m)[n] {
      IdctActorAt(COL, t, 8, n % 8);
      assert u[n / 8][n % 8] == At(u, n % 8)[n / 8];
    }
  }

  /** The pipeline without range adjustment, on one block. */
  lemma BlockPipeline(b: Block)
    ensures var u := IdctActor(COL, Transpose(IdctActor(ROW, RowsOf(b)), 0));
            Length(u, 8) && Column2Block(u) == ColPass(RowPass(b))
  {
    hide Network, IdctActor, Transpose, Column2Block, RowPass, ColPass, ColumnOf;
    RowsTransposed(b);
    ColumnsAssembled(Transpose(IdctActor(ROW, RowsOf(b)), 0), RowPass(b));
  }

  lemma Column2BlockJoin(a: Channels, b: Channels)
    requires Length(a, 8)
    ensures Column2Block(Join(a, b)) == Column2Block(a) + Column2Block(b)
  {
    JoinDrop(a, b, 8, 8);
    OneBlock(a);
    JoinNothing(Drop(a, 8), b);
  }

  /** The stages of the pipeline on a stream that starts with a block. */
  lemma FirstBlock(b: Block, rest: Channels)
    ensures Column2Block(IdctActor(COL, Transpose(IdctActor(ROW, Join(RowsOf(b), rest)), 0)))
            == ColPass(RowPass(b)) + Column2Block(IdctActor(COL, Transpose(IdctActor(ROW, rest), 0)))
  {
    hide *;
    var rows := RowsOf(b);
    RowsActor(b, 0);
    IdctActorJoin(ROW, rows, rest, 8);
    var s, s1 := IdctActor(ROW, rows), IdctActor(ROW, rest);
    TransposeBlocks(s, s1);
    RowsTransposed(b);
    var t, t1 := Transpose(s, 0), Transpose(s1, 0);
    IdctActorJoin(COL, t, t1, 8);
    BlockPipeline(b);
    Column2BlockJoin(IdctActor(COL, t), IdctActor(COL, t1));
  }

  lemma NothingFlows()
    ensures Column2Block(IdctActor(COL, Transpose(IdctActor(ROW, NOTHING), 0))) == []
  {
  }

  /** The architectures agree: on every stream of tokens, the pipeline of row actors, transposer, column
      actors and range adjustment produces what the monolithic actor produces. */
  lemma {:induction false} PipelineIsMonolithic(r: Range, stream: seq<int>)
    ensures Pipeline(r, stream) == Monolithic(r, stream)
    decreases |stream|
  {
    hide Network, Transpose, IdctActor, Column2Block, RowPass, ColPass;
    if |stream| < 64 {
      NothingFlows();
    } else {
      var b, rest := stream[..64], stream[64..];
      PipelineIsMonolithic(r, rest);
      FirstBlock(b, Block2Row(rest));
    }
  }

  // ---- the actors as objects ------------------------------------------------------------------------------------

  /** The monolithic actor with its block buffer. */
  class Idct2D {
    const range: Range
    const blk: array<int>

    ghost predicate Valid()
      reads this
    {
      blk.Length == 64
    }

    constructor (range: Range)
      ensures Valid() && fresh(blk) && this.range == range
    {
      this.range := range;
      blk := new int[64];
    }

    /** The row transform, into one row of the buffer. */
    method IdctRow(input: Block, row: nat)
      requires Valid() && row < 8
      modifies blk
      ensures blk[8 * row..8 * row + 8] == Network(ROW, RowOf(input, row))
      ensures forall n :: 0 <= n < 64 && n / 8 != row ==> blk[n] == old(blk[n])
    {
      hide Network;
      var o := I.IdctRow(RowOf(input, row));
      for k := 0 to 8
        invariant forall n :: 0 <= n < 64 ==>
                  blk[n] == if 8 * row <= n < 8 * row + k then o[n - 8 * row] else old(blk[n])
      {
        blk[8 * row + k] := o[k];
      }
    }

    /** The column transform of the buffer, into one column of the output. */
    method IdctCol(ghost m: Block, col: nat, output: array<int>)
      requires Valid() && blk[..] == m && col < 8 && output.Length == 64 && output != blk
      modifies output
      ensures forall n :: 0 <= n < 64 ==>
                output[n] == if n % 8 == col then Adjust(range, Network(COL, ColumnOf(m, col))[n / 8])
                  else old(output[n])
    {
      hide Network, Adjust;
      var column: Vec := [blk[col], blk[8 + col], blk[16 + col], blk[24 + col], blk[32 + col], blk[40 + col],
        blk[48 + col], blk[56 + col]];
      assert column == ColumnOf(m, col);
      var o := I.IdctColumn(column);
      for k := 0 to 8
        invariant forall n :: 0 <= n < 64 ==>
          output[n] == if n % 8 == col && n / 8 < k then Adjust(range, o[n / 8]) else old(output[n])
      {
        output[8 * k + col] := Adjust(range, o[k]);
      }
    }

    /** One firing: all rows, then all columns. */
    method Idct2D(input: Block) returns (output: array<int>)
      requires Valid()
      modifies blk
      ensures fresh(output) && output[..] == Transform(range, input)
    {
      hide Network, Adjust;
      for row := 0 to 8
        invariant forall n :: 0 <= n < 8 * row ==> blk[n] == RowPass(input)[n]
      {
        IdctRow(input, row);
        forall n | 8 * row <= n < 8 * row + 8 ensures blk[n] == RowPass(input)[n] {
          assert blk[n] == blk[8 * row..8 * row + 8][n - 8 * row];
        }
      }
      ghost var m := RowPass(input);
      assert blk[..] == m;
      output := new int[64];
      for col := 0 to 8
        invariant blk[..] == m
        invariant forall n :: 0 <= n < 64 && n % 8 < col ==> output[n] == Adjust(range, ColPass(m)[n])
      {
        IdctCol(m, col, output);
      }
    }
  }

  /** The transposing actor with its firing state and its output channels. */
  class TransposeActor {
    var state: nat
    var output: Channels

    constructor ()
      ensures state == 0 && output == NOTHING
    {
      state, output := 0, NOTHING;
    }

    /** One firing. */
    method Fire(tokens: Vec)
      requires state < 8
      modifies this
      ensures output == Join(old(output), On(old(state), tokens)) && state == NextState(old(state)) && state < 8
    {
      JoinOn(output, state, tokens);
      output := output[state := output[state] + tokens];
      state := if state == 7 then 0 else state + 1;
    }

    /** All firings that the input channels allow. */
    method Run(input: Channels)
      requires state < 8
      modifies this
      ensures output == Join(old(output), Transpose(input, old(state)))
    {
      var c := input;
      ghost var done := NOTHING;
      ghost var s0, out0 := state, output;
      JoinNothing(NOTHING, Transpose(input, state));
      JoinRight(out0);
      while |c[0]| > 0 && |c[1]| > 0 && |c[2]| > 0 && |c[3]| > 0 && |c[4]| > 0 && |c[5]| > 0 && |c[6]| > 0 && |c[7]| > 0
        invariant state < 8 && output == Join(out0, done)
        invariant Transpose(input, s0) == Join(done, Transpose(c, state))
        decreases |c[0]|
      {
        assert Available(c, 1);
        ghost var v := On(state, At(c, 0));
        JoinAssoc(done, v, Transpose(Drop(c, 1), NextState(state)));
        JoinAssoc(out0, done, v);
        Fire(At(c, 0));
        done := Join(done, v);
        c := Drop(c, 1);
      }
      assert !Available(c, 1);
      JoinRight(done);
    }
  }
}
