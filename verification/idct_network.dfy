/** The fine-grained network (Idct1D.hpp) as actors on token streams: every node fires when each of its inputs has a
    token.  The wired nodes together are one actor that takes a row of tokens and delivers a row: exactly the coarse
    actor of the pipeline, whatever the lengths of its eight input streams are.  So the network may replace each of
    the row and column actors. */
module IdctNetwork {
  import opened Idct
  import opened IdctPipeline

  function Fewer(a: nat, b: nat): nat {
    if a < b then a else b
  }

  function ScaleStream(p: ScaleParam, s: seq<int>): seq<int> {
    seq(|s|, i requires 0 <= i < |s| => Scale(p, s[i]))
  }

  /** A butterfly node: two inputs, two outputs. */
  function FlyStreams(p: FlyParam, a: seq<int>, b: seq<int>): (seq<int>, seq<int>) {
    var n := Fewer(|a|, |b|);
    (seq(n, i requires 0 <= i < n => Fly(p, a[i], b[i]).0), seq(n, i requires 0 <= i < n => Fly(p, a[i], b[i]).1))
  }

  function AddSubStreams(p: AddSubParam, a: seq<int>, b: seq<int>): (seq<int>, seq<int>) {
    var n := Fewer(|a|, |b|);
    (seq(n, i requires 0 <= i < n => AddSub(p, a[i], b[i]).0), seq(n, i requires 0 <= i < n => AddSub(p, a[i], b[i]).1))
  }

  /** The wiring, stream by stream. */
  function NetworkActor(p: Params, c: Channels): Channels {
    var scale1, scale2 := ScaleStream(p.scale1, c[0]), ScaleStream(p.scale2, c[4]);
    var (fly1a, fly1b) := FlyStreams(p.fly1, c[5], c[3]);
    var (fly2a, fly2b) := FlyStreams(p.fly2, c[1], c[7]);
    var (fly3a, fly3b) := FlyStreams(p.fly3, c[6], c[2]);
    var (as1a, as1b) := AddSubStreams(p.plain, scale1, scale2);
    var (as2a, as2b) := AddSubStreams(p.plain, fly2a, fly1a);
    var (as3a, as3b) := AddSubStreams(p.plain, fly2b, fly1b);
    var (as4a, as4b) := AddSubStreams(p.plain, as1a, fly3b);
    var (as5a, as5b) := AddSubStreams(p.plain, as1b, fly3a);
    var (as6a, as6b) := AddSubStreams(p.rotate, as2b, as3b);
    var (as7a, as7b) := AddSubStreams(p.last, as4b, as3a);
    var (as8a, as8b) := AddSubStreams(p.last, as5b, as6b);
    var (as9a, as9b) := AddSubStreams(p.last, as4a, as2a);
    var (as10a, as10b) := AddSubStreams(p.last, as5a, as6a);
    [as9a, as10a, as8a, as7a, as7b, as8b, as10b, as9b]
  }

  /** Exactly n rows of tokens can be read. */
  predicate Rows(c: Channels, n: nat) {
    Available(c, n) && !Available(c, n + 1)
  }

  /** The actor delivers, for each of n rows, what the network computes for that row. */
  predicate Delivers(out: Channels, p: Params, c: Channels, n: nat)
    requires Available(c, n)
  {
    forall j :: 0 <= j < 8 ==> |out[j]| == n && forall i :: 0 <= i < n ==> out[j][i] == Network(p, At(c, i))[j]
  }

  lemma SomeRows(c: Channels) returns (n: nat)
    ensures Rows(c, n)
  {
    n := |c[0]|;
    for j := 1 to 8
      invariant forall k :: 0 <= k < j ==> n <= |c[k]|
      invariant exists k :: 0 <= k < j && n == |c[k]|
    {
      n := Fewer(n, |c[j]|);
    }
  }

  lemma {:induction false} ActorDelivers(p: Params, c: Channels, n: nat)
    requires Rows(c, n)
    ensures Delivers(IdctActor(p, c), p, c, n)
    decreases n
  {
    hide Network;
    var out := IdctActor(p, c);
    if n > 0 {
      var rest := Drop(c, 1);
      assert Available(c, 1);
      assert forall j :: 0 <= j < 8 ==> |rest[j]| == |c[j]| - 1;
      var k :| 0 <= k < 8 && !(n + 1 <= |c[k]|);
      assert |rest[k]| == n - 1;
      ActorDelivers(p, rest, n - 1);
      forall j, i | 0 <= j < 8 && 0 <= i < n ensures out[j][i] == Network(p, At(c, i))[j] {
        if i > 0 {
          assert At(rest, i - 1) == At(c, i);
        }
      }
    }
  }

  lemma NodeAt(p: AddSubParam, a: seq<int>, b: seq<int>, i: nat)
    ensures var (o1, o2) := AddSubStreams(p, a, b);
            && |o1| == |o2| == Fewer(|a|, |b|)
            && (i < Fewer(|a|, |b|) ==> (o1[i], o2[i]) == AddSub(p, a[i], b[i]))
  {
  }

  lemma FlyAt(p: FlyParam, a: seq<int>, b: seq<int>, i: nat)
    ensures var (o1, o2) := FlyStreams(p, a, b);
            && |o1| == |o2| == Fewer(|a|, |b|)
            && (i < Fewer(|a|, |b|) ==> (o1[i], o2[i]) == Fly(p, a[i], b[i]))
  {
  }

  /** One row through the wired nodes. */
  lemma WiringAt(p: Params, c: Channels, n: nat, i: nat)
    requires Rows(c, n)
    ensures var out := NetworkActor(p, c);
            && (forall j :: 0 <= j < 8 ==> |out[j]| == n)
            && (i < n ==> forall j :: 0 <= j < 8 ==> out[j][i] == Network(p, At(c, i))[j])
  {
    hide FlyStreams, AddSubStreams, Fly, AddSub, Scale;
    var scale1, scale2 := ScaleStream(p.scale1, c[0]), ScaleStream(p.scale2, c[4]);
    FlyAt(p.fly1, c[5], c[3], i);
    FlyAt(p.fly2, c[1], c[7], i);
    FlyAt(p.fly3, c[6], c[2], i);
    var (fly1a, fly1b) := FlyStreams(p.fly1, c[5], c[3]);
    var (fly2a, fly2b) := FlyStreams(p.fly2, c[1], c[7]);
    var (fly3a, fly3b) := FlyStreams(p.fly3, c[6], c[2]);
    NodeAt(p.plain, scale1, scale2, i);
    NodeAt(p.plain, fly2a, fly1a, i);
    NodeAt(p.plain, fly2b, fly1b, i);
    var (as1a, as1b) := AddSubStreams(p.plain, scale1, scale2);
    var (as2a, as2b) := AddSubStreams(p.plain, fly2a, fly1a);
    var (as3a, as3b) := AddSubStreams(p.plain, fly2b, fly1b);
    NodeAt(p.plain, as1a, fly3b, i);
    NodeAt(p.plain, as1b, fly3a, i);
    NodeAt(p.rotate, as2b, as3b, i);
    var (as4a, as4b) := AddSubStreams(p.plain, as1a, fly3b);
    var (as5a, as5b) := AddSubStreams(p.plain, as1b, fly3a);
    var (as6a, as6b) := AddSubStreams(p.rotate, as2b, as3b);
    NodeAt(p.last, as4b, as3a, i);
    NodeAt(p.last, as5b, as6b, i);
    NodeAt(p.last, as4a, as2a, i);
    NodeAt(p.last, as5a, as6a, i);
  }

  /** The wired nodes are the coarse actor, on all streams. */
  lemma NetworkIsActor(p: Params, c: Channels)
    ensures NetworkActor(p, c) == IdctActor(p, c)
  {
    var n := SomeRows(c);
    ActorDelivers(p, c, n);
    WiringAt(p, c, n, 0);
    var wired, coarse := NetworkActor(p, c), IdctActor(p, c);
    hide Network, NetworkActor, IdctActor;
    forall j | 0 <= j < 8 ensures wired[j] == coarse[j] {
      forall i | 0 <= i < n ensures wired[j][i] == coarse[j][i] {
        WiringAt(p, c, n, i);
      }
    }
  }

  /** The pipeline with the networks in place of the coarse actors. */
  function NetworkPipeline(r: Range, stream: seq<int>): seq<int> {
    AdjustAll(r, Column2Block(NetworkActor(COL, Transpose(NetworkActor(ROW, Block2Row(stream)), 0))))
  }

  /** All three architectures agree on every stream of tokens. */
  lemma NetworkPipelineIsMonolithic(r: Range, stream: seq<int>)
    ensures NetworkPipeline(r, stream) == Monolithic(r, stream)
  {
    hide NetworkActor, IdctActor;
    NetworkIsActor(ROW, Block2Row(stream));
    NetworkIsActor(COL, Transpose(IdctActor(ROW, Block2Row(stream)), 0));
    PipelineIsMonolithic(r, stream);
  }
}
