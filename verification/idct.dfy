/** The inverse discrete cosine transform of the test application in its three architectures: monolithic
    loops over a block (Idct2D.hpp), a pipeline of row and column actors (IdctRow.hpp, IdctColumn.hpp),
    and a network of adders, butterflies and scalers (Idct1D.hpp).  `>>` is floor division. */
module Idct {
  import opened Basics

  type Vec = v: seq<int> | |v| == 8 witness [0, 0, 0, 0, 0, 0, 0, 0]

  const W1 := 2841
  const W2 := 2676
  const W3 := 2408
  const W5 := 1609
  const W6 := 1108
  const W7 := 565

  /** Arithmetic right shift. */
  function Shift(x: int, n: nat): int {
    x / Pow2(n)
  }

  // ---- the fine-grained network ---------------------------------------------------------------------

  datatype ScaleParam = ScaleParam(g: int, os: int)
  datatype FlyParam = FlyParam(w0: int, os: int, w1: int, w2: int, atten: nat)
  datatype AddSubParam = AddSubParam(g: int, os: int, atten: nat)

  function Scale(p: ScaleParam, i: int): int {
    p.os + p.g * i
  }

  function Fly(p: FlyParam, i1: int, i2: int): (int, int) {
    var t := p.w0 * (i1 + i2) + p.os;
    (Shift(t + i1 * p.w1, p.atten), Shift(t + i2 * p.w2, p.atten))
  }

  function AddSub(p: AddSubParam, i1: int, i2: int): (int, int) {
    (Shift(p.g * (i1 + i2) + p.os, p.atten), Shift(p.g * (i1 - i2) + p.os, p.atten))
  }

  datatype Params = Params(scale1: ScaleParam, scale2: ScaleParam,
                           fly1: FlyParam, fly2: FlyParam, fly3: FlyParam,
                           plain: AddSubParam, rotate: AddSubParam, last: AddSubParam)

  /** The five first adders share one parameter set, and so do the four last ones. */
  const ROW := Params(ScaleParam(2048, 128), ScaleParam(2048, 0),
                      FlyParam(2408, 0, -799, -4017, 0), FlyParam(565, 0, 2276, -3406, 0),
                      FlyParam(1108, 0, -3784, 1568, 0),
                      AddSubParam(1, 0, 0), AddSubParam(181, 128, 8), AddSubParam(1, 0, 8))

  const COL := Params(ScaleParam(256, 8192), ScaleParam(256, 0),
                      FlyParam(2408, 4, -799, -4017, 3), FlyParam(565, 4, 2276, -3406, 3),
                      FlyParam(1108, 4, -3784, 1568, 3),
                      AddSubParam(1, 0, 0), AddSubParam(181, 128, 8), AddSubParam(1, 0, 14))

  /** The wiring of the network. */
  function Network(p: Params, i: Vec): Vec {
    var scale1, scale2 := Scale(p.scale1, i[0]), Scale(p.scale2, i[4]);
    var (fly1a, fly1b) := Fly(p.fly1, i[5], i[3]);
    var (fly2a, fly2b) := Fly(p.fly2, i[1], i[7]);
    var (fly3a, fly3b) := Fly(p.fly3, i[6], i[2]);
    var (as1a, as1b) := AddSub(p.plain, scale1, scale2);
    var (as2a, as2b) := AddSub(p.plain, fly2a, fly1a);
    var (as3a, as3b) := AddSub(p.plain, fly2b, fly1b);
    var (as4a, as4b) := AddSub(p.plain, as1a, fly3b);
    var (as5a, as5b) := AddSub(p.plain, as1b, fly3a);
    var (as6a, as6b) := AddSub(p.rotate, as2b, as3b);
    var (as7a, as7b) := AddSub(p.last, as4b, as3a);
    var (as8a, as8b) := AddSub(p.last, as5b, as6b);
    var (as9a, as9b) := AddSub(p.last, as4a, as2a);
    var (as10a, as10b) := AddSub(p.last, as5a, as6a);
    [as9a, as10a, as8a, as7a, as7b, as8b, as10b, as9b]
  }

  // ---- the coarse actors ---------------------------------------------------------------------------------

  /** A butterfly and an adder without attenuation. */
  lemma Plain(p: FlyParam, i1: int, i2: int)
    ensures p.atten == 0 ==>
              Fly(p, i1, i2) == (p.w0 * (i1 + i2) + p.os + i1 * p.w1, p.w0 * (i1 + i2) + p.os + i2 * p.w2)
    ensures AddSub(AddSubParam(1, 0, 0), i1, i2) == (i1 + i2, i1 - i2)
  {
    var t := p.w0 * (i1 + i2) + p.os;
  }

  /** The first stage of the row transform, and the rest. */
  datatype Stage = Stage(s: int, d: int, a1: int, a7: int, a5: int, a3: int, b6: int, b2: int)

  function RowStage(i: Vec): Stage {
    var t2, t1, t3 := W7 * (i[1] + i[7]), W3 * (i[5] + i[3]), W6 * (i[2] + i[6]);
    Stage(i[0] * 2048 + 128 + i[4] * 2048, i[0] * 2048 + 128 - i[4] * 2048,
          t2 + (W1 - W7) * i[1], t2 - (W1 + W7) * i[7], t1 - (W3 - W5) * i[5], t1 - (W3 + W5) * i[3],
          t3 - (W2 + W6) * i[6], t3 + (W2 - W6) * i[2])
  }

  function Finish(g: Stage, atten: nat): Vec {
    var c4, c1, c5, c7 := g.a1 + g.a5, g.a1 - g.a5, g.a7 + g.a3, g.a7 - g.a3;
    var e3, es, e2, e0 := g.s + g.b2, g.s - g.b2, g.d + g.b6, g.d - g.b6;
    var e6, e1 := Shift(181 * (c1 + c7) + 128, 8), Shift(181 * (c1 - c7) + 128, 8);
    [Shift(e3 + c4, atten), Shift(e2 + e6, atten), Shift(e0 + e1, atten), Shift(es + c5, atten),
     Shift(es - c5, atten), Shift(e0 - e1, atten), Shift(e2 - e6, atten), Shift(e3 - c4, atten)]
  }

  /** The network behind its scalers and butterflies. */
  lemma NetworkFinish(p: Params, i: Vec, g: Stage)
    requires p.plain == AddSubParam(1, 0, 0) && p.rotate == AddSubParam(181, 128, 8) && p.last.g == 1 && p.last.os == 0
    requires g.s == Scale(p.scale1, i[0]) + Scale(p.scale2, i[4])
             && g.d == Scale(p.scale1, i[0]) - Scale(p.scale2, i[4])
    requires Fly(p.fly1, i[5], i[3]) == (g.a5, g.a3) && Fly(p.fly2, i[1], i[7]) == (g.a1, g.a7)
             && Fly(p.fly3, i[6], i[2]) == (g.b6, g.b2)
    ensures Network(p, i) == Finish(g, p.last.atten)
  {
    hide Shift, Fly, Scale;
    var s1, s2 := Scale(p.scale1, i[0]), Scale(p.scale2, i[4]);
    Plain(p.fly1, s1, s2);
    Plain(p.fly1, g.a1, g.a5);
    Plain(p.fly1, g.a7, g.a3);
    Plain(p.fly1, g.s, g.b2);
    Plain(p.fly1, g.d, g.b6);
  }

  function ColStage(i: Vec): Stage {
    var t2, t1, t3 := W7 * (i[1] + i[7]) + 4, W3 * (i[5] + i[3]) + 4, W6 * (i[2] + i[6]) + 4;
    Stage(i[0] * 256 + 8192 + i[4] * 256, i[0] * 256 + 8192 - i[4] * 256,
          Shift(t2 + (W1 - W7) * i[1], 3), Shift(t2 - (W1 + W7) * i[7], 3),
          Shift(t1 - (W3 - W5) * i[5], 3), Shift(t1 - (W3 + W5) * i[3], 3),
          Shift(t3 - (W2 + W6) * i[6], 3), Shift(t3 + (W2 - W6) * i[2], 3))
  }

  /** The butterflies of the network deliver what the first stage of the row transform computes. */
  lemma RowFlies(i: Vec)
    ensures var g := RowStage(i);
            && Fly(ROW.fly1, i[5], i[3]) == (g.a5, g.a3) && Fly(ROW.fly2, i[1], i[7]) == (g.a1, g.a7)
            && Fly(ROW.fly3, i[6], i[2]) == (g.b6, g.b2)
  {
    hide Fly;
    Plain(ROW.fly1, i[5], i[3]);
    Plain(ROW.fly2, i[1], i[7]);
    Plain(ROW.fly3, i[6], i[2]);
  }

  lemma RowIsNetwork(i: Vec)
    ensures Network(ROW, i) == Finish(RowStage(i), 8)
  {
    RowFlies(i);
    hide Shift, Fly, Network, Finish;
    NetworkFinish(ROW, i, RowStage(i));
  }

  lemma ColIsNetwork(i: Vec)
    ensures Network(COL, i) == Finish(ColStage(i), 14)
  {
    hide Shift, Network, Finish;
    NetworkFinish(COL, i, ColStage(i));
  }

  /** The coarse row actor: one row, computed in place in a buffer of temporaries. */
  method IdctRow(i: Vec) returns (o: Vec)
    ensures o == Network(ROW, i)
  {
    RowIsNetwork(i);
    hide Network, Finish;
    var x := new int[8];
    RowFirstStage(i, x);
    var tmpval := RowSecondStage(i, x);
    o := RowLastStages(RowStage(i), x, tmpval);
  }

  method RowFirstStage(i: Vec, x: array<int>)
    requires x.Length == 8
    modifies x
    ensures var g := RowStage(i);
            && x[0] + x[4] == g.s && x[0] - x[4] == g.d && x[1] == g.a1 && x[7] == g.a7 && x[5] == g.a5 && x[3] == g.a3
            && x[2] == i[2] && x[6] == i[6]
  {
    x[0] := i[0] * 2048 + 128;
    x[4] := i[4] * 2048;
    var tmpval := W7 * (i[1] + i[7]);
    x[1] := tmpval + (W1 - W7) * i[1];
    x[7] := tmpval - (W1 + W7) * i[7];
    tmpval := W3 * (i[5] + i[3]);
    x[5] := tmpval - (W3 - W5) * i[5];
    x[3] := tmpval - (W3 + W5) * i[3];
    x[2] := i[2];
    x[6] := i[6];
  }

  method RowSecondStage(i: Vec, x: array<int>) returns (tmpval: int)
    requires x.Length == 8
    requires var g := RowStage(i);
             && x[0] + x[4] == g.s && x[0] - x[4] == g.d && x[1] == g.a1 && x[7] == g.a7 && x[5] == g.a5 && x[3] == g.a3
             && x[2] == i[2] && x[6] == i[6]
    modifies x
    ensures var g := RowStage(i);
            && tmpval == g.s && x[0] == g.d && x[6] == g.b6 && x[2] == g.b2
            && x[4] == g.a1 + g.a5 && x[1] == g.a1 - g.a5 && x[5] == g.a7 + g.a3 && x[7] == g.a7 - g.a3
  {
    tmpval := x[0] + x[4];
    x[0] := x[0] - x[4];
    x[4] := W6 * (x[2] + x[6]);
    x[6] := x[4] - (W2 + W6) * x[6];
    x[2] := x[4] + (W2 - W6) * x[2];
    x[4] := x[1] + x[5];
    x[1] := x[1] - x[5];
    x[5] := x[7] + x[3];
    x[7] := x[7] - x[3];
  }

  method RowLastStages(g: Stage, x: array<int>, t: int) returns (o: Vec)
    requires x.Length == 8
    requires t == g.s && x[0] == g.d && x[6] == g.b6 && x[2] == g.b2
    requires x[4] == g.a1 + g.a5 && x[1] == g.a1 - g.a5 && x[5] == g.a7 + g.a3 && x[7] == g.a7 - g.a3
    modifies x
    ensures o == Finish(g, 8)
  {
    hide Shift;
    var tmpval := t;
    x[3] := tmpval + x[2];
    tmpval := tmpval - x[2];
    x[2] := x[0] + x[6];
    x[0] := x[0] - x[6];
    x[6] := Shift(181 * (x[1] + x[7]) + 128, 8);
    x[1] := Shift(181 * (x[1] - x[7]) + 128, 8);
    o := [Shift(x[3] + x[4], 8), Shift(x[2] + x[6], 8), Shift(x[0] + x[1], 8), Shift(tmpval + x[5], 8),
          Shift(tmpval - x[5], 8), Shift(x[0] - x[1], 8), Shift(x[2] - x[6], 8), Shift(x[3] - x[4], 8)];
  }

  /** The coarse column actor. */
  method IdctColumn(i: Vec) returns (o: Vec)
    ensures o == Network(COL, i)
  {
    ColIsNetwork(i);
    hide Network, Finish;
    var x := new int[9];
    ColFirstStage(i, x);
    ColSecondStage(i, x);
    o := ColLastStages(ColStage(i), x);
  }

  method ColFirstStage(i: Vec, x: array<int>)
    requires x.Length == 9
    modifies x
    ensures var g := ColStage(i);
            && x[0] + x[1] == g.s && x[0] - x[1] == g.d && x[2] == i[6] && x[3] == i[2]
            && x[4] == g.a1 && x[5] == g.a7 && x[6] == g.a5 && x[7] == g.a3
  {
    hide Shift;
    x[0] := i[0] * 256 + 8192;
    x[1] := i[4] * 256;
    x[2] := i[6];
    x[3] := i[2];
    x[4] := i[1];
    x[5] := i[7];
    x[6] := i[5];
    x[7] := i[3];
    var tmpval := W7 * (x[4] + x[5]) + 4;
    x[4] := Shift(tmpval + (W1 - W7) * x[4], 3);
    x[5] := Shift(tmpval - (W1 + W7) * x[5], 3);
    tmpval := W3 * (x[6] + x[7]) + 4;
    x[6] := Shift(tmpval - (W3 - W5) * x[6], 3);
    x[7] := Shift(tmpval - (W3 + W5) * x[7], 3);
  }

  method ColSecondStage(i: Vec, x: array<int>)
    requires x.Length == 9
    requires var g := ColStage(i);
             && x[0] + x[1] == g.s && x[0] - x[1] == g.d && x[2] == i[6] && x[3] == i[2]
             && x[4] == g.a1 && x[5] == g.a7 && x[6] == g.a5 && x[7] == g.a3
    modifies x
    ensures var g := ColStage(i);
            && x[8] == g.s && x[0] == g.d && x[2] == g.b6 && x[3] == g.b2
            && x[1] == g.a1 + g.a5 && x[4] == g.a1 - g.a5 && x[6] == g.a7 + g.a3 && x[5] == g.a7 - g.a3
  {
    hide Shift;
    x[8] := x[0] + x[1];
    x[0] := x[0] - x[1];
    var tmpval := W6 * (x[3] + x[2]) + 4;
    x[2] := Shift(tmpval - (W2 + W6) * x[2], 3);
    x[3] := Shift(tmpval + (W2 - W6) * x[3], 3);
    x[1] := x[4] + x[6];
    x[4] := x[4] - x[6];
    x[6] := x[5] + x[7];
    x[5] := x[5] - x[7];
  }

  method ColLastStages(g: Stage, x: array<int>) returns (o: Vec)
    requires x.Length == 9
    requires x[8] == g.s && x[0] == g.d && x[2] == g.b6 && x[3] == g.b2
    requires x[1] == g.a1 + g.a5 && x[4] == g.a1 - g.a5 && x[6] == g.a7 + g.a3 && x[5] == g.a7 - g.a3
    modifies x
    ensures o == Finish(g, 14)
  {
    hide Shift;
    x[7] := x[8] + x[3];
    x[8] := x[8] - x[3];
    x[3] := x[0] + x[2];
    x[0] := x[0] - x[2];
    x[2] := Shift(181 * (x[4] + x[5]) + 128, 8);
    x[4] := Shift(181 * (x[4] - x[5]) + 128, 8);
    o := [Shift(x[7] + x[1], 14), Shift(x[3] + x[2], 14), Shift(x[0] + x[4], 14), Shift(x[8] + x[6], 14),
          Shift(x[8] - x[6], 14), Shift(x[0] - x[4], 14), Shift(x[3] - x[2], 14), Shift(x[7] - x[1], 14)];
  }
}
