/** The transform computes on 32-bit integers: no intermediate value of either pass leaves their range for
    coefficients of magnitude at most 63, which is what the counting source emits.  The bounds are those of the
    fine-grained network, node by node from the inputs to the outputs; the terms 181 * (...) + 128 of the
    rotation are the largest. */
module IdctBounds {
  import opened Basics
  import opened Idct
  import opened IdctPipeline

  predicate In32(x: int) {
    -0x8000_0000 <= x <= 0x7FFF_FFFF
  }

  predicate Within(x: int, bound: int) {
    -bound <= x <= bound
  }

  predicate AllWithin(v: seq<int>, bound: int) {
    forall k :: 0 <= k < |v| ==> Within(v[k], bound)
  }

  predicate ScaleFits(p: ScaleParam, i: int) {
    In32(p.g * i) && In32(p.os + p.g * i)
  }

  predicate FlyFits(p: FlyParam, i1: int, i2: int) {
    var t := p.w0 * (i1 + i2) + p.os;
    && In32(i1 + i2) && In32(p.w0 * (i1 + i2)) && In32(t)
    && In32(i1 * p.w1) && In32(i2 * p.w2) && In32(t + i1 * p.w1) && In32(t + i2 * p.w2)
  }

  predicate AddSubFits(p: AddSubParam, i1: int, i2: int) {
    && In32(i1 + i2) && In32(i1 - i2) && In32(p.g * (i1 + i2)) && In32(p.g * (i1 - i2))
    && In32(p.g * (i1 + i2) + p.os) && In32(p.g * (i1 - i2) + p.os)
  }

  /** Every intermediate value of the network is a 32-bit integer. */
  predicate NetworkFits(p: Params, i: Vec) {
    var scale1, scale2 := Scale(p.scale1, i[0]), Scale(p.scale2, i[4]);
    var (fly1a, fly1b) := Fly(p.fly1, i[5], i[3]);
    var (fly2a, fly2b) := Fly(p.fly2, i[1], i[7]);
    var (fly3a, fly3b) := Fly(p.fly3, i[6], i[2]);
    var (as1a, as1b) := AddSub(p.plain, scale1, scale2);
    var (as2a, as2b) := AddSub(p.plain, fly2a, fly1a);
    var (as3a, as3b) := AddSub(p.plain, fly2b, fly1b);
    var (as4a, as4b) := AddSub(p.plain, as1a, fly3b);
    var (as5a, as5b) := AddSub(p.plain, as1b, fly3a);
    var (as6a, as6b) := AddSub(p.rotate, as2b, as3b);
    && ScaleFits(p.scale1, i[0]) && ScaleFits(p.scale2, i[4])
    && FlyFits(p.fly1, i[5], i[3]) && FlyFits(p.fly2, i[1], i[7]) && FlyFits(p.fly3, i[6], i[2])
    && AddSubFits(p.plain, scale1, scale2) && AddSubFits(p.plain, fly2a, fly1a) && AddSubFits(p.plain, fly2b, fly1b)
    && AddSubFits(p.plain, as1a, fly3b) && AddSubFits(p.plain, as1b, fly3a) && AddSubFits(p.rotate, as2b, as3b)
    && AddSubFits(p.last, as4b, as3a) && AddSubFits(p.last, as5b, as6b)
    && AddSubFits(p.last, as4a, as2a) && AddSubFits(p.last, as5a, as6a)
  }

  lemma ShiftWithin(x: int, n: nat, bound: int)
    requires n in {0, 3, 8, 14} && Within(x, bound * Pow2(n))
    ensures Within(Shift(x, n), bound)
  {
    Powers();
    hide Pow2;
    if n == 0 {
      assert x / 1 == x;
    } else if n == 3 {
      assert Within(x / 8, bound);
    } else if n == 8 {
      assert Within(x / 256, bound);
    } else {
      assert Within(x / 16384, bound);
    }
  }

  lemma Powers()
    ensures Pow2(0) == 1 && Pow2(3) == 8 && Pow2(8) == 256 && Pow2(14) == 16384
  {
    assert Pow2(1) == 2 && Pow2(2) == 4 && Pow2(4) == 16 && Pow2(5) == 32 && Pow2(6) == 64 && Pow2(7) == 128;
    assert Pow2(9) == 512 && Pow2(10) == 1024 && Pow2(11) == 2048 && Pow2(12) == 4096 && Pow2(13) == 8192;
  }

  lemma PlainWithin(i1: int, i2: int, b1: int, b2: int)
    requires Within(i1, b1) && Within(i2, b2) && b1 + b2 <= 0x7FFF_FFFF
    ensures AddSubFits(AddSubParam(1, 0, 0), i1, i2)
    ensures var (o1, o2) := AddSub(AddSubParam(1, 0, 0), i1, i2); Within(o1, b1 + b2) && Within(o2, b1 + b2)
  {
    hide Shift;
    Plain(FlyParam(0, 0, 0, 0, 0), i1, i2);
  }

  lemma RotateWithin(i1: int, i2: int, b1: int, b2: int, out: int)
    requires Within(i1, b1) && Within(i2, b2) && 181 * (b1 + b2) + 128 <= 0x7FFF_FFFF
             && 181 * (b1 + b2) + 128 <= out * 256
    ensures AddSubFits(AddSubParam(181, 128, 8), i1, i2)
    ensures var (o1, o2) := AddSub(AddSubParam(181, 128, 8), i1, i2); Within(o1, out) && Within(o2, out)
  {
    hide Shift, Pow2;
    Powers();
    ShiftWithin(181 * (i1 + i2) + 128, 8, out);
    ShiftWithin(181 * (i1 - i2) + 128, 8, out);
  }

  lemma LastWithin(i1: int, i2: int, atten: nat, b: int, out: int)
    requires atten in {8, 14} && Within(i1 + i2, b) && Within(i1 - i2, b) && b <= 0x7FFF_FFFF && b <= out * Pow2(atten)
    ensures AddSubFits(AddSubParam(1, 0, atten), i1, i2)
    ensures var (o1, o2) := AddSub(AddSubParam(1, 0, atten), i1, i2); Within(o1, out) && Within(o2, out)
  {
    hide Shift, Pow2;
    ShiftWithin(i1 + i2, atten, out);
    ShiftWithin(i1 - i2, atten, out);
  }

  /** Bounds on what the scalers and butterflies deliver. */
  datatype Bounds = Bounds(scale: int, fly1: int, fly2: int, fly3: int, rotated: int, out: int)

  const ROW_BOUNDS := Bounds(129152, 253071, 214578, 238392, 661286, 4524)
  const COL_BOUNDS := Bounds(1166336, 2271614, 1926094, 2139853, 5935822, 640)

  predicate FrontWithin(p: Params, i: Vec, b: Bounds) {
    var (fly1a, fly1b) := Fly(p.fly1, i[5], i[3]);
    var (fly2a, fly2b) := Fly(p.fly2, i[1], i[7]);
    var (fly3a, fly3b) := Fly(p.fly3, i[6], i[2]);
    && ScaleFits(p.scale1, i[0]) && ScaleFits(p.scale2, i[4])
    && FlyFits(p.fly1, i[5], i[3]) && FlyFits(p.fly2, i[1], i[7]) && FlyFits(p.fly3, i[6], i[2])
    && Within(Scale(p.scale1, i[0]), b.scale) && Within(Scale(p.scale2, i[4]), b.scale)
    && Within(fly1a, b.fly1) && Within(fly1b, b.fly1) && Within(fly2a, b.fly2) && Within(fly2b, b.fly2)
    && Within(fly3a, b.fly3) && Within(fly3b, b.fly3)
  }

  /** What the bounds must satisfy for the rest of the network; the rotation is the tightest place. */
  predicate Enough(b: Bounds, atten: nat) {
    && 0 <= b.scale && 0 <= b.fly1 && 0 <= b.fly2 && 0 <= b.fly3 && 0 <= b.rotated
    && 362 * (b.fly1 + b.fly2) + 128 <= 0x7FFF_FFFF && 362 * (b.fly1 + b.fly2) + 128 <= b.rotated * 256
    && 2 * b.scale + b.fly3 + b.fly1 + b.fly2 <= 0x7FFF_FFFF && 2 * b.scale + b.fly3 + b.rotated <= 0x7FFF_FFFF
    && 2 * b.scale + b.fly3 + b.fly1 + b.fly2 <= b.out * Pow2(atten)
    && 2 * b.scale + b.fly3 + b.rotated <= b.out * Pow2(atten)
  }

  lemma RestFits(p: Params, i: Vec, b: Bounds)
    requires p.plain == AddSubParam(1, 0, 0) && p.rotate == AddSubParam(181, 128, 8)
    requires p.last.g == 1 && p.last.os == 0 && p.last.atten in {8, 14}
    requires FrontWithin(p, i, b) && Enough(b, p.last.atten)
    ensures NetworkFits(p, i) && AllWithin(Network(p, i), b.out)
  {
    hide Scale, Fly, AddSub, AddSubFits, FlyFits, ScaleFits, Pow2, Shift;
    var scale1, scale2 := Scale(p.scale1, i[0]), Scale(p.scale2, i[4]);
    var (fly1a, fly1b) := Fly(p.fly1, i[5], i[3]);
    var (fly2a, fly2b) := Fly(p.fly2, i[1], i[7]);
    var (fly3a, fly3b) := Fly(p.fly3, i[6], i[2]);
    PlainWithin(scale1, scale2, b.scale, b.scale);
    PlainWithin(fly2a, fly1a, b.fly2, b.fly1);
    PlainWithin(fly2b, fly1b, b.fly2, b.fly1);
    var (as1a, as1b) := AddSub(p.plain, scale1, scale2);
    var (as2a, as2b) := AddSub(p.plain, fly2a, fly1a);
    var (as3a, as3b) := AddSub(p.plain, fly2b, fly1b);
    PlainWithin(as1a, fly3b, 2 * b.scale, b.fly3);
    PlainWithin(as1b, fly3a, 2 * b.scale, b.fly3);
    RotateWithin(as2b, as3b, b.fly2 + b.fly1, b.fly2 + b.fly1, b.rotated);
    var (as4a, as4b) := AddSub(p.plain, as1a, fly3b);
    var (as5a, as5b) := AddSub(p.plain, as1b, fly3a);
    var (as6a, as6b) := AddSub(p.rotate, as2b, as3b);
    var plainSum, rotatedSum := 2 * b.scale + b.fly3 + b.fly1 + b.fly2, 2 * b.scale + b.fly3 + b.rotated;
    LastWithin(as4b, as3a, p.last.atten, plainSum, b.out);
    LastWithin(as5b, as6b, p.last.atten, rotatedSum, b.out);
    LastWithin(as4a, as2a, p.last.atten, plainSum, b.out);
    LastWithin(as5a, as6a, p.last.atten, rotatedSum, b.out);
  }

  lemma RowFlyWithin(p: FlyParam, i1: int, i2: int)
    requires p in {ROW.fly1, ROW.fly2, ROW.fly3} && Within(i1, 63) && Within(i2, 63)
    ensures FlyFits(p, i1, i2)
    ensures var b := if p == ROW.fly1 then 253071 else if p == ROW.fly2 then 214578 else 238392;
            var (o1, o2) := Fly(p, i1, i2); Within(o1, b) && Within(o2, b)
  {
    hide Shift;
    Plain(p, i1, i2);
  }

  lemma ColFlyWithin(p: FlyParam, i1: int, i2: int)
    requires p in {COL.fly1, COL.fly2, COL.fly3} && Within(i1, 4524) && Within(i2, 4524)
    ensures FlyFits(p, i1, i2)
    ensures var b := if p == COL.fly1 then 2271614 else if p == COL.fly2 then 1926094 else 2139853;
            var (o1, o2) := Fly(p, i1, i2); Within(o1, b) && Within(o2, b)
  {
    hide Shift, Pow2;
    Powers();
    var b := if p == COL.fly1 then 2271614 else if p == COL.fly2 then 1926094 else 2139853;
    var t := p.w0 * (i1 + i2) + p.os;
    ShiftWithin(t + i1 * p.w1, 3, b);
    ShiftWithin(t + i2 * p.w2, 3, b);
  }

  /** The row pass. */
  lemma RowFits(i: Vec)
    requires AllWithin(i, 63)
    ensures NetworkFits(ROW, i) && AllWithin(Network(ROW, i), 4524)
  {
    RowFlyWithin(ROW.fly1, i[5], i[3]);
    RowFlyWithin(ROW.fly2, i[1], i[7]);
    RowFlyWithin(ROW.fly3, i[6], i[2]);
    Powers();
    hide Fly, FlyFits, Network, NetworkFits, Pow2;
    RestFits(ROW, i, ROW_BOUNDS);
  }

  /** The column pass. */
  lemma ColFits(i: Vec)
    requires AllWithin(i, 4524)
    ensures NetworkFits(COL, i)
  {
    ColFlyWithin(COL.fly1, i[5], i[3]);
    ColFlyWithin(COL.fly2, i[1], i[7]);
    ColFlyWithin(COL.fly3, i[6], i[2]);
    Powers();
    hide Fly, FlyFits, Network, NetworkFits, Pow2;
    RestFits(COL, i, COL_BOUNDS);
  }

  // ---- the values of the loops ------------------------------------------------------------------------------

  /** The values of a butterfly as the loops compute it, with its products in their own signs. */
  predicate ButterflyFits(w: int, rounding: int, i1: int, i2: int, product1: int, product2: int, out1: int, out2: int) {
    && In32(i1 + i2) && In32(w * (i1 + i2)) && In32(w * (i1 + i2) + rounding)
    && In32(product1) && In32(product2) && In32(out1) && In32(out2)
  }

  /** The first stage of the loops, and the second one as far as it multiplies, before the shifts. */
  predicate FrontFits(i: Vec, gain: int, offset: int, rounding: int) {
    var t2, t1 := W7 * (i[1] + i[7]) + rounding, W3 * (i[5] + i[3]) + rounding;
    var t3 := W6 * (i[2] + i[6]) + rounding;
    && In32(i[0] * gain) && In32(i[0] * gain + offset) && In32(i[4] * gain)
    && ButterflyFits(W7, rounding, i[1], i[7], (W1 - W7) * i[1], (W1 + W7) * i[7],
                     t2 + (W1 - W7) * i[1], t2 - (W1 + W7) * i[7])
    && ButterflyFits(W3, rounding, i[5], i[3], (W3 - W5) * i[5], (W3 + W5) * i[3],
                     t1 - (W3 - W5) * i[5], t1 - (W3 + W5) * i[3])
    && ButterflyFits(W6, rounding, i[2], i[6], (W2 + W6) * i[6], (W2 - W6) * i[2],
                     t3 - (W2 + W6) * i[6], t3 + (W2 - W6) * i[2])
  }

  /** The rest of the loops, up to the last shifts. */
  predicate BackFits(g: Stage) {
    var c4, c1, c5, c7 := g.a1 + g.a5, g.a1 - g.a5, g.a7 + g.a3, g.a7 - g.a3;
    var e3, es, e2, e0 := g.s + g.b2, g.s - g.b2, g.d + g.b6, g.d - g.b6;
    var e6, e1 := Shift(181 * (c1 + c7) + 128, 8), Shift(181 * (c1 - c7) + 128, 8);
    && In32(g.s) && In32(g.d) && In32(c4) && In32(c1) && In32(c5) && In32(c7)
    && In32(e3) && In32(es) && In32(e2) && In32(e0)
    && In32(c1 + c7) && In32(181 * (c1 + c7)) && In32(181 * (c1 + c7) + 128)
    && In32(c1 - c7) && In32(181 * (c1 - c7)) && In32(181 * (c1 - c7) + 128)
    && In32(e3 + c4) && In32(e2 + e6) && In32(e0 + e1) && In32(es + c5)
    && In32(es - c5) && In32(e0 - e1) && In32(e2 - e6) && In32(e3 - c4)
  }

  lemma RowFrontFits(i: Vec)
    requires AllWithin(i, 63)
    ensures FrontFits(i, 2048, 128, 0)
  {
    assert forall k :: 0 <= k < 8 ==> Within(i[k], 63);
  }

  lemma ColFrontFits(i: Vec)
    requires AllWithin(i, 4524)
    ensures FrontFits(i, 256, 8192, 4)
  {
    assert forall k :: 0 <= k < 8 ==> Within(i[k], 4524);
  }

  /** From the second stage on the values of the loops are those of the nodes of the network. */
  lemma BackIsNetwork(p: Params, i: Vec, g: Stage)
    requires p.plain == AddSubParam(1, 0, 0) && p.rotate == AddSubParam(181, 128, 8) && p.last.g == 1 && p.last.os == 0
    requires g.s == Scale(p.scale1, i[0]) + Scale(p.scale2, i[4])
             && g.d == Scale(p.scale1, i[0]) - Scale(p.scale2, i[4])
    requires Fly(p.fly1, i[5], i[3]) == (g.a5, g.a3) && Fly(p.fly2, i[1], i[7]) == (g.a1, g.a7)
             && Fly(p.fly3, i[6], i[2]) == (g.b6, g.b2)
    requires NetworkFits(p, i)
    ensures BackFits(g)
  {
    hide Shift, Fly, Scale, FlyFits, ScaleFits;
    var s1, s2 := Scale(p.scale1, i[0]), Scale(p.scale2, i[4]);
    Plain(p.fly1, s1, s2);
    Plain(p.fly1, g.a1, g.a5);
    Plain(p.fly1, g.a7, g.a3);
    Plain(p.fly1, g.s, g.b2);
    Plain(p.fly1, g.d, g.b6);
  }

  lemma RowBackFits(i: Vec)
    requires AllWithin(i, 63)
    ensures BackFits(RowStage(i))
  {
    RowFits(i);
    RowFlies(i);
    hide Shift, Fly, NetworkFits, BackFits, AllWithin, Network;
    BackIsNetwork(ROW, i, RowStage(i));
  }

  lemma ColBackFits(i: Vec)
    requires AllWithin(i, 4524)
    ensures BackFits(ColStage(i))
  {
    ColFits(i);
    hide Shift, NetworkFits, BackFits;
    BackIsNetwork(COL, i, ColStage(i));
  }

  predicate RowLoopFits(i: Vec) {
    FrontFits(i, 2048, 128, 0) && BackFits(RowStage(i))
  }

  predicate ColLoopFits(i: Vec) {
    FrontFits(i, 256, 8192, 4) && BackFits(ColStage(i))
  }

  /** No overflow: for every block of coefficients of magnitude at most 63, every intermediate value of
      every row and of every column transform fits in 32 bits, in the loops as well as in the network. */
  lemma NoOverflow(b: Block)
    requires AllWithin(b, 63)
    ensures forall row :: 0 <= row < 8 ==> NetworkFits(ROW, RowOf(b, row)) && RowLoopFits(RowOf(b, row))
    ensures forall col :: 0 <= col < 8 ==>
              NetworkFits(COL, ColumnOf(RowPass(b), col)) && ColLoopFits(ColumnOf(RowPass(b), col))
  {
    hide NetworkFits, Network, FrontFits, BackFits;
    forall row | 0 <= row < 8
      ensures NetworkFits(ROW, RowOf(b, row)) && RowLoopFits(RowOf(b, row))
      ensures AllWithin(Network(ROW, RowOf(b, row)), 4524)
    {
      RowFits(RowOf(b, row));
      RowFrontFits(RowOf(b, row));
      RowBackFits(RowOf(b, row));
    }
    forall col | 0 <= col < 8
      ensures NetworkFits(COL, ColumnOf(RowPass(b), col)) && ColLoopFits(ColumnOf(RowPass(b), col))
    {
      forall k | 0 <= k < 8 ensures Within(ColumnOf(RowPass(b), col)[k], 4524) {
        RowPassAt(b, k, col);
      }
      ColFits(ColumnOf(RowPass(b), col));
      ColFrontFits(ColumnOf(RowPass(b), col));
      ColBackFits(ColumnOf(RowPass(b), col));
    }
  }
}
