/** How exactly the two integer passes compute the two-dimensional transform of a block.  What the row pass gets wrong
    is spread by the column pass by no more than one and a half times the sum of the errors, because no cosine factor
    is larger; the error of the column pass itself grows with what it is given, which is bounded by the coefficients of
    the block.  Clipping to a range makes no error larger. */
module IdctBlock {
  import opened Idct
  import opened IdctAccuracy
  import opened IdctPipeline

  function Sum(x: Reals): real {
    x[0] + x[1] + x[2] + x[3] + x[4] + x[5] + x[6] + x[7]
  }

  function Sizes(i: Vec): Reals {
    [Abs(i[0]), Abs(i[1]), Abs(i[2]), Abs(i[3]), Abs(i[4]), Abs(i[5]), Abs(i[6]), Abs(i[7])]
  }

  /** Column x of the rows, each transformed exactly. */
  function RowIdeals(c: Cosines, b: Block, x: nat): Reals {
    seq(8, v requires 0 <= v < 8 => Ideal(c, ToReals(RowOf(b, v)), x))
  }

  /** The two-dimensional inverse cosine transform: eight times the sample at row y, column x. */
  function IdealBlock(c: Cosines, b: Block, y: nat, x: nat): real {
    Ideal(c, RowIdeals(c, b, x), y)
  }

  /** The sum of the magnitudes of all coefficients. */
  function Mass(b: Block): real {
    Sum(seq(8, v requires 0 <= v < 8 => Sum(Sizes(RowOf(b, v)))))
  }

  // ---- how errors spread -----------------------------------------------------------------------------------------

  lemma OctantBounds(c: Cosines, k: nat)
    requires Near(c) && k <= 8
    ensures 0.0 <= Octant(c, k) <= 1.5
  {
  }

  lemma EightTimes(a: real, u: real, w: real, x: real)
    requires x == 8.0 * w
    ensures u * a == Times(a, u) && x * a == 8.0 * Times(a, w)
  {
    var aw := a * w;
    assert 8.0 * w * a == 8.0 * aw;
  }

  lemma HalfMore(a: real, e: real)
    requires 0.0 <= a <= 1.5 && 0.0 <= e
    ensures e * a <= 1.5 * e
  {
    Nonnegative(1.5 - a, e);
    assert (1.5 - a) * e == 1.5 * e - e * a;
  }

  lemma Rename(ua: real, xa: real, ea: real, e: real, tu: real, tw: real)
    requires Within(ua, xa, ea) && ua == tu && xa == 8.0 * tw && ea <= 1.5 * e
    ensures Within(tu, 8.0 * tw, 1.5 * e)
  {
  }

  lemma TimesGap(a: real, u: real, w: real, e: real)
    requires 0.0 <= a <= 1.5 && Within(u, 8.0 * w, e) && 0.0 <= e
    ensures Within(Times(a, u), 8.0 * Times(a, w), 1.5 * e)
  {
    hide Times, Within;
    EightTimes(a, u, w, 8.0 * w);
    HalfMore(a, e);
    Scaled(u, 8.0 * w, e, a);
    Rename(u * a, 8.0 * w * a, e * a, e, Times(a, u), Times(a, w));
  }

  lemma WaveGap(c: Cosines, j: nat, u: real, w: real, e: real)
    requires Near(c) && Within(u, 8.0 * w, e) && 0.0 <= e
    ensures Within(Wave(c, j, u), 8.0 * Wave(c, j, w), 1.5 * e)
  {
    hide Octant, Near, Times;
    forall k | 0 <= k <= 8 ensures 0.0 <= Octant(c, k) <= 1.5 {
      OctantBounds(c, k);
    }
    var m := j % 32;
    var k := if m > 16 then 32 - m else m;
    TimesGap(Octant(c, if k > 8 then 16 - k else k), u, w, e);
  }

  lemma IdealGap(c: Cosines, u: Reals, w: Reals, e: Reals, n: nat)
    requires Near(c) && forall v :: 0 <= v < 8 ==> Within(u[v], 8.0 * w[v], e[v]) && 0.0 <= e[v]
    ensures Within(Ideal(c, u, n), 8.0 * Ideal(c, w, n), 1.5 * Sum(e))
  {
    hide Wave, Near;
    var m := 2 * n + 1;
    WaveGap(c, m, u[1], w[1], e[1]);
    WaveGap(c, 2 * m, u[2], w[2], e[2]);
    WaveGap(c, 3 * m, u[3], w[3], e[3]);
    WaveGap(c, 4 * m, u[4], w[4], e[4]);
    WaveGap(c, 5 * m, u[5], w[5], e[5]);
    WaveGap(c, 6 * m, u[6], w[6], e[6]);
    WaveGap(c, 7 * m, u[7], w[7], e[7]);
  }

  const ZERO: Reals := [0.0, 0.0, 0.0, 0.0, 0.0, 0.0, 0.0, 0.0]

  lemma WaveZero(c: Cosines, j: nat)
    ensures Wave(c, j, 0.0) == 0.0
  {
  }

  lemma IdealZero(c: Cosines, n: nat)
    ensures Ideal(c, ZERO, n) == 0.0
  {
    hide Wave;
    var m := 2 * n + 1;
    forall j: nat ensures Wave(c, j, 0.0) == 0.0 {
      WaveZero(c, j);
    }
  }

  /** A sample is no larger than one and a half times the magnitudes of the coefficients. */
  lemma IdealSize(c: Cosines, i: Vec, n: nat)
    requires Near(c)
    ensures Within(Ideal(c, ToReals(i), n), 0.0, 1.5 * Sum(Sizes(i)))
  {
    hide Ideal, Near;
    IdealZero(c, n);
    IdealGap(c, ToReals(i), ZERO, Sizes(i), n);
  }

  // ---- both passes ------------------------------------------------------------------------------------------------

  /** The error of the row pass in a row. */
  function RowError(i: Vec): real {
    (128.5 + SLACK * Sum(Sizes(i))) / 256.0
  }

  lemma RowNear(c: Cosines, b: Block, v: nat, x: nat)
    requires Exact(c) && v < 8 && x < 8
    ensures Within(RowPass(b)[8 * v + x] as real, 8.0 * Ideal(c, ToReals(RowOf(b, v)), x), RowError(RowOf(b, v)))
  {
    hide Network, Ideal, Exact;
    RowPassAt(b, v, x);
    RowAccurate(c, RowOf(b, v), x);
  }

  function RowErrors(b: Block): Reals {
    seq(8, v requires 0 <= v < 8 => RowError(RowOf(b, v)))
  }

  lemma ErrorSum(b: Block)
    ensures Sum(RowErrors(b)) == (1028.0 + SLACK * Mass(b)) / 256.0
    ensures forall v :: 0 <= v < 8 ==> 0.0 <= RowErrors(b)[v]
  {
    hide Sizes, RowOf;
    forall v | 0 <= v < 8 ensures 0.0 <= Sum(Sizes(RowOf(b, v))) {
      SizesPositive(RowOf(b, v));
    }
  }

  lemma SizesPositive(i: Vec)
    ensures 0.0 <= Sum(Sizes(i))
  {
  }

  /** What the column pass is given in one column. */
  lemma ColumnWeight(c: Cosines, b: Block, x: nat)
    requires Exact(c) && x < 8
    ensures var r := ColumnOf(RowPass(b), x);
            && (forall v :: 0 <= v < 8 ==> Within(ToReals(r)[v], 8.0 * RowIdeals(c, b, x)[v], RowErrors(b)[v]))
            && Weight(r) <= 12.0 * Mass(b) + Sum(RowErrors(b))
  {
    hide Ideal, Exact, Near, Network, RowPass, Sizes, RowOf, RowError;
    Located(c);
    var r := ColumnOf(RowPass(b), x);
    forall v | 0 <= v < 8
      ensures Within(r[v] as real, 8.0 * Ideal(c, ToReals(RowOf(b, v)), x), RowError(RowOf(b, v)))
      ensures Abs(r[v]) <= 12.0 * Sum(Sizes(RowOf(b, v))) + RowError(RowOf(b, v))
    {
      RowNear(c, b, v, x);
      IdealSize(c, RowOf(b, v), x);
    }
    assert forall v :: 0 <= v < 8 ==> ToReals(r)[v] == r[v] as real;
    hide ToReals;
    WeightBelow(r, b);
  }

  lemma WeightBelow(r: Vec, b: Block)
    requires forall v :: 0 <= v < 8 ==> Abs(r[v]) <= 12.0 * Sum(Sizes(RowOf(b, v))) + RowError(RowOf(b, v))
    ensures Weight(r) <= 12.0 * Mass(b) + Sum(RowErrors(b))
  {
    hide RowError, Sizes, RowOf;
    assert 0.0 <= Abs(r[0]) && 0.0 <= Abs(r[4]);
    assert Abs(r[1]) <= 12.0 * Sum(Sizes(RowOf(b, 1))) + RowError(RowOf(b, 1));
  }

  /** The sample at row y, column x before level adjustment and clipping is off by at most 0.6 and one ten-thousandth
      of the coefficients' magnitudes: by less than one if these sum up to less than 4000. */
  lemma {:induction false} BlockAccurate(c: Cosines, b: Block, y: nat, x: nat)
    requires Exact(c) && y < 8 && x < 8
    ensures Within(8.0 * ColPass(RowPass(b))[8 * y + x] as real, IdealBlock(c, b, y, x), 4.8 + Mass(b) / 1250.0)
  {
    hide Network, Ideal, Exact, Near, RowPass, Weight, Mass, RowErrors, RowIdeals, ToReals, Sum;
    var r := ColumnOf(RowPass(b), x);
    assert ColPass(RowPass(b))[8 * y + x] == Network(COL, r)[y];
    Located(c);
    ColumnAccurate(c, r, y);
    ColumnWeight(c, b, x);
    ErrorSum(b);
    IdealGap(c, ToReals(r), RowIdeals(c, b, x), RowErrors(b), y);
    MassPositive(b);
    Total(Network(COL, r)[y] as real, Ideal(c, ToReals(r), y), IdealBlock(c, b, y, x), Weight(r), Sum(RowErrors(b)),
          Mass(b));
  }

  lemma MassPositive(b: Block)
    ensures 0.0 <= Mass(b)
  {
    hide Sizes, RowOf;
    forall v | 0 <= v < 8 ensures 0.0 <= Sum(Sizes(RowOf(b, v))) {
      SizesPositive(RowOf(b, v));
    }
  }

  lemma Total(p: real, mid: real, ideal: real, weight: real, errors: real, mass: real)
    requires Within(131072.0 * p, 2048.0 * mid, 65556.0 + SLACK * weight) && Within(mid, 8.0 * ideal, 1.5 * errors)
    requires weight <= 12.0 * mass + errors && errors == (1028.0 + SLACK * mass) / 256.0 && 0.0 <= mass
    ensures Within(8.0 * p, ideal, 4.8 + mass / 1250.0)
  {
  }

  /** The number between lo and hi that is closest to x. */
  function Clip(x: real, lo: real, hi: real): real {
    if hi < x then hi else if x < lo then lo else x
  }

  /** The transform of the application: every sample of every block lies in the range and is the exact transform,
      level-adjusted and clipped, up to that error. */
  lemma {:induction false} TransformAccurate(c: Cosines, r: Range, b: Block, y: nat, x: nat)
    requires Exact(c) && y < 8 && x < 8 && r.min <= r.max
    ensures var sample := Transform(r, b)[8 * y + x];
            && r.min <= sample <= r.max
            && Within(sample as real,
                      Clip(IdealBlock(c, b, y, x) / 8.0 + r.levelAdj as real, r.min as real, r.max as real),
                      0.6 + Mass(b) / 10000.0)
  {
    hide ColPass, RowPass, IdealBlock, Mass, Exact;
    BlockAccurate(c, b, y, x);
    assert Transform(r, b)[8 * y + x] == Adjust(r, ColPass(RowPass(b))[8 * y + x]);
    hide Transform;
    MassPositive(b);
  }
}
