/** How exactly the integer transform of eight coefficients computes the cosine sums.  The reference is the inverse
    discrete cosine transform itself, over reals that the half-angle formulas fix; no rounded constant and no wiring
    of the code occurs in it.  The transform falls into an even and an odd half: each is first related, in integers,
    to its sum of rounded constants, and that sum, in reals, to the cosines.  Roundings of the shifts and of the
    constants are bounded separately and add up. */
module IdctAccuracy {
  import opened Basics
  import opened Idct

  /** The square root r of 2, and its product with the cosine of k * pi / 16 for k = 1 .. 7; for k = 4 that is 1. */
  datatype Cosines = Cosines(r: real, d1: real, d2: real, d3: real, d5: real, d6: real, d7: real)

  /** The half-angle formulas, which determine these positive numbers. */
  predicate Exact(c: Cosines) {
    && 0.0 < c.r && 0.0 < c.d1 && 0.0 < c.d2 && 0.0 < c.d3 && 0.0 < c.d5 && 0.0 < c.d6 && 0.0 < c.d7
    && c.r * c.r == 2.0
    && c.d2 * c.d2 == 1.0 + c.r / 2.0 && c.d6 * c.d6 == 1.0 - c.r / 2.0
    && c.d1 * c.d1 == 1.0 + c.d2 * c.r / 2.0 && c.d7 * c.d7 == 1.0 - c.d2 * c.r / 2.0
    && c.d3 * c.d3 == 1.0 + c.d6 * c.r / 2.0 && c.d5 * c.d5 == 1.0 - c.d6 * c.r / 2.0
  }

  function Octant(c: Cosines, k: nat): real
    requires k <= 8
  {
    if k == 0 then c.r else if k == 1 then c.d1 else if k == 2 then c.d2 else if k == 3 then c.d3
    else if k == 4 then 1.0 else if k == 5 then c.d5 else if k == 6 then c.d6 else if k == 7 then c.d7 else 0.0
  }

  type Reals = x: seq<real> | |x| == 8 witness [0.0, 0.0, 0.0, 0.0, 0.0, 0.0, 0.0, 0.0]

  function ToReals(i: Vec): Reals {
    [i[0] as real, i[1] as real, i[2] as real, i[3] as real, i[4] as real, i[5] as real, i[6] as real, i[7] as real]
  }

  /** The coefficient x times the root of 2 times the cosine of j * pi / 16, for any j. */
  function Wave(c: Cosines, j: nat, x: real): real {
    var m := j % 32;
    var k := if m > 16 then 32 - m else m;
    if k > 8 then 0.0 - Times(Octant(c, 16 - k), x) else Times(Octant(c, k), x)
  }

  function Times(a: real, x: real): real {
    a * x
  }

  /** Sample n of the inverse cosine transform of eight coefficients, up to scale. */
  function Ideal(c: Cosines, i: Reals, n: nat): real {
    var m := 2 * n + 1;
    i[0] + Wave(c, m, i[1]) + Wave(c, 2 * m, i[2]) + Wave(c, 3 * m, i[3]) + Wave(c, 4 * m, i[4])
    + Wave(c, 5 * m, i[5]) + Wave(c, 6 * m, i[6]) + Wave(c, 7 * m, i[7])
  }

  predicate Within(x: real, y: real, e: real) {
    y - e <= x <= y + e
  }

  // ---- the constants --------------------------------------------------------------------------------------------

  lemma Root(x: real, lo: real, hi: real)
    requires 0.0 <= lo && 0.0 <= hi && 0.0 <= x && lo * lo <= x * x <= hi * hi
    ensures lo <= x <= hi
  {
    if x < lo {
      Squares(x, lo);
    }
    if hi < x {
      Squares(hi, x);
    }
  }

  lemma Squares(x: real, y: real)
    requires 0.0 <= x < y
    ensures x * x < y * y
  {
    var d := y - x;
    assert y * y == x * x + d * (x + y);
    assert 0.0 < d * (x + y);
  }

  lemma Product(x: real, y: real, a: real, b: real, e: real, f: real)
    requires 0.0 <= a <= x <= b && 0.0 <= e <= y <= f
    ensures a * e <= x * y <= b * f
  {
    assert 0.0 <= (x - a) * y && 0.0 <= a * (y - e);
    assert 0.0 <= (b - x) * y && 0.0 <= b * (f - y);
  }

  /** Where the cosines lie. */
  predicate Near(c: Cosines) {
    && Within(2048.0 * c.d1, 2840.6576, 0.01) && Within(2048.0 * c.d2, 2675.8410, 0.01)
    && Within(2048.0 * c.d3, 2408.1932, 0.01) && Within(2048.0 * c.d5, 1609.1033, 0.01)
    && Within(2048.0 * c.d6, 1108.3696, 0.01) && Within(2048.0 * c.d7, 565.0419, 0.01)
    && Within(c.r, 1.4142, 0.0001)
  }

  lemma Located(c: Cosines)
    requires Exact(c)
    ensures Near(c)
  {
    Root(c.r, 1.414213, 1.414214);
    Root(c.d2, 1.306562, 1.306564);
    Root(c.d6, 0.541195, 0.541197);
    Product(c.d2, c.r, 1.306562, 1.306564, 1.414213, 1.414214);
    Product(c.d6, c.r, 0.541195, 0.541197, 1.414213, 1.414214);
    Root(c.d1, 1.387038, 1.387042);
    Root(c.d7, 0.275897, 0.275902);
    Root(c.d3, 1.175873, 1.175878);
    Root(c.d5, 0.785692, 0.785698);
  }

  /** Each constant of the code is the integer nearest to its cosine, and the butterflies of the network are built
      from the same constants. */
  lemma Constants(c: Cosines)
    requires Exact(c)
    ensures Within(W1 as real, 2048.0 * c.d1, 0.5) && Within(W2 as real, 2048.0 * c.d2, 0.5)
    ensures Within(W3 as real, 2048.0 * c.d3, 0.5) && Within(W5 as real, 2048.0 * c.d5, 0.5)
    ensures Within(W6 as real, 2048.0 * c.d6, 0.5) && Within(W7 as real, 2048.0 * c.d7, 0.5)
  {
    Located(c);
  }

  // ---- even and odd halves -------------------------------------------------------------------------------------

  /** The part of samples j and 7 - j that they have in common, and the part in which they are opposite. */
  function Even(c: Cosines, i: Reals, j: nat): real
    requires j < 4
  {
    var i0, i4 := i[0], i[4];
    if j == 0 then i0 + i4 + (Times(c.d2, i[2]) + Times(c.d6, i[6]))
    else if j == 1 then i0 - i4 + (Times(c.d6, i[2]) - Times(c.d2, i[6]))
    else if j == 2 then i0 - i4 - (Times(c.d6, i[2]) - Times(c.d2, i[6]))
    else i0 + i4 - (Times(c.d2, i[2]) + Times(c.d6, i[6]))
  }

  function Odd(c: Cosines, i: Reals, j: nat): real
    requires j < 4
  {
    if j == 0 then Times(c.d1, i[1]) + Times(c.d3, i[3]) + Times(c.d5, i[5]) + Times(c.d7, i[7])
    else if j == 1 then Times(c.d3, i[1]) - Times(c.d7, i[3]) - Times(c.d1, i[5]) - Times(c.d5, i[7])
    else if j == 2 then Times(c.d5, i[1]) - Times(c.d1, i[3]) + Times(c.d7, i[5]) + Times(c.d3, i[7])
    else Times(c.d7, i[1]) - Times(c.d5, i[3]) + Times(c.d3, i[5]) - Times(c.d1, i[7])
  }

  predicate Is(c: Cosines, j: nat, k: int, x: real)
    requires -8 <= k <= 8
  {
    Wave(c, j, x) == if k < 0 then 0.0 - Times(Octant(c, -k), x) else Times(Octant(c, k), x)
  }

  /** The angles that occur, one line for each sample. */
  lemma Angles(c: Cosines, x: real)
    ensures Is(c, 1, 1, x) && Is(c, 2, 2, x) && Is(c, 3, 3, x) && Is(c, 4, 4, x) && Is(c, 5, 5, x)
            && Is(c, 6, 6, x) && Is(c, 7, 7, x)
    ensures Is(c, 3, 3, x) && Is(c, 6, 6, x) && Is(c, 9, -7, x) && Is(c, 12, -4, x) && Is(c, 15, -1, x)
            && Is(c, 18, -2, x) && Is(c, 21, -5, x)
    ensures Is(c, 5, 5, x) && Is(c, 10, -6, x) && Is(c, 15, -1, x) && Is(c, 20, -4, x) && Is(c, 25, 7, x)
            && Is(c, 30, 2, x) && Is(c, 35, 3, x)
    ensures Is(c, 7, 7, x) && Is(c, 14, -2, x) && Is(c, 21, -5, x) && Is(c, 28, 4, x) && Is(c, 35, 3, x)
            && Is(c, 42, -6, x) && Is(c, 49, -1, x)
    ensures Is(c, 9, -7, x) && Is(c, 18, -2, x) && Is(c, 27, 5, x) && Is(c, 36, 4, x) && Is(c, 45, -3, x)
            && Is(c, 54, -6, x) && Is(c, 63, 1, x)
    ensures Is(c, 11, -5, x) && Is(c, 22, -6, x) && Is(c, 33, 1, x) && Is(c, 44, -4, x) && Is(c, 55, -7, x)
            && Is(c, 66, 2, x) && Is(c, 77, -3, x)
    ensures Is(c, 13, -3, x) && Is(c, 26, 6, x) && Is(c, 39, 7, x) && Is(c, 52, -4, x) && Is(c, 65, 1, x)
            && Is(c, 78, -2, x) && Is(c, 91, 5, x)
    ensures Is(c, 15, -1, x) && Is(c, 30, 2, x) && Is(c, 45, -3, x) && Is(c, 60, 4, x) && Is(c, 75, -5, x)
            && Is(c, 90, 6, x) && Is(c, 105, -7, x)
  {
    hide Times, Octant;
  }

  lemma Samples(c: Cosines, i: Reals)
    ensures Ideal(c, i, 0) == Even(c, i, 0) + Odd(c, i, 0) && Ideal(c, i, 7) == Even(c, i, 0) - Odd(c, i, 0)
    ensures Ideal(c, i, 1) == Even(c, i, 1) + Odd(c, i, 1) && Ideal(c, i, 6) == Even(c, i, 1) - Odd(c, i, 1)
    ensures Ideal(c, i, 2) == Even(c, i, 2) + Odd(c, i, 2) && Ideal(c, i, 5) == Even(c, i, 2) - Odd(c, i, 2)
    ensures Ideal(c, i, 3) == Even(c, i, 3) + Odd(c, i, 3) && Ideal(c, i, 4) == Even(c, i, 3) - Odd(c, i, 3)
  {
    assert Times(1.0, i[4]) == i[4];
    hide Times, Wave;
    Angles(c, i[1]);
    Angles(c, i[2]);
    Angles(c, i[3]);
    Angles(c, i[4]);
    Angles(c, i[5]);
    Angles(c, i[6]);
    Angles(c, i[7]);
  }

  lemma Halves(c: Cosines, i: Reals, j: nat)
    requires j < 4
    ensures Ideal(c, i, j) == Even(c, i, j) + Odd(c, i, j)
    ensures Ideal(c, i, 7 - j) == Even(c, i, j) - Odd(c, i, j)
  {
    hide Ideal, Even, Odd;
    Samples(c, i);
  }

  function Abs(x: int): real {
    if x < 0 then 0.0 - x as real else x as real
  }

  /** The coefficients that are multiplied by rounded constants. */
  function Weight(i: Vec): real {
    Abs(i[1]) + Abs(i[2]) + Abs(i[3]) + Abs(i[5]) + Abs(i[6]) + Abs(i[7])
  }

  /** The worst constant is 181 / 256 * (W3 + W5) in the place of 2048 * d1. */
  const SLACK: real := 0.53

  lemma Scaled(w: real, x: real, e: real, y: real)
    requires Within(w, x, e) && 0.0 <= y
    ensures Within(w * y, x * y, e * y)
  {
    Nonnegative(w - x + e, y);
    Nonnegative(x - w + e, y);
    assert (w - x + e) * y == w * y - x * y + e * y;
    assert (x - w + e) * y == x * y - w * y + e * y;
  }

  lemma Nonnegative(x: real, y: real)
    requires 0.0 <= x && 0.0 <= y
    ensures 0.0 <= x * y
  {
  }

  lemma Term(w: real, x: real, i: int)
    requires Within(w, 2048.0 * x, SLACK)
    ensures Within(w * i as real, 2048.0 * Times(x, i as real), SLACK * Abs(i))
  {
    var y := Abs(i);
    var wy, xy := w * y, x * y;
    Scaled(w, 2048.0 * x, SLACK, y);
    Flip(w, y);
    Flip(x, y);
    assert 2048.0 * x * y == 2048.0 * xy;
    assert y == i as real || i as real == 0.0 - y;
    assert Times(x, i as real) == xy || Times(x, i as real) == 0.0 - xy;
  }

  lemma Flip(w: real, y: real)
    ensures w * (0.0 - y) == 0.0 - w * y
  {
  }

  // ---- the stages -------------------------------------------------------------------------------------------------

  predicate Close(x: int, y: int, e: int) {
    y - e <= x <= y + e
  }

  /** The first stage at 1 / m of the full scale: sums of rounded constants times coefficients, each rounded by at most
      e / m, with `base` added for the rounding of the result. */
  predicate Staged(g: Stage, i: Vec, m: int, e: int, base: int) {
    && m * g.s == 2048 * (i[0] + i[4]) + base && m * g.d == 2048 * (i[0] - i[4]) + base
    && Close(m * g.a1, W1 * i[1] + W7 * i[7], e) && Close(m * g.a7, W7 * i[1] - W1 * i[7], e)
    && Close(m * g.a5, W5 * i[5] + W3 * i[3], e) && Close(m * g.a3, W3 * i[5] - W5 * i[3], e)
    && Close(m * g.b2, W2 * i[2] + W6 * i[6], e) && Close(m * g.b6, W6 * i[2] - W2 * i[6], e)
  }

  lemma ShiftBetween(x: int, n: nat)
    ensures Pow2(n) * Shift(x, n) <= x < Pow2(n) * Shift(x, n) + Pow2(n)
  {
  }

  lemma RowStaged(i: Vec)
    ensures Staged(RowStage(i), i, 1, 0, 128)
  {
  }

  lemma Eighth(t: int, y: int)
    requires t == y + 4
    ensures Close(8 * Shift(t, 3), y, 4)
  {
    ShiftBetween(t, 3);
    assert Pow2(3) == 8;
  }

  lemma ColumnStaged(i: Vec)
    ensures Staged(ColStage(i), i, 8, 4, 65536)
  {
    hide Shift;
    var t2, t1, t3 := W7 * (i[1] + i[7]) + 4, W3 * (i[5] + i[3]) + 4, W6 * (i[2] + i[6]) + 4;
    Eighth(t2 + (W1 - W7) * i[1], W1 * i[1] + W7 * i[7]);
    Eighth(t2 - (W1 + W7) * i[7], W7 * i[1] - W1 * i[7]);
    Eighth(t1 - (W3 - W5) * i[5], W5 * i[5] + W3 * i[3]);
    Eighth(t1 - (W3 + W5) * i[3], W3 * i[5] - W5 * i[3]);
    Eighth(t3 - (W2 + W6) * i[6], W6 * i[2] - W2 * i[6]);
    Eighth(t3 + (W2 - W6) * i[2], W2 * i[2] + W6 * i[6]);
  }

  function EvenPart(g: Stage, j: nat): int
    requires j < 4
  {
    if j == 0 then g.s + g.b2 else if j == 1 then g.d + g.b6 else if j == 2 then g.d - g.b6 else g.s - g.b2
  }

  function Rotated(x: int): int {
    Shift(181 * x + 128, 8)
  }

  function OddPart(g: Stage, j: nat): int
    requires j < 4
  {
    if j == 0 then g.a1 + g.a5
    else if j == 1 then Rotated((g.a1 - g.a5) + (g.a7 - g.a3))
    else if j == 2 then Rotated((g.a1 - g.a5) - (g.a7 - g.a3))
    else g.a7 + g.a3
  }

  lemma FinishParts(g: Stage, atten: nat, j: nat)
    requires j < 4
    ensures Finish(g, atten)[j] == Shift(EvenPart(g, j) + OddPart(g, j), atten)
    ensures Finish(g, atten)[7 - j] == Shift(EvenPart(g, j) - OddPart(g, j), atten)
  {
    hide Shift;
  }

  /** The even part in full scale, with the rounded constants. */
  function EvenForm(i: Vec, j: nat): int
    requires j < 4
  {
    if j == 0 then 2048 * (i[0] + i[4]) + (W2 * i[2] + W6 * i[6])
    else if j == 1 then 2048 * (i[0] - i[4]) + (W6 * i[2] - W2 * i[6])
    else if j == 2 then 2048 * (i[0] - i[4]) - (W6 * i[2] - W2 * i[6])
    else 2048 * (i[0] + i[4]) - (W2 * i[2] + W6 * i[6])
  }

  lemma EvenScaled(g: Stage, i: Vec, m: int, e: int, base: int, j: nat)
    requires Staged(g, i, m, e, base) && j < 4
    ensures Close(m * EvenPart(g, j) - base, EvenForm(i, j), e)
  {
    Spread(m, g.s, g.b2, g.d, g.b6);
  }

  lemma EvenCosines(c: Cosines, i: Vec, j: nat)
    requires Near(c) && j < 4
    ensures Within(EvenForm(i, j) as real, 2048.0 * Even(c, ToReals(i), j), SLACK * (Abs(i[2]) + Abs(i[6])))
  {
    hide Times, Abs;
    Term(W2 as real, c.d2, i[2]);
    Term(W6 as real, c.d6, i[6]);
    Term(W6 as real, c.d6, i[2]);
    Term(W2 as real, c.d2, i[6]);
  }

  /** The odd part in full scale; the middle ones before their multiplication by 181 / 256. */
  function OddForm(i: Vec, j: nat): int
    requires j < 4
  {
    var (a1, a7) := (W1 * i[1] + W7 * i[7], W7 * i[1] - W1 * i[7]);
    var (a5, a3) := (W5 * i[5] + W3 * i[3], W3 * i[5] - W5 * i[3]);
    if j == 0 then a1 + a5 else if j == 1 then (a1 - a5) + (a7 - a3)
    else if j == 2 then (a1 - a5) - (a7 - a3) else a7 + a3
  }

  /** 256 times the odd part. */
  lemma OddScaled(g: Stage, i: Vec, m: int, e: int, base: int, j: nat)
    requires Staged(g, i, m, e, base) && j < 4 && 0 < m && 0 <= e
    ensures Close(256 * (m * OddPart(g, j)), (if j == 0 || j == 3 then 256 else 181) * OddForm(i, j), 768 * e + 128 * m)
  {
    var x := if j == 1 then (g.a1 - g.a5) + (g.a7 - g.a3) else (g.a1 - g.a5) - (g.a7 - g.a3);
    Spread(m, g.a1, g.a5, g.a7, g.a3);
    if j == 1 || j == 2 {
      assert Close(m * x, OddForm(i, j), 4 * e);
      RotatedScaled(m, x);
    }
  }

  lemma Spread(m: int, a1: int, a5: int, a7: int, a3: int)
    ensures m * (a1 + a5) == m * a1 + m * a5 && m * (a7 + a3) == m * a7 + m * a3
    ensures m * (a1 - a5) == m * a1 - m * a5 && m * (a7 - a3) == m * a7 - m * a3
    ensures m * ((a1 - a5) + (a7 - a3)) == (m * a1 - m * a5) + (m * a7 - m * a3)
    ensures m * ((a1 - a5) - (a7 - a3)) == (m * a1 - m * a5) - (m * a7 - m * a3)
  {
  }

  lemma RotatedScaled(m: int, x: int)
    requires 0 < m
    ensures Close(256 * (m * Rotated(x)), 181 * (m * x), 128 * m)
  {
    ShiftBetween(181 * x + 128, 8);
    assert Pow2(8) == 256;
    var d := 256 * Rotated(x) - 181 * x;
    assert -128 <= d <= 128;
    assert 256 * (m * Rotated(x)) - 181 * (m * x) == m * d;
    assert m * -128 <= m * d <= m * 128;
  }

  function Gain(j: nat): real {
    if j == 0 || j == 3 then 1.0 else 181.0 / 256.0
  }

  /** 181 / 256 times W1 + W7, W1 - W7, W3 + W5 and W3 - W5. */
  const SUM17 := 2408.1484375
  const DIFF17 := 1609.203125
  const SUM35 := 2840.14453125
  const DIFF35 := 564.91796875

  /** The odd part as a sum over the coefficients. */
  lemma OddSum(i: Vec, j: nat)
    requires j < 4
    ensures var (x1, x3, x5, x7) := (i[1] as real, i[3] as real, i[5] as real, i[7] as real);
            Gain(j) * OddForm(i, j) as real ==
            if j == 0 then W1 as real * x1 + W3 as real * x3 + W5 as real * x5 + W7 as real * x7
            else if j == 1 then SUM17 * x1 - DIFF35 * x3 - SUM35 * x5 - DIFF17 * x7
            else if j == 2 then DIFF17 * x1 - SUM35 * x3 + DIFF35 * x5 + SUM17 * x7
            else W7 as real * x1 - W5 as real * x3 + W3 as real * x5 - W1 as real * x7
  {
  }

  lemma OddCosines(c: Cosines, i: Vec, j: nat)
    requires Near(c) && j < 4
    ensures Within(Gain(j) * OddForm(i, j) as real, 2048.0 * Odd(c, ToReals(i), j),
                   SLACK * (Abs(i[1]) + Abs(i[3]) + Abs(i[5]) + Abs(i[7])))
  {
    OddSum(i, j);
    hide Times, Abs, OddForm, Gain;
    if j == 0 {
      Term(W1 as real, c.d1, i[1]);
      Term(W3 as real, c.d3, i[3]);
      Term(W5 as real, c.d5, i[5]);
      Term(W7 as real, c.d7, i[7]);
    } else if j == 1 {
      Term(SUM17, c.d3, i[1]);
      Term(DIFF35, c.d7, i[3]);
      Term(SUM35, c.d1, i[5]);
      Term(DIFF17, c.d5, i[7]);
    } else if j == 2 {
      Term(DIFF17, c.d5, i[1]);
      Term(SUM35, c.d1, i[3]);
      Term(DIFF35, c.d7, i[5]);
      Term(SUM17, c.d3, i[7]);
    } else {
      Term(W7 as real, c.d7, i[1]);
      Term(W5 as real, c.d5, i[3]);
      Term(W3 as real, c.d3, i[5]);
      Term(W1 as real, c.d1, i[7]);
    }
  }

  // ---- the passes -------------------------------------------------------------------------------------------------

  /** The errors of both parts and of the last shift add up. */
  lemma Combined(sy: int, scale: int, m: int, e: int, me: int, mo: int, ef: int, of: real, ev: real, od: real,
                 we: real, wo: real)
    requires Within((me - scale / 2) as real, ef as real, e as real) && scale % 2 == 0
    requires Within(mo as real, of, 3.0 * e as real + m as real / 2.0)
    requires Within(ef as real, 2048.0 * ev, we) && Within(of, 2048.0 * od, wo)
    ensures me + mo - scale <= sy <= me + mo ==>
              Within(sy as real, 2048.0 * (ev + od), scale as real / 2.0 + 4.0 * e as real + m as real / 2.0 + we + wo)
    ensures me - mo - scale <= sy <= me - mo ==>
              Within(sy as real, 2048.0 * (ev - od), scale as real / 2.0 + 4.0 * e as real + m as real / 2.0 + we + wo)
  {
    var half := scale / 2;
    assert scale as real == 2.0 * half as real;
  }

  /** Sample n of a pass, in the scale in which the constants are 2048 times the cosines. */
  lemma SampleAccurate(c: Cosines, g: Stage, i: Vec, m: int, e: int, atten: nat, n: nat)
    requires Near(c) && 0 < m && 0 <= e && n < 8
    requires Staged(g, i, m, e, m * Pow2(atten) / 2) && m * Pow2(atten) % 2 == 0
    ensures var scale := m * Pow2(atten);
            Within((scale * Finish(g, atten)[n]) as real, 2048.0 * Ideal(c, ToReals(i), n),
                   scale as real / 2.0 + 4.0 * e as real + m as real / 2.0 + SLACK * Weight(i))
  {
    hide Shift, Finish, Ideal, Even, Odd, EvenForm, OddForm, EvenPart, OddPart, Near, Abs, Staged, Pow2;
    var j := if n < 4 then n else 7 - n;
    var p := Pow2(atten);
    FinishParts(g, atten, j);
    Halves(c, ToReals(i), j);
    EvenScaled(g, i, m, e, m * p / 2, j);
    EvenCosines(c, i, j);
    OddScaled(g, i, m, e, m * p / 2, j);
    OddNear(m * OddPart(g, j), OddForm(i, j), m, e, j);
    OddCosines(c, i, j);
    var me, mo := m * EvenPart(g, j), m * OddPart(g, j);
    var x := if n < 4 then EvenPart(g, j) + OddPart(g, j) else EvenPart(g, j) - OddPart(g, j);
    ShiftBetween(x, atten);
    ScaledShift(m, p, x, Shift(x, atten));
    Spread(m, EvenPart(g, j), OddPart(g, j), 0, 0);
    assert m * x == if n < 4 then me + mo else me - mo;
    Combined(m * p * Shift(x, atten), m * p, m, e, me, mo, EvenForm(i, j), Gain(j) * OddForm(i, j) as real,
             Even(c, ToReals(i), j), Odd(c, ToReals(i), j), SLACK * (Abs(i[2]) + Abs(i[6])),
             SLACK * (Abs(i[1]) + Abs(i[3]) + Abs(i[5]) + Abs(i[7])));
  }

  lemma OddNear(mo: int, of: int, m: int, e: int, j: nat)
    requires Close(256 * mo, (if j == 0 || j == 3 then 256 else 181) * of, 768 * e + 128 * m)
    ensures Within(mo as real, Gain(j) * of as real, 3.0 * e as real + m as real / 2.0)
  {
  }

  lemma ScaledShift(m: int, p: int, x: int, y: int)
    requires 0 < m && p * y <= x < p * y + p
    ensures m * x - m * p <= m * p * y <= m * x
  {
    assert m * p * y == m * (p * y);
    assert 0 <= m * (x - p * y) <= m * p;
    assert m * (x - p * y) == m * x - m * (p * y);
  }

  /** The row transform is the inverse cosine transform times 8: every sample, for every eight integers, is within a
      rounding of the exact sum and an error that grows with the coefficients, due to the rounded constants. */
  lemma {:induction false} RowAccurate(c: Cosines, i: Vec, n: nat)
    requires Exact(c) && n < 8
    ensures Within(256.0 * Network(ROW, i)[n] as real, 2048.0 * Ideal(c, ToReals(i), n), 128.5 + SLACK * Weight(i))
  {
    hide Network, Finish, Ideal, Staged, Weight, Exact, Near, RowStage;
    Located(c);
    RowIsNetwork(i);
    RowStaged(i);
    assert Pow2(8) == 256;
    SampleAccurate(c, RowStage(i), i, 1, 0, 8, n);
  }

  /** The column transform is the inverse cosine transform divided by 64, likewise. */
  lemma {:induction false} ColumnAccurate(c: Cosines, i: Vec, n: nat)
    requires Exact(c) && n < 8
    ensures Within(131072.0 * Network(COL, i)[n] as real, 2048.0 * Ideal(c, ToReals(i), n), 65556.0 + SLACK * Weight(i))
  {
    hide Network, Finish, Ideal, Staged, Weight, Exact, Near, ColStage;
    Located(c);
    ColIsNetwork(i);
    ColumnStaged(i);
    assert Pow2(14) == 16384;
    SampleAccurate(c, ColStage(i), i, 8, 4, 14, n);
  }
}
