/** The Clarke and Park transforms and space vector modulation, over the reals. Throughout, inv is the inverse of
    the square root of 3, so that 3*inv is the square root and 1.5*inv is half of it. */
module Transforms {
  import opened Trigonometry

  datatype ThreePhase = ThreePhase(a: real, b: real, c: real)

  datatype TwoPhase = TwoPhase(alpha: real, beta: real)

  datatype RotatingFrame = RotatingFrame(d: real, q: real)

  predicate IsInverseRoot3(inv: real) {
    inv > 0.0 && 3.0 * (inv * inv) == 1.0
  }

  function ClarkeForward(x: ThreePhase, inv: real): TwoPhase {
    TwoPhase(2.0 / 3.0 * (x.a - 0.5 * (x.b + x.c)), inv * (x.b - x.c))
  }

  function ClarkeInverse(v: TwoPhase, inv: real): ThreePhase {
    ThreePhase(v.alpha, -(0.5 * v.alpha) + 1.5 * inv * v.beta, -(0.5 * v.alpha) - 1.5 * inv * v.beta)
  }

  function ParkForward(v: TwoPhase, cos: real, sin: real): RotatingFrame {
    RotatingFrame(v.alpha * cos + v.beta * sin, -(v.alpha * sin) + v.beta * cos)
  }

  function ParkInverse(v: RotatingFrame, cos: real, sin: real): TwoPhase {
    TwoPhase(v.d * cos - v.q * sin, v.d * sin + v.q * cos)
  }

  function Max(x: real, y: real): real { if x < y then y else x }

  function Min(x: real, y: real): real { if y < x then y else x }

  function Highest(x: ThreePhase): real { Max(x.a, Max(x.b, x.c)) }

  function Lowest(x: ThreePhase): real { Min(x.a, Min(x.b, x.c)) }

  function Spread(x: ThreePhase): real { Highest(x) - Lowest(x) }

  function Clamp(x: real, low: real, high: real): real {
    if x < low then low else if high < x then high else x
  }

  function Clip(duty: real, inv: real): real {
    Clamp(duty * inv + 0.5, 0.0, 1.0)
  }

  /** The phase voltages, moved together so that the highest and the lowest are opposite. */
  function Centred(v: TwoPhase, inv: real): ThreePhase {
    var x := ClarkeInverse(v, inv);
    var common := (Highest(x) + Lowest(x)) * -0.5;
    ThreePhase(x.a + common, x.b + common, x.c + common)
  }

  function ClipAll(x: ThreePhase, inv: real): ThreePhase {
    ThreePhase(Clip(x.a, inv), Clip(x.b, inv), Clip(x.c, inv))
  }

  function Unclipped(x: ThreePhase, inv: real): ThreePhase {
    ThreePhase(x.a * inv + 0.5, x.b * inv + 0.5, x.c * inv + 0.5)
  }

  /** The duty cycles. */
  function Generate(v: TwoPhase, inv: real): ThreePhase {
    ClipAll(Centred(v, inv), inv)
  }

  /** The duty cycles as they would be without the clamp. */
  function Duties(v: TwoPhase, inv: real): ThreePhase {
    Unclipped(Centred(v, inv), inv)
  }

  /** The largest line-to-line voltage. */
  function LineToLine(v: TwoPhase, inv: real): real {
    Spread(ClarkeInverse(v, inv))
  }

  function Scale(v: TwoPhase, k: real): TwoPhase { TwoPhase(k * v.alpha, k * v.beta) }

  function ScaleFrame(v: RotatingFrame, k: real): RotatingFrame { RotatingFrame(k * v.d, k * v.q) }

  // ---------------------------------------------------------------------------
  // The transforms
  // ---------------------------------------------------------------------------

  lemma Cancels(inv: real, x: real)
    requires IsInverseRoot3(inv)
    ensures inv * (3.0 * inv * x) == x && 1.5 * inv * (inv * x) == 0.5 * x
  {
    assert inv * (3.0 * inv * x) == 3.0 * (inv * inv) * x;
    assert 1.5 * inv * (inv * x) == 1.5 * (inv * inv) * x;
  }

  lemma ClarkeRoundTrip(v: TwoPhase, inv: real)
    requires IsInverseRoot3(inv)
    ensures ClarkeForward(ClarkeInverse(v, inv), inv) == v
  {
    Cancels(inv, v.beta);
    var x := ClarkeInverse(v, inv);
    assert x.b - x.c == 3.0 * inv * v.beta;
  }

  /** The other way round the mean of the phases is lost, and nothing else. */
  lemma ClarkeKeepsDifferences(x: ThreePhase, inv: real)
    requires IsInverseRoot3(inv)
    ensures var m := (x.a + x.b + x.c) / 3.0;
            ClarkeInverse(ClarkeForward(x, inv), inv) == ThreePhase(x.a - m, x.b - m, x.c - m)
  {
    Cancels(inv, x.b - x.c);
  }

  /** There and back again scales a vector by cos*cos + sin*sin. */
  lemma ParkScales(v: TwoPhase, cos: real, sin: real)
    ensures ParkInverse(ParkForward(v, cos, sin), cos, sin) == Scale(v, cos * cos + sin * sin)
  {
  }

  lemma ParkScalesBack(v: RotatingFrame, cos: real, sin: real)
    ensures ParkForward(ParkInverse(v, cos, sin), cos, sin) == ScaleFrame(v, cos * cos + sin * sin)
  {
  }

  /** The squared length changes by the same factor. */
  lemma ParkLength(v: RotatingFrame, cos: real, sin: real)
    ensures var u := ParkInverse(v, cos, sin);
            u.alpha * u.alpha + u.beta * u.beta == (cos * cos + sin * sin) * (v.d * v.d + v.q * v.q)
  {
  }

  // ---------------------------------------------------------------------------
  // The clamp
  // ---------------------------------------------------------------------------

  lemma CentredIsSymmetric(v: TwoPhase, inv: real)
    ensures var (x, h) := (Centred(v, inv), LineToLine(v, inv) / 2.0);
            && Highest(x) == h && Lowest(x) == -h
            && -h <= x.a <= h && -h <= x.b <= h && -h <= x.c <= h
  {
  }

  lemma SignOfProduct(x: real, i: real)
    requires i > 0.0
    ensures x * i >= 0.0 <==> x >= 0.0
  {
  }

  lemma EdgeProducts(x: real, inv: real)
    requires IsInverseRoot3(inv)
    ensures (x + 1.5 * inv) * inv == x * inv + 0.5 && (1.5 * inv - x) * inv == 0.5 - x * inv
  {
  }

  lemma ClampLeaves(y: real)
    ensures Clamp(y, 0.0, 1.0) == y <==> 0.0 <= y <= 1.0
  {
  }

  /** A duty cycle is left alone exactly when the voltage is within half the square root of 3. */
  lemma ClipLeaves(x: real, inv: real)
    requires IsInverseRoot3(inv)
    ensures Kept(x, inv) <==> -(1.5 * inv) <= x <= 1.5 * inv
  {
    EdgeProducts(x, inv);
    SignOfProduct(x + 1.5 * inv, inv);
    SignOfProduct(1.5 * inv - x, inv);
    ClampLeaves(x * inv + 0.5);
  }

  /** All three phases are within e exactly when the highest and the opposite lowest are. */
  lemma WithinAll(x: ThreePhase, h: real, e: real, a: bool, b: bool, c: bool)
    requires Highest(x) == h && Lowest(x) == -h
    requires (a <==> -e <= x.a <= e) && (b <==> -e <= x.b <= e) && (c <==> -e <= x.c <= e)
    ensures (a && b && c) <==> h <= e
  {
  }

  predicate Kept(x: real, inv: real) {
    Clip(x, inv) == x * inv + 0.5
  }

  lemma KeptAll(x: ThreePhase, h: real, inv: real)
    requires IsInverseRoot3(inv) && Highest(x) == h && Lowest(x) == -h
    ensures (Kept(x.a, inv) && Kept(x.b, inv) && Kept(x.c, inv)) <==> h <= 1.5 * inv
  {
    ClipLeaves(x.a, inv);
    ClipLeaves(x.b, inv);
    ClipLeaves(x.c, inv);
    WithinAll(x, h, 1.5 * inv, Kept(x.a, inv), Kept(x.b, inv), Kept(x.c, inv));
  }

  lemma KeptMeansEqual(x: ThreePhase, inv: real)
    ensures ClipAll(x, inv) == Unclipped(x, inv) <==> Kept(x.a, inv) && Kept(x.b, inv) && Kept(x.c, inv)
  {
  }

  /** The clamp alters no phase exactly when the largest line-to-line voltage is at most the square root of 3. */
  lemma UnclampedIff(v: TwoPhase, inv: real)
    requires IsInverseRoot3(inv)
    ensures Generate(v, inv) == Duties(v, inv) <==> LineToLine(v, inv) <= 3.0 * inv
  {
    CentredIsSymmetric(v, inv);
    KeptMeansEqual(Centred(v, inv), inv);
    KeptAll(Centred(v, inv), LineToLine(v, inv) / 2.0, inv);
  }

  lemma LargerSquare(x: real, y: real)
    requires x > y > 0.0
    ensures x * x > y * y
  {
    assert (x - y) * (x + y) > 0.0;
  }

  lemma SquareBound(x: real, y: real)
    requires y > 0.0 && x * x <= y * y
    ensures -y <= x <= y
  {
    if x > y {
      LargerSquare(x, y);
    } else if -x > y {
      LargerSquare(-x, y);
    }
  }

  /** The squares of a line-to-line voltage and of the component across it. */
  lemma CrossSquares(alpha: real, beta: real, inv: real)
    requires IsInverseRoot3(inv)
    ensures var (x, p) := (1.5 * alpha - 1.5 * inv * beta, 1.5 * inv * alpha + 1.5 * beta);
            x * x + p * p == 3.0 * (alpha * alpha + beta * beta)
  {
    var (a, b, c) := (alpha * alpha, beta * beta, inv * (alpha * beta));
    var (x, p) := (1.5 * alpha - 1.5 * inv * beta, 1.5 * inv * alpha + 1.5 * beta);
    assert x * x == 2.25 * a - 4.5 * c + 2.25 * (inv * inv) * b;
    assert p * p == 2.25 * (inv * inv) * a + 4.5 * c + 2.25 * b;
    assert 2.25 * (inv * inv) * a == 0.75 * a && 2.25 * (inv * inv) * b == 0.75 * b;
  }

  lemma SquareNonNegative(x: real)
    ensures x * x >= 0.0
  {
  }

  lemma LineBound(alpha: real, beta: real, inv: real)
    requires IsInverseRoot3(inv) && alpha * alpha + beta * beta <= 1.0
    ensures -(3.0 * inv) <= 1.5 * alpha - 1.5 * inv * beta <= 3.0 * inv
  {
    CrossSquares(alpha, beta, inv);
    SquareNonNegative(1.5 * inv * alpha + 1.5 * beta);
    assert (3.0 * inv) * (3.0 * inv) == 3.0;
    SquareBound(1.5 * alpha - 1.5 * inv * beta, 3.0 * inv);
  }

  lemma ComponentBound(x: real, y: real)
    requires x * x + y * y <= 1.0
    ensures -1.0 <= y <= 1.0
  {
    SquareNonNegative(x);
    SquareBound(y, 1.0);
  }

  lemma Differences(v: TwoPhase, inv: real)
    ensures var x := ClarkeInverse(v, inv);
            && x.a - x.b == 1.5 * v.alpha - 1.5 * inv * v.beta
            && x.b - x.c == 3.0 * inv * v.beta
            && x.a - x.c == 1.5 * v.alpha - 1.5 * inv * -v.beta
  {
  }

  lemma SpreadBound(x: ThreePhase, w: real)
    requires -w <= x.a - x.b <= w && -w <= x.b - x.c <= w && -w <= x.a - x.c <= w
    ensures Spread(x) <= w
  {
  }

  lemma Shrinks(w: real, y: real)
    requires w > 0.0 && -1.0 <= y <= 1.0
    ensures -w <= w * y <= w
  {
    SignOfProduct(1.0 - y, w);
    SignOfProduct(1.0 + y, w);
  }

  /** A vector in the unit circle is never clamped. */
  lemma UnitCircleUnclamped(v: TwoPhase, inv: real)
    requires IsInverseRoot3(inv) && v.alpha * v.alpha + v.beta * v.beta <= 1.0
    ensures LineToLine(v, inv) <= 3.0 * inv
  {
    LineBound(v.alpha, v.beta, inv);
    LineBound(v.alpha, -v.beta, inv);
    ComponentBound(v.alpha, v.beta);
    Shrinks(3.0 * inv, v.beta);
    Differences(v, inv);
    SpreadBound(ClarkeInverse(v, inv), 3.0 * inv);
  }

  // ---------------------------------------------------------------------------
  // The voltage the inverter applies
  // ---------------------------------------------------------------------------

  function Affine(x: ThreePhase, k: real, i: real): ThreePhase {
    ThreePhase((x.a + k) * i + 0.5, (x.b + k) * i + 0.5, (x.c + k) * i + 0.5)
  }

  lemma DutiesAreAffine(v: TwoPhase, inv: real) returns (k: real)
    ensures Duties(v, inv) == Affine(ClarkeInverse(v, inv), k, inv)
  {
    var x := ClarkeInverse(v, inv);
    k := (Highest(x) + Lowest(x)) * -0.5;
  }

  lemma ForwardOfAffine(x: ThreePhase, k: real, i: real, inv: real)
    ensures ClarkeForward(Affine(x, k, i), inv) == Scale(ClarkeForward(x, inv), i)
  {
    var y := Affine(x, k, i);
    assert y.b - y.c == i * (x.b - x.c);
    assert y.a - 0.5 * (y.b + y.c) == i * (x.a - 0.5 * (x.b + x.c));
  }

  /** The duty cycles without the clamp apply the vector divided by the square root of 3. */
  lemma DutiesApply(v: TwoPhase, inv: real)
    requires IsInverseRoot3(inv)
    ensures ClarkeForward(Duties(v, inv), inv) == Scale(v, inv)
  {
    var k := DutiesAreAffine(v, inv);
    ForwardOfAffine(ClarkeInverse(v, inv), k, inv, inv);
    ClarkeRoundTrip(v, inv);
  }

  /** What the transform sees are the differences between phases. */
  lemma ForwardDetermines(x: ThreePhase, y: ThreePhase, inv: real)
    requires IsInverseRoot3(inv) && ClarkeForward(x, inv) == ClarkeForward(y, inv)
    ensures x.a - x.b == y.a - y.b && x.b - x.c == y.b - y.c
  {
    Cancels(inv, x.b - x.c);
    Cancels(inv, y.b - y.c);
  }

  lemma SpreadFromDifferences(x: ThreePhase, y: ThreePhase)
    requires x.a - x.b == y.a - y.b && x.b - x.c == y.b - y.c
    ensures Spread(x) == Spread(y)
  {
  }

  lemma ClampedSpread(v: TwoPhase, inv: real)
    ensures Spread(Generate(v, inv)) <= 1.0
  {
  }

  lemma StrictProduct(x: real, y: real, i: real)
    requires i > 0.0 && x < y
    ensures x * i < y * i
  {
    assert (y - x) * i > 0.0;
  }

  lemma DifferentSpreads(x: ThreePhase, y: ThreePhase, inv: real)
    requires IsInverseRoot3(inv) && Spread(x) != Spread(y)
    ensures ClarkeForward(x, inv) != ClarkeForward(y, inv)
  {
    if ClarkeForward(x, inv) == ClarkeForward(y, inv) {
      ForwardDetermines(x, y, inv);
      SpreadFromDifferences(x, y);
    }
  }

  lemma WiderThanOne(width: real, root: real, inv: real)
    requires inv > 0.0 && root * inv == 1.0 && width > root
    ensures width * inv > 1.0
  {
    var p, q := root * inv, width * inv;
    StrictProduct(root, width, inv);
    assert p < q;
  }

  lemma Wide(width: real, inv: real)
    requires IsInverseRoot3(inv) && width > 3.0 * inv
    ensures width * inv > 1.0
  {
    var root := 3.0 * inv;
    var p := root * inv;
    assert p == 1.0;
    WiderThanOne(width, root, inv);
  }

  lemma WidePair(h: real, l: real, k: real, inv: real)
    requires IsInverseRoot3(inv) && h - l > 3.0 * inv
    ensures ((h + k) * inv + 0.5) - ((l + k) * inv + 0.5) > 1.0
  {
    var product := (h - l) * inv;
    Wide(h - l, inv);
    assert product > 1.0;
  }

  function Phase(x: ThreePhase, i: nat): real {
    match i
    case 0 => x.a
    case 1 => x.b
    case _ => x.c
  }

  lemma WidestPair(x: ThreePhase, w: real) returns (i: nat, j: nat)
    requires Spread(x) > w
    ensures Phase(x, i) - Phase(x, j) > w
  {
    i := if x.a == Highest(x) then 0 else if x.b == Highest(x) then 1 else 2;
    j := if x.a == Lowest(x) then 0 else if x.b == Lowest(x) then 1 else 2;
  }

  lemma PairInSpread(x: ThreePhase, i: nat, j: nat)
    ensures Phase(x, i) - Phase(x, j) <= Spread(x)
  {
  }

  lemma PhaseOfAffine(x: ThreePhase, k: real, i: real, n: nat)
    ensures Phase(Affine(x, k, i), n) == (Phase(x, n) + k) * i + 0.5
  {
  }

  lemma WideAffine(x: ThreePhase, k: real, inv: real)
    requires IsInverseRoot3(inv) && Spread(x) > 3.0 * inv
    ensures Spread(Affine(x, k, inv)) > 1.0
  {
    var i, j := WidestPair(x, 3.0 * inv);
    var y := Affine(x, k, inv);
    WideDifference(x, k, inv, i, j);
    PairInSpread(y, i, j);
  }

  lemma WideDifference(x: ThreePhase, k: real, inv: real, i: nat, j: nat)
    requires IsInverseRoot3(inv) && Phase(x, i) - Phase(x, j) > 3.0 * inv
    ensures Phase(Affine(x, k, inv), i) - Phase(Affine(x, k, inv), j) > 1.0
  {
    PhaseOfAffine(x, k, inv, i);
    PhaseOfAffine(x, k, inv, j);
    WidePair(Phase(x, i), Phase(x, j), k, inv);
  }

  lemma WideSpread(v: TwoPhase, inv: real)
    requires IsInverseRoot3(inv) && LineToLine(v, inv) > 3.0 * inv
    ensures Spread(Duties(v, inv)) > 1.0
  {
    var k := DutiesAreAffine(v, inv);
    WideAffine(ClarkeInverse(v, inv), k, inv);
  }

  /** Beyond the square root of 3 the clamp changes the vector. */
  lemma ClampChanges(v: TwoPhase, inv: real)
    requires IsInverseRoot3(inv) && LineToLine(v, inv) > 3.0 * inv
    ensures ClarkeForward(Generate(v, inv), inv) != ClarkeForward(Duties(v, inv), inv)
  {
    WideSpread(v, inv);
    ClampedSpread(v, inv);
    DifferentSpreads(Generate(v, inv), Duties(v, inv), inv);
  }

  /** The vector applied is the one asked for, divided by the square root of 3, exactly when the largest
      line-to-line voltage is at most that root. */
  lemma VoltagePreservedIff(v: TwoPhase, inv: real)
    requires IsInverseRoot3(inv)
    ensures ClarkeForward(Generate(v, inv), inv) == Scale(v, inv) <==> LineToLine(v, inv) <= 3.0 * inv
  {
    DutiesApply(v, inv);
    UnclampedIff(v, inv);
    if LineToLine(v, inv) > 3.0 * inv {
      ClampChanges(v, inv);
    }
  }

  lemma UnitVoltageApplied(v: TwoPhase, inv: real)
    requires IsInverseRoot3(inv) && v.alpha * v.alpha + v.beta * v.beta <= 1.0
    ensures ClarkeForward(Generate(v, inv), inv) == Scale(v, inv)
  {
    UnitCircleUnclamped(v, inv);
    VoltagePreservedIff(v, inv);
  }

  lemma ParkForwardScales(u: TwoPhase, i: real, cos: real, sin: real)
    ensures ParkForward(Scale(u, i), cos, sin) == ScaleFrame(ParkForward(u, cos, sin), i)
  {
  }

  /** In the frame of the rotor: for a demand inside the unit circle, what the inverter applies is measured back
      as the demand divided by the square root of 3, times cos*cos + sin*sin. */
  lemma DemandIsApplied(v: RotatingFrame, cos: real, sin: real, inv: real)
    requires IsInverseRoot3(inv) && (cos * cos + sin * sin) * (v.d * v.d + v.q * v.q) <= 1.0
    ensures ParkForward(ClarkeForward(Generate(ParkInverse(v, cos, sin), inv), inv), cos, sin)
         == ScaleFrame(ScaleFrame(v, cos * cos + sin * sin), inv)
  {
    var u := ParkInverse(v, cos, sin);
    ParkLength(v, cos, sin);
    UnitVoltageApplied(u, inv);
    ParkForwardScales(u, inv, cos, sin);
    ParkScalesBack(v, cos, sin);
  }

  // ---------------------------------------------------------------------------
  // Whole percents
  // ---------------------------------------------------------------------------

  /** A duty cycle as handed to the inverter. */
  function Percent(duty: real): int {
    Truncate(duty * 100.0 + 0.5)
  }

  function Fraction(x: ThreePhase): ThreePhase {
    ThreePhase(Percent(x.a) as real / 100.0, Percent(x.b) as real / 100.0, Percent(x.c) as real / 100.0)
  }

  lemma PercentRounds(duty: real)
    requires 0.0 <= duty <= 1.0
    ensures 0 <= Percent(duty) <= 100 && -0.005 <= Percent(duty) as real / 100.0 - duty <= 0.005
  {
    var p := Percent(duty);
    assert p as real <= duty * 100.0 + 0.5 < (p + 1) as real;
  }

  lemma ErrorOfForward(x: ThreePhase, y: ThreePhase, e: real, inv: real)
    requires inv > 0.0 && -e <= y.a - x.a <= e && -e <= y.b - x.b <= e && -e <= y.c - x.c <= e
    ensures var (u, v) := (ClarkeForward(x, inv), ClarkeForward(y, inv));
            && -(4.0 / 3.0 * e) <= v.alpha - u.alpha <= 4.0 / 3.0 * e
            && -(2.0 * e * inv) <= v.beta - u.beta <= 2.0 * e * inv
  {
    var (g, h) := (2.0 * e - ((y.b - y.c) - (x.b - x.c)), 2.0 * e + ((y.b - y.c) - (x.b - x.c)));
    SignOfProduct(g, inv);
    SignOfProduct(h, inv);
    assert g * inv == 2.0 * e * inv - (inv * (y.b - y.c) - inv * (x.b - x.c));
    assert h * inv == 2.0 * e * inv + (inv * (y.b - y.c) - inv * (x.b - x.c));
  }

  lemma GeneratedRange(v: TwoPhase, inv: real)
    ensures var x := Generate(v, inv); 0.0 <= x.a <= 1.0 && 0.0 <= x.b <= 1.0 && 0.0 <= x.c <= 1.0
  {
  }

  /** Rounding the duty cycles to whole percents keeps them in range and moves the voltage applied by at most
      1/150 along alpha and 1/100 of the inverse root along beta. */
  lemma RoundingShift(v: TwoPhase, inv: real)
    requires IsInverseRoot3(inv)
    ensures var x := Generate(v, inv);
            && 0 <= Percent(x.a) <= 100 && 0 <= Percent(x.b) <= 100 && 0 <= Percent(x.c) <= 100
            && -(1.0 / 150.0) <= ClarkeForward(Fraction(x), inv).alpha - ClarkeForward(x, inv).alpha <= 1.0 / 150.0
            && -(inv / 100.0) <= ClarkeForward(Fraction(x), inv).beta - ClarkeForward(x, inv).beta <= inv / 100.0
  {
    var x := Generate(v, inv);
    GeneratedRange(v, inv);
    PercentRounds(x.a);
    PercentRounds(x.b);
    PercentRounds(x.c);
    ErrorOfForward(x, Fraction(x), 0.005, inv);
  }

  // ---------------------------------------------------------------------------
  // With the sine and cosine of the table
  // ---------------------------------------------------------------------------

  /** With the table, Park there and back changes a vector by at most 4e-5 of itself. */
  lemma TableParkRoundTrip(v: TwoPhase, angle: real, pi: real) returns (r: real)
    requires pi > 0.0 && Representable(angle, pi) && Representable(angle + pi / 2.0, pi)
    ensures 0.99996 <= r <= 1.00000031
    ensures var (cos, sin) := (Cosine(angle, pi), Sine(angle, pi));
            ParkInverse(ParkForward(v, cos, sin), cos, sin) == Scale(v, r)
  {
    OnUnitCircle(angle, pi);
    r := ParkScalesWith(v, Cosine(angle, pi), Sine(angle, pi));
  }

  lemma ParkScalesWith(v: TwoPhase, cos: real, sin: real) returns (r: real)
    requires InRing(sin, cos, 0.99996, 1.00000031)
    ensures 0.99996 <= r <= 1.00000031 && ParkInverse(ParkForward(v, cos, sin), cos, sin) == Scale(v, r)
  {
    ParkScales(v, cos, sin);
    r := cos * cos + sin * sin;
  }

  lemma InsideCircle(length: real, r: real)
    requires 0.0 <= length <= 0.9999996 && 0.0 <= r <= 1.00000031
    ensures r * length <= 1.0
  {
    var p, q := r * length, r * 0.9999996;
    ProductOrdered(r, length, 0.9999996);
    assert p <= q <= 1.0;
  }

  /** The voltage of one pass of the inner loop: for any rotor angle and any demand up to the unit circle (short
      of four parts in ten million), the duty cycles before rounding apply the demand divided by the square root
      of 3, to within 4e-5 of itself. */
  lemma InnerLoopVoltage(v: RotatingFrame, angle: real, pi: real, inv: real) returns (r: real)
    requires IsInverseRoot3(inv) && v.d * v.d + v.q * v.q <= 0.9999996
    requires pi > 0.0 && Representable(angle, pi) && Representable(angle + pi / 2.0, pi)
    ensures 0.99996 <= r <= 1.00000031
    ensures var (cos, sin) := (Cosine(angle, pi), Sine(angle, pi));
            ParkForward(ClarkeForward(Generate(ParkInverse(v, cos, sin), inv), inv), cos, sin)
            == ScaleFrame(ScaleFrame(v, r), inv)
  {
    OnUnitCircle(angle, pi);
    r := AppliedWith(v, Cosine(angle, pi), Sine(angle, pi), inv);
  }

  lemma AppliedWith(v: RotatingFrame, cos: real, sin: real, inv: real) returns (r: real)
    requires IsInverseRoot3(inv) && v.d * v.d + v.q * v.q <= 0.9999996 && InRing(sin, cos, 0.99996, 1.00000031)
    ensures 0.99996 <= r <= 1.00000031
    ensures ParkForward(ClarkeForward(Generate(ParkInverse(v, cos, sin), inv), inv), cos, sin)
         == ScaleFrame(ScaleFrame(v, r), inv)
  {
    r := cos * cos + sin * sin;
    SquareNonNegative(v.d);
    SquareNonNegative(v.q);
    InsideCircle(v.d * v.d + v.q * v.q, r);
    DemandIsApplied(v, cos, sin, inv);
  }
}
