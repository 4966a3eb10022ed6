/** The inner current loop as its interrupt sees it: every prescaler-th pass publishes a snapshot of its
    measurements in the slot that is not the ready one, makes that slot the ready one, and triggers the
    low-priority interrupt. */
module InterruptModel {
  import opened Trigonometry
  import opened Transforms

  datatype Snapshot = Snapshot(
    phaseCurrents: ThreePhase, electricalAngle: real, measuredId: real, measuredIq: real, normalizedVd: real)

  datatype Loop = Loop(prescaler: nat, triggerCounter: nat, readyIndex: nat, snapshots: seq<Snapshot>, triggers: nat)
  {
    predicate Valid() {
      0 < prescaler && triggerCounter < prescaler && readyIndex < 2 && |snapshots| == 2
    }

    function Ready(): Snapshot
      requires Valid()
    {
      snapshots[readyIndex]
    }
  }

  const NO_SNAPSHOT := Snapshot(ThreePhase(0.0, 0.0, 0.0), 0.0, 0.0, 0.0, 0.0)

  /** What the constructor asserts of the two frequencies. */
  predicate Frequencies(base: nat, low: nat) {
    0 < low <= base && base % low == 0
  }

  function Construct(base: nat, low: nat): (l: Loop)
    requires Frequencies(base, low)
    ensures l.Valid() && l.prescaler * low == base
  {
    DivisionIsExact(base, low);
    Loop(base / low, 0, 0, [NO_SNAPSHOT, NO_SNAPSHOT], 0)
  }

  lemma DivisionIsExact(base: nat, low: nat)
    requires Frequencies(base, low)
    ensures base / low * low == base && base / low > 0
  {
    assert base == low * (base / low) + base % low;
  }

  /** Enabling restarts the count and leaves the snapshots. */
  function Enable(l: Loop): Loop {
    l.(triggerCounter := 0)
  }

  function Pass(l: Loop, s: Snapshot): (m: Loop)
    requires l.Valid()
    ensures m.Valid() && m.prescaler == l.prescaler
  {
    if l.triggerCounter + 1 >= l.prescaler then
      var writeSlot := 1 - l.readyIndex;
      l.(triggerCounter := 0, snapshots := l.snapshots[writeSlot := s], readyIndex := writeSlot,
         triggers := l.triggers + 1)
    else l.(triggerCounter := l.triggerCounter + 1)
  }

  function Passes(l: Loop, ss: seq<Snapshot>): (m: Loop)
    requires l.Valid()
    ensures m.Valid() && m.prescaler == l.prescaler
  {
    if ss == [] then l else Pass(Passes(l, ss[..|ss| - 1]), ss[|ss| - 1])
  }

  /** What one pass measures, for the voltage its current controllers ask for. */
  function Measured(currents: ThreePhase, electricalAngle: real, vd: real, cos: real, sin: real, inv: real): Snapshot {
    var idq := ParkForward(ClarkeForward(currents, inv), cos, sin);
    Snapshot(currents, electricalAngle, idq.d, idq.q, vd)
  }

  /** The duty cycles of one pass, in whole percents. */
  function Output(demand: RotatingFrame, cos: real, sin: real, inv: real): (int, int, int) {
    var x := Generate(ParkInverse(demand, cos, sin), inv);
    (Percent(x.a), Percent(x.b), Percent(x.c))
  }

  lemma OutputRange(demand: RotatingFrame, cos: real, sin: real, inv: real)
    requires IsInverseRoot3(inv)
    ensures var o := Output(demand, cos, sin, inv); 0 <= o.0 <= 100 && 0 <= o.1 <= 100 && 0 <= o.2 <= 100
  {
    RoundingShift(ParkInverse(demand, cos, sin), inv);
  }

  // ---------------------------------------------------------------------------
  // What it measures and what it applies
  // ---------------------------------------------------------------------------

  /** Duty cycles in whole percents, seen as three axes a third of a turn apart: the component along the first, and
      the one across it. */
  function Along(pwm: (int, int, int)): real {
    (2 * pwm.0 - pwm.1 - pwm.2) as real / 300.0
  }

  function Across(pwm: (int, int, int), inv: real): real {
    inv * ((pwm.1 - pwm.2) as real / 100.0)
  }

  /** A demand in the frame of the rotor, seen from the stator. */
  function DemandAlong(d: real, q: real, cos: real, sin: real): real { d * cos - q * sin }

  function DemandAcross(d: real, q: real, cos: real, sin: real): real { d * sin + q * cos }

  predicate Near(x: real, y: real, e: real) { -e <= x - y <= e }

  /** The duty cycles lie within a rounding error of the demand divided by the square root of 3. */
  predicate Applies(pwm: (int, int, int), d: real, q: real, cos: real, sin: real, inv: real) {
    && Near(Along(pwm), inv * DemandAlong(d, q, cos, sin), 1.0 / 150.0)
    && Near(Across(pwm, inv), inv * DemandAcross(d, q, cos, sin), inv / 100.0)
  }

  lemma AxesOfPercents(x: ThreePhase, pwm: (int, int, int), inv: real)
    requires pwm == (Percent(x.a), Percent(x.b), Percent(x.c))
    ensures ClarkeForward(Fraction(x), inv) == TwoPhase(Along(pwm), Across(pwm, inv))
  {
    var y := Fraction(x);
    assert y.b - y.c == (pwm.1 - pwm.2) as real / 100.0;
  }

  predicate UnitVector(v: TwoPhase) { v.alpha * v.alpha + v.beta * v.beta <= 1.0 }

  lemma NearScaled(v: TwoPhase, inv: real)
    requires IsInverseRoot3(inv) && UnitVector(v)
    ensures var u, w := ClarkeForward(Fraction(Generate(v, inv)), inv), Scale(v, inv);
            Near(u.alpha, w.alpha, 1.0 / 150.0) && Near(u.beta, w.beta, inv / 100.0)
  {
    UnitVoltageApplied(v, inv);
    RoundingShift(v, inv);
  }

  lemma VectorApplies(v: TwoPhase, w: TwoPhase, pwm: (int, int, int), inv: real)
    requires IsInverseRoot3(inv) && UnitVector(v) && w == Scale(v, inv)
    requires var x := Generate(v, inv); pwm == (Percent(x.a), Percent(x.b), Percent(x.c))
    ensures Near(Along(pwm), w.alpha, 1.0 / 150.0) && Near(Across(pwm, inv), w.beta, inv / 100.0)
  {
    NearScaled(v, inv);
    AxesOfPercents(Generate(v, inv), pwm, inv);
  }

  lemma ScaledDemand(demand: RotatingFrame, cos: real, sin: real, inv: real)
    ensures Scale(ParkInverse(demand, cos, sin), inv)
         == TwoPhase(inv * DemandAlong(demand.d, demand.q, cos, sin), inv * DemandAcross(demand.d, demand.q, cos, sin))
  {
  }

  lemma UnitDemand(demand: RotatingFrame, cos: real, sin: real)
    requires (cos * cos + sin * sin) * (demand.d * demand.d + demand.q * demand.q) <= 1.0
    ensures UnitVector(ParkInverse(demand, cos, sin))
  {
    ParkLength(demand, cos, sin);
  }

  lemma UnitOutputApplies(demand: RotatingFrame, cos: real, sin: real, inv: real)
    requires IsInverseRoot3(inv) && UnitVector(ParkInverse(demand, cos, sin))
    ensures Applies(Output(demand, cos, sin, inv), demand.d, demand.q, cos, sin, inv)
  {
    var v := ParkInverse(demand, cos, sin);
    VectorApplies(v, Scale(v, inv), Output(demand, cos, sin, inv), inv);
    ScaledDemand(demand, cos, sin, inv);
  }

  /** For a demand that is not clamped, whatever the angle. */
  lemma OutputApplies(demand: RotatingFrame, cos: real, sin: real, inv: real)
    requires IsInverseRoot3(inv)
    requires (cos * cos + sin * sin) * (demand.d * demand.d + demand.q * demand.q) <= 1.0
    ensures Applies(Output(demand, cos, sin, inv), demand.d, demand.q, cos, sin, inv)
  {
    UnitDemand(demand, cos, sin);
    UnitOutputApplies(demand, cos, sin, inv);
  }

  lemma WithinRing(demand: RotatingFrame, cos: real, sin: real)
    requires InRing(sin, cos, 0.99996, 1.00000031)
    requires demand.d * demand.d + demand.q * demand.q <= 0.9999996
    ensures (cos * cos + sin * sin) * (demand.d * demand.d + demand.q * demand.q) <= 1.0
  {
    SquareNonNegative(demand.d);
    SquareNonNegative(demand.q);
    InsideCircle(demand.d * demand.d + demand.q * demand.q, cos * cos + sin * sin);
  }

  lemma RingOutputApplies(demand: RotatingFrame, cos: real, sin: real, inv: real)
    requires IsInverseRoot3(inv) && InRing(sin, cos, 0.99996, 1.00000031)
    requires demand.d * demand.d + demand.q * demand.q <= 0.9999996
    ensures Applies(Output(demand, cos, sin, inv), demand.d, demand.q, cos, sin, inv)
  {
    WithinRing(demand, cos, sin);
    OutputApplies(demand, cos, sin, inv);
  }

  predicate InUnitCircle(d: real, q: real) { d * d + q * q <= 0.9999996 }

  /** With the sine and cosine of the table, for any demand up to the unit circle. */
  lemma TableOutputApplies(demand: RotatingFrame, angle: real, pi: real, inv: real)
    requires IsInverseRoot3(inv) && InUnitCircle(demand.d, demand.q) && pi > 0.0 && Readable(angle, pi)
    ensures var cos, sin := Cosine(angle, pi), Sine(angle, pi);
            Applies(Output(demand, cos, sin, inv), demand.d, demand.q, cos, sin, inv)
  {
    OnUnitCircle(angle, pi);
    RingOutputApplies(demand, Cosine(angle, pi), Sine(angle, pi), inv);
  }

  /** The conversions in reading the table are defined. */
  predicate Readable(angle: real, pi: real)
    requires pi > 0.0
  {
    Representable(angle, pi) && Representable(angle + pi / 2.0, pi)
  }

  /** Turned back by the angle, the vector is r inv (d, q) to within both rounding errors. */
  predicate TurnsTo(along: real, across: real, d: real, q: real, cos: real, sin: real, inv: real, r: real) {
    && Near(along * cos + across * sin, r * (inv * d), 1.0 / 150.0 + inv / 100.0)
    && Near(across * cos - along * sin, r * (inv * q), 1.0 / 150.0 + inv / 100.0)
  }

  /** The same, brought back to the rotor: d and q come out as asked for, over the square root of 3 and times the
      squared length r of (cos, sin), to within the rounding errors of both axes. */
  lemma AppliedToRotor(pwm: (int, int, int), d: real, q: real, cos: real, sin: real, inv: real) returns (r: real)
    requires Applies(pwm, d, q, cos, sin, inv)
    requires InRing(sin, cos, 0.99996, 1.00000031) && -1.0 <= cos <= 1.0 && -1.0 <= sin <= 1.0
    ensures 0.99996 <= r <= 1.00000031
    ensures TurnsTo(Along(pwm), Across(pwm, inv), d, q, cos, sin, inv, r)
  {
    var x, y := RoundingErrors(pwm, d, q, cos, sin, inv);
    r := Ring(cos, sin);
    BackToRotor(Along(pwm), Across(pwm, inv), x, y, d, q, cos, sin, inv, r);
  }

  lemma RoundingErrors(pwm: (int, int, int), d: real, q: real, cos: real, sin: real, inv: real)
    returns (x: real, y: real)
    requires Applies(pwm, d, q, cos, sin, inv)
    ensures -(1.0 / 150.0) <= x <= 1.0 / 150.0 && -(inv / 100.0) <= y <= inv / 100.0
    ensures x == Along(pwm) - inv * DemandAlong(d, q, cos, sin)
    ensures y == Across(pwm, inv) - inv * DemandAcross(d, q, cos, sin)
  {
    x := Along(pwm) - inv * DemandAlong(d, q, cos, sin);
    y := Across(pwm, inv) - inv * DemandAcross(d, q, cos, sin);
  }

  lemma Ring(cos: real, sin: real) returns (r: real)
    requires InRing(sin, cos, 0.99996, 1.00000031)
    ensures 0.99996 <= r <= 1.00000031 && r == cos * cos + sin * sin
  {
    r := cos * cos + sin * sin;
  }

  lemma BackToRotor(
    alpha: real, beta: real, x: real, y: real, d: real, q: real, cos: real, sin: real, inv: real, r: real)
    requires -(1.0 / 150.0) <= x <= 1.0 / 150.0 && -(inv / 100.0) <= y <= inv / 100.0
    requires x == alpha - inv * DemandAlong(d, q, cos, sin) && y == beta - inv * DemandAcross(d, q, cos, sin)
    requires r == cos * cos + sin * sin && -1.0 <= cos <= 1.0 && -1.0 <= sin <= 1.0
    ensures TurnsTo(alpha, beta, d, q, cos, sin, inv, r)
  {
    var xc := Weighted(x, cos, 1.0 / 150.0);
    var xs := Weighted(x, sin, 1.0 / 150.0);
    var yc := Weighted(y, cos, inv / 100.0);
    var ys := Weighted(y, sin, inv / 100.0);
    TurnedBack(alpha, beta, x, y, d, q, cos, sin, inv, r);
  }

  lemma Weighted(x: real, w: real, e: real) returns (p: real)
    requires -e <= x <= e && -1.0 <= w <= 1.0
    ensures p == x * w && -e <= p <= e
  {
    p := x * w;
    if w >= 0.0 {
      ScaledWithin(x, w, e);
    } else {
      ScaledWithin(-x, -w, e);
      assert -x * -w == p;
    }
  }

  lemma ScaledWithin(x: real, w: real, e: real)
    requires -e <= x <= e && 0.0 <= w <= 1.0
    ensures -e <= x * w <= e
  {
    SignOfProducts(e - x, w);
    SignOfProducts(e + x, w);
    SignOfProducts(e, 1.0 - w);
    assert (e - x) * w == e * w - x * w && (e + x) * w == e * w + x * w && e * (1.0 - w) == e - e * w;
  }

  lemma SignOfProducts(x: real, y: real)
    requires x >= 0.0 && y >= 0.0
    ensures x * y >= 0.0
  {
  }

  lemma TurnedBack(
    alpha: real, beta: real, x: real, y: real, d: real, q: real, cos: real, sin: real, inv: real, r: real)
    requires x == alpha - inv * DemandAlong(d, q, cos, sin) && y == beta - inv * DemandAcross(d, q, cos, sin)
    requires r == cos * cos + sin * sin
    ensures alpha * cos + beta * sin - r * (inv * d) == x * cos + y * sin
    ensures beta * cos - alpha * sin - r * (inv * q) == y * cos - x * sin
  {
  }

  /** Currents made of d and q in the frame of the rotor, in three phases a third of a turn apart, are measured as d
      and q, times the squared length of (cos, sin). */
  lemma MeasuresRotorCurrents(
    x: ThreePhase, d: real, q: real, angle: real, vd: real, cos: real, sin: real, inv: real)
    requires IsInverseRoot3(inv)
    requires x.a == d * cos - q * sin
    requires x.b == -0.5 * (d * cos - q * sin) + 1.5 * inv * (d * sin + q * cos)
    requires x.c == -0.5 * (d * cos - q * sin) - 1.5 * inv * (d * sin + q * cos)
    ensures var s := Measured(x, angle, vd, cos, sin, inv);
            && s.phaseCurrents == x && s.electricalAngle == angle && s.normalizedVd == vd
            && s.measuredId == (cos * cos + sin * sin) * d && s.measuredIq == (cos * cos + sin * sin) * q
  {
    var v := ParkInverse(RotatingFrame(d, q), cos, sin);
    assert x == ClarkeInverse(v, inv);
    ClarkeRoundTrip(v, inv);
    ParkScalesBack(RotatingFrame(d, q), cos, sin);
  }

  // ---------------------------------------------------------------------------
  // How often it publishes
  // ---------------------------------------------------------------------------

  lemma OneMore(n: nat, p: nat)
    requires p > 0
    ensures if n % p + 1 >= p then (n + 1) / p == n / p + 1 && (n + 1) % p == 0
            else (n + 1) / p == n / p && (n + 1) % p == n % p + 1
  {
    var q, r := n / p, n % p;
    assert n == q * p + r;
    if r + 1 >= p {
      assert n + 1 == (q + 1) * p + 0;
      Quotient(n + 1, p, q + 1, 0);
    } else {
      Quotient(n + 1, p, q, r + 1);
    }
  }

  lemma Gap(d: nat, q: nat, p: nat)
    requires d < q
    ensures d * p + p <= q * p
  {
    var e := q - d - 1;
    assert q * p == d * p + p + e * p;
  }

  lemma UniqueQuotient(d: nat, m: nat, q: nat, r: nat, p: nat)
    requires m < p && r < p && d * p + m == q * p + r
    ensures d == q && m == r
  {
    if d < q {
      Gap(d, q, p);
    } else if q < d {
      Gap(q, d, p);
    }
  }

  lemma Quotient(n: nat, p: nat, q: nat, r: nat)
    requires r < p && n == q * p + r
    ensures n / p == q && n % p == r
  {
    assert n == n / p * p + n % p;
    UniqueQuotient(n / p, n % p, q, r, p);
  }

  /** A window of passes that starts at a count publishes as often as the prescaler fits in count and window
      together, and every publish swaps the slots. */
  lemma {:induction false} Publishes(l: Loop, ss: seq<Snapshot>)
    requires l.Valid()
    ensures var (m, n) := (Passes(l, ss), l.triggerCounter + |ss|);
            && m.triggers == l.triggers + n / l.prescaler && m.triggerCounter == n % l.prescaler
            && m.readyIndex == (l.readyIndex + n / l.prescaler) % 2
    decreases |ss|
  {
    if ss == [] {
      Quotient(l.triggerCounter, l.prescaler, 0, l.triggerCounter);
    } else {
      Publishes(l, ss[..|ss| - 1]);
      OneMore(l.triggerCounter + |ss| - 1, l.prescaler);
    }
  }

  /** After the loop is enabled, n passes publish and trigger exactly n div prescaler times. */
  lemma EnabledPublishes(l: Loop, ss: seq<Snapshot>)
    requires l.Valid()
    ensures Passes(Enable(l), ss).triggers == l.triggers + |ss| / l.prescaler
  {
    Publishes(Enable(l), ss);
  }

  // ---------------------------------------------------------------------------
  // The handler
  // ---------------------------------------------------------------------------

  /** The slot that was ready at the start, as it is after a window of passes. */
  function Latched(l: Loop, ss: seq<Snapshot>): Snapshot
    requires l.Valid()
  {
    Passes(l, ss).snapshots[l.readyIndex]
  }

  /** With fewer than two publishes in the window the latched slot is never written. */
  lemma {:induction false} LatchedIsStable(l: Loop, ss: seq<Snapshot>)
    requires l.Valid() && l.triggerCounter + |ss| < 2 * l.prescaler
    ensures Latched(l, ss) == l.Ready()
    decreases |ss|
  {
    if ss != [] {
      var before := Passes(l, ss[..|ss| - 1]);
      LatchedIsStable(l, ss[..|ss| - 1]);
      Publishes(l, ss[..|ss| - 1]);
      Publishes(l, ss);
      if before.readyIndex != l.readyIndex {
        AtMostOne(l.triggerCounter + |ss| - 1, l.prescaler);
        AtMostOne(l.triggerCounter + |ss|, l.prescaler);
        OneMore(l.triggerCounter + |ss| - 1, l.prescaler);
      }
    }
  }

  lemma AtMostOne(n: nat, p: nat)
    requires n < 2 * p
    ensures n / p <= 1 && (n / p == 0 <==> n < p)
  {
    if n < p {
      Quotient(n, p, 0, n);
    } else {
      Quotient(n, p, 1, n - p);
    }
  }

  /** A window that is the same pass again and again. */
  function Same(s: Snapshot, k: nat): seq<Snapshot> {
    seq(k, i => s)
  }

  /** After the second publish the latched slot holds a snapshot of the window. */
  lemma {:induction false} LatchedIsOverwritten(l: Loop, s: Snapshot, k: nat)
    requires l.Valid() && l.triggerCounter + k >= 2 * l.prescaler
    ensures Latched(l, Same(s, k)) == s
    decreases k
  {
    var ss := Same(s, k);
    assert ss[..k - 1] == Same(s, k - 1);
    Publishes(l, ss[..k - 1]);
    if l.triggerCounter + k - 1 >= 2 * l.prescaler {
      LatchedIsOverwritten(l, s, k - 1);
    } else {
      AtMostOne(l.triggerCounter + k - 1, l.prescaler);
      OneMore(l.triggerCounter + k - 1, l.prescaler);
      Quotient(l.triggerCounter + k, l.prescaler, 2, 0);
    }
  }

  /** Exactly when a handler can rely on the slot it latched: the count at that moment and the passes that may
      interrupt it make less than two prescaler periods. */
  lemma StableIff(l: Loop, k: nat)
    requires l.Valid()
    ensures (forall ss: seq<Snapshot> | |ss| == k :: Latched(l, ss) == l.Ready())
       <==> l.triggerCounter + k < 2 * l.prescaler
  {
    if l.triggerCounter + k < 2 * l.prescaler {
      forall ss: seq<Snapshot> | |ss| == k
        ensures Latched(l, ss) == l.Ready()
      {
        LatchedIsStable(l, ss);
      }
    } else {
      var s := l.Ready().(electricalAngle := l.Ready().electricalAngle + 1.0);
      LatchedIsOverwritten(l, s, k);
      assert |Same(s, k)| == k && Latched(l, Same(s, k)) != l.Ready();
    }
  }

  /** The electrical estimator's handler: the fields are read one by one, each after any number of passes. */
  function ReadElectrical(l: Loop, ss: seq<Snapshot>, i: nat, j: nat, k: nat): (real, real, real)
    requires l.Valid() && i <= |ss| && j <= |ss| && k <= |ss|
  {
    (Latched(l, ss[..i]).normalizedVd, Latched(l, ss[..j]).measuredId, Latched(l, ss[..k]).measuredIq)
  }

  /** The mechanical estimator's handler. */
  function ReadMechanical(l: Loop, ss: seq<Snapshot>, i: nat, j: nat): (ThreePhase, real)
    requires l.Valid() && i <= |ss| && j <= |ss|
  {
    (Latched(l, ss[..i]).phaseCurrents, Latched(l, ss[..j]).electricalAngle)
  }

  /** A handler that finishes within one prescaler period reads one whole snapshot, the one that was ready when it
      began, wherever it is interrupted. */
  lemma ReadsWhole(l: Loop, ss: seq<Snapshot>, i: nat, j: nat, k: nat)
    requires l.Valid() && |ss| <= l.prescaler && i <= |ss| && j <= |ss| && k <= |ss|
    ensures ReadElectrical(l, ss, i, j, k) == (l.Ready().normalizedVd, l.Ready().measuredId, l.Ready().measuredIq)
    ensures ReadMechanical(l, ss, i, j) == (l.Ready().phaseCurrents, l.Ready().electricalAngle)
  {
    LatchedIsStable(l, ss[..i]);
    LatchedIsStable(l, ss[..j]);
    LatchedIsStable(l, ss[..k]);
  }

  /** The slots alone do not protect a slow handler: from any state, a window of two prescaler periods can make it
      combine the current of one snapshot with the current of another. */
  lemma SlowReadTears(l: Loop, s: Snapshot)
    requires l.Valid() && s.measuredIq != l.Ready().measuredIq
    ensures var k := 2 * l.prescaler;
            ReadElectrical(l, Same(s, k), 0, 0, k) == (l.Ready().normalizedVd, l.Ready().measuredId, s.measuredIq)
  {
    var k := 2 * l.prescaler;
    LatchedIsOverwritten(l, s, k);
    assert Same(s, k)[..0] == [] && Same(s, k)[..k] == Same(s, k);
  }

  /** The ready snapshot is the newest published: that of the last pass that completed a prescaler period. */
  lemma {:induction false} ReadyIsNewest(l: Loop, ss: seq<Snapshot>)
    requires l.Valid()
    ensures var (n, p) := (|ss|, l.prescaler);
            if n < p then Passes(Enable(l), ss).Ready() == l.Ready()
            else 0 <= n / p * p - 1 < n && Passes(Enable(l), ss).Ready() == ss[n / p * p - 1]
    decreases |ss|
  {
    var n, p := |ss|, l.prescaler;
    if ss != [] {
      ReadyIsNewest(l, ss[..n - 1]);
      Publishes(Enable(l), ss[..n - 1]);
      OneMore(n - 1, p);
      NewestIndex(n, p);
    }
  }

  lemma NewestIndex(n: nat, p: nat)
    requires n > 0 && p > 0
    ensures n >= p ==> 0 <= n / p * p - 1 < n
    ensures n < p ==> (n - 1) % p == n - 1 && (n - 1) % p + 1 <= p
    ensures (n - 1) % p + 1 >= p ==> n / p * p - 1 == n - 1
    ensures (n - 1) % p + 1 < p ==> n / p == (n - 1) / p && (n < p <==> n - 1 < p)
  {
    OneMore(n - 1, p);
    assert n == n / p * p + n % p;
    if n < p {
      Quotient(n, p, 0, n);
      Quotient(n - 1, p, 0, n - 1);
    } else {
      Quotient(n, p, n / p, n % p);
      if n / p == 0 {
        assert false;
      }
      Gap(0, n / p, p);
    }
  }
}
