/** Counting pole pairs: the stator field is stepped through whole electrical revolutions, twelve steps each, and
    the rotation of the rotor is added up from wrapped encoder readings. */
module PolePairModel {
  import opened Basics

  const STEPS := 12

  datatype Estimate = Estimate(
    revolutions: nat, index: nat, previous: real, rotation: real, stopped: bool, pending: Option<nat>,
    answers: seq<Answer>)

  datatype Answer = Answer(command: nat, polePairs: Option<int>)

  /** A difference of angles moved by whole turns into [-pi, pi). */
  function Wrap(delta: real, pi: real): real
    requires pi > 0.0
  {
    delta - 2.0 * pi * ((delta + pi) / (2.0 * pi)).Floor as real
  }

  function Abs(x: real): real { if x < 0.0 then -x else x }

  /** Halves are rounded away from zero. */
  function Round(x: real): int {
    if x < 0.0 then -(-x + 0.5).Floor else (x + 0.5).Floor
  }

  /** The number of pole pairs for a rotation by so much, if it is enough to tell. */
  function PolePairs(revolutions: nat, rotation: real, pi: real): Option<int>
    requires pi > 0.0
  {
    if Abs(rotation) > pi / 2.0 then Some(Round(revolutions as real / (Abs(rotation) / (2.0 * pi)))) else None
  }

  /** Stop the inverter and answer, once. */
  function Finish(e: Estimate, pi: real): Estimate
    requires pi > 0.0
  {
    var stopped := e.(stopped := true);
    match e.pending
    case None => stopped
    case Some(command) =>
      stopped.(pending := None,
               answers := e.answers + [Answer(command, PolePairs(e.revolutions, e.rotation, pi))])
  }

  function Advance(e: Estimate, pi: real): Estimate
    requires pi > 0.0
  {
    if e.index < e.revolutions * STEPS then e else Finish(e, pi)
  }

  function Start(revolutions: nat, position: real, command: nat, answers: seq<Answer>, pi: real): Estimate
    requires pi > 0.0
  {
    Advance(Estimate(revolutions, 0, position, 0.0, false, Some(command), answers), pi)
  }

  /** The rotor has settled after a step and the encoder is read. */
  function Settled(e: Estimate, position: real, pi: real): Estimate
    requires pi > 0.0
  {
    Advance(e.(rotation := e.rotation + Wrap(position - e.previous, pi), previous := position, index := e.index + 1),
            pi)
  }

  function After(e: Estimate, positions: seq<real>, pi: real): Estimate
    requires pi > 0.0
  {
    if positions == [] then e
    else Settled(After(e, positions[..|positions| - 1], pi), positions[|positions| - 1], pi)
  }

  // ---------------------------------------------------------------------------
  // Wrapping
  // ---------------------------------------------------------------------------

  lemma QuotientOrder(y: real, t: real, n: real)
    requires t > 0.0
    ensures n <= y / t <==> n * t <= y
  {
    var x := y / t;
    assert x * t == y;
    ProductOrder(x, n, t);
  }

  lemma Residue(y: real, t: real)
    requires t > 0.0
    ensures 0.0 <= y - t * (y / t).Floor as real < t
  {
    var n := (y / t).Floor;
    QuotientOrder(y, t, n as real);
    QuotientOrder(y, t, n as real + 1.0);
    assert (n as real + 1.0) * t == n as real * t + t;
  }

  lemma WrapRange(delta: real, pi: real)
    requires pi > 0.0
    ensures -pi <= Wrap(delta, pi) < pi
  {
    Residue(delta + pi, 2.0 * pi);
  }

  lemma TurnsInQuotient(delta: real, k: int, pi: real)
    requires pi > 0.0
    ensures (delta + 2.0 * pi * k as real + pi) / (2.0 * pi) == (delta + pi) / (2.0 * pi) + k as real
  {
    var t := 2.0 * pi;
    assert (delta + pi + t * k as real) / t == (delta + pi) / t + t * k as real / t;
    assert t * k as real / t == k as real;
  }

  lemma FractionOfTurn(delta: real, pi: real)
    requires pi > 0.0 && -pi <= delta < pi
    ensures 0.0 <= (delta + pi) / (2.0 * pi) < 1.0
  {
    var t := 2.0 * pi;
    var x := (delta + pi) / t;
    assert x * t == delta + pi;
    if x < 0.0 {
      ProductOrder(x, 0.0, t);
    } else if x >= 1.0 {
      ProductOrder(1.0, x, t);
    }
  }

  lemma ProductOrder(x: real, y: real, t: real)
    requires t > 0.0
    ensures x < y <==> x * t < y * t
  {
    if x < y {
      assert (y - x) * t > 0.0;
    } else {
      assert (x - y) * t >= 0.0;
    }
  }

  /** Whole turns in a reading do not matter: a movement of less than half a turn is recovered exactly. */
  lemma WrapRecovers(reading: real, delta: real, k: int, pi: real)
    requires pi > 0.0 && -pi <= delta < pi && OffByTurns(reading, delta, k, pi)
    ensures Wrap(reading, pi) == delta
  {
    TurnsInQuotient(delta, k, pi);
    FractionOfTurn(delta, pi);
    var x := (delta + pi) / (2.0 * pi);
    assert (x + k as real).Floor == k;
  }

  // ---------------------------------------------------------------------------
  // Any rotor
  // ---------------------------------------------------------------------------

  /** Encoder readings of a rotor that is really at the given angles: each reading may be any number of whole
      turns off. */
  ghost predicate Reads(reading: real, angle: real, pi: real) {
    exists k: int :: OffByTurns(reading, angle, k, pi)
  }

  predicate OffByTurns(reading: real, angle: real, k: int, pi: real) {
    reading == angle + 2.0 * pi * k as real
  }

  lemma StepRecovered(r0: real, r1: real, a0: real, a1: real, pi: real)
    requires pi > 0.0 && Reads(r0, a0, pi) && Reads(r1, a1, pi) && -pi <= a1 - a0 < pi
    ensures Wrap(r1 - r0, pi) == a1 - a0
  {
    var k0: int :| OffByTurns(r0, a0, k0, pi);
    var k1: int :| OffByTurns(r1, a1, k1, pi);
    TurnsSubtract(r0, r1, a0, a1, k0, k1, pi);
    WrapRecovers(r1 - r0, a1 - a0, k1 - k0, pi);
  }

  lemma TurnsSubtract(r0: real, r1: real, a0: real, a1: real, k0: int, k1: int, pi: real)
    requires OffByTurns(r0, a0, k0, pi) && OffByTurns(r1, a1, k1, pi)
    ensures OffByTurns(r1 - r0, a1 - a0, k1 - k0, pi)
  {
  }

  /** The true angles at the start and after each step, no step being half a turn or more. */
  ghost predicate Follows(positions: seq<real>, angles: seq<real>, pi: real) {
    && |angles| == |positions| + 1
    && (forall i | 0 <= i < |positions| :: Reads(positions[i], angles[i + 1], pi))
    && (forall i | 0 <= i < |positions| :: -pi <= angles[i + 1] - angles[i] < pi)
  }

  lemma FollowsPrefix(positions: seq<real>, angles: seq<real>, pi: real)
    requires Follows(positions, angles, pi) && positions != []
    ensures Follows(positions[..|positions| - 1], angles[..|positions|], pi)
  {
    var (p, a) := (positions[..|positions| - 1], angles[..|positions|]);
    forall i | 0 <= i < |p|
      ensures Reads(p[i], a[i + 1], pi) && -pi <= a[i + 1] - a[i] < pi
    {
      assert p[i] == positions[i];
    }
  }

  /** The wrapped differences add up to the true rotation, however the encoder wraps. */
  lemma {:induction false} RotationIsTrue(e: Estimate, positions: seq<real>, angles: seq<real>, pi: real)
    requires pi > 0.0 && Follows(positions, angles, pi) && Reads(e.previous, angles[0], pi)
    ensures var f := After(e, positions, pi);
            && f.rotation == e.rotation + (angles[|positions|] - angles[0])
            && Reads(f.previous, angles[|positions|], pi) && f.index == e.index + |positions|
            && f.revolutions == e.revolutions
    decreases |positions|
  {
    var n := |positions|;
    if n > 0 {
      FollowsPrefix(positions, angles, pi);
      RotationIsTrue(e, positions[..n - 1], angles[..n], pi);
      var before := After(e, positions[..n - 1], pi);
      StepRecovered(before.previous, positions[n - 1], angles[n - 1], angles[n], pi);
    }
  }

  /** The estimate is answered at the last step of the last revolution, and before it nothing is. */
  lemma {:induction false} AnsweredAtTheEnd(e: Estimate, positions: seq<real>, pi: real)
    requires pi > 0.0 && e.pending.Some? && !e.stopped && e.index < e.revolutions * STEPS
    requires e.index + |positions| <= e.revolutions * STEPS
    ensures var f := After(e, positions, pi);
            && f.index == e.index + |positions| && f.revolutions == e.revolutions
            && (if f.index < e.revolutions * STEPS then f.pending == e.pending && f.answers == e.answers && !f.stopped
                else f.pending == None && f.stopped
                     && f.answers == e.answers + [Answer(e.pending.value, PolePairs(e.revolutions, f.rotation, pi))])
    decreases |positions|
  {
    if positions != [] {
      AnsweredAtTheEnd(e, positions[..|positions| - 1], pi);
    }
  }

  // ---------------------------------------------------------------------------
  // The ideal rotor
  // ---------------------------------------------------------------------------

  /** The mechanical angle of one step of the field for a rotor with so many pole pairs. */
  function StepAngle(polePairs: nat, pi: real): real
    requires polePairs > 0
  {
    2.0 * pi / 12.0 / polePairs as real
  }

  /** Where a rotor that follows the field exactly is before the first step and after step i - 1: the first step
      is at electrical angle 0, where it already was. The encoder may count either way. */
  function IdealAngle(start: real, forward: bool, step: real, i: nat): real {
    var moved := (if i == 0 then 0 else i - 1) as real * step;
    if forward then start + moved else start - moved
  }

  lemma StepAngleBounds(polePairs: nat, pi: real)
    requires polePairs > 0 && pi > 0.0
    ensures var u := StepAngle(polePairs, pi);
            0.0 < u < pi && polePairs as real * u == 2.0 * pi / 12.0
  {
    var (p, s) := (polePairs as real, 2.0 * pi / 12.0);
    var u := s / p;
    assert p * u == s;
    if u <= 0.0 {
      NotPositive(p, u);
    }
    assert u <= p * u by {
      assert (p - 1.0) * u >= 0.0;
    }
  }

  lemma NotPositive(p: real, u: real)
    requires p > 0.0 && u <= 0.0
    ensures p * u <= 0.0
  {
  }

  lemma IdealStep(start: real, forward: bool, step: real, i: nat)
    ensures var d := IdealAngle(start, forward, step, i + 1) - IdealAngle(start, forward, step, i);
            d == if i == 0 then 0.0 else if forward then step else -step
  {
  }

  function IdealAngles(start: real, forward: bool, step: real, n: nat): (angles: seq<real>)
    ensures |angles| == n + 1 && forall i | 0 <= i <= n :: angles[i] == IdealAngle(start, forward, step, i)
  {
    seq(n + 1, i requires 0 <= i => IdealAngle(start, forward, step, i))
  }

  lemma IdealFollows(positions: seq<real>, start: real, forward: bool, step: real, pi: real)
    requires 0.0 < step < pi
    requires forall i | 0 <= i < |positions| :: Reads(positions[i], IdealAngle(start, forward, step, i + 1), pi)
    ensures Follows(positions, IdealAngles(start, forward, step, |positions|), pi)
  {
    var a := IdealAngles(start, forward, step, |positions|);
    forall i | 0 <= i < |positions|
      ensures Reads(positions[i], a[i + 1], pi) && -pi <= a[i + 1] - a[i] < pi
    {
      IdealStep(start, forward, step, i);
    }
  }

  lemma Threshold(p: real, m: real, u: real, pi: real, x: real)
    requires u > 0.0 && p * u == 2.0 * pi / 12.0 && x == m * u
    ensures x > pi / 2.0 <==> m > 3.0 * p
  {
    var quarter := 3.0 * p * u;
    assert quarter == pi / 2.0;
    ProductOrder(3.0 * p, m, u);
  }

  lemma Third(p: real, m: real)
    requires 0.0 < p && 3.0 * p < m
    ensures 0.0 <= p / m < 1.0 / 3.0
  {
    QuotientOrder(p, m, 0.0);
    QuotientOrder(p, m, 1.0 / 3.0);
  }

  lemma Ratio(p: real, r: real, m: real, u: real, pi: real, x: real)
    requires p > 0.0 && m > 0.0 && u > 0.0 && pi > 0.0 && p * u == 2.0 * pi / 12.0 && m == 12.0 * r - 1.0
    requires x == m * u && x > 0.0
    ensures r / (x / (2.0 * pi)) == p + p / m
  {
    var t := 2.0 * pi;
    assert t == 12.0 * (p * u);
    var y := m * u / t;
    assert y * t == m * u;
  }

  lemma RoundsTo(n: nat, x: real)
    requires n as real <= x < n as real + 0.5
    ensures Round(x) == n
  {
  }

  lemma EstimateOf(polePairs: nat, revolutions: nat, u: real, pi: real, x: real)
    requires polePairs > 0 && revolutions > 0 && pi > 0.0 && u > 0.0 && polePairs as real * u == 2.0 * pi / 12.0
    requires x == (12 * revolutions - 1) as real * u && x > 0.0
    ensures x > pi / 2.0 <==> 3 * polePairs < 12 * revolutions - 1
    ensures 3 * polePairs < 12 * revolutions - 1 ==> Round(revolutions as real / (x / (2.0 * pi))) == polePairs
  {
    var m := (12 * revolutions - 1) as real;
    Threshold(polePairs as real, m, u, pi, x);
    if 3 * polePairs < 12 * revolutions - 1 {
      Ratio(polePairs as real, revolutions as real, m, u, pi, x);
      Third(polePairs as real, m);
      RoundsTo(polePairs, polePairs as real + polePairs as real / m);
    }
  }

  /** The estimate from a rotation by 12 R - 1 steps of an ideal rotor. */
  lemma IdealEstimate(polePairs: nat, revolutions: nat, rotation: real, u: real, pi: real)
    requires polePairs > 0 && revolutions > 0 && pi > 0.0 && u > 0.0 && polePairs as real * u == 2.0 * pi / 12.0
    requires Abs(rotation) == (12 * revolutions - 1) as real * u
    ensures PolePairs(revolutions, rotation, pi)
         == if 3 * polePairs < 12 * revolutions - 1 then Some(polePairs) else None
  {
    assert (12 * revolutions - 1) as real * u > 0.0;
    EstimateOf(polePairs, revolutions, u, pi, Abs(rotation));
  }

  lemma IdealRotation(rotation: real, start: real, forward: bool, step: real, n: nat)
    requires n > 0 && step > 0.0
    requires rotation == IdealAngle(start, forward, step, n) - IdealAngle(start, forward, step, 0)
    ensures Abs(rotation) == (n - 1) as real * step
  {
    assert (n - 1) as real * step >= 0.0;
  }

  lemma RotationFromRest(e: Estimate, positions: seq<real>, angles: seq<real>, pi: real) returns (f: Estimate)
    requires pi > 0.0 && Follows(positions, angles, pi) && Reads(e.previous, angles[0], pi) && e.rotation == 0.0
    ensures f == After(e, positions, pi) && f.rotation == angles[|positions|] - angles[0]
  {
    RotationIsTrue(e, positions, angles, pi);
    f := After(e, positions, pi);
  }

  lemma DistanceOfIdeal(angles: seq<real>, start: real, forward: bool, step: real, n: nat) returns (rotation: real)
    requires n > 0 && step > 0.0 && angles == IdealAngles(start, forward, step, n)
    ensures angles[0] == start && rotation == angles[n] - angles[0] && Abs(rotation) == (n - 1) as real * step
  {
    IdealStart(start, forward, step);
    rotation := angles[n] - angles[0];
    IdealRotation(rotation, start, forward, step, n);
  }

  lemma IdealRun(e: Estimate, positions: seq<real>, start: real, forward: bool, step: real, pi: real)
    returns (f: Estimate, rotation: real)
    requires 0.0 < step < pi && positions != [] && Reads(e.previous, start, pi) && e.rotation == 0.0
    requires Follows(positions, IdealAngles(start, forward, step, |positions|), pi)
    ensures f == After(e, positions, pi) && f.rotation == rotation
    ensures Abs(rotation) == (|positions| - 1) as real * step
  {
    var angles := IdealAngles(start, forward, step, |positions|);
    rotation := DistanceOfIdeal(angles, start, forward, step, |positions|);
    f := RotationFromRest(e, positions, angles, pi);
  }

  lemma IdealStart(start: real, forward: bool, step: real)
    ensures IdealAngle(start, forward, step, 0) == start
  {
  }

  lemma AnswerWith(e: Estimate, positions: seq<real>, rotation: real, verdict: Option<int>, pi: real)
    requires pi > 0.0 && e.pending.Some? && !e.stopped && e.index == 0 < |positions| == 12 * e.revolutions
    requires After(e, positions, pi).rotation == rotation && PolePairs(e.revolutions, rotation, pi) == verdict
    ensures !After(e, positions[..|positions| - 1], pi).stopped && After(e, positions, pi).stopped
    ensures After(e, positions, pi).answers == e.answers + [Answer(e.pending.value, verdict)]
  {
    AnsweredAtTheEnd(e, positions[..|positions| - 1], pi);
    AnsweredAtTheEnd(e, positions, pi);
  }

  lemma IdealVerdict(e: Estimate, polePairs: nat, positions: seq<real>, start: real, forward: bool, step: real,
                     pi: real)
    returns (rotation: real)
    requires polePairs > 0 && pi > 0.0 && 0.0 < step < pi && polePairs as real * step == 2.0 * pi / 12.0
    requires Reads(e.previous, start, pi) && e.rotation == 0.0 && 0 < |positions| == 12 * e.revolutions
    requires Follows(positions, IdealAngles(start, forward, step, |positions|), pi)
    ensures After(e, positions, pi).rotation == rotation
    ensures PolePairs(e.revolutions, rotation, pi)
         == if 3 * polePairs < 12 * e.revolutions - 1 then Some(polePairs) else None
  {
    var f;
    f, rotation := IdealRun(e, positions, start, forward, step, pi);
    IdealEstimate(polePairs, e.revolutions, rotation, step, pi);
  }

  /** For an ideal rotor with P pole pairs, R revolutions of the field take exactly 12 R encoder samples, and P is
      reported when 3 P < 12 R - 1, and otherwise nothing. */
  lemma IdealRotor(polePairs: nat, revolutions: nat, start: real, forward: bool, initial: real,
                   positions: seq<real>, command: nat, answers: seq<Answer>, pi: real)
    requires polePairs > 0 && revolutions > 0 && pi > 0.0 && |positions| == 12 * revolutions
    requires Reads(initial, start, pi)
    requires forall i | 0 <= i < |positions| ::
               Reads(positions[i], IdealAngle(start, forward, StepAngle(polePairs, pi), i + 1), pi)
    ensures var e := Start(revolutions, initial, command, answers, pi);
            && !After(e, positions[..|positions| - 1], pi).stopped
            && After(e, positions, pi).stopped && After(e, positions, pi).answers == answers +
              [Answer(command, if 3 * polePairs < 12 * revolutions - 1 then Some(polePairs) else None)]
  {
    var e := Start(revolutions, initial, command, answers, pi);
    StepAngleBounds(polePairs, pi);
    IdealFollows(positions, start, forward, StepAngle(polePairs, pi), pi);
    var rotation := IdealVerdict(e, polePairs, positions, start, forward, StepAngle(polePairs, pi), pi);
    AnswerWith(e, positions, rotation, if 3 * polePairs < 12 * revolutions - 1 then Some(polePairs) else None, pi);
  }
}
