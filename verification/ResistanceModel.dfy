/** Resistance and inductance from the current's answer to a voltage step: a moving average over the raw samples,
    a steady-state mean over the last tenth, and the time constant from the first sample at 63.2 percent of it. */
module ResistanceModel {
  import opened Basics

  const SAMPLES := 123              // filtered samples: 128 less the length of the average
  const AVERAGE := 5
  const LAST := 110                 // nine tenths of the filtered samples, truncated
  const PERIOD := 1.0 / 10000.0     // of the sampling, in seconds
  const THRESHOLD := 0.632

  function Sum(s: seq<real>): real {
    if s == [] then 0.0 else Sum(s[..|s| - 1]) + s[|s| - 1]
  }

  function Mean(s: seq<real>): real
    requires s != []
  {
    Sum(s) / |s| as real
  }

  function SteadyState(samples: seq<real>): real
    requires |samples| == SAMPLES
  {
    Mean(samples[LAST..])
  }

  /** The index of the first sample that reaches the target. */
  function FirstAtLeast(samples: seq<real>, target: real): (i: nat)
    ensures i <= |samples|
    ensures forall j | 0 <= j < i :: samples[j] < target
    ensures i < |samples| ==> samples[i] >= target
  {
    if samples == [] || samples[0] >= target then 0 else FirstAtLeast(samples[1..], target) + 1
  }

  /** The delay of the average is taken off where there is enough of it. */
  function TauAt(i: nat): real {
    if i >= AVERAGE then (i - AVERAGE) as real else i as real
  }

  function Tau(samples: seq<real>, steady: real): Option<real> {
    var i := FirstAtLeast(samples, THRESHOLD * steady);
    if i < |samples| then Some(TauAt(i)) else None
  }

  datatype Answer = Answer(command: nat, resistance: Option<real>, inductance: Option<real>)

  datatype Measurement = Measurement(
    voltage: real, raw: seq<real>, filtered: seq<real>, stopped: bool, pending: Option<nat>, answers: seq<Answer>)
  {
    predicate Running() {
      !stopped && |raw| < AVERAGE && |filtered| < SAMPLES && pending.Some?
    }
  }

  function TestVoltage(percent: real, vdc: real): real {
    percent * vdc / 100.0
  }

  function Start(voltage: real, command: nat, answers: seq<Answer>): Measurement {
    Measurement(voltage, [], [], false, Some(command), answers)
  }

  function CalculateResistance(voltage: real, current: real): real
    requires current > 0.0
  {
    voltage / current
  }

  /** In millihenry, for a time constant in sampling periods. */
  function CalculateInductance(resistance: real, tau: real): real {
    resistance * tau * PERIOD * 1000.0
  }

  /** What the analysis answers. */
  function Verdict(voltage: real, filtered: seq<real>): (Option<real>, Option<real>)
    requires |filtered| == SAMPLES
  {
    var steady := SteadyState(filtered);
    if steady <= 0.0 then (None, None)
    else
      var resistance := CalculateResistance(voltage, steady);
      match Tau(filtered, steady)
      case None => (None, None)
      case Some(tau) => (Some(resistance), Some(CalculateInductance(resistance, tau)))
  }

  function Analyze(m: Measurement): Measurement
    requires |m.filtered| == SAMPLES && m.pending.Some?
  {
    var (r, l) := Verdict(m.voltage, m.filtered);
    m.(stopped := true, filtered := if SteadyState(m.filtered) <= 0.0 then m.filtered else [],
       pending := None, answers := m.answers + [Answer(m.pending.value, r, l)])
  }

  /** A current sample. A stopped inverter delivers none. */
  function Sample(m: Measurement, current: real): Measurement
    requires m.Running()
  {
    var raw := m.raw + [current];
    if |raw| < AVERAGE then m.(raw := raw)
    else
      var n := m.(raw := raw[1..], filtered := m.filtered + [Mean(raw)]);
      if |n.filtered| == SAMPLES then Analyze(n) else n
  }

  function Samples(m: Measurement, currents: seq<real>): (n: Measurement)
    requires m.Running()
    ensures !n.stopped ==> n.Running()
    decreases |currents|
  {
    if currents == [] then m
    else
      var n := Samples(m, currents[..|currents| - 1]);
      if n.stopped then n else Sample(n, currents[|currents| - 1])
  }

  // ---------------------------------------------------------------------------
  // The moving average
  // ---------------------------------------------------------------------------

  /** The means of all windows of the stream. */
  function Averages(currents: seq<real>): (means: seq<real>)
    ensures |means| == if |currents| < AVERAGE then 0 else |currents| - (AVERAGE - 1)
    ensures forall k | 0 <= k < |means| :: means[k] == Mean(currents[k..k + AVERAGE])
  {
    seq(if |currents| < AVERAGE then 0 else |currents| - (AVERAGE - 1),
        k requires 0 <= k && k + AVERAGE <= |currents| => Mean(currents[k..k + AVERAGE]))
  }

  lemma AveragesSnoc(currents: seq<real>)
    requires |currents| >= AVERAGE
    ensures var n := |currents|;
            Averages(currents) == Averages(currents[..n - 1]) + [Mean(currents[n - AVERAGE..])]
  {
    var n := |currents|;
    var (a, b) := (Averages(currents), Averages(currents[..n - 1]) + [Mean(currents[n - AVERAGE..])]);
    forall k | 0 <= k < |a|
      ensures a[k] == b[k]
    {
      if k < |a| - 1 {
        WindowOfPrefix(currents, n - 1, k);
      } else {
        assert currents[k..k + AVERAGE] == currents[n - AVERAGE..];
      }
    }
  }

  lemma WindowOfPrefix(currents: seq<real>, n: nat, k: nat)
    requires k + AVERAGE <= n <= |currents|
    ensures currents[..n][k..k + AVERAGE] == currents[k..k + AVERAGE]
  {
  }

  const RAW_SAMPLES := 127

  function Tail(currents: seq<real>): seq<real> {
    if |currents| < AVERAGE then currents else currents[|currents| - (AVERAGE - 1)..]
  }

  /** Before the 127th raw sample the filtered samples are the means of the windows of the whole stream. */
  lemma {:induction false} FilteredIsAverages(voltage: real, command: nat, answers: seq<Answer>, currents: seq<real>)
    requires |currents| < RAW_SAMPLES
    ensures var m := Samples(Start(voltage, command, answers), currents);
            && m == Start(voltage, command, answers).(raw := Tail(currents), filtered := Averages(currents))
    decreases |currents|
  {
    var n := |currents|;
    if n > 0 {
      FilteredIsAverages(voltage, command, answers, currents[..n - 1]);
      if n >= AVERAGE {
        AveragesSnoc(currents);
        assert Tail(currents[..n - 1]) + [currents[n - 1]] == currents[n - AVERAGE..];
        assert currents[n - AVERAGE..][1..] == Tail(currents);
      } else {
        assert Tail(currents[..n - 1]) + [currents[n - 1]] == currents;
      }
    }
  }

  /** The analysis fires at the 127th raw sample, over the 123 means of five successive samples, and the service is
      answered once. */
  lemma FiresAt127(voltage: real, command: nat, answers: seq<Answer>, currents: seq<real>)
    requires |currents| == RAW_SAMPLES
    ensures |Averages(currents)| == SAMPLES
    ensures var m := Samples(Start(voltage, command, answers), currents);
            && m.stopped && m.pending == None
            && m.answers == answers + [Answer(command, Verdict(voltage, Averages(currents)).0,
                                              Verdict(voltage, Averages(currents)).1)]
  {
    FilteredIsAverages(voltage, command, answers, currents[..126]);
    AveragesSnoc(currents);
    assert Tail(currents[..126]) + [currents[126]] == currents[122..];
  }

  // ---------------------------------------------------------------------------
  // The search
  // ---------------------------------------------------------------------------

  lemma {:induction false} BelowSum(s: seq<real>, t: real)
    requires s != [] && forall i | 0 <= i < |s| :: s[i] < t
    ensures Sum(s) < |s| as real * t
    decreases |s|
  {
    if |s| == 1 {
      assert s[..0] == [];
    } else {
      BelowSum(s[..|s| - 1], t);
      assert (|s| - 1) as real * t + t == |s| as real * t;
    }
  }

  lemma MeanOfSum(s: seq<real>)
    requires s != []
    ensures |s| as real * Mean(s) == Sum(s)
  {
  }

  /** Some element is at least the mean. */
  lemma AtLeastMean(s: seq<real>) returns (i: nat)
    requires s != []
    ensures i < |s| && s[i] >= Mean(s)
  {
    if forall j | 0 <= j < |s| :: s[j] < Mean(s) {
      BelowSum(s, Mean(s));
      MeanOfSum(s);
      assert false;
    }
    i :| 0 <= i < |s| && s[i] >= Mean(s);
  }

  lemma BelowTarget(steady: real)
    requires steady > 0.0
    ensures THRESHOLD * steady < steady
  {
  }

  /** With a positive steady state the search always finds a sample, so there is a time constant. */
  lemma TauFound(filtered: seq<real>)
    requires |filtered| == SAMPLES && SteadyState(filtered) > 0.0
    ensures Tau(filtered, SteadyState(filtered)).Some?
    ensures 0.0 <= Tau(filtered, SteadyState(filtered)).value <= 117.0
  {
    var steady := SteadyState(filtered);
    var i := AtLeastMean(filtered[LAST..]);
    BelowTarget(steady);
    assert filtered[LAST + i] >= THRESHOLD * steady;
    var first := FirstAtLeast(filtered, THRESHOLD * steady);
    assert first <= LAST + i;
  }

  /** The answer is a number exactly when the steady state is positive: the branch for a missing time constant is
      never taken. With a positive voltage the resistance is positive and the inductance is not negative. */
  lemma AnswerIff(voltage: real, filtered: seq<real>)
    requires |filtered| == SAMPLES
    ensures var (r, l) := Verdict(voltage, filtered);
            && (r.Some? <==> SteadyState(filtered) > 0.0) && (l.Some? <==> SteadyState(filtered) > 0.0)
            && (r.Some? && voltage > 0.0 ==> r.value > 0.0 && l.value >= 0.0)
            && (r.Some? ==> r.value * SteadyState(filtered) == voltage)
  {
    var steady := SteadyState(filtered);
    if steady > 0.0 {
      TauFound(filtered);
      Quotient(voltage, steady);
      if voltage > 0.0 {
        NonNegative(voltage / steady, Tau(filtered, steady).value);
      }
    }
  }

  lemma Quotient(voltage: real, steady: real)
    requires steady > 0.0
    ensures voltage / steady * steady == voltage && (voltage > 0.0 ==> voltage / steady > 0.0)
  {
  }

  /** The index of the first mean at 63.2 percent of the steady state. */
  predicate FirstReached(filtered: seq<real>, steady: real, i: nat) {
    && i < |filtered| && filtered[i] >= 0.632 * steady
    && forall j | 0 <= j < i :: filtered[j] < 0.632 * steady
  }

  /** The inductance, in millihenry, over the resistance is the time constant in milliseconds: a tenth for each
      sample up to the first mean at 63.2 percent, less the five of the average where there are as many. */
  lemma TimeConstant(voltage: real, filtered: seq<real>) returns (i: nat)
    requires |filtered| == 123 && SteadyState(filtered) > 0.0
    ensures FirstReached(filtered, SteadyState(filtered), i)
    ensures var (r, l) := Verdict(voltage, filtered);
            && r.Some? && l.Some?
            && l.value == r.value * ((if i >= 5 then i - 5 else i) as real / 10.0)
  {
    var steady := SteadyState(filtered);
    TauFound(filtered);
    i := FirstAtLeast(filtered, THRESHOLD * steady);
    Millihenries(voltage / steady, TauAt(i));
  }

  /** The resistance, for a test voltage of so many percent of the supply: 100 steady states times the resistance are
      the percent times the supply. */
  lemma OhmsLaw(percent: real, vdc: real, filtered: seq<real>)
    requires |filtered| == 123 && SteadyState(filtered) > 0.0
    ensures var r := Verdict(TestVoltage(percent, vdc), filtered).0;
            r.Some? && 100.0 * (r.value * SteadyState(filtered)) == percent * vdc
  {
    AnswerIff(TestVoltage(percent, vdc), filtered);
  }

  /** The steady state is the mean of the samples from 110 on. */
  lemma SteadyMean(filtered: seq<real>)
    requires |filtered| == 123
    ensures 13.0 * SteadyState(filtered) == Sum(filtered[110..])
  {
    MeanOfSum(filtered[110..]);
  }

  lemma Millihenries(r: real, tau: real)
    ensures CalculateInductance(r, tau) == r * (tau / 10.0)
  {
    assert r * tau * PERIOD * 1000.0 == r * tau / 10.0;
  }

  lemma NonNegative(r: real, tau: real)
    requires r > 0.0 && tau >= 0.0
    ensures CalculateInductance(r, tau) >= 0.0
  {
    assert r * tau >= 0.0;
  }
}
