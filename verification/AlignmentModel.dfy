/** Aligning the rotor to a fixed field: it has settled when enough successive encoder readings barely differ. */
module AlignmentModel {
  import opened Basics

  datatype Config = Config(maxSamples: nat, settledThreshold: real, settledCount: nat)

  datatype Answer = Answer(command: nat, offset: Option<real>)

  datatype Alignment = Alignment(
    polePairs: nat, config: Config, index: nat, settled: nat, previous: real, stopped: bool,
    pending: Option<nat>, answers: seq<Answer>)

  /** At one sample the encoder is read, and once more if the rotor has settled. */
  datatype Sample = Sample(position: real, aligned: real)

  function Distance(x: real, y: real): real { if x < y then y - x else x - y }

  /** A second request while one is pending is ignored. */
  function ForceAlignment(a: Alignment, polePairs: nat, config: Config, position: real, command: nat): Alignment {
    if a.pending.Some? then a
    else Alignment(polePairs, config, 0, 0, position, false, Some(command), a.answers)
  }

  function Offset(position: real, polePairs: nat): real {
    position * polePairs as real
  }

  /** Stop, and answer if nobody has. */
  function Finish(a: Alignment, offset: Option<real>): Alignment {
    var stopped := a.(stopped := true);
    match a.pending
    case None => stopped
    case Some(command) => stopped.(pending := None, answers := a.answers + [Answer(command, offset)])
  }

  function ProcessPosition(a: Alignment, s: Sample): Alignment {
    var b :=
      if Distance(s.position, a.previous) < a.config.settledThreshold then
        var c := a.(settled := a.settled + 1);
        if c.settled >= a.config.settledCount then Finish(c, Some(Offset(s.aligned, a.polePairs))) else c
      else a.(settled := 0);
    b.(previous := s.position)
  }

  function OnSample(a: Alignment, s: Sample): Alignment {
    var b := a.(index := a.index + 1);
    if b.index >= a.config.maxSamples then Finish(b, None) else ProcessPosition(b, s)
  }

  function After(a: Alignment, ss: seq<Sample>): Alignment {
    if ss == [] then a else OnSample(After(a, ss[..|ss| - 1]), ss[|ss| - 1])
  }

  // ---------------------------------------------------------------------------
  // The trace specification
  // ---------------------------------------------------------------------------

  function Max(x: nat, y: nat): nat { if x < y then y else x }

  function Previous(start: real, ss: seq<Sample>): real {
    if ss == [] then start else ss[|ss| - 1].position
  }

  /** Sample i is settled when it is close to the one before, on either side of it. */
  predicate Settled(start: real, ss: seq<Sample>, threshold: real, i: nat)
    requires i < |ss|
  {
    -threshold < ss[i].position - Previous(start, ss[..i]) < threshold
  }

  predicate LastSettled(start: real, ss: seq<Sample>, threshold: real, n: nat, count: nat)
    requires count <= n <= |ss|
  {
    forall i | n - count <= i < n :: Settled(start, ss, threshold, i)
  }

  /** The last count of the first n samples are all settled. */
  predicate Converges(start: real, ss: seq<Sample>, config: Config, n: nat)
    requires n <= |ss|
  {
    var count := Max(1, config.settledCount);
    count <= n && LastSettled(start, ss, config.settledThreshold, n, count)
  }

  /** The first n in 1..limit at which the trace converges, or limit. */
  function FirstConverged(start: real, ss: seq<Sample>, config: Config, limit: nat): (n: nat)
    requires 1 <= limit <= |ss| + 1
    ensures 1 <= n <= limit && (n < limit ==> Converges(start, ss, config, n))
    ensures forall m | 1 <= m < n :: !Converges(start, ss, config, m)
  {
    if limit == 1 then 1
    else
      var n := FirstConverged(start, ss, config, limit - 1);
      if n < limit - 1 || Converges(start, ss, config, limit - 1) then n else limit
  }

  /** What a trace is answered: the sample at which it first converged, if that was before the limit on samples,
      otherwise nothing once the limit is reached. */
  function Verdict(start: real, ss: seq<Sample>, config: Config): (v: Option<Option<nat>>)
    ensures v.Some? && v.value.Some? ==> v.value.value < |ss|
  {
    var max := Max(1, config.maxSamples);
    var limit := if |ss| < max then |ss| + 1 else max;
    var n := FirstConverged(start, ss, config, limit);
    if n < limit then Some(Some(n - 1))
    else if limit == max && |ss| >= max then Some(None)
    else None
  }

  /** The length of the settled run at the end of a trace. */
  function Run(start: real, ss: seq<Sample>, threshold: real): nat {
    if ss == [] || !Settled(start, ss, threshold, |ss| - 1) then 0 else Run(start, ss[..|ss| - 1], threshold) + 1
  }

  lemma SettledPrefix(start: real, ss: seq<Sample>, threshold: real, i: nat, n: nat)
    requires i < n <= |ss|
    ensures Settled(start, ss[..n], threshold, i) == Settled(start, ss, threshold, i)
  {
    assert ss[..n][..i] == ss[..i];
  }

  lemma LastSettledPrefix(start: real, ss: seq<Sample>, threshold: real, n: nat, count: nat)
    requires count <= n <= |ss|
    ensures LastSettled(start, ss[..n], threshold, n, count) == LastSettled(start, ss, threshold, n, count)
  {
    forall i | n - count <= i < n
      ensures Settled(start, ss[..n], threshold, i) == Settled(start, ss, threshold, i)
    {
      SettledPrefix(start, ss, threshold, i, n);
    }
  }

  lemma OneMoreSettled(start: real, ss: seq<Sample>, threshold: real, n: nat, count: nat)
    requires 0 < count <= n <= |ss|
    ensures LastSettled(start, ss, threshold, n, count)
       <==> Settled(start, ss, threshold, n - 1) && LastSettled(start, ss, threshold, n - 1, count - 1)
  {
  }

  lemma {:induction false} RunMeans(start: real, ss: seq<Sample>, threshold: real, count: nat)
    requires count <= |ss|
    ensures Run(start, ss, threshold) >= count <==> LastSettled(start, ss, threshold, |ss|, count)
    decreases |ss|
  {
    var n := |ss|;
    if count > 0 {
      OneMoreSettled(start, ss, threshold, n, count);
      LastSettledPrefix(start, ss, threshold, n - 1, count - 1);
      if Settled(start, ss, threshold, n - 1) {
        RunMeans(start, ss[..n - 1], threshold, count - 1);
      }
    }
  }

  lemma {:induction false} RunBound(start: real, ss: seq<Sample>, threshold: real)
    ensures Run(start, ss, threshold) <= |ss|
    decreases |ss|
  {
    if ss != [] {
      RunBound(start, ss[..|ss| - 1], threshold);
    }
  }

  lemma ConvergesIffRun(start: real, ss: seq<Sample>, config: Config)
    ensures Converges(start, ss, config, |ss|)
       <==> Run(start, ss, config.settledThreshold) >= Max(1, config.settledCount)
  {
    RunBound(start, ss, config.settledThreshold);
    if Max(1, config.settledCount) <= |ss| {
      RunMeans(start, ss, config.settledThreshold, Max(1, config.settledCount));
    }
  }

  // ---------------------------------------------------------------------------
  // The machine follows it
  // ---------------------------------------------------------------------------

  /** While nothing is answered, the counters are those of the trace. */
  predicate Tracks(a: Alignment, first: Alignment, start: real, ss: seq<Sample>) {
    a == first.(index := |ss|, settled := Run(start, ss, first.config.settledThreshold),
                previous := Previous(start, ss))
  }

  lemma ConvergesPrefix(start: real, ss: seq<Sample>, config: Config, n: nat, m: nat)
    requires m <= n <= |ss|
    ensures Converges(start, ss[..n], config, m) == Converges(start, ss, config, m)
  {
    var count := Max(1, config.settledCount);
    if count <= m {
      assert ss[..n][..m] == ss[..m];
      LastSettledPrefix(start, ss, config.settledThreshold, m, count);
      LastSettledPrefix(start, ss[..n], config.settledThreshold, m, count);
    }
  }

  lemma {:induction false} FirstOfPrefix(start: real, ss: seq<Sample>, config: Config, n: nat, limit: nat)
    requires n <= |ss| && 1 <= limit <= n + 1
    ensures FirstConverged(start, ss[..n], config, limit) == FirstConverged(start, ss, config, limit)
    decreases limit
  {
    if limit > 1 {
      FirstOfPrefix(start, ss, config, n, limit - 1);
      ConvergesPrefix(start, ss, config, n, limit - 1);
    }
  }

  /** How one more sample changes the verdict: once there is one it stays. */
  lemma VerdictStep(start: real, ss: seq<Sample>, config: Config)
    requires ss != []
    ensures var (n, max) := (|ss|, Max(1, config.maxSamples));
            var before := Verdict(start, ss[..n - 1], config);
            var now := Verdict(start, ss, config);
            if before.Some? then now == before
            else n <= max && now == if n == max then Some(None)
                                    else if Converges(start, ss, config, n) then Some(Some(n - 1))
                                    else None
  {
    var n, max := |ss|, Max(1, config.maxSamples);
    FirstOfPrefix(start, ss, config, n - 1, if n - 1 < max then n else max);
  }

  /** Once answered, further samples are not. */
  lemma Silent(a: Alignment, s: Sample)
    requires a.pending == None
    ensures OnSample(a, s).pending == None && OnSample(a, s).answers == a.answers
  {
  }

  lemma StepWhilePending(a: Alignment, first: Alignment, start: real, ss: seq<Sample>)
    requires ss != [] && first.pending.Some? && Tracks(a, first, start, ss[..|ss| - 1])
    ensures var b := OnSample(a, ss[|ss| - 1]);
            var c := first.config;
            if |ss| >= c.maxSamples then
              b.pending == None && b.stopped && b.answers == first.answers + [Answer(first.pending.value, None)]
            else if Converges(start, ss, c, |ss|) then
              && b.pending == None && b.stopped
              && b.answers == first.answers +
                   [Answer(first.pending.value, Some(Offset(ss[|ss| - 1].aligned, first.polePairs)))]
            else Tracks(b, first, start, ss)
  {
    ConvergesIffRun(start, ss, first.config);
  }

  lemma {:induction false} Follows(first: Alignment, ss: seq<Sample>)
    requires first.pending.Some? && first.index == 0 && first.settled == 0
    ensures var v := Verdict(first.previous, ss, first.config);
            var a := After(first, ss);
            match v
            case None => Tracks(a, first, first.previous, ss)
            case Some(None) =>
              a.pending == None && a.answers == first.answers + [Answer(first.pending.value, None)]
            case Some(Some(i)) =>
              && a.pending == None
              && a.answers == first.answers
                   + [Answer(first.pending.value, Some(Offset(ss[i].aligned, first.polePairs)))]
    decreases |ss|
  {
    if ss != [] {
      var n := |ss|;
      Follows(first, ss[..n - 1]);
      VerdictStep(first.previous, ss, first.config);
      if Verdict(first.previous, ss[..n - 1], first.config).Some? {
        Silent(After(first, ss[..n - 1]), ss[n - 1]);
      } else {
        StepWhilePending(After(first, ss[..n - 1]), first, first.previous, ss);
      }
    }
  }

  /** For any settings and any stream of samples, alignment answers what the trace says, exactly once however many
      samples follow, and nothing before: the second reading at the sample of the verdict, times the pole pairs. */
  lemma FollowsTrace(first: Alignment, ss: seq<Sample>)
    requires first.pending.Some? && first.index == 0 && first.settled == 0
    ensures var v := Verdict(first.previous, ss, first.config);
            var a := After(first, ss);
            match v
            case None => a.pending == first.pending && a.answers == first.answers
            case Some(None) =>
              a.pending == None && a.answers == first.answers + [Answer(first.pending.value, None)]
            case Some(Some(i)) =>
              && a.pending == None && |a.answers| == |first.answers| + 1
              && var answer := a.answers[|first.answers|];
                 && a.answers == first.answers + [answer] && answer.command == first.pending.value
                 && answer.offset.Some? && answer.offset.value == ss[i].aligned * first.polePairs as real
  {
    Follows(first, ss);
  }

  /** An alignment that is asked for while none is pending starts its trace afresh, at the position read then and
      with the settings given, whatever the service did before. */
  lemma AsksAfresh(a: Alignment, polePairs: nat, config: Config, position: real, command: nat)
    requires a.pending == None
    ensures var first := ForceAlignment(a, polePairs, config, position, command);
            && first.pending == Some(command) && first.index == 0 && first.settled == 0 && !first.stopped
            && first.previous == position && first.config == config && first.polePairs == polePairs
            && first.answers == a.answers
  {
  }

  // ---------------------------------------------------------------------------
  // Turning the other way
  // ---------------------------------------------------------------------------

  function MirroredAnswers(answers: seq<Answer>): seq<Answer> {
    if answers == [] then []
    else
      var last := answers[|answers| - 1];
      MirroredAnswers(answers[..|answers| - 1])
      + [last.(offset := if last.offset.None? then None else Some(-last.offset.value))]
  }

  function MirroredSamples(ss: seq<Sample>): (r: seq<Sample>)
    ensures |r| == |ss|
  {
    if ss == [] then []
    else
      var last := ss[|ss| - 1];
      MirroredSamples(ss[..|ss| - 1]) + [Sample(-last.position, -last.aligned)]
  }

  function Mirrored(a: Alignment): Alignment {
    a.(previous := -a.previous, answers := MirroredAnswers(a.answers))
  }

  lemma MirroredSnoc(answers: seq<Answer>, a: Answer)
    ensures MirroredAnswers(answers + [a]) == MirroredAnswers(answers)
                                              + [a.(offset := if a.offset.None? then None else Some(-a.offset.value))]
  {
    assert (answers + [a])[..|answers|] == answers;
  }

  lemma MirroredOffset(position: real, polePairs: nat)
    ensures Offset(-position, polePairs) == -Offset(position, polePairs)
  {
  }

  lemma MirroredStep(a: Alignment, s: Sample)
    ensures OnSample(Mirrored(a), Sample(-s.position, -s.aligned)) == Mirrored(OnSample(a, s))
  {
    if a.pending.Some? {
      MirroredSnoc(a.answers, Answer(a.pending.value, None));
      MirroredSnoc(a.answers, Answer(a.pending.value, Some(Offset(s.aligned, a.polePairs))));
      MirroredOffset(s.aligned, a.polePairs);
    }
  }

  /** With all readings mirrored the answer is mirrored: it does not matter which way the rotor turns. */
  lemma {:induction false} MirroredRun(a: Alignment, ss: seq<Sample>)
    ensures After(Mirrored(a), MirroredSamples(ss)) == Mirrored(After(a, ss))
    decreases |ss|
  {
    if ss != [] {
      var before, last := ss[..|ss| - 1], ss[|ss| - 1];
      MirroredRun(a, before);
      MirroredStep(After(a, before), last);
      assert MirroredSamples(ss)[..|ss| - 1] == MirroredSamples(before);
    }
  }
}
