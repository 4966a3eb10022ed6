/** Lifecycle safety: any interleaving of commands, faults and callbacks, however stale or repeated. */
module LifecycleRuns {
  import opened Basics
  import opened RecordLayout
  import opened LifecycleModel

  predicate Starting(m: Machine) {
    m.state.Idle? && m.pending == None && !m.drive.started && m.answers == []
  }

  /** The run of a machine; a command is numbered by its place in the run. */
  function After(start: Machine, es: seq<Event>): Machine {
    if es == [] then start else Step(After(start, es[..|es| - 1]), es[|es| - 1], |es| - 1)
  }

  function Count(answers: seq<Reply>, id: nat): nat {
    if answers == [] then 0
    else Count(answers[..|answers| - 1], id) + if answers[|answers| - 1].command == id then 1 else 0
  }

  /** How often a command of the run should have been answered by now. */
  function Due(m: Machine, es: seq<Event>, id: nat): nat {
    if id < |es| && IsCommand(es[id]) && m.pending != Some(id) then 1 else 0
  }

  ghost predicate Safe(m: Machine, es: seq<Event>) {
    && (m.drive.started <==> m.state.Enabled?)
    && (m.state.Calibrating? ==> m.pending.Some?)
    && (m.state.Fault? ==> m.pending == None && m.lastFault == m.state.code)
    && (m.pending.Some? ==> m.pending.value < |es| && IsCommand(es[m.pending.value]))
    && (forall id: nat :: Count(m.answers, id) == Due(m, es, id))
  }

  /** The list of answers grows by what one step answers. */
  predicate Answered(m: Machine, n: Machine, id: nat, result: CommandResult) {
    n.answers == m.answers + [Reply(id, result)]
  }

  /** Every step answers nothing, refuses the command it carries, or settles the pending command. */
  ghost predicate Stepped(m: Machine, n: Machine, e: Event, k: nat) {
    || (n.answers == m.answers && n.pending == m.pending && !IsCommand(e))
    || (n.answers == m.answers && n.pending == Some(k) && IsCommand(e) && Accepts(m))
    || (Answered(m, n, k, Rejected) && n.pending == m.pending && IsCommand(e) && !Accepts(m))
    || (m.pending.Some? && n.pending == None && !IsCommand(e)
        && exists r :: r != Rejected && Answered(m, n, m.pending.value, r))
  }

  lemma StepAnswers(m: Machine, e: Event, k: nat)
    ensures Stepped(m, Step(m, e, k), e, k)
  {
    var n := Step(m, e, k);
    if m.pending.Some? && n.pending == None {
      assert Answered(m, n, m.pending.value, n.answers[|m.answers|].result);
    }
  }

  lemma StepModes(m: Machine, e: Event, k: nat)
    requires m.drive.started <==> m.state.Enabled?
    requires m.state.Calibrating? ==> m.pending.Some?
    requires m.state.Fault? ==> m.pending == None && m.lastFault == m.state.code
    ensures var n := Step(m, e, k);
            && (n.drive.started <==> n.state.Enabled?)
            && (n.state.Calibrating? ==> n.pending.Some?)
            && (n.state.Fault? ==> n.pending == None && n.lastFault == n.state.code)
  {
  }

  lemma CountMore(answers: seq<Reply>, r: Reply, id: nat)
    ensures Count(answers + [r], id) == Count(answers, id) + if r.command == id then 1 else 0
  {
    assert (answers + [r])[..|answers|] == answers;
  }

  /** The machine after every run: of the calls that start and stop the controller the last was a start exactly in
      Enabled, Calibrating holds a pending
      command and Fault none, and each command of the run has been answered exactly once, except the
      pending one, which has not been answered at all. */
  lemma {:induction false} AlwaysSafe(start: Machine, es: seq<Event>)
    requires Starting(start)
    ensures Safe(After(start, es), es)
  {
    if es != [] {
      var before, e, k := es[..|es| - 1], es[|es| - 1], |es| - 1;
      var m, n := After(start, before), After(start, es);
      AlwaysSafe(start, before);
      StepModes(m, e, k);
      StepAnswers(m, e, k);
      forall id: nat ensures Count(n.answers, id) == Due(n, es, id) {
        assert Count(m.answers, id) == Due(m, before, id);
        if |n.answers| == |m.answers| + 1 {
          CountMore(m.answers, n.answers[|m.answers|], id);
        }
      }
    }
  }

  /** The callback of the present step says that there is no result. */
  predicate FindsNothing(m: Machine, e: Event) {
    match e
    case PolePairsDone(count) => IsCalibrating(m, PolePairsStep) && count.None?
    case ResistanceDone(r, l) => IsCalibrating(m, ResistanceStep) && (r.None? || l.None?)
    case AlignmentDone(angle) => IsCalibrating(m, AlignmentStep) && angle.None?
    case MechanicsDone(friction, inertia, _, _) => IsCalibrating(m, MechanicsStep) && (friction.None? || inertia.None?)
    case _ => false
  }

  /** What the answer to the pending command says of the event that caused it, and where it leaves the machine. */
  lemma AnswerMeans(m: Machine, e: Event, k: nat, r: CommandResult)
    requires m.pending.Some? && r != Rejected && Answered(m, Step(m, e, k), m.pending.value, r)
    ensures var n := Step(m, e, k);
            && (r == Succeeded <==>
                  || (e == Saved(Ok) && m.state.Calibrating? && n.state == Ready(m.state.pendingData))
                  || (e == Invalidated(Ok) && IsStopped(m.state) && n.state == Idle
                      && n.calibrationData == NO_CALIBRATION))
            && (r == CalibrationFailed <==> FindsNothing(m, e) && n.state == Fault(CalibrationError))
            && (r == NvmFailed <==>
                  || (e.Saved? && e.status != Ok && m.state.Calibrating? && n.state == Fault(CalibrationError))
                  || (e.Invalidated? && e.status != Ok && IsStopped(m.state) && n.state == Fault(HardwareFailure)))
            && (r == AbortedByFault <==>
                  || (e.FaultRaised? && n.state == Fault(e.code))
                  || (e == EmergencyStop
                      && n.state == if m.state.Enabled? || m.state.Calibrating? then Idle else m.state))
  {
    assert Step(m, e, k).answers[|m.answers|] == Reply(m.pending.value, r);
  }

  /** What replaces the tunings from outside, and how far: online estimates only while enabled with an outer loop, the
      gains of each loop only by a pair that is positive and finite; given gains at any time, those of the speed loop
      only with an outer loop. */
  lemma RetuningMeans(m: Machine, e: Event, k: nat)
    requires e.EstimatesRead? || e.CurrentGainsSet? || e.SpeedGainsSet?
    ensures var n := Step(m, e, k);
            var on := m.mode == OuterLoop && m.state.Enabled?;
            && n == m.(drive := m.drive.(speed := n.drive.speed, current := n.drive.current))
            && (e.EstimatesRead? ==>
                  var x := e.estimates;
                  && n.drive.speed == (if on && 0 < x.inertia < 0x7F80_0000 && 0 < x.friction < 0x7F80_0000
                                       then Gains(x.kp, x.ki, 0) else m.drive.speed)
                  && n.drive.current == (if on && 0 < x.resistance < 0x7F80_0000 && 0 < x.inductance < 0x7F80_0000
                                         then FromMotor(x.resistance, x.inductance) else m.drive.current))
            && (e.CurrentGainsSet? ==> n.drive.current == Given(e.gains) && n.drive.speed == m.drive.speed)
            && (e.SpeedGainsSet? ==>
                  n.drive.current == m.drive.current
                  && n.drive.speed == if m.mode == OuterLoop then e.gains else m.drive.speed)
  {
  }

  /** The state becomes Enabled only by an enable command in Ready. */
  lemma EnabledOnlyFromReady(m: Machine, e: Event, k: nat)
    requires !m.state.Enabled? && Step(m, e, k).state.Enabled?
    ensures m.state.Ready? && e == Enable
  {
  }

  lemma EarlierRejection(m: Machine, n: Machine, e: Event, k: nat, id: nat)
    requires Stepped(m, n, e, k) && id != k
    ensures Reply(id, Rejected) in n.answers <==> Reply(id, Rejected) in m.answers
  {
  }

  lemma OwnRejection(m: Machine, n: Machine, e: Event, k: nat)
    requires Stepped(m, n, e, k) && IsCommand(e) && forall r | r in m.answers :: r.command != k
    ensures Reply(k, Rejected) in n.answers <==> !Accepts(m)
  {
    if Answered(m, n, k, Rejected) {
      assert n.answers[|m.answers|] == Reply(k, Rejected);
    }
  }

  /** A command is answered "rejected" exactly when it was refused on arrival; an accepted one never is. */
  lemma {:induction false} RejectedIffRefused(start: Machine, es: seq<Event>, id: nat)
    requires Starting(start) && id < |es| && IsCommand(es[id])
    ensures Reply(id, Rejected) in After(start, es).answers <==> !Accepts(After(start, es[..id]))
    decreases es
  {
    var before, k := es[..|es| - 1], |es| - 1;
    var m := After(start, before);
    StepAnswers(m, es[k], k);
    if id < k {
      assert before[..id] == es[..id];
      RejectedIffRefused(start, before, id);
      EarlierRejection(m, After(start, es), es[k], k, id);
    } else {
      NobodyAnsweredYet(start, before);
      OwnRejection(m, After(start, es), es[k], k);
    }
  }

  lemma NobodyAnsweredYet(start: Machine, es: seq<Event>)
    requires Starting(start)
    ensures forall r | r in After(start, es).answers :: r.command != |es|
  {
    AlwaysSafe(start, es);
    NotAnsweredYet(After(start, es).answers, |es|);
  }

  lemma {:induction false} NotAnsweredYet(answers: seq<Reply>, id: nat)
    requires Count(answers, id) == 0
    ensures forall r | r in answers :: r.command != id
  {
    if answers != [] {
      NotAnsweredYet(answers[..|answers| - 1], id);
    }
  }

  /** One way in which a clear command accepted in Ready stays pending for ever: enabled before the callback
      comes, the machine drops it, and refuses every later command until a fault or emergency stop. */
  lemma ClearCanBeLost(m: Machine, id: nat, status: NvmStatus)
    requires m.state.Ready? && m.pending == None
    ensures var cleared := Step(Step(m, ClearCalibration, id), Enable, id + 1);
            var dropped := Step(cleared, Invalidated(status), id + 2);
            && dropped == cleared && dropped.pending == Some(id)
            && !Accepts(Step(dropped, Disable, id + 3))
            && Step(Step(dropped, Disable, id + 3), EmergencyStop, id + 4).pending == None
  {
  }
}
