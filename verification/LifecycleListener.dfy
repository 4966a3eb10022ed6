/** The inverter's samples over the machine's life: who gets them, and what an abandoned alignment does to every
    later calibration. */
module LifecycleListener {
  import opened Basics
  import opened RecordLayout
  import opened LifecycleModel
  import opened IdentificationModel
  import opened LifecycleSystem
  import opened LifecycleStorage
  import opened LifecycleLiveness
  import S = StorageModel
  import R = StorageRuns

  // ---------------------------------------------------------------------------
  // The controller
  // ---------------------------------------------------------------------------

  predicate CalibrateAccepted(s: System, e: SystemEvent) {
    e == External(Calibrate) && Accepts(s.machine)
  }

  /** As long as the controller gets the samples nothing has been asked of a service. */
  predicate Untouched(s: System) {
    s.services.listener == Controller ==> s.services == CONSTRUCTED && !s.machine.state.Calibrating?
  }

  /** How an event changes what the services do, and that only calibrating machines make use of them. */
  lemma ExternalServices(m: Machine, e: Event, k: nat)
    requires !FromStorage(e) && m.outbox == []
    ensures var n := Step(m, e, k);
            && |n.outbox| <= 1
            && (e == Calibrate && Accepts(m) ==> n.outbox == [Run(EstimatePolePairs)])
            && (!(e == Calibrate && Accepts(m)) ==> (n.state.Calibrating? ==> m.state.Calibrating?))
            && (n.outbox != [] && n.outbox[0].Run? && !(e == Calibrate && Accepts(m)) ==> ServiceOf(e).Some?)
  {
  }

  lemma ExternalListener(dev: S.Device, s: System, e: Event)
    requires s.store.nvm.Shape(dev) && s.machine.outbox == [] && Untouched(s)
    ensures var t := Next(dev, s, External(e));
            && Untouched(t)
            && (t.services.listener == Controller <==>
                  s.services.listener == Controller && !CalibrateAccepted(s, External(e)))
  {
    if !FromStorage(e) {
      ExternalServices(s.machine, e, s.next);
    }
  }

  /** Storage has no say in it. */
  lemma RegionServices(dev: S.Device, s: System, stage: S.Stage, fault: Option<seq<Byte>>)
    requires Fits(dev, s)
    ensures var t := Next(dev, s, Region(stage, fault));
            && t.services == s.services && (t.machine.state.Calibrating? ==> s.machine.state.Calibrating?)
            && (t.machine.state.Calibrating? ==> t.machine.state == s.machine.state)
            && t.machine.mode == s.machine.mode
  {
    var f := R.Next(dev, s.store, R.Finish(stage, fault), s.next);
    FinishJob(dev, s.store, stage, fault, s.next);
    if f.answers != s.store.answers {
      var a := f.answers[|s.store.answers|];
      var q := f.accepted[a.token];
      if q.LoadCalibration? {
        AnswerToLoad(dev, s.store, f, stage, fault);
      }
      Heard(dev, s, f, a, q);
      CallbackStep(s.machine, q, a.outcome);
    }
  }

  lemma StepListener(dev: S.Device, s: System, e: SystemEvent)
    requires Fits(dev, s) && Untouched(s)
    ensures var t := Next(dev, s, e);
            && Untouched(t)
            && (t.services.listener == Controller <==> s.services.listener == Controller && !CalibrateAccepted(s, e))
  {
    match e
    case External(x) => ExternalListener(dev, s, x);
    case Region(stage, fault) => RegionServices(dev, s, stage, fault);
    case Client(q) =>
    case SamplingBegins =>
  }

  ghost predicate NoneAccepted(dev: S.Device, start: System, es: seq<SystemEvent>)
    requires start.store.nvm.Shape(dev)
  {
    forall i | 0 <= i < |es| :: !CalibrateAccepted(After(dev, start, es[..i]), es[i])
  }

  lemma NoneAcceptedSnoc(dev: S.Device, start: System, es: seq<SystemEvent>, e: SystemEvent)
    requires start.store.nvm.Shape(dev)
    ensures NoneAccepted(dev, start, es + [e]) <==>
            NoneAccepted(dev, start, es) && !CalibrateAccepted(After(dev, start, es), e)
  {
    var all := es + [e];
    assert all[..|es|] == es && all[|es|] == e;
    assert forall i | 0 <= i < |es| :: all[..i] == es[..i] && all[i] == es[i];
  }

  lemma {:induction false} RunListener(dev: S.Device, start: System, es: seq<SystemEvent>)
    requires Fits(dev, start) && start.services == CONSTRUCTED && Untouched(start)
    ensures Untouched(After(dev, start, es))
    ensures After(dev, start, es).services.listener == Controller <==> NoneAccepted(dev, start, es)
    decreases es
  {
    if es != [] {
      var before, e := es[..|es| - 1], es[|es| - 1];
      assert before + [e] == es;
      RunListener(dev, start, before);
      RunFits(dev, start, before);
      StepListener(dev, After(dev, start, before), e);
      NoneAcceptedSnoc(dev, start, before, e);
    }
  }

  /** In every run from power-on, whatever the state, the inverter hands its samples to the controller exactly when
      no calibrate command has been accepted yet: a controller started after a calibration is not called. */
  lemma ControllerListensIff(dev: S.Device, m: Machine, store: R.Run, es: seq<SystemEvent>)
    requires Booting(dev, m, store)
    ensures var start := PowerOn(dev, m, store);
            After(dev, start, es).services.listener == Controller <==> NoneAccepted(dev, start, es)
  {
    BootFits(dev, m, store);
    RunListener(dev, PowerOn(dev, m, store), es);
  }

  // ---------------------------------------------------------------------------
  // Who listens after a calibration
  // ---------------------------------------------------------------------------

  function LastListener(mode: Mode): Listener {
    if mode == Torque then Serving(ForceAlignment) else Nobody
  }

  /** Once the last identification has answered, it keeps the samples, or has given them up. */
  predicate LastListens(s: System) {
    && (s.machine.mode == Torque ==> EstimateMechanics !in s.services.outstanding)
    && (IsCalibrating(s.machine, FinalStep(s.machine.mode))
        && FinalService(s.machine.mode) !in s.services.outstanding ==>
          s.services.listener == LastListener(s.machine.mode))
  }

  /** What an event does to the step and to the service of the last one. */
  lemma ExternalLast(m: Machine, e: Event, k: nat)
    requires !FromStorage(e) && m.outbox == [] && DriveAgrees(m)
    ensures var n := Step(m, e, k);
            && |n.outbox| <= 1 && n.mode == m.mode
            && (n.outbox != [] && n.outbox[0].Run? ==>
                  && IsCalibrating(n, n.state.step) && n.outbox[0].service == ServiceFor(n.state.step)
                  && (m.mode == Torque ==> n.outbox[0].service != EstimateMechanics))
            && (n.outbox == [] || !n.outbox[0].Run? ==>
                  (IsCalibrating(n, FinalStep(n.mode)) ==> IsCalibrating(m, FinalStep(m.mode))))
  {
  }

  lemma ExternalLastListens(dev: S.Device, s: System, e: Event)
    requires s.store.nvm.Shape(dev) && s.machine.outbox == [] && DriveAgrees(s.machine) && LastListens(s)
    ensures LastListens(Next(dev, s, External(e)))
  {
    if !Ignored(s, e) {
      ExternalLast(s.machine, e, s.next);
    }
  }

  lemma {:induction false} RunLastListens(dev: S.Device, start: System, es: seq<SystemEvent>)
    requires Live(dev, start) && LastListens(start)
    ensures LastListens(After(dev, start, es))
    decreases es
  {
    if es != [] {
      var s := After(dev, start, es[..|es| - 1]);
      RunLastListens(dev, start, es[..|es| - 1]);
      RunLive(dev, start, es[..|es| - 1]);
      match es[|es| - 1]
      case External(x) => ExternalLastListens(dev, s, x);
      case Region(stage, fault) => RegionServices(dev, s, stage, fault);
      case Client(q) =>
      case SamplingBegins =>
    }
  }

  lemma SettledBySave(dev: S.Device, s: System, f: R.Run, stage: S.Stage, fault: Option<seq<Byte>>)
    requires s.store.nvm.Shape(dev) && R.JobsMatch(dev, s.store) && f.nvm.Shape(dev)
    requires Finishes(dev, s.store, f, stage, fault)
    requires s.machine.outbox == [] && s.machine.state.Calibrating? && Settled(AfterRegion(dev, s, f).machine)
    ensures Saving(s.store).Some?
  {
    var a := f.answers[|s.store.answers|];
    AnswerKind(dev, s.store, f, stage, fault);
    Heard(dev, s, f, a, f.accepted[a.token]);
  }

  /** A save of the machine's own comes after its last identification. */
  lemma OwnSaveEnds(dev: S.Device, s: System, stage: S.Stage, fault: Option<seq<Byte>>)
    requires Good(dev, s) && s.machine.state.Calibrating?
    requires Settled(Next(dev, s, Region(stage, fault)).machine)
    ensures IsCalibrating(s.machine, FinalStep(s.machine.mode))
    ensures FinalService(s.machine.mode) !in s.services.outstanding
  {
    FinishJob(dev, s.store, stage, fault, s.next);
    SettledBySave(dev, s, R.Next(dev, s.store, R.Finish(stage, fault), s.next), stage, fault);
  }

  /** A calibration that succeeds in a disciplined run leaves the samples with the alignment service in torque
      mode, and with nobody in the other modes. */
  lemma ListenerAfterCalibration(
    dev: S.Device, m: Machine, store: R.Run, es: seq<SystemEvent>, e: SystemEvent)
    requires Booting(dev, m, store) && m.pending == None && Disciplined(dev, PowerOn(dev, m, store), es)
    ensures var s := After(dev, PowerOn(dev, m, store), es);
            var t := Next(dev, s, e);
            s.machine.state.Calibrating? && Settled(t.machine) ==>
              t.services.listener == LastListener(t.machine.mode)
  {
    var start := PowerOn(dev, m, store);
    BootGood(dev, m, store);
    BootLive(dev, m, store);
    RunGood(dev, start, es);
    RunLastListens(dev, start, es);
    var s := After(dev, start, es);
    if s.machine.state.Calibrating? && Settled(Next(dev, s, e).machine) {
      SettlesByStorage(dev, s, e);
      OwnSaveEnds(dev, s, e.stage, e.fault);
      RegionServices(dev, s, e.stage, e.fault);
    }
  }

  // ---------------------------------------------------------------------------
  // The timer of the mechanical identification
  // ---------------------------------------------------------------------------

  /** Counting pole pairs and settling take at least as long as the timer of the mechanical identification: it
      has run out when the samples of a later calibration begin. */
  ghost predicate InTime(dev: S.Device, start: System, es: seq<SystemEvent>)
    requires start.store.nvm.Shape(dev)
    decreases es
  {
    es == [] ||
    (InTime(dev, start, es[..|es| - 1])
     && (es[|es| - 1] == SamplingBegins ==>
           EstimateMechanics !in After(dev, start, es[..|es| - 1]).services.outstanding))
  }

  /** Who has the samples need not fear the timer. */
  predicate TimerStopped(v: Services) {
    v.listener in {Serving(EstimateResistance), Serving(ForceAlignment)} ==> EstimateMechanics !in v.outstanding
  }

  /** An alignment is asked for only when resistance has been found. */
  lemma AlignmentAsked(m: Machine, e: Event, k: nat)
    requires !FromStorage(e) && m.outbox == []
    ensures var n := Step(m, e, k);
            && |n.outbox| <= 1
            && (n.outbox != [] && n.outbox[0] == Run(ForceAlignment) ==> e.ResistanceDone?)
  {
  }

  lemma AnsweredTimer(v: Services, e: Event)
    requires TimerStopped(v)
    ensures TimerStopped(Answered(v, e))
  {
  }

  lemma AskedTimer(v: Services, service: Service)
    requires TimerStopped(v) && (service == ForceAlignment ==> v.listener == Serving(EstimateResistance))
    ensures TimerStopped(Asked(v, service))
  {
  }

  lemma ExternalTimer(dev: S.Device, s: System, e: Event)
    requires s.store.nvm.Shape(dev) && s.machine.outbox == [] && TimerStopped(s.services)
    ensures TimerStopped(Next(dev, s, External(e)).services)
  {
    if !Ignored(s, e) {
      var n := Step(s.machine, e, s.next);
      AlignmentAsked(s.machine, e, s.next);
      AnsweredTimer(s.services, e);
      if n.outbox != [] && n.outbox[0].Run? {
        AskedTimer(Answered(s.services, e), n.outbox[0].service);
      }
    }
  }

  lemma {:induction false} RunTimer(dev: S.Device, start: System, es: seq<SystemEvent>)
    requires Fits(dev, start) && TimerStopped(start.services) && InTime(dev, start, es)
    ensures TimerStopped(After(dev, start, es).services)
    decreases es
  {
    if es != [] {
      var s := After(dev, start, es[..|es| - 1]);
      RunTimer(dev, start, es[..|es| - 1]);
      RunFits(dev, start, es[..|es| - 1]);
      match es[|es| - 1]
      case External(x) => ExternalTimer(dev, s, x);
      case Region(stage, fault) => RegionServices(dev, s, stage, fault);
      case Client(q) =>
      case SamplingBegins =>
    }
  }

  /** In such a run an earlier mechanical identification takes the samples from nobody: of the ways to strand a
      command only the other four are left. */
  lemma NeverTakenInTime(dev: S.Device, m: Machine, store: R.Run, es: seq<SystemEvent>, e: SystemEvent)
    requires Booting(dev, m, store) && m.pending == None && InTime(dev, PowerOn(dev, m, store), es)
    ensures !SamplesTaken(After(dev, PowerOn(dev, m, store), es), e)
  {
    BootFits(dev, m, store);
    RunTimer(dev, PowerOn(dev, m, store), es);
  }

  // ---------------------------------------------------------------------------
  // An abandoned alignment
  // ---------------------------------------------------------------------------

  /** The step answers a calibrate command with success. */
  predicate CalibrationSucceeds(m: Machine, n: Machine) {
    && m.state.Calibrating? && m.pending.Some?
    && |n.answers| == |m.answers| + 1 && n.answers[|m.answers|] == Reply(m.pending.value, Succeeded)
  }

  ghost predicate Succeeding(dev: S.Device, s: System, es: seq<SystemEvent>, e: SystemEvent)
    requires s.store.nvm.Shape(dev)
  {
    CalibrationSucceeds(After(dev, s, es).machine, Next(dev, After(dev, s, es), e).machine)
  }

  /** In some continuation, with any commands, stops and faults, a calibrate command succeeds. */
  ghost predicate CanSucceed(dev: S.Device, s: System)
    requires s.store.nvm.Shape(dev)
  {
    exists es: seq<SystemEvent>, e: SystemEvent :: Succeeding(dev, s, es, e)
  }

  /** An alignment is pending that no longer gets samples; the machine has not come past the alignment, and nothing
      is being saved. */
  predicate Doomed(s: System) {
    && ForceAlignment in s.services.outstanding && s.services.listener != Serving(ForceAlignment)
    && !IsCalibrating(s.machine, MechanicsStep) && Saving(s.store) == None
  }

  /** While an alignment is pending without samples no event leads past it. */
  lemma ExternalDoomed(m: Machine, e: Event, k: nat)
    requires !FromStorage(e) && !e.AlignmentDone? && m.outbox == [] && DriveAgrees(m)
    requires !IsCalibrating(m, MechanicsStep)
    ensures var n := Step(m, e, k);
            && !CalibrationSucceeds(m, n) && !IsCalibrating(n, MechanicsStep) && |n.outbox| <= 1
            && (n.outbox != [] ==> n.outbox[0].Run? || n.outbox[0].Invalidate?)
  {
  }

  lemma ExternalStaysDoomed(dev: S.Device, s: System, e: Event)
    requires Fits(dev, s) && Doomed(s)
    ensures Doomed(Next(dev, s, External(e)))
    ensures !CalibrationSucceeds(s.machine, Next(dev, s, External(e)).machine)
  {
    if !Ignored(s, e) {
      ExternalDoomed(s.machine, e, s.next);
      Later(dev, s.store, s.next, s.next + 1);
      DeliverCases(dev, System(Step(s.machine, e, s.next), s.store, Answered(s.services, e), s.next + 1));
    }
  }

  lemma CallbackNoSuccess(m: Machine, q: S.Request, o: S.Outcome)
    requires m.outbox == [] && (m.state.Calibrating? ==> !q.SaveCalibration?)
    ensures !CalibrationSucceeds(m, Callback(m, q, o))
  {
  }

  lemma HeardNoSuccess(dev: S.Device, s: System, f: R.Run, stage: S.Stage, fault: Option<seq<Byte>>)
    requires s.store.nvm.Shape(dev) && R.JobsMatch(dev, s.store) && f.nvm.Shape(dev)
    requires Finishes(dev, s.store, f, stage, fault) && f.answers != s.store.answers
    requires s.machine.outbox == [] && Saving(s.store) == None
    ensures !CalibrationSucceeds(s.machine, AfterRegion(dev, s, f).machine)
  {
    var a := f.answers[|s.store.answers|];
    AnswerKind(dev, s.store, f, stage, fault);
    Heard(dev, s, f, a, f.accepted[a.token]);
    CallbackNoSuccess(s.machine, f.accepted[a.token], a.outcome);
  }

  lemma RegionNoSuccess(dev: S.Device, s: System, stage: S.Stage, fault: Option<seq<Byte>>)
    requires Fits(dev, s) && Saving(s.store) == None
    ensures !CalibrationSucceeds(s.machine, Next(dev, s, Region(stage, fault)).machine)
  {
    var f := R.Next(dev, s.store, R.Finish(stage, fault), s.next);
    FinishJob(dev, s.store, stage, fault, s.next);
    if f.answers != s.store.answers {
      HeardNoSuccess(dev, s, f, stage, fault);
    }
  }

  lemma CallbackAsks(m: Machine, q: S.Request, o: S.Outcome)
    requires m.outbox == []
    ensures Callback(m, q, o).outbox == [] || Callback(m, q, o).outbox == [Load]
  {
  }

  lemma HeardNoSave(dev: S.Device, s: System, f: R.Run, stage: S.Stage, fault: Option<seq<Byte>>)
    requires s.store.nvm.Shape(dev) && f.nvm.Shape(dev) && R.Consistent(dev, f, s.next + 1)
    requires Finishes(dev, s.store, f, stage, fault) && f.answers != s.store.answers
    requires s.machine.outbox == [] && Saving(s.store) == None
    ensures Saving(AfterRegion(dev, s, f).store) == None
  {
    var a := f.answers[|s.store.answers|];
    var q := f.accepted[a.token];
    Heard(dev, s, f, a, q);
    CallbackAsks(s.machine, q, a.outcome);
    DeliverCases(dev, System(Callback(s.machine, q, a.outcome), f, s.services, s.next + 1));
  }

  /** No answer of storage makes the machine ask for a save. */
  lemma RegionNoSave(dev: S.Device, s: System, stage: S.Stage, fault: Option<seq<Byte>>)
    requires Fits(dev, s) && Saving(s.store) == None
    ensures Saving(Next(dev, s, Region(stage, fault)).store) == None
  {
    var f := R.Next(dev, s.store, R.Finish(stage, fault), s.next);
    R.StepConsistent(dev, s.store, R.Finish(stage, fault), s.next);
    FinishJob(dev, s.store, stage, fault, s.next);
    if f.answers != s.store.answers {
      HeardNoSave(dev, s, f, stage, fault);
    }
  }

  lemma StaysDoomed(dev: S.Device, s: System, e: SystemEvent)
    requires Fits(dev, s) && Doomed(s)
    ensures Doomed(Next(dev, s, e)) && !CalibrationSucceeds(s.machine, Next(dev, s, e).machine)
  {
    match e
    case External(x) => ExternalStaysDoomed(dev, s, x);
    case Region(stage, fault) =>
      RegionServices(dev, s, stage, fault);
      RegionNoSave(dev, s, stage, fault);
      RegionNoSuccess(dev, s, stage, fault);
    case Client(q) =>
      if q.SaveConfig? || q.LoadConfig? || q.Format? {
        AskJob(dev, s.store, q, s.next);
      }
    case SamplingBegins =>
  }

  lemma {:induction false} RunDoomed(dev: S.Device, s: System, es: seq<SystemEvent>)
    requires Fits(dev, s) && Doomed(s)
    ensures Fits(dev, After(dev, s, es)) && Doomed(After(dev, s, es))
    decreases es
  {
    if es != [] {
      RunDoomed(dev, s, es[..|es| - 1]);
      StepFits(dev, After(dev, s, es[..|es| - 1]), es[|es| - 1]);
      StaysDoomed(dev, After(dev, s, es[..|es| - 1]), es[|es| - 1]);
    }
  }

  lemma DoomedNeverSucceeds(dev: S.Device, s: System)
    requires Fits(dev, s) && Doomed(s)
    ensures !CanSucceed(dev, s)
  {
    forall es: seq<SystemEvent>, e: SystemEvent ensures !Succeeding(dev, s, es, e) {
      RunDoomed(dev, s, es);
      StaysDoomed(dev, After(dev, s, es), e);
    }
  }

  lemma SaveSucceeds(dev: S.Device, s: System)
    requires Collecting(dev, s) && s.machine.pending.Some?
    ensures CanSucceed(dev, s)
  {
    var es, t := SaveCompletable(dev, s);
    LastStep(dev, t);
    assert Succeeding(dev, s, es, Region(S.SaveRead, None));
  }

  /** Accepting a calibrate command takes the samples away from an alignment that is still pending. */
  lemma CalibrateDooms(dev: S.Device, s: System)
    requires s.store.nvm.Shape(dev) && s.machine.outbox == [] && Accepts(s.machine)
    requires ForceAlignment in s.services.outstanding
    ensures var t := Next(dev, s, External(Calibrate));
            && t.store == s.store && t.machine.outbox == [] && t.next == s.next + 1
            && IsCalibrating(t.machine, PolePairsStep) && t.machine.pending.Some?
            && ForceAlignment in t.services.outstanding && t.services.listener == Nobody
  {
  }

  /** Once a calibrate command is accepted while an abandoned alignment is pending, no calibrate command ever
      succeeds again, whatever follows, unless the save of an earlier calibration happens to be under way. */
  lemma AbandonedAlignmentIff(dev: S.Device, s: System)
    requires Fits(dev, s) && Accepts(s.machine) && ForceAlignment in s.services.outstanding
    ensures CanSucceed(dev, Next(dev, s, External(Calibrate))) <==> Saving(s.store).Some?
  {
    var t := Next(dev, s, External(Calibrate));
    CalibrateDooms(dev, s);
    StepFits(dev, s, External(Calibrate));
    if Saving(s.store).Some? {
      SaveSucceeds(dev, t);
    } else {
      DoomedNeverSucceeds(dev, t);
    }
  }
}
