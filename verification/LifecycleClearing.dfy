/** A calibration that was cleared does not come back. */
module LifecycleClearing {
  import opened Basics
  import opened RecordLayout
  import opened LifecycleModel
  import opened IdentificationModel
  import opened LifecycleSystem
  import opened LifecycleLiveness
  import S = StorageModel
  import R = StorageRuns

  /** The step answers a clear command with success. */
  predicate ClearSucceeds(m: Machine, n: Machine) {
    && !m.state.Calibrating? && m.pending.Some?
    && |n.answers| == |m.answers| + 1 && n.answers[|m.answers|] == Reply(m.pending.value, Succeeded)
  }

  lemma ExternalNoClear(m: Machine, e: Event, k: nat)
    requires !FromStorage(e)
    ensures !ClearSucceeds(m, Step(m, e, k))
  {
  }

  lemma CallbackClears(m: Machine, q: S.Request, o: S.Outcome)
    requires m.outbox == [] && ClearSucceeds(m, Callback(m, q, o))
    ensures q.InvalidateCalibration? && Callback(m, q, o).outbox == []
  {
  }

  lemma HeardClear(dev: S.Device, s: System, store: R.Run, stage: S.Stage, fault: Option<seq<Byte>>)
    requires s.store.nvm.Shape(dev) && R.JobsMatch(dev, s.store) && s.machine.outbox == [] && store.nvm.Shape(dev)
    requires Finishes(dev, s.store, store, stage, fault)
    requires ClearSucceeds(s.machine, AfterRegion(dev, s, store).machine)
    ensures stage == S.InvalidateErase && stage in s.store.nvm.flight
    ensures AfterRegion(dev, s, store).store == store && store.nvm == S.Complete(dev, s.store.nvm, stage, fault).0
  {
    var a := store.answers[|s.store.answers|];
    AnswerKind(dev, s.store, store, stage, fault);
    Heard(dev, s, store, a, store.accepted[a.token]);
    CallbackClears(s.machine, store.accepted[a.token], a.outcome);
  }

  /** A clear command succeeds when its erase completes; if that was without a fault, the medium holds no
      calibration at that instant. */
  lemma ClearedMeansGone(dev: S.Device, s: System, e: SystemEvent)
    requires Fits(dev, s) && ClearSucceeds(s.machine, Next(dev, s, e).machine)
    ensures e.Region? && e.stage == S.InvalidateErase
    ensures e.fault.None? ==> Next(dev, s, e).store.nvm.Stored(dev) == None
  {
    match e
    case External(x) =>
      if !Ignored(s, x) {
        ExternalNoClear(s.machine, x, s.next);
        assert false;
      }
    case Region(stage, fault) =>
      FinishJob(dev, s.store, stage, fault, s.next);
      HeardClear(dev, s, R.Next(dev, s.store, R.Finish(stage, fault), s.next), stage, fault);
      R.ErasedIsGone(dev, s.store.nvm, stage);
    case Client(q) =>
    case SamplingBegins =>
  }

  // ---------------------------------------------------------------------------
  // Until the next save
  // ---------------------------------------------------------------------------

  predicate Faultless(e: SystemEvent) {
    e.Region? ==> e.fault.None?
  }

  /** No fault, and no calibration save asked for. */
  ghost predicate Unsaved(dev: S.Device, start: System, es: seq<SystemEvent>)
    requires start.store.nvm.Shape(dev)
    decreases es
  {
    && Saving(After(dev, start, es).store) == None
    && (es == [] || (Unsaved(dev, start, es[..|es| - 1]) && Faultless(es[|es| - 1])))
  }

  lemma NoSaveInFlight(dev: S.Device, r: R.Run, k: nat)
    requires R.Consistent(dev, r, k) && Saving(r) == None
    ensures S.SaveWrite !in r.nvm.flight
  {
    assert R.FlightOk(r.nvm.flight, r.jobs, S.SaveWrite);
    if S.CalibrationSlot in r.jobs {
      assert R.JobOk(dev, r.nvm, S.CalibrationSlot, r.jobs[S.CalibrationSlot]);
    }
  }

  lemma DeliverKeepsMedium(dev: S.Device, s: System)
    requires s.store.nvm.Shape(dev)
    ensures Deliver(dev, s).store.nvm.medium == s.store.nvm.medium
  {
  }

  lemma RegionKeepsMedium(dev: S.Device, s: System, f: R.Run)
    requires f.nvm.Shape(dev)
    ensures AfterRegion(dev, s, f).store.nvm.medium == f.nvm.medium
  {
  }

  lemma SameStored(dev: S.Device, n: S.Nvm, m: S.Nvm)
    requires n.Shape(dev) && m.Shape(dev) && n.medium == m.medium
    ensures n.Stored(dev) == m.Stored(dev)
  {
  }

  lemma RegionStaysGone(dev: S.Device, s: System, stage: S.Stage)
    requires Fits(dev, s) && Saving(s.store) == None && s.store.nvm.Stored(dev) == None
    ensures R.Next(dev, s.store, R.Finish(stage, None), s.next).nvm.Stored(dev) == None
    ensures Next(dev, s, Region(stage, None)).store.nvm.Stored(dev) == None
  {
    var f := R.Next(dev, s.store, R.Finish(stage, None), s.next);
    NoSaveInFlight(dev, s.store, s.next);
    R.StaysGone(dev, s.store, R.Finish(stage, None), s.next);
    RegionKeepsMedium(dev, s, f);
    SameStored(dev, f.nvm, AfterRegion(dev, s, f).store.nvm);
  }

  lemma OtherKeepsMedium(dev: S.Device, s: System, e: SystemEvent)
    requires s.store.nvm.Shape(dev) && !e.Region?
    ensures Next(dev, s, e).store.nvm.medium == s.store.nvm.medium
  {
    if e.External? && !Ignored(s, e.e) {
      DeliverKeepsMedium(dev, System(Step(s.machine, e.e, s.next), s.store, Answered(s.services, e.e), s.next + 1));
    }
  }

  lemma StepStaysGone(dev: S.Device, s: System, e: SystemEvent)
    requires Fits(dev, s) && Saving(s.store) == None && s.store.nvm.Stored(dev) == None && Faultless(e)
    ensures Next(dev, s, e).store.nvm.Stored(dev) == None
  {
    if e.Region? {
      RegionStaysGone(dev, s, e.stage);
    } else {
      OtherKeepsMedium(dev, s, e);
      SameStored(dev, s.store.nvm, Next(dev, s, e).store.nvm);
    }
  }

  /** Without a calibration on the medium and without a save under way nothing makes the machine ready. */
  lemma StepNeverSettles(dev: S.Device, s: System, e: SystemEvent)
    requires Fits(dev, s) && !Settled(s.machine) && Faultless(e)
    requires Saving(s.store) == None && s.store.nvm.Stored(dev) == None
    ensures !Settled(Next(dev, s, e).machine)
  {
    match e
    case External(x) =>
      if !Ignored(s, x) {
        ExternalStep(s.machine, x, s.next);
      }
    case Region(stage, fault) =>
      RegionStaysGone(dev, s, stage);
      FinishJob(dev, s.store, stage, fault, s.next);
      HeardNeverSettles(dev, s, R.Next(dev, s.store, R.Finish(stage, fault), s.next), stage, fault);
    case Client(q) =>
    case SamplingBegins =>
  }

  lemma HeardNeverSettles(dev: S.Device, s: System, f: R.Run, stage: S.Stage, fault: Option<seq<Byte>>)
    requires Fits(dev, s) && !Settled(s.machine) && Saving(s.store) == None
    requires f.nvm.Shape(dev) && Finishes(dev, s.store, f, stage, fault) && f.nvm.Stored(dev) == None
    ensures !Settled(AfterRegion(dev, s, f).machine)
  {
    if f.answers != s.store.answers {
      var a := f.answers[|s.store.answers|];
      var q := f.accepted[a.token];
      AnswerKind(dev, s.store, f, stage, fault);
      if q.LoadCalibration? {
        AnswerToLoad(dev, s.store, f, stage, fault);
      }
      Heard(dev, s, f, a, q);
      CallbackStep(s.machine, q, a.outcome);
    }
  }

  lemma {:induction false} RunStaysGone(dev: S.Device, start: System, es: seq<SystemEvent>)
    requires Fits(dev, start) && start.store.nvm.Stored(dev) == None && Unsaved(dev, start, es)
    ensures After(dev, start, es).store.nvm.Stored(dev) == None
    decreases es
  {
    if es != [] {
      RunStaysGone(dev, start, es[..|es| - 1]);
      RunFits(dev, start, es[..|es| - 1]);
      StepStaysGone(dev, After(dev, start, es[..|es| - 1]), es[|es| - 1]);
    }
  }

  lemma {:induction false} RunNeverSettles(dev: S.Device, start: System, es: seq<SystemEvent>)
    requires Fits(dev, start) && start.store.nvm.Stored(dev) == None && !Settled(start.machine)
    requires Unsaved(dev, start, es)
    ensures !Settled(After(dev, start, es).machine)
    decreases es
  {
    if es != [] {
      var before := es[..|es| - 1];
      RunNeverSettles(dev, start, before);
      RunStaysGone(dev, start, before);
      RunFits(dev, start, before);
      StepNeverSettles(dev, After(dev, start, before), es[|es| - 1]);
    }
  }

  lemma BootKeepsMedium(dev: S.Device, m: Machine, store: R.Run)
    requires Booting(dev, m, store)
    ensures PowerOn(dev, m, store).store.nvm.Stored(dev) == store.nvm.Stored(dev)
    ensures !Settled(PowerOn(dev, m, store).machine)
  {
    var s := System(m, store, CONSTRUCTED, 0);
    DeliverKeepsMedium(dev, s);
    SameStored(dev, Deliver(dev, s).store.nvm, store.nvm);
  }

  /** A clear command lasts: in a run from power-on event e answers it with success, its erase being without a
      fault; the run goes on, and ends with the power; then the machine is started again on what the medium holds.
      With no fault and no calibration save, neither before the power went nor after it came back, the machine never
      becomes Ready or Enabled. */
  lemma ClearedStaysCleared(
    dev: S.Device, m: Machine, store: R.Run, es: seq<SystemEvent>, e: SystemEvent, more: seq<SystemEvent>,
    again: Machine, medium: R.Run, later: seq<SystemEvent>)
    requires Booting(dev, m, store) && Faultless(e)
    requires ClearSucceeds(After(dev, PowerOn(dev, m, store), es).machine,
                           Next(dev, After(dev, PowerOn(dev, m, store), es), e).machine)
    requires Unsaved(dev, Next(dev, After(dev, PowerOn(dev, m, store), es), e), more)
    requires Booting(dev, again, medium)
    requires medium.nvm.medium
          == After(dev, Next(dev, After(dev, PowerOn(dev, m, store), es), e), more).store.nvm.medium
    requires Unsaved(dev, PowerOn(dev, again, medium), later)
    ensures !Settled(After(dev, PowerOn(dev, again, medium), later).machine)
  {
    var s := After(dev, PowerOn(dev, m, store), es);
    BootFits(dev, m, store);
    RunFits(dev, PowerOn(dev, m, store), es);
    ClearedMeansGone(dev, s, e);
    StepFits(dev, s, e);
    GoneAtPowerCut(dev, Next(dev, s, e), more, medium);
    BootFits(dev, again, medium);
    BootKeepsMedium(dev, again, medium);
    RunNeverSettles(dev, PowerOn(dev, again, medium), later);
  }

  lemma GoneAtPowerCut(dev: S.Device, t: System, more: seq<SystemEvent>, medium: R.Run)
    requires Fits(dev, t) && t.store.nvm.Stored(dev) == None && Unsaved(dev, t, more)
    requires medium.nvm.Shape(dev) && medium.nvm.medium == After(dev, t, more).store.nvm.medium
    ensures medium.nvm.Stored(dev) == None
  {
    RunStaysGone(dev, t, more);
    SameStored(dev, medium.nvm, After(dev, t, more).store.nvm);
  }
}
