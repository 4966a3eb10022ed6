/** Does the machine's calibration agree with the bytes on the medium? */
module LifecycleStorage {
  import opened Basics
  import opened RecordLayout
  import opened LifecycleModel
  import opened IdentificationModel
  import opened LifecycleSystem
  import NR = NvmRegions
  import S = StorageModel
  import R = StorageRuns

  /** A save under way while calibrating is the save of what this calibration found, and nothing that could
      still change it is outstanding. */
  predicate SaveIsOwn(s: System) {
    Saving(s.store).Some? && s.machine.state.Calibrating? ==>
      && s.machine.state.pendingData == Saving(s.store).value
      && s.machine.state.step == FinalStep(s.machine.mode)
      && FinalService(s.machine.mode) !in s.services.outstanding
  }

  ghost predicate Good(dev: S.Device, s: System) {
    Fits(dev, s) && SaveIsOwn(s)
  }

  /** Accepting a calibrate command while a save is under way: what a caller has to avoid. */
  predicate Undisciplined(s: System, e: SystemEvent) {
    e == External(Calibrate) && Accepts(s.machine) && Saving(s.store).Some?
  }

  ghost predicate Disciplined(dev: S.Device, start: System, es: seq<SystemEvent>)
    requires start.store.nvm.Shape(dev)
    decreases es
  {
    es == [] ||
    (Disciplined(dev, start, es[..|es| - 1])
     && !Undisciplined(After(dev, start, es[..|es| - 1]), es[|es| - 1]))
  }

  // ---------------------------------------------------------------------------
  // Every disciplined step keeps the save the machine's own
  // ---------------------------------------------------------------------------

  /** What an external event can do to a calibration and its save. */
  lemma ExternalCalibration(m: Machine, e: Event, k: nat)
    requires !FromStorage(e) && m.outbox == [] && DriveAgrees(m)
    ensures var n := Step(m, e, k);
            && n.mode == m.mode
            && (n.outbox != [] && n.outbox[0].Save? ==>
                  && n.state.Calibrating? && n.state.step == FinalStep(n.mode)
                  && n.outbox[0].data == n.state.pendingData
                  && ServiceOf(e) == Some(FinalService(n.mode)))
            && (n.state.Calibrating? && n.state != m.state ==>
                  || (e == Calibrate && Accepts(m))
                  || (m.state.Calibrating? && ServiceOf(e).Some?
                      && (m.state.step == FinalStep(m.mode) ==> ServiceOf(e).value == FinalService(m.mode))))
            && (n.outbox != [] && n.outbox[0].Run? ==>
                  n.state.Calibrating? && n.state != m.state)
  {
  }

  lemma ExternalKeepsSave(s: System, e: Event)
    requires !Ignored(s, e) && s.machine.outbox == [] && DriveAgrees(s.machine) && SaveIsOwn(s)
    requires !Undisciplined(s, External(e))
    ensures SaveIsOwn(System(Step(s.machine, e, s.next), s.store, Answered(s.services, e), s.next + 1))
  {
    ExternalCalibration(s.machine, e, s.next);
  }

  /** What is asked of storage keeps the save the machine's own. */
  predicate HandingOwn(s: System) {
    && SaveIsOwn(s)
    && (s.machine.outbox != [] ==>
          match s.machine.outbox[0]
          case Run(service) => Saving(s.store) == None
          case Save(d) =>
            && s.machine.state.Calibrating? && s.machine.state.pendingData == d
            && s.machine.state.step == FinalStep(s.machine.mode)
            && FinalService(s.machine.mode) !in s.services.outstanding
          case _ => true)
  }

  lemma DeliverOwn(dev: S.Device, s: System)
    requires s.store.nvm.Shape(dev) && R.Consistent(dev, s.store, s.next) && HandingOwn(s)
    ensures SaveIsOwn(Deliver(dev, s))
  {
    if s.machine.outbox != [] && !s.machine.outbox[0].Run? {
      AskJob(dev, s.store, StorageRequest(s.machine.outbox[0]), s.next);
    }
  }

  /** No identification is started while a save is under way. */
  lemma NoRunWhileSaving(s: System, e: Event)
    requires !Ignored(s, e) && s.machine.outbox == [] && DriveAgrees(s.machine) && SaveIsOwn(s)
    requires !Undisciplined(s, External(e)) && Saving(s.store).Some?
    ensures var n := Step(s.machine, e, s.next); n.outbox == [] || !n.outbox[0].Run?
  {
    ExternalCalibration(s.machine, e, s.next);
  }

  lemma ExternalHandingOwn(s: System, e: Event)
    requires !Ignored(s, e) && s.machine.outbox == [] && DriveAgrees(s.machine) && SaveIsOwn(s)
    requires !Undisciplined(s, External(e))
    ensures HandingOwn(System(Step(s.machine, e, s.next), s.store, Answered(s.services, e), s.next + 1))
  {
    ExternalCalibration(s.machine, e, s.next);
    ExternalKeepsSave(s, e);
    if Saving(s.store).Some? {
      NoRunWhileSaving(s, e);
    }
  }

  lemma ExternalOwn(dev: S.Device, s: System, e: Event)
    requires Good(dev, s) && !Undisciplined(s, External(e))
    ensures SaveIsOwn(Next(dev, s, External(e)))
  {
    if !Ignored(s, e) {
      var t := System(Step(s.machine, e, s.next), s.store, Answered(s.services, e), s.next + 1);
      ExternalHandingOwn(s, e);
      Later(dev, s.store, s.next, t.next);
      DeliverOwn(dev, t);
    }
  }

  lemma AnswerOwn(dev: S.Device, s: System, store: R.Run, q: S.Request, o: S.Outcome)
    requires Good(dev, s) && store.nvm.Shape(dev) && R.Consistent(dev, store, s.next + 1)
    requires q.LoadCalibration? ==> Loading(s.store) && o.CalibrationLoaded? && (o.status == Ok <==> o.loaded.Some?)
    requires CalibrationJob(store) == if S.SlotOf(q) == S.CalibrationSlot then None else CalibrationJob(s.store)
    ensures SaveIsOwn(Deliver(dev, System(Callback(s.machine, q, o), store, s.services, s.next + 1)))
  {
    CallbackStep(s.machine, q, o);
    DeliverOwn(dev, System(Callback(s.machine, q, o), store, s.services, s.next + 1));
  }

  lemma RegionOwn(dev: S.Device, s: System, store: R.Run, stage: S.Stage, fault: Option<seq<Byte>>)
    requires Good(dev, s) && store.nvm.Shape(dev) && R.Consistent(dev, store, s.next + 1)
    requires Finishes(dev, s.store, store, stage, fault)
    ensures SaveIsOwn(AfterRegion(dev, s, store))
  {
    if store.answers == s.store.answers {
      assert AfterRegion(dev, s, store) == s.(store := store, next := s.next + 1);
    } else {
      var a := store.answers[|s.store.answers|];
      var q := store.accepted[a.token];
      if q.LoadCalibration? {
        AnswerToLoad(dev, s.store, store, stage, fault);
      }
      Heard(dev, s, store, a, q);
      AnswerOwn(dev, s, store, q, a.outcome);
    }
  }

  lemma ClientOwn(dev: S.Device, s: System, q: S.Request)
    requires Good(dev, s)
    ensures SaveIsOwn(Next(dev, s, Client(q)))
  {
    if q.SaveConfig? || q.LoadConfig? || q.Format? {
      AskJob(dev, s.store, q, s.next);
    }
  }

  // ---------------------------------------------------------------------------
  // Over whole runs
  // ---------------------------------------------------------------------------

  lemma StepGood(dev: S.Device, s: System, e: SystemEvent)
    requires Good(dev, s) && !Undisciplined(s, e)
    ensures Good(dev, Next(dev, s, e))
  {
    StepFits(dev, s, e);
    match e
    case External(x) => ExternalOwn(dev, s, x);
    case Region(stage, fault) =>
      R.StepConsistent(dev, s.store, R.Finish(stage, fault), s.next);
      FinishJob(dev, s.store, stage, fault, s.next);
      RegionOwn(dev, s, R.Next(dev, s.store, R.Finish(stage, fault), s.next), stage, fault);
    case Client(q) => ClientOwn(dev, s, q);
    case SamplingBegins =>
  }

  lemma {:induction false} RunGood(dev: S.Device, start: System, es: seq<SystemEvent>)
    requires Good(dev, start) && Disciplined(dev, start, es)
    ensures Good(dev, After(dev, start, es))
    decreases es
  {
    if es != [] {
      RunGood(dev, start, es[..|es| - 1]);
      StepGood(dev, After(dev, start, es[..|es| - 1]), es[|es| - 1]);
    }
  }

  lemma BootGood(dev: S.Device, m: Machine, store: R.Run)
    requires Booting(dev, m, store)
    ensures Good(dev, PowerOn(dev, m, store))
  {
    BootFits(dev, m, store);
  }

  /** The machine becomes Ready or Enabled from elsewhere only when a region operation completes. */
  lemma SettlesByStorage(dev: S.Device, s: System, e: SystemEvent)
    requires s.store.nvm.Shape(dev) && s.machine.outbox == [] && DriveAgrees(s.machine)
    requires !Settled(s.machine) && Settled(Next(dev, s, e).machine)
    ensures e.Region?
  {
    match e
    case External(x) =>
      if !Ignored(s, x) {
        ExternalStep(s.machine, x, s.next);
      }
    case Region(stage, fault) =>
    case Client(q) =>
    case SamplingBegins =>
  }

  /** A save that succeeded has stored what it was asked to. */
  lemma AnswerToSave(dev: S.Device, r: R.Run, f: R.Run, k: nat, stage: S.Stage, fault: Option<seq<Byte>>)
    requires R.Consistent(dev, r, k) && f.nvm.Shape(dev) && Finishes(dev, r, f, stage, fault)
    requires f.answers != r.answers && r.jobs[S.StageSlot(stage)].request.SaveCalibration?
    requires f.answers[|r.answers|].outcome == S.Done(Ok)
    ensures Saving(r).Some? && f.nvm.Stored(dev) == Saving(r)
  {
    R.AnswerOfSave(dev, r, k, stage, fault, f.answers[|r.answers|]);
  }

  /** What an answer that settles the machine says of the medium. */
  lemma SettlingAnswer(dev: S.Device, s: System, store: R.Run, stage: S.Stage, fault: Option<seq<Byte>>)
    requires Good(dev, s) && store.nvm.Shape(dev) && Finishes(dev, s.store, store, stage, fault)
    requires !Settled(s.machine) && Settled(AfterRegion(dev, s, store).machine)
    ensures store.nvm.Stored(dev) == Some(AfterRegion(dev, s, store).machine.calibrationData)
    ensures AfterRegion(dev, s, store).store == store
  {
    var a := store.answers[|s.store.answers|];
    var q := store.accepted[a.token];
    if q.LoadCalibration? {
      AnswerToLoad(dev, s.store, store, stage, fault);
    }
    CallbackStep(s.machine, q, a.outcome);
    var n := Callback(s.machine, q, a.outcome);
    assert n.outbox == [];
    if q.SaveCalibration? {
      AnswerToSave(dev, s.store, store, s.next, stage, fault);
    }
  }

  /** At that instant the machine's data is exactly what the calibration region decodes to. */
  lemma ReadyIsStored(dev: S.Device, s: System, e: SystemEvent)
    requires Good(dev, s) && !Settled(s.machine) && Settled(Next(dev, s, e).machine)
    ensures Next(dev, s, e).store.nvm.Stored(dev) == Some(Next(dev, s, e).machine.calibrationData)
  {
    SettlesByStorage(dev, s, e);
    FinishJob(dev, s.store, e.stage, e.fault, s.next);
    SettlingAnswer(dev, s, R.Next(dev, s.store, R.Finish(e.stage, e.fault), s.next), e.stage, e.fault);
  }

  /** Calibration agrees with storage: in every disciplined run from power-on, whenever calibration or boot
      brings the machine to Ready, its data is what the calibration region decodes to at that instant. */
  lemma CalibrationAgreesWithStorage(
    dev: S.Device, m: Machine, store: R.Run, es: seq<SystemEvent>, e: SystemEvent)
    requires Booting(dev, m, store)
    requires Disciplined(dev, PowerOn(dev, m, store), es)
    ensures var s := After(dev, PowerOn(dev, m, store), es);
            var t := Next(dev, s, e);
            !Settled(s.machine) && Settled(t.machine) ==> t.store.nvm.Stored(dev) == Some(t.machine.calibrationData)
  {
    BootGood(dev, m, store);
    RunGood(dev, PowerOn(dev, m, store), es);
    var s := After(dev, PowerOn(dev, m, store), es);
    if !Settled(s.machine) && Settled(Next(dev, s, e).machine) {
      ReadyIsStored(dev, s, e);
    }
  }

  // ---------------------------------------------------------------------------
  // Why the discipline is needed, and that nothing else is
  // ---------------------------------------------------------------------------

  /** The step makes the machine Ready with data the region does not hold. */
  ghost predicate Mismatch(dev: S.Device, s: System, t: System)
    requires t.store.nvm.Shape(dev)
  {
    !Settled(s.machine) && Settled(t.machine) && t.store.nvm.Stored(dev) != Some(t.machine.calibrationData)
  }

  /** Without any further calibrate command, the events lead the machine to disagree with storage. */
  ghost predicate Disagrees(dev: S.Device, s: System, es: seq<SystemEvent>)
    requires s.store.nvm.Shape(dev)
    decreases es
  {
    && es != [] && es[0] != External(Calibrate)
    && (Mismatch(dev, s, Next(dev, s, es[0])) || Disagrees(dev, Next(dev, s, es[0]), es[1..]))
  }

  ghost predicate CanDisagree(dev: S.Device, s: System)
    requires s.store.nvm.Shape(dev)
  {
    exists es: seq<SystemEvent> :: Disagrees(dev, s, es)
  }

  lemma DisagreesLater(dev: S.Device, s: System, e: SystemEvent)
    requires s.store.nvm.Shape(dev) && e != External(Calibrate)
    requires Mismatch(dev, s, Next(dev, s, e)) || CanDisagree(dev, Next(dev, s, e))
    ensures CanDisagree(dev, s)
  {
    if Mismatch(dev, s, Next(dev, s, e)) {
      assert Disagrees(dev, s, [e]);
    } else {
      var es: seq<SystemEvent> :| Disagrees(dev, Next(dev, s, e), es);
      assert ([e] + es)[1..] == es;
      assert Disagrees(dev, s, [e] + es);
    }
  }

  lemma {:induction false} NeverDisagrees(dev: S.Device, s: System, es: seq<SystemEvent>)
    requires Good(dev, s)
    ensures !Disagrees(dev, s, es)
    decreases es
  {
    if es != [] && es[0] != External(Calibrate) {
      var t := Next(dev, s, es[0]);
      if !Settled(s.machine) && Settled(t.machine) {
        ReadyIsStored(dev, s, es[0]);
      }
      StepGood(dev, s, es[0]);
      NeverDisagrees(dev, t, es[1..]);
    }
  }

  // ---------------------------------------------------------------------------
  // A save under way can always go through
  // ---------------------------------------------------------------------------

  /** The machine is calibrating while a save, its own or not, is under way. */
  ghost predicate Collecting(dev: S.Device, s: System) {
    && s.store.nvm.Shape(dev) && R.Consistent(dev, s.store, s.next)
    && s.machine.outbox == [] && s.machine.state.Calibrating? && Saving(s.store).Some?
  }

  /** Storage has worked without the machine noticing, and the save is still under way. */
  ghost predicate Unnoticed(dev: S.Device, s: System, t: System) {
    Collecting(dev, t) && t.machine == s.machine && t.services == s.services && Saving(t.store) == Saving(s.store)
  }

  function SavingStage(s: System): S.Stage
    requires Saving(s.store).Some?
  {
    s.store.jobs[S.CalibrationSlot].stage
  }

  /** The record to be saved is in its region. */
  ghost predicate Intact(dev: S.Device, n: S.Nvm)
    requires n.Shape(dev)
  {
    n.CalibrationRegion(dev) == n.calibrationBuffer
  }

  lemma SaveStage(dev: S.Device, r: R.Run)
    requires r.nvm.Shape(dev) && R.JobsMatch(dev, r) && Saving(r).Some?
    ensures var job := r.jobs[S.CalibrationSlot];
            && job.stage in {S.SaveErase, S.SaveWrite, S.SaveRead} && job.stage in r.nvm.flight
            && r.nvm.Holder(S.CalibrationSlot) == Some(job.token)
            && r.nvm.calibrationBuffer == CalibrationRecord(dev.crc, Saving(r).value)
  {
    R.InFlight(dev, r, S.CalibrationSlot);
    assert R.JobOk(dev, r.nvm, S.CalibrationSlot, r.jobs[S.CalibrationSlot]);
  }

  /** One link of the chain of the save completes properly. */
  lemma LinkStep(dev: S.Device, r: R.Run, k: nat)
    requires r.nvm.Shape(dev) && R.Consistent(dev, r, k) && Saving(r).Some?
    requires r.jobs[S.CalibrationSlot].stage in {S.SaveErase, S.SaveWrite}
    ensures var stage := r.jobs[S.CalibrationSlot].stage;
            var f := R.Next(dev, r, R.Finish(stage, None), k);
            && f.answers == r.answers && Saving(f) == Saving(r)
            && f.jobs[S.CalibrationSlot].stage == S.NextStage(stage).value
            && (stage == S.SaveWrite ==> Intact(dev, f.nvm))
  {
    SaveStage(dev, r);
    var stage := r.jobs[S.CalibrationSlot].stage;
    R.FinishMoves(dev, r, stage, None);
    assert r.answers + [] == r.answers;
    if stage == S.SaveWrite {
      NR.ReadBack(r.nvm.medium, dev.calibration, r.nvm.calibrationBuffer);
    }
  }

  lemma Links(dev: S.Device, s: System)
    requires Collecting(dev, s) && SavingStage(s) in {S.SaveErase, S.SaveWrite}
    ensures var t := Next(dev, s, Region(SavingStage(s), None));
            && Unnoticed(dev, s, t) && SavingStage(t) == S.NextStage(SavingStage(s)).value
            && (SavingStage(s) == S.SaveWrite ==> Intact(dev, t.store.nvm))
  {
    LinkStep(dev, s.store, s.next);
    R.StepConsistent(dev, s.store, R.Finish(SavingStage(s), None), s.next);
  }

  lemma LastVerdict(dev: S.Device, r: R.Run)
    requires r.nvm.Shape(dev) && R.JobsMatch(dev, r) && Intact(dev, r.nvm) && Saving(r).Some?
    requires r.jobs[S.CalibrationSlot].stage == S.SaveRead
    ensures S.Complete(dev, r.nvm, S.SaveRead, None).1
         == [S.Answer(r.jobs[S.CalibrationSlot].token, S.Done(Ok))]
  {
    SaveStage(dev, r);
  }

  /** The last link answers Ok... */
  lemma LastAnswer(dev: S.Device, r: R.Run, k: nat)
    requires r.nvm.Shape(dev) && R.Consistent(dev, r, k) && Intact(dev, r.nvm) && Saving(r).Some?
    requires r.jobs[S.CalibrationSlot].stage == S.SaveRead
    ensures var f := R.Next(dev, r, R.Finish(S.SaveRead, None), k);
            var token := r.jobs[S.CalibrationSlot].token;
            && f.answers == r.answers + [S.Answer(token, S.Done(Ok))]
            && token in f.accepted && f.accepted[token] == S.SaveCalibration(Saving(r).value)
            && f.nvm.Stored(dev) == Saving(r)
  {
    SaveStage(dev, r);
    var a := S.Answer(r.jobs[S.CalibrationSlot].token, S.Done(Ok));
    LastVerdict(dev, r);
    R.AnswerOfSave(dev, r, k, S.SaveRead, None, a);
  }

  /** ...and the machine takes over whatever it is collecting now. */
  lemma LastStep(dev: S.Device, s: System)
    requires Collecting(dev, s) && SavingStage(s) == S.SaveRead && Intact(dev, s.store.nvm)
    ensures var t := Next(dev, s, Region(S.SaveRead, None));
            && t.machine == Complete(UseCalibration(s.machine, s.machine.state.pendingData), Succeeded)
            && t.store.nvm.Stored(dev) == Saving(s.store)
  {
    var f := R.Next(dev, s.store, R.Finish(S.SaveRead, None), s.next);
    LastAnswer(dev, s.store, s.next);
    Heard(dev, s, f, S.Answer(s.store.jobs[S.CalibrationSlot].token, S.Done(Ok)),
          S.SaveCalibration(Saving(s.store).value));
  }

  // A record damaged before it is read back: by a format, or by a fault of the device. A further faulty format may
  // leave it as it was to be.

  predicate Formatting(r: R.Run, stage: S.Stage) {
    S.FormatSlot in r.jobs && r.jobs[S.FormatSlot].stage == stage
  }

  lemma LastFormat(dev: S.Device, r: R.Run, k: nat)
    requires R.Consistent(dev, r, k) && Formatting(r, S.FormatConfig) && S.CalibrationSlot in r.jobs
    ensures var f := R.Next(dev, r, R.Finish(S.FormatConfig, None), k);
            var token := r.jobs[S.FormatSlot].token;
            && f.answers == r.answers + [S.Answer(token, S.Done(Ok))]
            && token in f.accepted && f.accepted[token] == S.Format
            && f.jobs == r.jobs - {S.FormatSlot}
  {
    R.InFlight(dev, r, S.FormatSlot);
    assert R.JobOk(dev, r.nvm, S.FormatSlot, r.jobs[S.FormatSlot]);
  }

  lemma FormatConsistent(dev: S.Device, r: R.Run, k: nat)
    requires R.Consistent(dev, r, k) && S.FormatSlot !in r.jobs
    ensures var f := R.Next(dev, r, R.Ask(S.Format), k);
            R.Consistent(dev, f, k + 1) && CalibrationJob(f) == CalibrationJob(r) && Formatting(f, S.FormatCalibration)
            && (S.CalibrationSlot in r.jobs ==> f.jobs[S.CalibrationSlot] == r.jobs[S.CalibrationSlot])
  {
    R.StepConsistent(dev, r, R.Ask(S.Format), k);
    FirstFormat(dev, r, k);
  }

  lemma LastFormatConsistent(dev: S.Device, r: R.Run, k: nat)
    requires R.Consistent(dev, r, k) && Formatting(r, S.FormatConfig) && S.CalibrationSlot in r.jobs
    ensures var f := R.Next(dev, r, R.Finish(S.FormatConfig, None), k);
            R.Consistent(dev, f, k + 1) && CalibrationJob(f) == CalibrationJob(r) && S.FormatSlot !in f.jobs
            && f.jobs[S.CalibrationSlot] == r.jobs[S.CalibrationSlot]
  {
    R.StepConsistent(dev, r, R.Finish(S.FormatConfig, None), k);
    LastFormat(dev, r, k);
  }

  lemma UnnoticedIf(dev: S.Device, s: System, f: R.Run)
    requires Collecting(dev, s) && f.nvm.Shape(dev) && R.Consistent(dev, f, s.next + 1)
    requires CalibrationJob(f) == CalibrationJob(s.store)
    ensures Unnoticed(dev, s, System(s.machine, f, s.services, s.next + 1))
  {
  }

  lemma RegionUnheard(dev: S.Device, s: System, f: R.Run)
    requires f.nvm.Shape(dev) && f.answers == s.store.answers
    ensures AfterRegion(dev, s, f) == System(s.machine, f, s.services, s.next + 1)
  {
  }

  lemma FormatUnheard(dev: S.Device, s: System, f: R.Run, a: S.Answer)
    requires s.store.nvm.Shape(dev) && f.nvm.Shape(dev) && s.machine.outbox == []
    requires f.answers == s.store.answers + [a] && a.token in f.accepted && f.accepted[a.token] == S.Format
    ensures AfterRegion(dev, s, f) == System(s.machine, f, s.services, s.next + 1)
  {
    Heard(dev, s, f, a, S.Format);
  }

  lemma FormatEnds(dev: S.Device, s: System)
    requires Collecting(dev, s) && Formatting(s.store, S.FormatConfig)
    ensures var t := Next(dev, s, Region(S.FormatConfig, None));
            Unnoticed(dev, s, t) && S.FormatSlot !in t.store.jobs && SavingStage(t) == SavingStage(s)
  {
    var f := R.Next(dev, s.store, R.Finish(S.FormatConfig, None), s.next);
    LastFormatConsistent(dev, s.store, s.next);
    LastFormat(dev, s.store, s.next);
    FormatUnheard(dev, s, f, S.Answer(s.store.jobs[S.FormatSlot].token, S.Done(Ok)));
    UnnoticedIf(dev, s, f);
  }

  lemma FirstFormat(dev: S.Device, r: R.Run, k: nat)
    requires r.nvm.Shape(dev) && R.JobsMatch(dev, r) && S.FormatSlot !in r.jobs
    ensures R.Next(dev, r, R.Ask(S.Format), k).jobs == r.jobs[S.FormatSlot := R.Job(k, S.Format, S.FormatCalibration)]
  {
    assert r.nvm.Holder(S.FormatSlot) == None;
  }

  lemma FormatBegins(dev: S.Device, s: System)
    requires Collecting(dev, s) && S.FormatSlot !in s.store.jobs
    ensures var t := Next(dev, s, Client(S.Format));
            Unnoticed(dev, s, t) && Formatting(t.store, S.FormatCalibration) && SavingStage(t) == SavingStage(s)
  {
    FormatConsistent(dev, s.store, s.next);
    UnnoticedIf(dev, s, R.Next(dev, s.store, R.Ask(S.Format), s.next));
  }

  lemma FaultyFormat(dev: S.Device, r: R.Run, k: nat)
    requires r.nvm.Shape(dev) && R.JobsMatch(dev, r) && Formatting(r, S.FormatCalibration)
    ensures var f := R.Next(dev, r, R.Finish(S.FormatCalibration, Some(r.nvm.calibrationBuffer)), k);
            && f.answers == r.answers && Intact(dev, f.nvm)
            && (S.CalibrationSlot in f.jobs <==> S.CalibrationSlot in r.jobs)
            && (S.CalibrationSlot in r.jobs ==> f.jobs[S.CalibrationSlot] == r.jobs[S.CalibrationSlot])
  {
    R.InFlight(dev, r, S.FormatSlot);
    assert r.answers + [] == r.answers;
    NR.ReadBack(NR.EraseAt(r.nvm.medium, dev.calibration), dev.calibration, r.nvm.calibrationBuffer);
  }

  lemma FormatRepairs(dev: S.Device, s: System)
    requires Collecting(dev, s) && Formatting(s.store, S.FormatCalibration)
    ensures var t := Next(dev, s, Region(S.FormatCalibration, Some(s.store.nvm.calibrationBuffer)));
            Unnoticed(dev, s, t) && Intact(dev, t.store.nvm) && SavingStage(t) == SavingStage(s)
  {
    var e := R.Finish(S.FormatCalibration, Some(s.store.nvm.calibrationBuffer));
    R.StepConsistent(dev, s.store, e, s.next);
    FaultyFormat(dev, s.store, s.next);
    RegionUnheard(dev, s, R.Next(dev, s.store, e, s.next));
    UnnoticedIf(dev, s, R.Next(dev, s.store, e, s.next));
  }

  /** Region operations and other clients only. */
  predicate StorageOnly(es: seq<SystemEvent>) {
    forall i | 0 <= i < |es| :: es[i].Region? || es[i].Client?
  }

  /** A continuation that lets the save come to its last link with the record in place. */
  ghost predicate Completable(dev: S.Device, s: System, t: System, es: seq<SystemEvent>)
    requires s.store.nvm.Shape(dev)
  {
    && StorageOnly(es) && After(dev, s, es) == t
    && Unnoticed(dev, s, t) && SavingStage(t) == S.SaveRead && Intact(dev, t.store.nvm)
  }

  lemma UnnoticedTwice(dev: S.Device, s: System, u: System, t: System)
    requires Unnoticed(dev, s, u) && Unnoticed(dev, u, t)
    ensures Unnoticed(dev, s, t)
  {
  }

  lemma StorageOnlyCons(e: SystemEvent, es: seq<SystemEvent>)
    requires (e.Region? || e.Client?) && StorageOnly(es)
    ensures StorageOnly([e] + es)
  {
  }

  lemma CompletableLater(
    dev: S.Device, s: System, e: SystemEvent, u: System, t: System, es: seq<SystemEvent>)
    returns (all: seq<SystemEvent>)
    requires s.store.nvm.Shape(dev) && (e.Region? || e.Client?) && Next(dev, s, e) == u && Unnoticed(dev, s, u)
    requires Completable(dev, u, t, es)
    ensures Completable(dev, s, t, all)
  {
    all := [e] + es;
    AfterCons(dev, s, e, es);
    StorageOnlyCons(e, es);
    UnnoticedTwice(dev, s, u, t);
  }

  lemma Repairable(dev: S.Device, s: System) returns (es: seq<SystemEvent>, t: System)
    requires Collecting(dev, s) && SavingStage(s) == S.SaveRead
    ensures Completable(dev, s, t, es)
    decreases if Formatting(s.store, S.FormatConfig) then 2 else if S.FormatSlot !in s.store.jobs then 1 else 0
  {
    if Formatting(s.store, S.FormatConfig) {
      FormatEnds(dev, s);
      var u := Next(dev, s, Region(S.FormatConfig, None));
      es, t := Repairable(dev, u);
      es := CompletableLater(dev, s, Region(S.FormatConfig, None), u, t, es);
    } else if S.FormatSlot !in s.store.jobs {
      FormatBegins(dev, s);
      var u := Next(dev, s, Client(S.Format));
      es, t := Repairable(dev, u);
      es := CompletableLater(dev, s, Client(S.Format), u, t, es);
    } else {
      var e := Region(S.FormatCalibration, Some(s.store.nvm.calibrationBuffer));
      assert R.JobOk(dev, s.store.nvm, S.FormatSlot, s.store.jobs[S.FormatSlot]);
      FormatRepairs(dev, s);
      t := Next(dev, s, e);
      assert After(dev, t, []) == t;
      es := CompletableLater(dev, s, e, t, t, []);
    }
  }

  lemma {:induction false} SaveCompletable(dev: S.Device, s: System) returns (es: seq<SystemEvent>, t: System)
    requires Collecting(dev, s)
    ensures Completable(dev, s, t, es)
    decreases R.Remaining(SavingStage(s))
  {
    SaveStage(dev, s.store);
    if SavingStage(s) == S.SaveRead {
      if Intact(dev, s.store.nvm) {
        es, t := [], s;
      } else {
        es, t := Repairable(dev, s);
      }
    } else {
      var e := Region(SavingStage(s), None);
      Links(dev, s);
      var u := Next(dev, s, e);
      es, t := SaveCompletable(dev, u);
      es := CompletableLater(dev, s, e, u, t, es);
    }
  }

  // ---------------------------------------------------------------------------
  // ...and make the machine disagree
  // ---------------------------------------------------------------------------

  /** A save of other data than the machine is collecting is under way. */
  ghost predicate ForeignSave(dev: S.Device, s: System) {
    Collecting(dev, s) && Saving(s.store).value != s.machine.state.pendingData
  }

  lemma {:induction false} DisagreesAfter(dev: S.Device, s: System, es: seq<SystemEvent>)
    requires s.store.nvm.Shape(dev) && StorageOnly(es) && CanDisagree(dev, After(dev, s, es))
    ensures CanDisagree(dev, s)
    decreases es
  {
    if es != [] {
      var before, e := es[..|es| - 1], es[|es| - 1];
      DisagreesLater(dev, After(dev, s, before), e);
      DisagreesAfter(dev, s, before);
    }
  }

  lemma TakesOver(m: Machine)
    requires m.state.Calibrating?
    ensures var n := Complete(UseCalibration(m, m.state.pendingData), Succeeded);
            !Settled(m) && Settled(n) && n.calibrationData == m.state.pendingData
  {
  }

  lemma LastMismatch(dev: S.Device, s: System)
    requires ForeignSave(dev, s) && SavingStage(s) == S.SaveRead && Intact(dev, s.store.nvm)
    ensures CanDisagree(dev, s)
  {
    LastStep(dev, s);
    assert Mismatch(dev, s, Next(dev, s, Region(S.SaveRead, None))) by {
      TakesOver(s.machine);
    }
    DisagreesLater(dev, s, Region(S.SaveRead, None));
  }

  lemma ForeignSaveDisagrees(dev: S.Device, s: System)
    requires ForeignSave(dev, s)
    ensures CanDisagree(dev, s)
  {
    var es, t := SaveCompletable(dev, s);
    LastMismatch(dev, t);
    DisagreesAfter(dev, s, es);
  }

  lemma StaleRealSave(dev: S.Device, s: System)
    requires Good(dev, s) && Accepts(s.machine) && Saving(s.store).Some?
    requires Saving(s.store).value != NO_CALIBRATION
    ensures CanDisagree(dev, Next(dev, s, External(Calibrate)))
  {
    CalibrateStarts(dev, s);
    Later(dev, s.store, s.next, s.next + 1);
    ForeignSaveDisagrees(dev, Next(dev, s, External(Calibrate)));
  }

  /** A calibrate command is accepted: the first service is asked, storage is not. */
  lemma CalibrateStarts(dev: S.Device, s: System)
    requires s.store.nvm.Shape(dev) && Accepts(s.machine) && s.machine.outbox == []
    ensures var t := Next(dev, s, External(Calibrate));
            && t.store == s.store && t.next == s.next + 1 && t.machine.outbox == []
            && t.machine.state == Calibrating(PolePairsStep, NO_CALIBRATION)
            && EstimatePolePairs in t.services.outstanding
  {
  }

  /** Its answer changes the data being collected. */
  lemma FoundChanges(dev: S.Device, t: System)
    requires t.store.nvm.Shape(dev) && t.machine.outbox == [] && EstimatePolePairs in t.services.outstanding
    requires t.machine.state == Calibrating(PolePairsStep, NO_CALIBRATION)
    ensures var u := Next(dev, t, External(PolePairsDone(Some(1))));
            && u.store == t.store && u.next == t.next + 1 && u.machine.outbox == []
            && u.machine.state == Calibrating(ResistanceStep, NO_CALIBRATION.(polePairs := 1))
  {
  }

  lemma FoundIsForeign(dev: S.Device, s: System)
    requires Good(dev, s) && Accepts(s.machine) && Saving(s.store) == Some(NO_CALIBRATION)
    ensures ForeignSave(dev, Next(dev, Next(dev, s, External(Calibrate)), External(PolePairsDone(Some(1)))))
  {
    CalibrateStarts(dev, s);
    FoundChanges(dev, Next(dev, s, External(Calibrate)));
    Later(dev, s.store, s.next, s.next + 2);
  }

  lemma StaleEmptySave(dev: S.Device, s: System)
    requires Good(dev, s) && Accepts(s.machine) && Saving(s.store) == Some(NO_CALIBRATION)
    ensures CanDisagree(dev, Next(dev, s, External(Calibrate)))
  {
    var t, found := Next(dev, s, External(Calibrate)), External(PolePairsDone(Some(1)));
    FoundIsForeign(dev, s);
    ForeignSaveDisagrees(dev, Next(dev, t, found));
    DisagreesLater(dev, t, found);
  }

  /** A calibrate command accepted while a save is under way: the pole pairs it finds next, or their absence,
      are taken over when the old save completes. */
  lemma StaleSave(dev: S.Device, s: System)
    requires Good(dev, s) && Accepts(s.machine) && Saving(s.store).Some?
    ensures CanDisagree(dev, Next(dev, s, External(Calibrate)))
  {
    if Saving(s.store).value != NO_CALIBRATION {
      StaleRealSave(dev, s);
    } else {
      StaleEmptySave(dev, s);
    }
  }

  /** Accepting a calibrate command is harmless exactly when no calibration save is under way. */
  lemma CalibrateHarmlessIff(dev: S.Device, s: System)
    requires Good(dev, s) && Accepts(s.machine)
    ensures !CanDisagree(dev, Next(dev, s, External(Calibrate))) <==> Saving(s.store) == None
  {
    if Saving(s.store).Some? {
      StaleSave(dev, s);
    } else {
      var t := Next(dev, s, External(Calibrate));
      StepGood(dev, s, External(Calibrate));
      if CanDisagree(dev, t) {
        var es: seq<SystemEvent> :| Disagrees(dev, t, es);
        NeverDisagrees(dev, t, es);
      }
    }
  }
}
