/** The lifecycle machine on top of the storage service: any interleaving of commands, faults, identification
    callbacks and region operations, and what holds between them. */
module LifecycleSystem {
  import opened Basics
  import opened RecordLayout
  import opened LifecycleModel
  import opened IdentificationModel
  import NR = NvmRegions
  import S = StorageModel
  import R = StorageRuns

  /** Commands and storage requests take their numbers from next. */
  datatype System = System(machine: Machine, store: R.Run, services: Services, next: nat)

  datatype SystemEvent =
    | External(e: Event)                                 // command, fault or identification callback
    | Region(stage: S.Stage, fault: Option<seq<Byte>>)   // a region operation completes
    | Client(request: S.Request)                         // another client configures or formats
    | SamplingBegins                                     // the settle timer runs out

  predicate FromStorage(e: Event) {
    e.Saved? || e.Invalidated? || e.ValidityKnown? || e.Loaded?
  }

  function StorageRequest(r: Request): S.Request {
    match r
    case Save(d) => S.SaveCalibration(d)
    case Load => S.LoadCalibration
    case Invalidate => S.InvalidateCalibration
    case _ => S.CheckCalibration
  }

  /** Hand the request in the outbox to the service it is for. */
  ghost function Deliver(dev: S.Device, s: System): (t: System)
    requires s.store.nvm.Shape(dev)
    ensures t.store.nvm.Shape(dev)
  {
    if s.machine.outbox == [] then s
    else
      var r, m := s.machine.outbox[0], s.machine.(outbox := []);
      match r
      case Run(service) => s.(machine := m, services := Asked(s.services, service))
      case _ => s.(machine := m, store := R.Next(dev, s.store, R.Ask(StorageRequest(r)), s.next), next := s.next + 1)
  }

  /** The machine's callback for an answer of the storage service. */
  function Callback(m: Machine, q: S.Request, o: S.Outcome): Machine {
    match (q, o)
    case (SaveCalibration(_), Done(status)) => OnSaved(m, status)
    case (InvalidateCalibration, Done(status)) => OnInvalidated(m, status)
    case (CheckCalibration, Validity(valid)) => OnValidity(m, valid)
    case (LoadCalibration, CalibrationLoaded(status, data)) => OnLoaded(m, status, data)
    case _ => m
  }

  predicate Ignored(s: System, e: Event) {
    FromStorage(e) || (ServiceOf(e).Some? && !Answers(s.services, e))
  }

  /** A region operation completed; if it ended a chain, the machine hears of it. */
  ghost function AfterRegion(dev: S.Device, s: System, store: R.Run): (t: System)
    requires store.nvm.Shape(dev)
    ensures t.store.nvm.Shape(dev)
  {
    var n := |store.answers|;
    if n == |s.store.answers| || n == 0 || store.answers[n - 1].token !in store.accepted then
      s.(store := store, next := s.next + 1)
    else
      var a := store.answers[n - 1];
      Deliver(dev, System(Callback(s.machine, store.accepted[a.token], a.outcome), store, s.services, s.next + 1))
  }

  ghost function Next(dev: S.Device, s: System, e: SystemEvent): (t: System)
    requires s.store.nvm.Shape(dev)
    ensures t.store.nvm.Shape(dev)
  {
    match e
    case External(x) =>
      if Ignored(s, x) then s
      else Deliver(dev, System(Step(s.machine, x, s.next), s.store, Answered(s.services, x), s.next + 1))
    case Region(stage, fault) => AfterRegion(dev, s, R.Next(dev, s.store, R.Finish(stage, fault), s.next))
    case Client(q) =>
      if q.SaveConfig? || q.LoadConfig? || q.Format? then
        s.(store := R.Next(dev, s.store, R.Ask(q), s.next), next := s.next + 1)
      else s
    case SamplingBegins => s.(services := Sampling(s.services))
  }

  ghost function After(dev: S.Device, start: System, es: seq<SystemEvent>): (t: System)
    requires start.store.nvm.Shape(dev)
    ensures t.store.nvm.Shape(dev)
    decreases es
  {
    if es == [] then start else Next(dev, After(dev, start, es[..|es| - 1]), es[|es| - 1])
  }

  /** The events left after the first. */
  lemma AfterSnoc(dev: S.Device, s: System, es: seq<SystemEvent>, e: SystemEvent)
    requires s.store.nvm.Shape(dev)
    ensures After(dev, s, es + [e]) == Next(dev, After(dev, s, es), e)
  {
    assert (es + [e])[..|es|] == es;
  }

  lemma {:induction false} AfterCons(dev: S.Device, s: System, e: SystemEvent, es: seq<SystemEvent>)
    requires s.store.nvm.Shape(dev)
    ensures After(dev, s, [e] + es) == After(dev, Next(dev, s, e), es)
    decreases es
  {
    if es == [] {
      AfterSnoc(dev, s, [], e);
      assert [e] + es == [] + [e];
    } else {
      var before, last := es[..|es| - 1], es[|es| - 1];
      AfterCons(dev, s, e, before);
      AfterSnoc(dev, s, [e] + before, last);
      AfterSnoc(dev, Next(dev, s, e), before, last);
      assert [e] + es == [e] + before + [last] && es == before + [last];
    }
  }

  // ---------------------------------------------------------------------------
  // What holds between events
  // ---------------------------------------------------------------------------

  function CalibrationJob(r: R.Run): Option<S.Request> {
    if S.CalibrationSlot in r.jobs then Some(r.jobs[S.CalibrationSlot].request) else None
  }

  /** The data of a calibration save under way. */
  function Saving(r: R.Run): Option<CalibrationData> {
    match CalibrationJob(r)
    case Some(SaveCalibration(d)) => Some(d)
    case _ => None
  }

  predicate Loading(r: R.Run) { CalibrationJob(r) == Some(S.LoadCalibration) }

  function FinalService(mode: Mode): Service {
    if mode == Torque then ForceAlignment else EstimateMechanics
  }

  predicate Settled(m: Machine) { m.state.Ready? || m.state.Enabled? }

  /** In Ready and Enabled the drive has the pole pairs and the encoder offset of the machine's calibration
      data; a torque machine never identifies mechanics. */
  predicate DriveAgrees(m: Machine) {
    && (Settled(m) ==> m.drive.polePairs == m.calibrationData.polePairs
                       && m.drive.encoderOffset == m.calibrationData.encoderZeroOffset)
    && (m.state.Ready? ==> m.state.loadedData == m.calibrationData)
    && (m.state.Calibrating? && m.mode == Torque ==> m.state.step != MechanicsStep)
  }

  /** The tunings, too, are those of the calibration data: the current loop's in both modes, the speed loop's and
      the first estimates with an outer loop. */
  predicate Tuned(m: Machine) {
    Settled(m) ==>
      && m.drive.current == FromMotor(m.calibrationData.rPhase, m.calibrationData.lD)
      && (m.mode == OuterLoop ==>
            && m.drive.speed == Gains(m.calibrationData.kpVelocity, m.calibrationData.kiVelocity, 0)
            && m.drive.inertia == m.calibrationData.inertia && m.drive.friction == m.calibrationData.frictionViscous
            && m.drive.resistance == m.calibrationData.rPhase && m.drive.inductance == m.calibrationData.lD)
  }

  ghost predicate Fits(dev: S.Device, s: System) {
    && s.store.nvm.Shape(dev) && R.Consistent(dev, s.store, s.next)
    && s.machine.outbox == []
    && DriveAgrees(s.machine)
    && (Loading(s.store) ==> !Settled(s.machine))
  }

  // ---------------------------------------------------------------------------
  // The storage side of a step
  // ---------------------------------------------------------------------------

  lemma Later(dev: S.Device, r: R.Run, k: nat, n: nat)
    requires R.Consistent(dev, r, k) && k <= n
    ensures R.Consistent(dev, r, n)
  {
  }

  lemma AskJob(dev: S.Device, r: R.Run, q: S.Request, token: nat)
    requires R.Consistent(dev, r, token)
    ensures var a := R.Next(dev, r, R.Ask(q), token);
            CalibrationJob(a) ==
              if S.SlotOf(q) == S.CalibrationSlot && CalibrationJob(r) == None then Some(q) else CalibrationJob(r)
  {
    assert r.nvm.Holder(S.CalibrationSlot) ==
           if S.CalibrationSlot in r.jobs then Some(r.jobs[S.CalibrationSlot].token) else None;
  }

  /** What a completion does to the jobs, and which answer it gives. */
  ghost predicate Finishes(dev: S.Device, r: R.Run, f: R.Run, stage: S.Stage, fault: Option<seq<Byte>>)
    requires r.nvm.Shape(dev)
  {
    if f.answers == r.answers then CalibrationJob(f) == CalibrationJob(r)
    else
      && S.NextStage(stage).None? && stage in r.nvm.flight && S.StageSlot(stage) in r.jobs
      && |f.answers| == |r.answers| + 1 && f.answers == r.answers + [f.answers[|r.answers|]]
      && var a, job := f.answers[|r.answers|], r.jobs[S.StageSlot(stage)];
         && a.token == job.token && a.token in f.accepted && f.accepted[a.token] == job.request
         && job.stage == stage && S.SlotOf(job.request) == S.StageSlot(stage)
         && a in S.Complete(dev, r.nvm, stage, fault).1
         && f.nvm == S.Complete(dev, r.nvm, stage, fault).0
         && CalibrationJob(f) == if S.StageSlot(stage) == S.CalibrationSlot then None else CalibrationJob(r)
  }

  /** The job an operation in flight belongs to. */
  ghost predicate Owns(r: R.Run, stage: S.Stage) {
    && S.StageSlot(stage) in r.jobs
    && var job := r.jobs[S.StageSlot(stage)];
       && job.stage == stage && S.SlotOf(job.request) == S.StageSlot(stage)
       && job.token in r.accepted && r.accepted[job.token] == job.request
       && r.nvm.Holder(S.StageSlot(stage)) == Some(job.token)
  }

  lemma OwnerOf(dev: S.Device, r: R.Run, stage: S.Stage, k: nat)
    requires R.Consistent(dev, r, k) && stage in r.nvm.flight
    ensures Owns(r, stage)
  {
    assert R.FlightOk(r.nvm.flight, r.jobs, stage);
    assert R.JobOk(dev, r.nvm, S.StageSlot(stage), r.jobs[S.StageSlot(stage)]);
  }

  lemma OwnerFinishes(dev: S.Device, r: R.Run, stage: S.Stage, fault: Option<seq<Byte>>, k: nat)
    requires r.nvm.Shape(dev) && stage in r.nvm.flight && Owns(r, stage)
    ensures Finishes(dev, r, R.Next(dev, r, R.Finish(stage, fault), k), stage, fault)
  {
    if S.NextStage(stage).Some? {
      assert r.answers + [] == r.answers;
    }
  }

  lemma FinishJob(dev: S.Device, r: R.Run, stage: S.Stage, fault: Option<seq<Byte>>, k: nat)
    requires R.Consistent(dev, r, k)
    ensures Finishes(dev, r, R.Next(dev, r, R.Finish(stage, fault), k), stage, fault)
  {
    if stage in r.nvm.flight {
      OwnerOf(dev, r, stage, k);
      OwnerFinishes(dev, r, stage, fault, k);
    }
  }

  lemma StageOfLoad(dev: S.Device, r: R.Run, stage: S.Stage)
    requires r.nvm.Shape(dev) && R.JobsMatch(dev, r)
    requires S.StageSlot(stage) in r.jobs && r.jobs[S.StageSlot(stage)].stage == stage
    requires r.jobs[S.StageSlot(stage)].request.LoadCalibration?
    ensures stage == S.LoadRead
  {
    assert R.JobOk(dev, r.nvm, S.StageSlot(stage), r.jobs[S.StageSlot(stage)]);
  }

  /** The answer to a load says whether there was something to load. */
  lemma LoadAnswer(dev: S.Device, n: S.Nvm, stage: S.Stage, fault: Option<seq<Byte>>, a: S.Answer)
    requires n.Shape(dev) && stage == S.LoadRead && a in S.Complete(dev, n, stage, fault).1
    ensures a.outcome.CalibrationLoaded? && (a.outcome.status == Ok <==> a.outcome.loaded.Some?)
    ensures a.outcome.loaded == S.Complete(dev, n, stage, fault).0.Stored(dev)
  {
  }

  /** A load answers with what the medium holds. */
  lemma AnswerToLoad(dev: S.Device, r: R.Run, f: R.Run, stage: S.Stage, fault: Option<seq<Byte>>)
    requires r.nvm.Shape(dev) && f.nvm.Shape(dev) && R.JobsMatch(dev, r) && Finishes(dev, r, f, stage, fault)
    requires f.answers != r.answers && r.jobs[S.StageSlot(stage)].request.LoadCalibration?
    ensures var o := f.answers[|r.answers|].outcome;
            && Loading(r) && o.CalibrationLoaded? && (o.status == Ok <==> o.loaded.Some?)
            && o.loaded == f.nvm.Stored(dev)
  {
    StageOfLoad(dev, r, stage);
    LoadAnswer(dev, r.nvm, stage, fault, f.answers[|r.answers|]);
  }

  lemma Heard(dev: S.Device, s: System, store: R.Run, a: S.Answer, q: S.Request)
    requires s.store.nvm.Shape(dev) && store.nvm.Shape(dev)
    requires store.answers == s.store.answers + [a] && a.token in store.accepted && store.accepted[a.token] == q
    ensures AfterRegion(dev, s, store) ==
            Deliver(dev, System(Callback(s.machine, q, a.outcome), store, s.services, s.next + 1))
  {
  }

  // ---------------------------------------------------------------------------
  // The machine side of a step
  // ---------------------------------------------------------------------------

  /** What an external event can do to a machine, as far as storage is concerned. */
  lemma ExternalStep(m: Machine, e: Event, k: nat)
    requires !FromStorage(e) && m.outbox == [] && DriveAgrees(m)
    ensures var n := Step(m, e, k);
            && n.mode == m.mode && DriveAgrees(n) && |n.outbox| <= 1
            && (Settled(n) ==> Settled(m))
            && (n.outbox != [] ==> n.outbox[0].Run? || n.outbox[0].Save? || n.outbox[0].Invalidate?)
  {
  }

  /** What a storage answer can do to the machine. */
  lemma CallbackStep(m: Machine, q: S.Request, o: S.Outcome)
    requires m.outbox == [] && DriveAgrees(m)
    requires q.LoadCalibration? ==> !Settled(m) && o.CalibrationLoaded? && (o.status == Ok <==> o.loaded.Some?)
    ensures var n := Callback(m, q, o);
            && n.mode == m.mode && DriveAgrees(n) && |n.outbox| <= 1
            && (n.outbox != [] ==> q.CheckCalibration? && n.outbox[0].Load? && n.state.Idle?)
            && (Settled(n) && !Settled(m) ==>
                  || (q.SaveCalibration? && o == S.Done(Ok) && m.state.Calibrating?
                      && n.calibrationData == m.state.pendingData)
                  || (q.LoadCalibration? && o.CalibrationLoaded? && o.loaded == Some(n.calibrationData)))
            && (n.state.Calibrating? ==> n.state == m.state)
            && (S.SlotOf(q) != S.CalibrationSlot ==> n.state == m.state)
  {
  }

  /** What the machine may ask of storage, before it is handed over. */
  predicate Handing(s: System) {
    && DriveAgrees(s.machine) && |s.machine.outbox| <= 1
    && (Loading(s.store) ==> !Settled(s.machine))
    && (s.machine.outbox != [] && s.machine.outbox[0].Load? ==> s.machine.state.Idle?)
  }

  lemma DeliverFits(dev: S.Device, s: System)
    requires s.store.nvm.Shape(dev) && R.Consistent(dev, s.store, s.next) && Handing(s)
    ensures Fits(dev, Deliver(dev, s))
  {
    if s.machine.outbox != [] && !s.machine.outbox[0].Run? {
      var q := StorageRequest(s.machine.outbox[0]);
      AskJob(dev, s.store, q, s.next);
      R.StepConsistent(dev, s.store, R.Ask(q), s.next);
    }
  }

  lemma ExternalHanding(s: System, e: Event)
    requires !Ignored(s, e) && s.machine.outbox == [] && DriveAgrees(s.machine)
    requires Loading(s.store) ==> !Settled(s.machine)
    ensures Handing(System(Step(s.machine, e, s.next), s.store, Answered(s.services, e), s.next + 1))
  {
    ExternalStep(s.machine, e, s.next);
  }

  lemma HandedFits(dev: S.Device, store: R.Run, k: nat, t: System)
    requires R.Consistent(dev, store, k) && t.store == store && k < t.next && Handing(t)
    ensures Fits(dev, Deliver(dev, t))
  {
    Later(dev, store, k, t.next);
    DeliverFits(dev, t);
  }

  lemma ExternalNext(dev: S.Device, s: System, e: Event) returns (t: System)
    requires s.store.nvm.Shape(dev) && s.machine.outbox == [] && DriveAgrees(s.machine) && !Ignored(s, e)
    requires Loading(s.store) ==> !Settled(s.machine)
    ensures t.store == s.store && t.next == s.next + 1 && Handing(t)
    ensures Next(dev, s, External(e)) == Deliver(dev, t)
  {
    t := System(Step(s.machine, e, s.next), s.store, Answered(s.services, e), s.next + 1);
    ExternalHanding(s, e);
  }

  lemma ExternalFits(dev: S.Device, s: System, e: Event)
    requires Fits(dev, s)
    ensures Fits(dev, Next(dev, s, External(e)))
  {
    if !Ignored(s, e) {
      var t := ExternalNext(dev, s, e);
      HandedFits(dev, s.store, s.next, t);
    }
  }

  lemma AnswerFits(dev: S.Device, s: System, store: R.Run, q: S.Request, o: S.Outcome)
    requires Fits(dev, s) && store.nvm.Shape(dev) && R.Consistent(dev, store, s.next + 1)
    requires q.LoadCalibration? ==> Loading(s.store) && o.CalibrationLoaded? && (o.status == Ok <==> o.loaded.Some?)
    requires CalibrationJob(store) == if S.SlotOf(q) == S.CalibrationSlot then None else CalibrationJob(s.store)
    ensures Fits(dev, Deliver(dev, System(Callback(s.machine, q, o), store, s.services, s.next + 1)))
  {
    CallbackStep(s.machine, q, o);
    DeliverFits(dev, System(Callback(s.machine, q, o), store, s.services, s.next + 1));
  }

  lemma AfterRegionFits(dev: S.Device, s: System, store: R.Run, stage: S.Stage, fault: Option<seq<Byte>>)
    requires Fits(dev, s) && store.nvm.Shape(dev) && R.Consistent(dev, store, s.next + 1)
    requires Finishes(dev, s.store, store, stage, fault)
    ensures Fits(dev, AfterRegion(dev, s, store))
  {
    if store.answers == s.store.answers {
      assert AfterRegion(dev, s, store) == s.(store := store, next := s.next + 1);
    } else {
      var a := store.answers[|s.store.answers|];
      var q := store.accepted[a.token];
      if q.LoadCalibration? {
        AnswerToLoad(dev, s.store, store, stage, fault);
      }
      Heard(dev, s, store, a, q);
      AnswerFits(dev, s, store, q, a.outcome);
    }
  }

  lemma RegionFits(dev: S.Device, s: System, stage: S.Stage, fault: Option<seq<Byte>>)
    requires Fits(dev, s)
    ensures Fits(dev, Next(dev, s, Region(stage, fault)))
  {
    R.StepConsistent(dev, s.store, R.Finish(stage, fault), s.next);
    FinishJob(dev, s.store, stage, fault, s.next);
    AfterRegionFits(dev, s, R.Next(dev, s.store, R.Finish(stage, fault), s.next), stage, fault);
  }

  lemma ClientFits(dev: S.Device, s: System, q: S.Request)
    requires Fits(dev, s)
    ensures Fits(dev, Next(dev, s, Client(q)))
  {
    if q.SaveConfig? || q.LoadConfig? || q.Format? {
      R.StepConsistent(dev, s.store, R.Ask(q), s.next);
      AskJob(dev, s.store, q, s.next);
    }
  }

  lemma StepFits(dev: S.Device, s: System, e: SystemEvent)
    requires Fits(dev, s)
    ensures Fits(dev, Next(dev, s, e))
  {
    match e
    case External(x) => ExternalFits(dev, s, x);
    case Region(stage, fault) => RegionFits(dev, s, stage, fault);
    case Client(q) => ClientFits(dev, s, q);
    case SamplingBegins =>
  }

  lemma {:induction false} RunFits(dev: S.Device, start: System, es: seq<SystemEvent>)
    requires Fits(dev, start)
    ensures Fits(dev, After(dev, start, es))
    decreases es
  {
    if es != [] {
      RunFits(dev, start, es[..|es| - 1]);
      StepFits(dev, After(dev, start, es[..|es| - 1]), es[|es| - 1]);
    }
  }

  /** The system at power-on: the machine has just asked whether there is a valid calibration. */
  ghost function PowerOn(dev: S.Device, m: Machine, store: R.Run): (s: System)
    requires store.nvm.Shape(dev)
    ensures s.store.nvm.Shape(dev)
  {
    Deliver(dev, System(m, store, CONSTRUCTED, 0))
  }

  ghost predicate Booting(dev: S.Device, m: Machine, store: R.Run) {
    m.state.Idle? && m.outbox == [CheckValid] && R.Starting(dev, store)
  }

  lemma BootFits(dev: S.Device, m: Machine, store: R.Run)
    requires Booting(dev, m, store)
    ensures Fits(dev, PowerOn(dev, m, store))
  {
    R.StartConsistent(dev, store);
    DeliverFits(dev, System(m, store, CONSTRUCTED, 0));
  }

  // ---------------------------------------------------------------------------
  // The drive follows the calibration
  // ---------------------------------------------------------------------------

  /** The drive is tuned by something else than a calibration. */
  predicate Retunes(e: Event) {
    e.EstimatesRead? || e.CurrentGainsSet? || e.SpeedGainsSet?
  }

  lemma ExternalTuned(m: Machine, e: Event, k: nat)
    requires !FromStorage(e) && !Retunes(e) && m.outbox == [] && DriveAgrees(m) && Tuned(m)
    ensures Tuned(Step(m, e, k))
  {
  }

  lemma CallbackTuned(m: Machine, q: S.Request, o: S.Outcome)
    requires m.outbox == [] && DriveAgrees(m) && Tuned(m)
    requires q.LoadCalibration? ==> !Settled(m)
    ensures Tuned(Callback(m, q, o))
  {
  }

  lemma DeliverTuned(dev: S.Device, s: System)
    requires s.store.nvm.Shape(dev) && Tuned(s.machine)
    ensures Tuned(Deliver(dev, s).machine)
  {
  }

  lemma RegionTuned(dev: S.Device, s: System, stage: S.Stage, fault: Option<seq<Byte>>)
    requires Fits(dev, s) && Tuned(s.machine)
    ensures Tuned(Next(dev, s, Region(stage, fault)).machine)
  {
    var store := R.Next(dev, s.store, R.Finish(stage, fault), s.next);
    FinishJob(dev, s.store, stage, fault, s.next);
    if store.answers != s.store.answers {
      var a := store.answers[|s.store.answers|];
      var q := store.accepted[a.token];
      if q.LoadCalibration? {
        AnswerToLoad(dev, s.store, store, stage, fault);
      }
      Heard(dev, s, store, a, q);
      CallbackTuned(s.machine, q, a.outcome);
      DeliverTuned(dev, System(Callback(s.machine, q, a.outcome), store, s.services, s.next + 1));
    }
  }

  lemma StepTuned(dev: S.Device, s: System, e: SystemEvent)
    requires Fits(dev, s) && Tuned(s.machine) && !(e.External? && Retunes(e.e))
    ensures Tuned(Next(dev, s, e).machine)
  {
    match e
    case External(x) =>
      if !Ignored(s, x) {
        ExternalTuned(s.machine, x, s.next);
        DeliverTuned(dev, System(Step(s.machine, x, s.next), s.store, Answered(s.services, x), s.next + 1));
      }
    case Region(stage, fault) => RegionTuned(dev, s, stage, fault);
    case Client(q) =>
    case SamplingBegins =>
  }

  lemma {:induction false} RunTuned(dev: S.Device, start: System, es: seq<SystemEvent>, i: nat)
    requires Fits(dev, start) && i <= |es| && !Settled(After(dev, start, es[..i]).machine)
    requires forall j | i <= j < |es| :: !(es[j].External? && Retunes(es[j].e))
    ensures Tuned(After(dev, start, es).machine)
    decreases es
  {
    if i < |es| {
      var before := es[..|es| - 1];
      assert before[..i] == es[..i];
      RunFits(dev, start, before);
      RunTuned(dev, start, before, i);
      StepTuned(dev, After(dev, start, before), es[|es| - 1]);
    } else {
      assert es[..i] == es;
    }
  }

  /** The drive agrees with the calibration: in every run from power-on, whenever the machine is Ready or
      Enabled, the drive has the pole pairs and the encoder offset of the machine's calibration data; and it
      has the tunings of that data if neither online estimates nor given gains replaced them since the machine
      was last anywhere else. */
  lemma DriveFollowsCalibration(dev: S.Device, m: Machine, store: R.Run, es: seq<SystemEvent>, i: nat)
    requires Booting(dev, m, store) && i <= |es|
    ensures var s := After(dev, PowerOn(dev, m, store), es);
            && (Settled(s.machine) ==>
                  && s.machine.drive.polePairs == s.machine.calibrationData.polePairs
                  && s.machine.drive.encoderOffset == s.machine.calibrationData.encoderZeroOffset)
            && (Settled(s.machine)
                && !Settled(After(dev, PowerOn(dev, m, store), es[..i]).machine)
                && (forall j | i <= j < |es| :: !(es[j].External? && Retunes(es[j].e))) ==>
                  Tuned(s.machine))
  {
    BootFits(dev, m, store);
    RunFits(dev, PowerOn(dev, m, store), es);
    if !Settled(After(dev, PowerOn(dev, m, store), es[..i]).machine)
       && forall j | i <= j < |es| :: !(es[j].External? && Retunes(es[j].e)) {
      RunTuned(dev, PowerOn(dev, m, store), es, i);
    }
  }
}
