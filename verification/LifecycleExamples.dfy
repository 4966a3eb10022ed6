/** Runs from power-on that lead to what the results about the lifecycle warn of. */
module LifecycleExamples {
  import opened Basics
  import opened RecordLayout
  import opened LifecycleModel
  import opened IdentificationModel
  import opened LifecycleSystem
  import opened LifecycleStorage
  import opened LifecycleLiveness
  import opened LifecycleListener
  import NR = NvmRegions
  import S = StorageModel
  import R = StorageRuns

  lemma Snoc(dev: S.Device, start: System, es: seq<SystemEvent>, e: SystemEvent)
    requires start.store.nvm.Shape(dev)
    ensures After(dev, start, es + [e]) == Next(dev, After(dev, start, es), e)
    ensures Disciplined(dev, start, es + [e]) <==>
            Disciplined(dev, start, es) && !Undisciplined(After(dev, start, es), e)
  {
    AfterSnoc(dev, start, es, e);
    assert (es + [e])[..|es|] == es;
  }

  // ---------------------------------------------------------------------------
  // A calibration that finds everything
  // ---------------------------------------------------------------------------

  function Found(step: CalibrationStep): SystemEvent {
    match step
    case PolePairsStep => External(PolePairsDone(Some(7)))
    case ResistanceStep => External(ResistanceDone(Some(1), Some(1)))
    case AlignmentStep => External(AlignmentDone(Some(1)))
    case MechanicsStep => External(MechanicsDone(Some(1), Some(1), 1, 1))
  }

  /** After some events the command and the first identification, until the current has settled. */
  function Measuring(es: seq<SystemEvent>): seq<SystemEvent> {
    es + [External(Calibrate)] + [Found(PolePairsStep)] + [SamplingBegins]
  }

  /** The command and every identification but the last. */
  function Calibration(es: seq<SystemEvent>, mode: Mode): seq<SystemEvent> {
    var aligning := Measuring(es) + [Found(ResistanceStep)];
    if mode == Torque then aligning else aligning + [Found(AlignmentStep)]
  }

  function Following(step: CalibrationStep): CalibrationStep {
    match step
    case PolePairsStep => ResistanceStep
    case ResistanceStep => AlignmentStep
    case _ => MechanicsStep
  }

  /** The machine waits for the identification of the step, which can come; storage is as it was. Before the
      alignment step an earlier alignment may be pending. */
  predicate Going(s: System, step: CalibrationStep, mode: Mode, store: R.Run, aligning: bool) {
    && s.store == store && s.machine.outbox == [] && s.machine.mode == mode
    && s.machine.pending.Some? && IsCalibrating(s.machine, step) && Answers(s.services, Found(step).e)
    && (step in {PolePairsStep, ResistanceStep} ==> (ForceAlignment in s.services.outstanding <==> aligning))
  }

  lemma Begins(dev: S.Device, s: System)
    requires s.store.nvm.Shape(dev) && s.machine.outbox == [] && Accepts(s.machine)
    ensures Going(Next(dev, s, External(Calibrate)), PolePairsStep, s.machine.mode, s.store,
                  ForceAlignment in s.services.outstanding)
  {
  }

  lemma FoundMoves(m: Machine, step: CalibrationStep, k: nat)
    requires IsCalibrating(m, step) && m.outbox == [] && step != FinalStep(m.mode) && step != MechanicsStep
    ensures var n := Step(m, Found(step).e, k);
            && n.outbox == [Run(ServiceFor(Following(step)))] && IsCalibrating(n, Following(step))
            && n.mode == m.mode && n.pending == m.pending
  {
  }

  lemma ServicesMove(v: Services, step: CalibrationStep)
    requires Answers(v, Found(step).e) && step in {ResistanceStep, AlignmentStep}
    requires step == ResistanceStep ==> ForceAlignment !in v.outstanding
    ensures Answers(Asked(Answered(v, Found(step).e), ServiceFor(Following(step))), Found(Following(step)).e)
  {
  }

  /** The resistance measurement has been asked for and has settled. */
  lemma ServicesSettle(v: Services)
    requires EstimatePolePairs in v.outstanding
    ensures var w := Sampling(Asked(Answered(v, Found(PolePairsStep).e), EstimateResistance));
            && Answers(w, Found(ResistanceStep).e)
            && (ForceAlignment in w.outstanding <==> ForceAlignment in v.outstanding)
  {
  }

  lemma RunsNext(dev: S.Device, s: System, e: Event, service: Service)
    requires s.store.nvm.Shape(dev) && !Ignored(s, e) && Step(s.machine, e, s.next).outbox == [Run(service)]
    ensures Next(dev, s, External(e)) == System(Step(s.machine, e, s.next).(outbox := []), s.store,
                                                Asked(Answered(s.services, e), service), s.next + 1)
  {
  }

  lemma GoesOn(dev: S.Device, s: System, step: CalibrationStep, mode: Mode)
    requires s.store.nvm.Shape(dev) && Going(s, step, mode, s.store, false)
    requires step != FinalStep(mode) && step in {ResistanceStep, AlignmentStep}
    ensures Going(Next(dev, s, Found(step)), Following(step), mode, s.store, false)
  {
    FoundMoves(s.machine, step, s.next);
    ServicesMove(s.services, step);
    RunsNext(dev, s, Found(step).e, ServiceFor(Following(step)));
  }

  lemma Settles(dev: S.Device, s: System, mode: Mode, aligning: bool)
    requires s.store.nvm.Shape(dev) && Going(s, PolePairsStep, mode, s.store, aligning)
    ensures Going(Next(dev, Next(dev, s, Found(PolePairsStep)), SamplingBegins), ResistanceStep, mode, s.store,
                  aligning)
  {
    FoundMoves(s.machine, PolePairsStep, s.next);
    ServicesSettle(s.services);
    RunsNext(dev, s, Found(PolePairsStep).e, EstimateResistance);
  }

  /** A disciplined run to that point. */
  ghost predicate GoingAfter(
    dev: S.Device, start: System, es: seq<SystemEvent>, step: CalibrationStep, mode: Mode, store: R.Run,
    aligning: bool)
    requires start.store.nvm.Shape(dev)
  {
    Disciplined(dev, start, es) && Going(After(dev, start, es), step, mode, store, aligning)
  }

  lemma BeginsAfter(dev: S.Device, start: System, es: seq<SystemEvent>, s: System)
    requires start.store.nvm.Shape(dev) && After(dev, start, es) == s && Disciplined(dev, start, es)
    requires s.machine.outbox == [] && Accepts(s.machine) && Saving(s.store) == None
    ensures GoingAfter(dev, start, es + [External(Calibrate)], PolePairsStep, s.machine.mode, s.store,
                       ForceAlignment in s.services.outstanding)
  {
    Snoc(dev, start, es, External(Calibrate));
    Begins(dev, s);
  }

  lemma GoesOnAfter(
    dev: S.Device, start: System, es: seq<SystemEvent>, step: CalibrationStep, mode: Mode, store: R.Run)
    requires start.store.nvm.Shape(dev) && GoingAfter(dev, start, es, step, mode, store, false)
    requires step != FinalStep(mode) && step in {ResistanceStep, AlignmentStep}
    ensures GoingAfter(dev, start, es + [Found(step)], Following(step), mode, store, false)
  {
    Snoc(dev, start, es, Found(step));
    GoesOn(dev, After(dev, start, es), step, mode);
  }

  lemma SettlesAfter(
    dev: S.Device, start: System, es: seq<SystemEvent>, mode: Mode, store: R.Run, aligning: bool)
    requires start.store.nvm.Shape(dev) && GoingAfter(dev, start, es, PolePairsStep, mode, store, aligning)
    ensures GoingAfter(dev, start, es + [Found(PolePairsStep)] + [SamplingBegins], ResistanceStep, mode, store,
                       aligning)
  {
    Snoc(dev, start, es, Found(PolePairsStep));
    Snoc(dev, start, es + [Found(PolePairsStep)], SamplingBegins);
    Settles(dev, After(dev, start, es), mode, aligning);
  }

  /** The command and the first identification, an earlier alignment pending or not. */
  lemma MeasuresAfter(dev: S.Device, start: System, es: seq<SystemEvent>, s: System)
    requires start.store.nvm.Shape(dev) && After(dev, start, es) == s && Disciplined(dev, start, es)
    requires s.machine.outbox == [] && Accepts(s.machine) && Saving(s.store) == None
    ensures GoingAfter(dev, start, Measuring(es), ResistanceStep, s.machine.mode, s.store,
                       ForceAlignment in s.services.outstanding)
  {
    BeginsAfter(dev, start, es, s);
    SettlesAfter(dev, start, es + [External(Calibrate)], s.machine.mode, s.store,
                 ForceAlignment in s.services.outstanding);
  }

  lemma AlignsAfter(dev: S.Device, start: System, es: seq<SystemEvent>, s: System)
    requires start.store.nvm.Shape(dev) && After(dev, start, es) == s && Disciplined(dev, start, es)
    requires s.machine.outbox == [] && Accepts(s.machine) && Saving(s.store) == None
    requires ForceAlignment !in s.services.outstanding
    ensures GoingAfter(dev, start, Measuring(es) + [Found(ResistanceStep)], AlignmentStep, s.machine.mode, s.store,
                       false)
  {
    MeasuresAfter(dev, start, es, s);
    GoesOnAfter(dev, start, Measuring(es), ResistanceStep, s.machine.mode, s.store);
  }

  lemma Calibrates(dev: S.Device, start: System, es: seq<SystemEvent>, s: System)
    requires start.store.nvm.Shape(dev) && After(dev, start, es) == s && Disciplined(dev, start, es)
    requires s.machine.outbox == [] && Accepts(s.machine) && Saving(s.store) == None
    requires ForceAlignment !in s.services.outstanding
    ensures GoingAfter(dev, start, Calibration(es, s.machine.mode), FinalStep(s.machine.mode), s.machine.mode,
                       s.store, false)
  {
    AlignsAfter(dev, start, es, s);
    if s.machine.mode != Torque {
      GoesOnAfter(dev, start, Measuring(es) + [Found(ResistanceStep)], AlignmentStep, s.machine.mode, s.store);
    }
  }

  lemma FreshSave(dev: S.Device, r: R.Run, d: CalibrationData, token: nat)
    requires r.nvm.Shape(dev) && R.JobsMatch(dev, r) && CalibrationJob(r) == None
    ensures var f := R.Next(dev, r, R.Ask(S.SaveCalibration(d)), token);
            Saving(f) == Some(d) && f.jobs[S.CalibrationSlot].stage == S.SaveErase
  {
    assert r.nvm.Holder(S.CalibrationSlot) == None;
  }

  lemma FinalStepSaves(m: Machine, k: nat)
    requires IsCalibrating(m, FinalStep(m.mode)) && m.outbox == []
    ensures var n := Step(m, Found(FinalStep(m.mode)).e, k);
            && n.state.Calibrating? && n.outbox == [Save(n.state.pendingData)]
  {
  }

  /** The last identification asks for the save, which has all its work ahead of it if the slot is free. */
  lemma AsksToSave(dev: S.Device, s: System, mode: Mode)
    requires Fits(dev, s) && Going(s, FinalStep(mode), mode, s.store, false) && CalibrationJob(s.store) == None
    ensures var t := Next(dev, s, Found(FinalStep(mode)));
            && t.machine.state.Calibrating? && t.machine.outbox == []
            && Saving(t.store).Some? && t.store.jobs[S.CalibrationSlot].stage == S.SaveErase
  {
    FinalStepSaves(s.machine, s.next);
    FreshSave(dev, s.store, Step(s.machine, Found(FinalStep(mode)).e, s.next).state.pendingData, s.next + 1);
  }

  lemma Stops(dev: S.Device, s: System)
    requires s.store.nvm.Shape(dev) && s.machine.outbox == [] && !s.machine.state.Fault?
    ensures var t := Next(dev, s, External(EmergencyStop));
            && t.store == s.store && t.machine.outbox == [] && Accepts(t.machine) && t.machine.mode == s.machine.mode
            && t.services == s.services
  {
  }

  // ---------------------------------------------------------------------------
  // An abandoned save
  // ---------------------------------------------------------------------------

  /** Calibrate, find everything, stop before the save is through. */
  function Abandoned(mode: Mode): seq<SystemEvent> {
    Calibration([], mode) + [Found(FinalStep(mode))] + [External(EmergencyStop)]
  }

  /** In both modes this run is disciplined and ends with a save under way and a machine that accepts commands. */
  lemma AbandonedSave(dev: S.Device, m: Machine, store: R.Run)
    requires Booting(dev, m, store) && m.pending == None
    ensures var start := PowerOn(dev, m, store);
            var s := After(dev, start, Abandoned(m.mode));
            && Disciplined(dev, start, Abandoned(m.mode)) && Good(dev, s) && Live(dev, s)
            && Accepts(s.machine) && Saving(s.store).Some?
  {
    var start := PowerOn(dev, m, store);
    BootGood(dev, m, store);
    BootLive(dev, m, store);
    AbandonedEnd(dev, m, store);
    RunGood(dev, start, Abandoned(m.mode));
    RunLive(dev, start, Abandoned(m.mode));
  }

  lemma BootCalibrates(dev: S.Device, m: Machine, store: R.Run)
    requires Booting(dev, m, store) && m.pending == None
    ensures var start := PowerOn(dev, m, store);
            && Live(dev, start) && CalibrationJob(start.store) == None
            && GoingAfter(dev, start, Calibration([], m.mode), FinalStep(m.mode), m.mode, start.store, false)
  {
    BootLive(dev, m, store);
    BootIdle(dev, m, store);
    Calibrates(dev, PowerOn(dev, m, store), [], PowerOn(dev, m, store));
  }

  lemma BootAligns(dev: S.Device, m: Machine, store: R.Run)
    requires Booting(dev, m, store) && m.pending == None
    ensures var start := PowerOn(dev, m, store);
            && Live(dev, start) && CalibrationJob(start.store) == None
            && GoingAfter(dev, start, Measuring([]) + [Found(ResistanceStep)], AlignmentStep, m.mode, start.store,
                          false)
  {
    BootLive(dev, m, store);
    BootIdle(dev, m, store);
    AlignsAfter(dev, PowerOn(dev, m, store), [], PowerOn(dev, m, store));
  }

  lemma AbandonedEnd(dev: S.Device, m: Machine, store: R.Run)
    requires Booting(dev, m, store) && m.pending == None
    ensures var start := PowerOn(dev, m, store);
            var s := After(dev, start, Abandoned(m.mode));
            && Disciplined(dev, start, Abandoned(m.mode)) && Accepts(s.machine)
            && Saving(s.store).Some? && s.store.jobs[S.CalibrationSlot].stage == S.SaveErase
  {
    var start, mode := PowerOn(dev, m, store), m.mode;
    var found := Calibration([], mode);
    BootCalibrates(dev, m, store);
    RunFits(dev, start, found);
    Snoc(dev, start, found, Found(FinalStep(mode)));
    AsksToSave(dev, After(dev, start, found), mode);
    Snoc(dev, start, found + [Found(FinalStep(mode))], External(EmergencyStop));
    Stops(dev, After(dev, start, found + [Found(FinalStep(mode))]));
  }

  lemma BootIdle(dev: S.Device, m: Machine, store: R.Run)
    requires Booting(dev, m, store) && m.pending == None
    ensures var s := PowerOn(dev, m, store);
            && CalibrationJob(s.store) == None && s.machine == m.(outbox := []) && s.services == CONSTRUCTED
            && s.store.nvm.medium == store.nvm.medium
            && S.ValiditySlot in s.store.jobs && s.store.jobs[S.ValiditySlot].request == S.CheckCalibration
  {
    R.StartConsistent(dev, store);
    AskJob(dev, store, S.CheckCalibration, 0);
  }

  /** So the case that breaks the agreement does occur: after this disciplined run a calibrate command is
      accepted, and the machine can end up with data the medium does not hold. */
  lemma StaleSaveHappens(dev: S.Device, m: Machine, store: R.Run)
    requires Booting(dev, m, store) && m.pending == None
    ensures var start := PowerOn(dev, m, store);
            && Disciplined(dev, start, Abandoned(m.mode))
            && Accepts(After(dev, start, Abandoned(m.mode)).machine)
            && CanDisagree(dev, After(dev, start, Abandoned(m.mode) + [External(Calibrate)]))
  {
    var start := PowerOn(dev, m, store);
    AbandonedSave(dev, m, store);
    StaleSave(dev, After(dev, start, Abandoned(m.mode)));
    Snoc(dev, start, Abandoned(m.mode), External(Calibrate));
  }

  lemma ClearInVain(dev: S.Device, s: System)
    requires Live(dev, s) && Accepts(s.machine) && (Loading(s.store) || Saving(s.store).Some?)
    ensures Stranded(Next(dev, s, External(ClearCalibration)))
  {
    assert ClearRefused(s, External(ClearCalibration));
    StepStranding(dev, s, External(ClearCalibration));
  }

  /** A clear command right after the same run is stranded. */
  lemma ClearDuringSave(dev: S.Device, m: Machine, store: R.Run)
    requires Booting(dev, m, store) && m.pending == None
    ensures Stranded(After(dev, PowerOn(dev, m, store), Abandoned(m.mode) + [External(ClearCalibration)]))
  {
    var start := PowerOn(dev, m, store);
    AbandonedSave(dev, m, store);
    Snoc(dev, start, Abandoned(m.mode), External(ClearCalibration));
    ClearInVain(dev, After(dev, start, Abandoned(m.mode)));
  }

  // ---------------------------------------------------------------------------
  // The other ways to strand a command
  // ---------------------------------------------------------------------------

  lemma FoundRefused(s: System, mode: Mode)
    requires Going(s, FinalStep(mode), mode, s.store, false) && (Loading(s.store) || Invalidating(s.store))
    ensures SaveRefused(s, Found(FinalStep(mode)))
  {
  }

  lemma FoundInVain(dev: S.Device, s: System, mode: Mode)
    requires Live(dev, s) && Going(s, FinalStep(mode), mode, s.store, false)
    requires Loading(s.store) || Invalidating(s.store)
    ensures var t := Next(dev, s, Found(FinalStep(mode))); Stranded(t) && t.machine.state.Calibrating?
  {
    FoundRefused(s, mode);
    StepStranding(dev, s, Found(FinalStep(mode)));
  }

  /** Finding everything while the slot is held by a load or an invalidation strands the calibrate command. */
  lemma CalibrateRefused(dev: S.Device, start: System, es: seq<SystemEvent>, s: System)
    requires Live(dev, start) && After(dev, start, es) == s && Disciplined(dev, start, es)
    requires Accepts(s.machine) && (Loading(s.store) || Invalidating(s.store))
    requires ForceAlignment !in s.services.outstanding
    ensures var found := Calibration(es, s.machine.mode);
            var t := After(dev, start, found + [Found(FinalStep(s.machine.mode))]);
            Stranded(t) && t.machine.state.Calibrating?
  {
    var mode := s.machine.mode;
    var found := Calibration(es, mode);
    RunLive(dev, start, es);
    Calibrates(dev, start, es, s);
    RunLive(dev, start, found);
    FoundInVain(dev, After(dev, start, found), mode);
    Snoc(dev, start, found, Found(FinalStep(mode)));
  }

  lemma ClearStarts(dev: S.Device, s: System)
    requires Live(dev, s) && Accepts(s.machine) && CalibrationJob(s.store) == None
    ensures var t := Next(dev, s, External(ClearCalibration));
            && Invalidating(t.store) && t.machine.outbox == [] && IsStopped(t.machine.state)
            && t.machine.mode == s.machine.mode && t.machine.pending.Some? && t.services == s.services
  {
    AskJob(dev, s.store, S.InvalidateCalibration, s.next + 1);
  }

  /** A clear command, aborted before its invalidation is through. */
  const ABORTED_CLEAR := [External(ClearCalibration)] + [External(EmergencyStop)]

  lemma ClearAborted(dev: S.Device, m: Machine, store: R.Run)
    requires Booting(dev, m, store) && m.pending == None
    ensures var start := PowerOn(dev, m, store);
            var s := After(dev, start, ABORTED_CLEAR);
            && Live(dev, start) && Disciplined(dev, start, ABORTED_CLEAR)
            && Accepts(s.machine) && Invalidating(s.store) && s.machine.mode == m.mode && s.services == CONSTRUCTED
  {
    var start := PowerOn(dev, m, store);
    BootLive(dev, m, store);
    BootIdle(dev, m, store);
    ClearStarts(dev, start);
    Snoc(dev, start, [], External(ClearCalibration));
    assert [] + [External(ClearCalibration)] == [External(ClearCalibration)];
    Snoc(dev, start, [External(ClearCalibration)], External(EmergencyStop));
    Stops(dev, After(dev, start, [External(ClearCalibration)]));
  }

  /** If that invalidation is slow, the calibration that follows cannot be saved and its command is never
      answered. */
  lemma CalibrateAfterAbortedClear(dev: S.Device, m: Machine, store: R.Run)
    requires Booting(dev, m, store) && m.pending == None
    ensures var t := After(dev, PowerOn(dev, m, store),
                           Calibration(ABORTED_CLEAR, m.mode) + [Found(FinalStep(m.mode))]);
            Stranded(t) && t.machine.state.Calibrating?
  {
    var start := PowerOn(dev, m, store);
    ClearAborted(dev, m, store);
    CalibrateRefused(dev, start, ABORTED_CLEAR, After(dev, start, ABORTED_CLEAR));
  }

  // ---------------------------------------------------------------------------
  // Abandoned identifications
  // ---------------------------------------------------------------------------

  /** Calibrate up to the alignment, and stop there. */
  const STOPPED_ALIGNING: seq<SystemEvent> :=
    Measuring([]) + [Found(ResistanceStep)] + [External(EmergencyStop)]

  lemma StopsWaiting(dev: S.Device, s: System, step: CalibrationStep, mode: Mode, aligning: bool)
    requires s.store.nvm.Shape(dev) && Going(s, step, mode, s.store, aligning)
    ensures var t := Next(dev, s, External(EmergencyStop));
            && t.store == s.store && t.machine.outbox == [] && Accepts(t.machine) && t.machine.mode == mode
            && ServiceFor(step) in t.services.outstanding
  {
  }

  lemma AlignmentPending(dev: S.Device, m: Machine, store: R.Run)
    requires Booting(dev, m, store) && m.pending == None
    ensures var start := PowerOn(dev, m, store);
            var s := After(dev, start, STOPPED_ALIGNING);
            && Live(dev, start) && Live(dev, s) && Disciplined(dev, start, STOPPED_ALIGNING)
            && Accepts(s.machine) && CalibrationJob(s.store) == None && ForceAlignment in s.services.outstanding
  {
    var start := PowerOn(dev, m, store);
    var es := Measuring([]) + [Found(ResistanceStep)];
    BootAligns(dev, m, store);
    Snoc(dev, start, es, External(EmergencyStop));
    StopsWaiting(dev, After(dev, start, es), AlignmentStep, m.mode, false);
    RunLive(dev, start, STOPPED_ALIGNING);
  }

  lemma AlignsInVain(dev: S.Device, s: System, mode: Mode)
    requires Live(dev, s) && Going(s, ResistanceStep, mode, s.store, true) && Saving(s.store) == None
    ensures var t := Next(dev, s, Found(ResistanceStep)); Stranded(t) && IsCalibrating(t.machine, AlignmentStep)
  {
    assert AlignmentRefused(s, Found(ResistanceStep));
    StepStranding(dev, s, Found(ResistanceStep));
    assert IsCalibrating(Step(s.machine, Found(ResistanceStep).e, s.next), AlignmentStep);
  }

  /** The next calibration comes to the alignment and no further. */
  lemma CalibrateAfterAbandonedAlignment(dev: S.Device, m: Machine, store: R.Run)
    requires Booting(dev, m, store) && m.pending == None
    ensures var t := After(dev, PowerOn(dev, m, store),
                           Measuring(STOPPED_ALIGNING) + [Found(ResistanceStep)]);
            Stranded(t) && IsCalibrating(t.machine, AlignmentStep)
  {
    var start := PowerOn(dev, m, store);
    var es := Measuring(STOPPED_ALIGNING);
    AlignmentPending(dev, m, store);
    MeasuresAfter(dev, start, STOPPED_ALIGNING, After(dev, start, STOPPED_ALIGNING));
    RunLive(dev, start, es);
    AlignsInVain(dev, After(dev, start, es), After(dev, start, es).machine.mode);
    Snoc(dev, start, es, Found(ResistanceStep));
  }

  /** And from its acceptance on no calibrate command ever succeeds, in any continuation. */
  lemma NeverCalibratesAgain(dev: S.Device, m: Machine, store: R.Run)
    requires Booting(dev, m, store) && m.pending == None
    ensures !CanSucceed(dev, After(dev, PowerOn(dev, m, store), STOPPED_ALIGNING + [External(Calibrate)]))
  {
    var start := PowerOn(dev, m, store);
    AlignmentPending(dev, m, store);
    AbandonedAlignmentIff(dev, After(dev, start, STOPPED_ALIGNING));
    Snoc(dev, start, STOPPED_ALIGNING, External(Calibrate));
  }

  /** Calibrate up to the mechanical identification, and stop there. */
  const STOPPED_TURNING: seq<SystemEvent> := Calibration([], OuterLoop) + [External(EmergencyStop)]

  lemma MechanicsPending(dev: S.Device, m: Machine, store: R.Run)
    requires Booting(dev, m, store) && m.pending == None && m.mode == OuterLoop
    ensures var start := PowerOn(dev, m, store);
            var s := After(dev, start, STOPPED_TURNING);
            && Live(dev, start) && Live(dev, s) && Disciplined(dev, start, STOPPED_TURNING)
            && Accepts(s.machine) && CalibrationJob(s.store) == None && EstimateMechanics in s.services.outstanding
  {
    var start := PowerOn(dev, m, store);
    BootCalibrates(dev, m, store);
    Snoc(dev, start, Calibration([], OuterLoop), External(EmergencyStop));
    StopsWaiting(dev, After(dev, start, Calibration([], OuterLoop)), MechanicsStep, OuterLoop, false);
    RunLive(dev, start, STOPPED_TURNING);
  }

  lemma StillTurning(dev: S.Device, s: System)
    requires s.store.nvm.Shape(dev) && s.machine.outbox == [] && Accepts(s.machine)
    requires EstimateMechanics in s.services.outstanding
    ensures var t := Next(dev, Next(dev, Next(dev, s, External(Calibrate)), Found(PolePairsStep)), SamplingBegins);
            EstimateMechanics in t.services.outstanding
  {
    Begins(dev, s);
  }

  const GIVES_UP: SystemEvent := External(NoResult(EstimateMechanics))

  lemma TakesSamples(s: System, mode: Mode, aligning: bool)
    requires Going(s, ResistanceStep, mode, s.store, aligning) && Saving(s.store) == None && Settling(s)
    requires EstimateMechanics in s.services.outstanding
    ensures SamplesTaken(s, GIVES_UP)
  {
  }

  lemma TimerTakesSamples(dev: S.Device, s: System, mode: Mode, aligning: bool)
    requires Live(dev, s) && Going(s, ResistanceStep, mode, s.store, aligning) && Saving(s.store) == None
    requires EstimateMechanics in s.services.outstanding
    ensures Stranded(Next(dev, s, GIVES_UP))
  {
    TakesSamples(s, mode, aligning);
    StepStranding(dev, s, GIVES_UP);
  }

  /** The timer of the identification that was stopped runs out during the next calibration. */
  lemma CalibrateBeforeTimeout(dev: S.Device, m: Machine, store: R.Run)
    requires Booting(dev, m, store) && m.pending == None && m.mode == OuterLoop
    ensures Stranded(After(dev, PowerOn(dev, m, store),
                           Measuring(STOPPED_TURNING) + [GIVES_UP]))
  {
    var start := PowerOn(dev, m, store);
    var es := Measuring(STOPPED_TURNING);
    var s := After(dev, start, STOPPED_TURNING);
    MechanicsPending(dev, m, store);
    MeasuresAfter(dev, start, STOPPED_TURNING, s);
    StillTurning(dev, s);
    Snoc(dev, start, STOPPED_TURNING, External(Calibrate));
    Snoc(dev, start, STOPPED_TURNING + [External(Calibrate)], Found(PolePairsStep));
    Snoc(dev, start, STOPPED_TURNING + [External(Calibrate)] + [Found(PolePairsStep)], SamplingBegins);
    RunLive(dev, start, es);
    TimerTakesSamples(dev, After(dev, start, es), s.machine.mode, ForceAlignment in s.services.outstanding);
    Snoc(dev, start, es, GIVES_UP);
  }

  // ---------------------------------------------------------------------------
  // Starting from a stored calibration
  // ---------------------------------------------------------------------------

  /** There are such media: write the record of any calibration. */
  lemma SomethingStored(dev: S.Device, store: R.Run, d: CalibrationData)
    requires R.Starting(dev, store)
    ensures var medium := NR.WriteAt(store.nvm.medium, dev.calibration, CalibrationRecord(dev.crc, d));
            var r := store.(nvm := store.nvm.(medium := medium));
            R.Starting(dev, r) && r.nvm.Stored(dev) == Some(d)
  {
    NR.ReadBack(store.nvm.medium, dev.calibration, CalibrationRecord(dev.crc, d));
    DecodeCalibrationRecord(dev.crc, d);
    var r := store.(nvm := store.nvm.(medium :=
      NR.WriteAt(store.nvm.medium, dev.calibration, CalibrationRecord(dev.crc, d))));
    assert forall slot: S.Slot :: r.nvm.Holder(slot) == store.nvm.Holder(slot);
  }

  lemma CheckAnswers(dev: S.Device, r: R.Run, k: nat)
    requires R.Consistent(dev, r, k) && CalibrationJob(r) == None && r.nvm.Stored(dev).Some?
    requires S.ValiditySlot in r.jobs && r.jobs[S.ValiditySlot].request == S.CheckCalibration
    ensures var f := R.Next(dev, r, R.Finish(S.CheckRead, None), k);
            && f.answers == r.answers + [S.Answer(r.jobs[S.ValiditySlot].token, S.Validity(true))]
            && r.jobs[S.ValiditySlot].token in f.accepted
            && f.accepted[r.jobs[S.ValiditySlot].token] == S.CheckCalibration
            && CalibrationJob(f) == None && f.nvm.medium == r.nvm.medium
  {
    R.InFlight(dev, r, S.ValiditySlot);
    assert R.JobOk(dev, r.nvm, S.ValiditySlot, r.jobs[S.ValiditySlot]);
    R.ReadersAgree(dev, r.nvm, S.CheckRead);
  }

  lemma Checked(dev: S.Device, r: R.Run, k: nat)
    requires R.Consistent(dev, r, k) && CalibrationJob(r) == None && r.nvm.Stored(dev).Some?
    requires S.ValiditySlot in r.jobs && r.jobs[S.ValiditySlot].request == S.CheckCalibration
    ensures var f := R.Next(dev, r, R.Finish(S.CheckRead, None), k);
            && R.Consistent(dev, f, k + 1) && CalibrationJob(f) == None && f.nvm.medium == r.nvm.medium
            && f.answers == r.answers + [S.Answer(r.jobs[S.ValiditySlot].token, S.Validity(true))]
            && r.jobs[S.ValiditySlot].token in f.accepted
            && f.accepted[r.jobs[S.ValiditySlot].token] == S.CheckCalibration
  {
    CheckAnswers(dev, r, k);
    R.StepConsistent(dev, r, R.Finish(S.CheckRead, None), k);
  }

  lemma LoadAsked(dev: S.Device, s: System, f: R.Run, a: S.Answer)
    requires s.store.nvm.Shape(dev) && R.Consistent(dev, f, s.next + 1) && CalibrationJob(f) == None
    requires s.machine.state.Idle? && s.machine.outbox == []
    requires f.answers == s.store.answers + [a] && a.outcome == S.Validity(true)
    requires a.token in f.accepted && f.accepted[a.token] == S.CheckCalibration
    ensures var t := AfterRegion(dev, s, f);
            && Loading(t.store) && t.machine == s.machine && t.services == s.services
            && t.store.nvm.medium == f.nvm.medium
  {
    Heard(dev, s, f, a, S.CheckCalibration);
    AskJob(dev, f, S.LoadCalibration, s.next + 1);
  }

  /** The validity check finds the calibration, and the machine asks for it. */
  lemma CheckedThenLoads(dev: S.Device, s: System)
    requires Fits(dev, s) && s.machine.state.Idle? && CalibrationJob(s.store) == None && s.store.nvm.Stored(dev).Some?
    requires S.ValiditySlot in s.store.jobs && s.store.jobs[S.ValiditySlot].request == S.CheckCalibration
    ensures var t := Next(dev, s, Region(S.CheckRead, None));
            && Loading(t.store) && t.machine == s.machine && t.services == s.services
            && t.store.nvm.medium == s.store.nvm.medium
  {
    var f := R.Next(dev, s.store, R.Finish(S.CheckRead, None), s.next);
    Checked(dev, s.store, s.next);
    LoadAsked(dev, s, f, S.Answer(s.store.jobs[S.ValiditySlot].token, S.Validity(true)));
  }

  lemma BootLoads(dev: S.Device, m: Machine, store: R.Run)
    requires Booting(dev, m, store) && m.pending == None && store.nvm.Stored(dev).Some?
    ensures var start := PowerOn(dev, m, store);
            var s := After(dev, start, CHECKED);
            && Live(dev, start) && Live(dev, s) && Disciplined(dev, start, CHECKED)
            && Loading(s.store) && s.machine == m.(outbox := []) && Accepts(s.machine) && s.services == CONSTRUCTED
            && s.store.nvm.Stored(dev).Some?
  {
    var start := PowerOn(dev, m, store);
    BootLive(dev, m, store);
    BootIdle(dev, m, store);
    CheckedThenLoads(dev, start);
    AfterOne(dev, start, Region(S.CheckRead, None));
    StepStranding(dev, start, Region(S.CheckRead, None));
  }

  const CHECKED: seq<SystemEvent> := [Region(S.CheckRead, None)]

  lemma AfterOne(dev: S.Device, start: System, e: SystemEvent)
    requires start.store.nvm.Shape(dev)
    ensures After(dev, start, [e]) == Next(dev, start, e)
    ensures !Undisciplined(start, e) ==> Disciplined(dev, start, [e])
  {
    assert [e][..0] == [];
  }

  /** A clear command accepted while the boot load is under way is stranded. */
  lemma ClearDuringLoad(dev: S.Device, m: Machine, store: R.Run)
    requires Booting(dev, m, store) && m.pending == None && store.nvm.Stored(dev).Some?
    ensures Stranded(After(dev, PowerOn(dev, m, store), CHECKED + [External(ClearCalibration)]))
  {
    var start := PowerOn(dev, m, store);
    BootLoads(dev, m, store);
    Snoc(dev, start, CHECKED, External(ClearCalibration));
    ClearInVain(dev, After(dev, start, CHECKED));
  }

  /** So is a calibrate command whose identifications are all faster than the boot load. */
  lemma CalibrateDuringLoad(dev: S.Device, m: Machine, store: R.Run)
    requires Booting(dev, m, store) && m.pending == None && store.nvm.Stored(dev).Some?
    ensures Stranded(After(dev, PowerOn(dev, m, store), Calibration(CHECKED, m.mode) + [Found(FinalStep(m.mode))]))
  {
    var start := PowerOn(dev, m, store);
    BootLoads(dev, m, store);
    CalibrateRefused(dev, start, CHECKED, After(dev, start, CHECKED));
  }

  lemma LoadedIsReady(m: Machine, loaded: Option<CalibrationData>)
    requires m.state.Idle? && m.outbox == [] && loaded.Some?
    ensures var n := Callback(m, S.LoadCalibration, S.CalibrationLoaded(Ok, loaded));
            n.state.Ready? && n.pending == m.pending && n.outbox == []
  {
  }

  lemma LoadEnds(dev: S.Device, s: System)
    requires Live(dev, s) && Loading(s.store) && s.machine.state.Idle? && s.store.nvm.Stored(dev).Some?
    ensures var t := Next(dev, s, Region(S.LoadRead, None));
            t.machine.state.Ready? && t.machine.pending == s.machine.pending && CalibrationJob(t.store) == None
  {
    var f := R.Next(dev, s.store, R.Finish(S.LoadRead, None), s.next);
    var stored := s.store.nvm.Stored(dev);
    LoadAnswers(dev, s.store, s.next);
    LoadedIsReady(s.machine, stored);
    Heard(dev, s, f, S.Answer(s.store.jobs[S.CalibrationSlot].token, S.CalibrationLoaded(Ok, stored)),
          S.LoadCalibration);
  }

  lemma LoadAnswers(dev: S.Device, r: R.Run, k: nat)
    requires R.Consistent(dev, r, k) && Loading(r) && r.nvm.Stored(dev).Some?
    ensures var f := R.Next(dev, r, R.Finish(S.LoadRead, None), k);
            var token := r.jobs[S.CalibrationSlot].token;
            && f.answers == r.answers + [S.Answer(token, S.CalibrationLoaded(Ok, r.nvm.Stored(dev)))]
            && token in f.accepted && f.accepted[token] == S.LoadCalibration && CalibrationJob(f) == None
  {
    LoadOwned(dev, r, k);
    R.ReadersAgree(dev, r.nvm, S.LoadRead);
  }

  lemma LoadOwned(dev: S.Device, r: R.Run, k: nat)
    requires R.Consistent(dev, r, k) && Loading(r)
    ensures S.LoadRead in r.nvm.flight && Owns(r, S.LoadRead)
  {
    R.InFlight(dev, r, S.CalibrationSlot);
    assert R.JobOk(dev, r.nvm, S.CalibrationSlot, r.jobs[S.CalibrationSlot]);
    OwnerOf(dev, r, S.LoadRead, k);
  }

  lemma EnableStarts(dev: S.Device, s: System)
    requires s.store.nvm.Shape(dev) && s.machine.outbox == [] && s.machine.state.Ready?
    ensures var t := Next(dev, s, External(Enable));
            t.store == s.store && t.machine.state.Enabled? && t.machine.pending == s.machine.pending
  {
  }

  /** Boot to Ready, clear, enable before the invalidation is through. */
  const ENABLED_TOO_SOON: seq<SystemEvent> :=
    CHECKED + [Region(S.LoadRead, None)] + [External(ClearCalibration)] + [External(Enable)]

  /** A clear command after which the motor is enabled before the invalidation completes is stranded. */
  lemma ClearThenEnable(dev: S.Device, m: Machine, store: R.Run)
    requires Booting(dev, m, store) && m.pending == None && store.nvm.Stored(dev).Some?
    ensures Stranded(After(dev, PowerOn(dev, m, store), ENABLED_TOO_SOON + [Region(S.InvalidateErase, None)]))
  {
    var start := PowerOn(dev, m, store);
    EnabledTooSoon(dev, m, store);
    Snoc(dev, start, ENABLED_TOO_SOON, Region(S.InvalidateErase, None));
    StepStranding(dev, After(dev, start, ENABLED_TOO_SOON), Region(S.InvalidateErase, None));
  }

  lemma EnabledTooSoon(dev: S.Device, m: Machine, store: R.Run)
    requires Booting(dev, m, store) && m.pending == None && store.nvm.Stored(dev).Some?
    ensures var s := After(dev, PowerOn(dev, m, store), ENABLED_TOO_SOON);
            Live(dev, s) && Invalidating(s.store) && s.machine.pending.Some? && s.machine.state.Enabled?
  {
    var start := PowerOn(dev, m, store);
    var loaded := CHECKED + [Region(S.LoadRead, None)];
    var cleared := loaded + [External(ClearCalibration)];
    BootLive(dev, m, store);
    BootReady(dev, m, store);
    RunLive(dev, start, loaded);
    RunLive(dev, start, ENABLED_TOO_SOON);
    ClearAccepted(dev, After(dev, start, loaded));
    Snoc(dev, start, loaded, External(ClearCalibration));
    RunLive(dev, start, cleared);
    Snoc(dev, start, cleared, External(Enable));
    EnableStarts(dev, After(dev, start, cleared));
  }

  lemma BootReady(dev: S.Device, m: Machine, store: R.Run)
    requires Booting(dev, m, store) && m.pending == None && store.nvm.Stored(dev).Some?
    ensures var s := After(dev, PowerOn(dev, m, store), CHECKED + [Region(S.LoadRead, None)]);
            s.machine.state.Ready? && s.machine.pending == None && CalibrationJob(s.store) == None
  {
    var start := PowerOn(dev, m, store);
    BootLoads(dev, m, store);
    Snoc(dev, start, CHECKED, Region(S.LoadRead, None));
    LoadEnds(dev, After(dev, start, CHECKED));
  }
}
