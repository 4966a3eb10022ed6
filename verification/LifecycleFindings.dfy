/** What a calibration stores and uses is what the identification services reported to it. */
module LifecycleFindings {
  import opened Basics
  import opened RecordLayout
  import opened LifecycleModel
  import opened IdentificationModel
  import opened LifecycleSystem
  import opened LifecycleStorage
  import opened LifecycleLiveness
  import opened LifecycleListener
  import S = StorageModel
  import R = StorageRuns

  datatype Motor = Motor(r: U32, l: U32)

  datatype Mechanics = Mechanics(friction: U32, inertia: U32, kp: U32, ki: U32)

  /** The reports to the present calibration, noted from outside. */
  datatype Findings = Findings(
    polePairs: Option<nat>, motor: Option<Motor>, offset: Option<U32>, mechanics: Option<Mechanics>)

  const NOTHING := Findings(None, None, None, None)

  /** An accepted calibrate command opens a new page; a result counts when it meets the machine in its step. */
  function Noted(f: Findings, m: Machine, e: Event): Findings {
    match e
    case Calibrate => if Accepts(m) then NOTHING else f
    case PolePairsDone(Some(n)) => if IsCalibrating(m, PolePairsStep) then f.(polePairs := Some(n)) else f
    case ResistanceDone(Some(r), Some(l)) =>
      if IsCalibrating(m, ResistanceStep) then f.(motor := Some(Motor(r, l))) else f
    case AlignmentDone(Some(a)) => if IsCalibrating(m, AlignmentStep) then f.(offset := Some(a)) else f
    case MechanicsDone(Some(b), Some(j), kp, ki) =>
      if IsCalibrating(m, MechanicsStep) then f.(mechanics := Some(Mechanics(b, j, kp, ki))) else f
    case _ => f
  }

  /** The findings of a run; callbacks that cannot come are not noted. */
  ghost function FindingsOf(dev: S.Device, start: System, es: seq<SystemEvent>): Findings
    requires start.store.nvm.Shape(dev)
    decreases es
  {
    if es == [] then NOTHING
    else
      var before, e := es[..|es| - 1], es[|es| - 1];
      var s, f := After(dev, start, before), FindingsOf(dev, start, before);
      if e.External? && !Ignored(s, e.e) then Noted(f, s.machine, e.e) else f
  }

  /** Each field as reported, and zero where nothing has been reported; the remaining fields are never set. */
  predicate Records(d: CalibrationData, f: Findings) {
    && d.polePairs == (if f.polePairs.Some? then f.polePairs.value % 256 else 0)
    && d.rPhase == (if f.motor.Some? then f.motor.value.r else 0)
    && d.lD == (if f.motor.Some? then f.motor.value.l else 0)
    && d.lQ == (if f.motor.Some? then f.motor.value.l else 0)
    && d.encoderZeroOffset == (if f.offset.Some? then f.offset.value else 0)
    && d.frictionViscous == (if f.mechanics.Some? then f.mechanics.value.friction else 0)
    && d.inertia == (if f.mechanics.Some? then f.mechanics.value.inertia else 0)
    && d.kpVelocity == (if f.mechanics.Some? then f.mechanics.value.kp else 0)
    && d.kiVelocity == (if f.mechanics.Some? then f.mechanics.value.ki else 0)
    && d.currentOffsetA == d.currentOffsetB == d.currentOffsetC == d.frictionCoulomb == 0
    && d.kpCurrent == d.kiCurrent == 0
    && d.encoderDirection == d.reserved0 == d.reserved1 == 0
  }

  /** The steps that are behind have reported, those ahead have not. */
  predicate Reported(step: CalibrationStep, f: Findings) {
    && (f.polePairs.Some? <==> step != PolePairsStep)
    && (f.motor.Some? <==> step in {AlignmentStep, MechanicsStep})
    && (step in {PolePairsStep, ResistanceStep} ==> f.offset.None?)
    && (step == MechanicsStep ==> f.offset.Some?)
    && (step != MechanicsStep ==> f.mechanics.None?)
  }

  predicate Collects(m: Machine, f: Findings) {
    m.state.Calibrating? ==> Records(m.state.pendingData, f) && Reported(m.state.step, f)
  }

  /** Everything the mode asks for. */
  predicate Whole(mode: Mode, f: Findings) {
    f.polePairs.Some? && f.motor.Some? && f.offset.Some? && (mode == OuterLoop ==> f.mechanics.Some?)
  }

  /** When the last service has answered, everything has been found. */
  predicate Closes(s: System, f: Findings) {
    IsCalibrating(s.machine, FinalStep(s.machine.mode)) && FinalService(s.machine.mode) !in s.services.outstanding ==>
      Whole(s.machine.mode, f)
  }

  lemma ExternalCollects(m: Machine, e: Event, k: nat, f: Findings)
    requires !FromStorage(e) && Collects(m, f)
    ensures Collects(Step(m, e, k), Noted(f, m, e))
  {
  }

  /** The step changes only with a request to its service, and the last service is heard only in its step. */
  lemma ExternalCloses(dev: S.Device, s: System, e: Event, f: Findings)
    requires s.store.nvm.Shape(dev) && s.machine.outbox == [] && DriveAgrees(s.machine) && !Ignored(s, e)
    requires Collects(s.machine, f) && Closes(s, f)
    ensures Closes(Next(dev, s, External(e)), Noted(f, s.machine, e))
  {
    ExternalLast(s.machine, e, s.next);
    ExternalCollects(s.machine, e, s.next, f);
  }

  lemma {:induction false} RunCollects(dev: S.Device, start: System, es: seq<SystemEvent>)
    requires Fits(dev, start) && !start.machine.state.Calibrating?
    ensures Collects(After(dev, start, es).machine, FindingsOf(dev, start, es))
    ensures Closes(After(dev, start, es), FindingsOf(dev, start, es))
    decreases es
  {
    if es != [] {
      var before, e := es[..|es| - 1], es[|es| - 1];
      RunCollects(dev, start, before);
      RunFits(dev, start, before);
      var s := After(dev, start, before);
      match e
      case External(x) =>
        if !Ignored(s, x) {
          ExternalCollects(s.machine, x, s.next, FindingsOf(dev, start, before));
          ExternalCloses(dev, s, x, FindingsOf(dev, start, before));
        }
      case Region(stage, fault) => RegionServices(dev, s, stage, fault);
      case Client(q) =>
      case SamplingBegins =>
    }
  }

  // ---------------------------------------------------------------------------
  // A calibration that succeeds
  // ---------------------------------------------------------------------------

  lemma ExternalNoSuccess(m: Machine, e: Event, k: nat)
    requires !FromStorage(e)
    ensures !CalibrationSucceeds(m, Step(m, e, k))
  {
  }

  /** How a storage answer makes a calibration succeed. */
  lemma CallbackSuccess(m: Machine, q: S.Request, o: S.Outcome)
    requires m.outbox == [] && CalibrationSucceeds(m, Callback(m, q, o))
    ensures var n := Callback(m, q, o);
            && n == Complete(UseCalibration(m, m.state.pendingData), Succeeded) && n.outbox == []
            && n.state == Ready(m.state.pendingData) && n.calibrationData == m.state.pendingData
            && n.mode == m.mode
  {
  }

  lemma HeardSuccess(dev: S.Device, s: System, store: R.Run, stage: S.Stage, fault: Option<seq<Byte>>)
    requires s.store.nvm.Shape(dev) && s.machine.outbox == [] && store.nvm.Shape(dev)
    requires Finishes(dev, s.store, store, stage, fault)
    requires CalibrationSucceeds(s.machine, AfterRegion(dev, s, store).machine)
    ensures var t := AfterRegion(dev, s, store);
            t.machine == Complete(UseCalibration(s.machine, s.machine.state.pendingData), Succeeded)
  {
    var a := store.answers[|s.store.answers|];
    Heard(dev, s, store, a, store.accepted[a.token]);
    CallbackSuccess(s.machine, store.accepted[a.token], a.outcome);
  }

  /** Success comes with a completion of storage, and the machine takes over what it has collected. */
  lemma SuccessTakesOver(dev: S.Device, s: System, e: SystemEvent)
    requires Fits(dev, s) && CalibrationSucceeds(s.machine, Next(dev, s, e).machine)
    ensures e.Region?
    ensures Next(dev, s, e).machine == Complete(UseCalibration(s.machine, s.machine.state.pendingData), Succeeded)
  {
    match e
    case External(x) =>
      if !Ignored(s, x) {
        ExternalNoSuccess(s.machine, x, s.next);
        assert false;
      }
    case Region(stage, fault) =>
      FinishJob(dev, s.store, stage, fault, s.next);
      HeardSuccess(dev, s, R.Next(dev, s.store, R.Finish(stage, fault), s.next), stage, fault);
    case Client(q) =>
    case SamplingBegins =>
  }

  /** Pole pairs, offset and tunings as they were found. */
  predicate Drives(d: Drive, mode: Mode, f: Findings)
    requires Whole(mode, f)
  {
    && d.polePairs == f.polePairs.value % 256 && d.encoderOffset == f.offset.value
    && d.current == FromMotor(f.motor.value.r, f.motor.value.l)
    && (mode == OuterLoop ==>
          && d.speed == Gains(f.mechanics.value.kp, f.mechanics.value.ki, 0)
          && d.inertia == f.mechanics.value.inertia && d.friction == f.mechanics.value.friction
          && d.resistance == f.motor.value.r && d.inductance == f.motor.value.l)
  }

  lemma UsedAsFound(m: Machine, f: Findings)
    requires m.state.Calibrating? && Records(m.state.pendingData, f)
    ensures var n := Complete(UseCalibration(m, m.state.pendingData), Succeeded);
            && n.state == Ready(n.calibrationData) && Records(n.calibrationData, f)
            && (Whole(m.mode, f) ==> Drives(n.drive, m.mode, f))
  {
  }

  /** In every run from power-on, a calibrate command that is answered with success leaves the machine Ready with
      the data the services reported to it. In a disciplined run every service the mode asks for has reported, the
      drive is set accordingly, and the region decodes to the same data. */
  lemma CalibrationIsWhatWasFound(dev: S.Device, m: Machine, store: R.Run, es: seq<SystemEvent>, e: SystemEvent)
    requires Booting(dev, m, store)
    ensures var start := PowerOn(dev, m, store);
            var s, f := After(dev, start, es), FindingsOf(dev, start, es);
            var t := Next(dev, s, e);
            CalibrationSucceeds(s.machine, t.machine) ==>
              && t.machine.state == Ready(t.machine.calibrationData) && Records(t.machine.calibrationData, f)
              && (Disciplined(dev, start, es) ==>
                    && Whole(s.machine.mode, f) && Drives(t.machine.drive, s.machine.mode, f)
                    && t.store.nvm.Stored(dev) == Some(t.machine.calibrationData))
  {
    var start := PowerOn(dev, m, store);
    var s, f := After(dev, start, es), FindingsOf(dev, start, es);
    BootFits(dev, m, store);
    RunFits(dev, start, es);
    RunCollects(dev, start, es);
    if CalibrationSucceeds(s.machine, Next(dev, s, e).machine) {
      SuccessTakesOver(dev, s, e);
      UsedAsFound(s.machine, f);
      if Disciplined(dev, start, es) {
        FoundInFull(dev, m, store, es, e);
      }
    }
  }

  lemma FoundInFull(dev: S.Device, m: Machine, store: R.Run, es: seq<SystemEvent>, e: SystemEvent)
    requires Booting(dev, m, store) && Disciplined(dev, PowerOn(dev, m, store), es) && e.Region?
    requires var s := After(dev, PowerOn(dev, m, store), es);
             s.machine.state.Calibrating? && Settled(Next(dev, s, e).machine)
    ensures var start := PowerOn(dev, m, store);
            var s := After(dev, start, es);
            && Whole(s.machine.mode, FindingsOf(dev, start, es))
            && Next(dev, s, e).store.nvm.Stored(dev) == Some(Next(dev, s, e).machine.calibrationData)
  {
    var start := PowerOn(dev, m, store);
    BootGood(dev, m, store);
    RunGood(dev, start, es);
    RunCollects(dev, start, es);
    OwnSaveEnds(dev, After(dev, start, es), e.stage, e.fault);
    CalibrationAgreesWithStorage(dev, m, store, es, e);
  }
}
