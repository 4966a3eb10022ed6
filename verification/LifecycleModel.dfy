/** The motor lifecycle as a value: what each command, fault and service callback does to the machine.
    Requests made to services are collected in an outbox, answers to commands in a list. */
module LifecycleModel {
  import opened Basics
  import opened RecordLayout

  datatype FaultCode =
    | Overcurrent | Overvoltage | Overtemperature | EncoderLoss | WatchdogTimeout | HardwareFailure | CalibrationError

  datatype CalibrationStep = PolePairsStep | ResistanceStep | AlignmentStep | MechanicsStep

  datatype State =
    | Idle
    | Calibrating(step: CalibrationStep, pendingData: CalibrationData)
    | Ready(loadedData: CalibrationData)
    | Enabled
    | Fault(code: FaultCode)

  datatype CommandResult = Succeeded | Rejected | CalibrationFailed | NvmFailed | AbortedByFault

  datatype Reply = Reply(command: nat, result: CommandResult)

  datatype Service = EstimatePolePairs | EstimateResistance | ForceAlignment | EstimateMechanics

  datatype Request =
    | Run(service: Service)
    | Save(data: CalibrationData)
    | Load
    | Invalidate
    | CheckValid

  /** Torque control calibrates in three steps; speed and position control add a mechanical one. */
  datatype Mode = Torque | OuterLoop

  datatype Gains = Gains(kp: U32, ki: U32, kd: U32)

  /** The current loop is tuned from the motor or by given gains. */
  datatype CurrentTunings = FromMotor(resistance: U32, inductance: U32) | Given(gains: Gains)

  /** What the machine sets in the controller, the encoder and the estimators; started says which of the
      controller's Start and Stop came last. */
  datatype Drive = Drive(
    started: bool, polePairs: nat, encoderOffset: U32, current: CurrentTunings, speed: Gains,
    inertia: U32, friction: U32, resistance: U32, inductance: U32)

  datatype Machine = Machine(
    mode: Mode, state: State, lastFault: FaultCode, calibrationData: CalibrationData,
    pending: Option<nat>, drive: Drive, answers: seq<Reply>, outbox: seq<Request>)

  predicate IsStopped(s: State) { s.Idle? || s.Ready? }

  predicate Accepts(m: Machine) { IsStopped(m.state) && m.pending == None }

  predicate IsCalibrating(m: Machine, step: CalibrationStep) {
    m.state.Calibrating? && m.state.step == step
  }

  /** The last step before the result is stored. */
  function FinalStep(mode: Mode): CalibrationStep {
    if mode == Torque then AlignmentStep else MechanicsStep
  }

  function Ask(m: Machine, r: Request): Machine {
    m.(outbox := m.outbox + [r])
  }

  /** The pending callback is cleared, then called. */
  function Complete(m: Machine, result: CommandResult): Machine {
    match m.pending
    case None => m
    case Some(id) => m.(pending := None, answers := m.answers + [Reply(id, result)])
  }

  function Refuse(m: Machine, id: nat): Machine {
    m.(answers := m.answers + [Reply(id, Rejected)])
  }

  function EnterFault(m: Machine, code: FaultCode): Machine {
    var active := m.state.Enabled? || m.state.Calibrating?;
    Complete(m.(drive := if active then m.drive.(started := false) else m.drive,
                lastFault := code, state := Fault(code)), AbortedByFault)
  }

  function Fail(m: Machine, result: CommandResult): Machine {
    EnterFault(Complete(m, result), CalibrationError)
  }

  function EnterReady(m: Machine, data: CalibrationData): Machine {
    m.(calibrationData := data, state := Ready(data))
  }

  /** Pole pairs, encoder offset and loop tunings follow the calibration. */
  function Configured(mode: Mode, d: Drive, data: CalibrationData): Drive {
    var c := d.(polePairs := data.polePairs, encoderOffset := data.encoderZeroOffset,
                current := FromMotor(data.rPhase, data.lD));
    if mode == Torque then c
    else c.(speed := Gains(data.kpVelocity, data.kiVelocity, 0),
            inertia := data.inertia, friction := data.frictionViscous,
            resistance := data.rPhase, inductance := data.lD)
  }

  function UseCalibration(m: Machine, data: CalibrationData): Machine {
    EnterReady(m.(drive := Configured(m.mode, m.drive, data)), data)
  }

  function ToStep(m: Machine, step: CalibrationStep, data: CalibrationData, service: Service): Machine {
    Ask(m.(state := Calibrating(step, data)), Run(service))
  }

  // Commands and faults ---------------------------------------------------------

  function CmdCalibrate(m: Machine, id: nat): Machine {
    if !Accepts(m) then Refuse(m, id)
    else ToStep(m.(pending := Some(id)), PolePairsStep, NO_CALIBRATION, EstimatePolePairs)
  }

  function CmdEnable(m: Machine): Machine {
    if m.state.Ready? then m.(drive := m.drive.(started := true), state := Enabled) else m
  }

  function CmdDisable(m: Machine): Machine {
    if m.state.Enabled? then EnterReady(m.(drive := m.drive.(started := false)), m.calibrationData) else m
  }

  function CmdClearFault(m: Machine): Machine {
    if m.state.Fault? then m.(state := Idle) else m
  }

  function CmdClearCalibration(m: Machine, id: nat): Machine {
    if !Accepts(m) then Refuse(m, id) else Ask(m.(pending := Some(id)), Invalidate)
  }

  function CmdEmergencyStop(m: Machine): Machine {
    var s := Complete(m.(drive := m.drive.(started := false)), AbortedByFault);
    if m.state.Enabled? || m.state.Calibrating? then s.(state := Idle) else s
  }

  // Callbacks --------------------------------------------------------------------

  function OnPolePairs(m: Machine, result: Option<nat>): Machine {
    if !IsCalibrating(m, PolePairsStep) then m
    else match result
      case None => Fail(m, CalibrationFailed)
      case Some(n) =>
        ToStep(m, ResistanceStep, m.state.pendingData.(polePairs := n % 256), EstimateResistance)
  }

  function OnResistance(m: Machine, r: Option<U32>, l: Option<U32>): Machine {
    if !IsCalibrating(m, ResistanceStep) then m
    else if r.None? || l.None? then Fail(m, CalibrationFailed)
    else ToStep(m, AlignmentStep, m.state.pendingData.(rPhase := r.value, lD := l.value, lQ := l.value),
                ForceAlignment)
  }

  function OnAlignment(m: Machine, angle: Option<U32>): Machine {
    if !IsCalibrating(m, AlignmentStep) then m
    else match angle
      case None => Fail(m, CalibrationFailed)
      case Some(a) =>
        var data := m.state.pendingData.(encoderZeroOffset := a);
        if m.mode == Torque then Ask(m.(state := Calibrating(AlignmentStep, data)), Save(data))
        else ToStep(m, MechanicsStep, data, EstimateMechanics)
  }

  /** kp and ki are the estimates times the velocity bandwidth, as the float unit computes them. */
  function OnMechanics(m: Machine, friction: Option<U32>, inertia: Option<U32>, kp: U32, ki: U32): Machine {
    if !IsCalibrating(m, MechanicsStep) then m
    else if friction.None? || inertia.None? then Fail(m, CalibrationFailed)
    else
      var data := m.state.pendingData.(inertia := inertia.value, frictionViscous := friction.value,
                                       kpVelocity := kp, kiVelocity := ki);
      Ask(m.(state := Calibrating(MechanicsStep, data)), Save(data))
  }

  /** Only "still calibrating" is checked, not the step. */
  function OnSaved(m: Machine, status: NvmStatus): Machine {
    if !m.state.Calibrating? then m
    else if status != Ok then Fail(m, NvmFailed)
    else Complete(UseCalibration(m, m.state.pendingData), Succeeded)
  }

  function OnInvalidated(m: Machine, status: NvmStatus): Machine {
    if m.pending == None || !IsStopped(m.state) then m
    else if status != Ok then EnterFault(Complete(m, NvmFailed), HardwareFailure)
    else Complete(m.(calibrationData := NO_CALIBRATION, state := Idle), Succeeded)
  }

  function OnValidity(m: Machine, valid: bool): Machine {
    if m.state.Idle? && valid then Ask(m, Load) else m
  }

  /** A successful load has written the machine's calibration data before the callback runs. */
  function OnLoaded(m: Machine, status: NvmStatus, data: Option<CalibrationData>): Machine {
    var n := match data case Some(d) => m.(calibrationData := d) case None => m;
    if !m.state.Idle? || status != Ok then n else UseCalibration(n, n.calibrationData)
  }

  /** What the online estimators hold; kp and ki are what the float unit makes of inertia and friction. */
  datatype Estimates = Estimates(inertia: U32, friction: U32, kp: U32, ki: U32, resistance: U32, inductance: U32)

  /** A 32-bit float that is finite and above zero, seen from its bits. */
  predicate Physical(w: U32) { 0 < w < 0x7F80_0000 }

  /** While the motor runs the estimates replace tunings, the mechanical and the electrical ones each on their
      own; a torque machine has none. */
  function ApplyOnlineEstimates(m: Machine, e: Estimates): Machine {
    if m.mode == Torque || !m.state.Enabled? then m
    else
      var d := if Physical(e.inertia) && Physical(e.friction) then m.drive.(speed := Gains(e.kp, e.ki, 0))
               else m.drive;
      m.(drive := if Physical(e.resistance) && Physical(e.inductance)
                  then d.(current := FromMotor(e.resistance, e.inductance)) else d)
  }

  /** Gains given over the bus or the command line, in any state. */
  function SetCurrentGains(m: Machine, gains: Gains): Machine {
    m.(drive := m.drive.(current := Given(gains)))
  }

  /** A torque machine has no speed loop and refuses. */
  function SetSpeedGains(m: Machine, gains: Gains): Machine {
    if m.mode == Torque then m else m.(drive := m.drive.(speed := gains))
  }

  datatype Event =
    | Calibrate
    | Enable
    | Disable
    | ClearFault
    | ClearCalibration
    | EmergencyStop
    | FaultRaised(code: FaultCode)
    | EstimatesRead(estimates: Estimates)
    | CurrentGainsSet(gains: Gains)
    | SpeedGainsSet(gains: Gains)
    | PolePairsDone(count: Option<nat>)
    | ResistanceDone(r: Option<U32>, l: Option<U32>)
    | AlignmentDone(angle: Option<U32>)
    | MechanicsDone(friction: Option<U32>, inertia: Option<U32>, kp: U32, ki: U32)
    | Saved(status: NvmStatus)
    | Invalidated(status: NvmStatus)
    | ValidityKnown(valid: bool)
    | Loaded(status: NvmStatus, data: Option<CalibrationData>)

  predicate IsCommand(e: Event) { e.Calibrate? || e.ClearCalibration? }

  /** One event; commands carry their number. */
  function Step(m: Machine, e: Event, id: nat): Machine {
    match e
    case Calibrate => CmdCalibrate(m, id)
    case Enable => CmdEnable(m)
    case Disable => CmdDisable(m)
    case ClearFault => CmdClearFault(m)
    case ClearCalibration => CmdClearCalibration(m, id)
    case EmergencyStop => CmdEmergencyStop(m)
    case FaultRaised(code) => EnterFault(m, code)
    case EstimatesRead(estimates) => ApplyOnlineEstimates(m, estimates)
    case CurrentGainsSet(gains) => SetCurrentGains(m, gains)
    case SpeedGainsSet(gains) => SetSpeedGains(m, gains)
    case PolePairsDone(count) => OnPolePairs(m, count)
    case ResistanceDone(r, l) => OnResistance(m, r, l)
    case AlignmentDone(angle) => OnAlignment(m, angle)
    case MechanicsDone(friction, inertia, kp, ki) => OnMechanics(m, friction, inertia, kp, ki)
    case Saved(status) => OnSaved(m, status)
    case Invalidated(status) => OnInvalidated(m, status)
    case ValidityKnown(valid) => OnValidity(m, valid)
    case Loaded(status, data) => OnLoaded(m, status, data)
  }
}
