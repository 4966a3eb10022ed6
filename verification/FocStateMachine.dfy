/** The lifecycle state machine as it is implemented. Calls to services append to the outbox, calls of
    command callbacks to the answers; Outer selects the variant with the mechanical step. */
module FocStateMachineClass {
  import opened Basics
  import opened RecordLayout
  import opened M = LifecycleModel

  class FocStateMachineCommon {
    const mode: Mode
    var currentState: State
    var lastFaultCode: FaultCode
    var calibrationData: CalibrationData
    var pendingCommandCallback: Option<nat>
    var drive: Drive
    var answers: seq<Reply>
    var outbox: seq<Request>

    ghost function View(): Machine
      reads this
    {
      Machine(mode, currentState, lastFaultCode, calibrationData, pendingCommandCallback, drive, answers, outbox)
    }

    constructor (mode: Mode, drive: Drive)
      ensures View() == Machine(mode, Idle, HardwareFailure, NO_CALIBRATION, None, drive, [], [CheckValid])
    {
      this.mode := mode;
      currentState, lastFaultCode, calibrationData := Idle, HardwareFailure, NO_CALIBRATION;
      pendingCommandCallback := None;
      this.drive := drive;
      answers, outbox := [], [];
      new;
      CheckNvmOnBoot();
    }

    method CmdCalibrate(onDone: nat)
      modifies this
      ensures View() == M.CmdCalibrate(old(View()), onDone)
    {
      if !IsStopped(currentState) || HasPendingCommand() {
        answers := answers + [Reply(onDone, Rejected)];
        return;
      }
      pendingCommandCallback := Some(onDone);
      EnterCalibrating();
    }

    method CmdEnable()
      modifies this
      ensures View() == M.CmdEnable(old(View()))
    {
      if !currentState.Ready? {
        return;
      }
      EnterEnabled();
    }

    method CmdDisable()
      modifies this
      ensures View() == M.CmdDisable(old(View()))
    {
      if !currentState.Enabled? {
        return;
      }
      Stop();
      EnterReady(calibrationData);
    }

    method CmdClearFault()
      modifies this
      ensures View() == M.CmdClearFault(old(View()))
    {
      if !currentState.Fault? {
        return;
      }
      currentState := Idle;
    }

    method CmdClearCalibration(onDone: nat)
      modifies this
      ensures View() == M.CmdClearCalibration(old(View()), onDone)
    {
      if !IsStopped(currentState) || HasPendingCommand() {
        answers := answers + [Reply(onDone, Rejected)];
        return;
      }
      pendingCommandCallback := Some(onDone);
      outbox := outbox + [Invalidate];
    }

    /** The callback of an invalidation drops what has become stale. */
    method OnInvalidated(status: NvmStatus)
      modifies this
      ensures View() == M.OnInvalidated(old(View()), status)
    {
      if !HasPendingCommand() || !IsStopped(currentState) {
        return;
      }
      if status != Ok {
        CompletePendingCommand(NvmFailed);
        EnterFault(HardwareFailure);
      } else {
        calibrationData := NO_CALIBRATION;
        currentState := Idle;
        CompletePendingCommand(Succeeded);
      }
    }

    method CmdEmergencyStop()
      modifies this
      ensures View() == M.CmdEmergencyStop(old(View()))
    {
      Stop();
      var wasActive := currentState.Enabled? || currentState.Calibrating?;
      CompletePendingCommand(AbortedByFault);
      if currentState.Fault? {
        return;
      }
      if wasActive {
        currentState := Idle;
      }
    }

    /** Only the outer-loop machine overrides the empty method of the interface. */
    method ApplyOnlineEstimates(e: Estimates)
      modifies this`drive
      ensures View() == M.ApplyOnlineEstimates(old(View()), e)
    {
      if mode == Torque || !currentState.Enabled? {
        return;
      }
      if Physical(e.inertia) && Physical(e.friction) {
        drive := drive.(speed := Gains(e.kp, e.ki, 0));
      }
      if Physical(e.resistance) && Physical(e.inductance) {
        drive := drive.(current := FromMotor(e.resistance, e.inductance));
      }
    }

    method EnterCalibrating()
      modifies this
      ensures View() == ToStep(old(View()), PolePairsStep, NO_CALIBRATION, EstimatePolePairs)
    {
      currentState := Calibrating(PolePairsStep, NO_CALIBRATION);
      RunStep(PolePairsStep, EstimatePolePairs);
    }

    method EnterReady(data: CalibrationData)
      modifies this
      ensures View() == M.EnterReady(old(View()), data)
    {
      calibrationData := data;
      currentState := Ready(data);
    }

    method EnterEnabled()
      modifies this
      ensures View() == old(View()).(drive := old(drive).(started := true), state := Enabled)
    {
      Start();
      currentState := Enabled;
    }

    method EnterFault(code: FaultCode)
      modifies this
      ensures View() == M.EnterFault(old(View()), code)
    {
      if currentState.Enabled? || currentState.Calibrating? {
        Stop();
      }
      lastFaultCode := code;
      currentState := Fault(code);
      CompletePendingCommand(AbortedByFault);
    }

    /** Cleared first, then called. */
    method CompletePendingCommand(result: CommandResult)
      modifies this`pendingCommandCallback, this`answers
      ensures View() == Complete(old(View()), result)
    {
      if pendingCommandCallback.Some? {
        var callback := pendingCommandCallback.value;
        pendingCommandCallback := None;
        answers := answers + [Reply(callback, result)];
      }
    }

    predicate HasPendingCommand()
      reads this
    {
      pendingCommandCallback != None
    }

    predicate IsCalibratingStep(expected: CalibrationStep)
      reads this
    {
      currentState.Calibrating? && currentState.step == expected
    }

    method RunStep(step: CalibrationStep, service: Service)
      requires currentState.Calibrating?
      modifies this`currentState, this`outbox
      ensures View() == ToStep(old(View()), step, old(currentState).pendingData, service)
    {
      currentState := currentState.(step := step);
      outbox := outbox + [Run(service)];
    }

    method OnPolePairs(result: Option<nat>)
      modifies this
      ensures View() == M.OnPolePairs(old(View()), result)
    {
      if !IsCalibratingStep(PolePairsStep) {
        return;
      }
      if result.None? {
        CompletePendingCommand(CalibrationFailed);
        EnterFault(CalibrationError);
      } else {
        currentState := currentState.(pendingData := currentState.pendingData.(polePairs := result.value % 256));
        RunStep(ResistanceStep, EstimateResistance);
      }
    }

    method OnResistance(r: Option<U32>, l: Option<U32>)
      modifies this
      ensures View() == M.OnResistance(old(View()), r, l)
    {
      if !IsCalibratingStep(ResistanceStep) {
        return;
      }
      if r.None? || l.None? {
        CompletePendingCommand(CalibrationFailed);
        EnterFault(CalibrationError);
      } else {
        currentState := currentState.(pendingData :=
          currentState.pendingData.(rPhase := r.value, lD := l.value, lQ := l.value));
        RunStep(AlignmentStep, ForceAlignment);
      }
    }

    method OnAlignment(angle: Option<U32>)
      modifies this
      ensures View() == M.OnAlignment(old(View()), angle)
    {
      if !IsCalibratingStep(AlignmentStep) {
        return;
      }
      if angle.None? {
        CompletePendingCommand(CalibrationFailed);
        EnterFault(CalibrationError);
      } else {
        currentState := currentState.(pendingData := currentState.pendingData.(encoderZeroOffset := angle.value));
        RunPostAlignmentStep();
      }
    }

    method RunPostAlignmentStep()
      requires currentState.Calibrating?
      modifies this`currentState, this`outbox
      ensures View() == if mode == Torque then Ask(old(View()), Save(old(currentState).pendingData))
                        else ToStep(old(View()), MechanicsStep, old(currentState).pendingData, EstimateMechanics)
    {
      if mode == Torque {
        OnCalibrationComplete();
      } else {
        RunStep(MechanicsStep, EstimateMechanics);
      }
    }

    method OnMechanics(friction: Option<U32>, inertia: Option<U32>, kp: U32, ki: U32)
      modifies this
      ensures View() == M.OnMechanics(old(View()), friction, inertia, kp, ki)
    {
      if !IsCalibratingStep(MechanicsStep) {
        return;
      }
      if friction.None? || inertia.None? {
        CompletePendingCommand(CalibrationFailed);
        EnterFault(CalibrationError);
      } else {
        currentState := currentState.(pendingData := currentState.pendingData.(
          inertia := inertia.value, frictionViscous := friction.value, kpVelocity := kp, kiVelocity := ki));
        OnCalibrationComplete();
      }
    }

    method OnCalibrationComplete()
      modifies this`outbox
      ensures View() == if old(currentState).Calibrating?
                        then Ask(old(View()), Save(old(currentState).pendingData)) else old(View())
    {
      if !currentState.Calibrating? {
        return;
      }
      outbox := outbox + [Save(currentState.pendingData)];
    }

    method OnSaved(status: NvmStatus)
      modifies this
      ensures View() == M.OnSaved(old(View()), status)
    {
      if !currentState.Calibrating? {
        return;
      }
      if status != Ok {
        CompletePendingCommand(NvmFailed);
        EnterFault(CalibrationError);
      } else {
        var data := currentState.pendingData;
        Configure(data);
        EnterReady(data);
        CompletePendingCommand(Succeeded);
      }
    }

    method CheckNvmOnBoot()
      modifies this`outbox
      ensures View() == Ask(old(View()), CheckValid)
    {
      outbox := outbox + [CheckValid];
    }

    method OnValidity(valid: bool)
      modifies this
      ensures View() == M.OnValidity(old(View()), valid)
    {
      if !currentState.Idle? {
        return;
      }
      if valid {
        outbox := outbox + [Load];
      }
    }

    /** The storage service writes a loaded record into calibrationData before it calls back. */
    method OnLoaded(status: NvmStatus, data: Option<CalibrationData>)
      modifies this
      ensures View() == M.OnLoaded(old(View()), status, data)
    {
      if data.Some? {
        calibrationData := data.value;
      }
      if !currentState.Idle? {
        return;
      }
      if status == Ok {
        Configure(calibrationData);
        EnterReady(calibrationData);
      }
    }

    method Configure(data: CalibrationData)
      modifies this`drive
      ensures drive == Configured(mode, old(drive), data)
    {
      drive := drive.(polePairs := data.polePairs);
      drive := drive.(encoderOffset := data.encoderZeroOffset);
      drive := drive.(current := FromMotor(data.rPhase, data.lD));
      ApplyModeSpecificCalibration(data);
    }

    method ApplyModeSpecificCalibration(data: CalibrationData)
      modifies this`drive
      ensures drive == if mode == Torque then old(drive)
                       else old(drive).(speed := Gains(data.kpVelocity, data.kiVelocity, 0),
                                        inertia := data.inertia, friction := data.frictionViscous,
                                        resistance := data.rPhase, inductance := data.lD)
    {
      if mode == OuterLoop {
        drive := drive.(speed := Gains(data.kpVelocity, data.kiVelocity, 0));
        drive := drive.(inertia := data.inertia, friction := data.frictionViscous);
        drive := drive.(resistance := data.rPhase, inductance := data.lD);
      }
    }

    method Start()
      modifies this`drive
      ensures drive == old(drive).(started := true)
    {
      drive := drive.(started := true);
    }

    method Stop()
      modifies this`drive
      ensures drive == old(drive).(started := false)
    {
      drive := drive.(started := false);
    }
  }
}
