/** The mode coordinator as it is implemented: a select edits the configuration in place and, once it is
    saved, the active machine is stopped and its object replaced. */
module ControlModeStateMachineClass {
  import opened Basics
  import opened RecordLayout
  import opened M = ControlModeModel
  import L = LifecycleModel
  import F = FocStateMachineClass

  class ControlModeStateMachine {
    var configData: ConfigData
    var pendingSelectMode: ControlMode
    var pendingSelectCallback: Option<nat>
    var previousDefaultControlMode: Byte
    var active: ControlMode
    var activeSm: F.FocStateMachineCommon
    ghost var retired: seq<L.Machine> // the machines that were destroyed, as they were then
    var saves: seq<ConfigData>
    var results: seq<Result>

    ghost function View(): Selector
      reads this, activeSm
    {
      Selector(configData, pendingSelectMode, pendingSelectCallback, previousDefaultControlMode, active,
               activeSm.View(), retired, saves, results)
    }

    constructor (configData: ConfigData)
      ensures View() == Construct(configData) && fresh(activeSm)
    {
      var mode := FromRaw(configData.defaultControlMode);
      var machine := new F.FocStateMachineCommon(Variant(mode), STOPPED_DRIVE);
      this.configData := configData;
      pendingSelectMode, pendingSelectCallback, previousDefaultControlMode := TorqueMode, None, 0;
      active, activeSm := mode, machine;
      retired, saves, results := [], [], [];
    }

    method Select(mode: ControlMode, onDone: nat)
      requires pendingSelectCallback == None
      modifies this
      ensures View() == M.Select(old(View()), mode, onDone) && activeSm == old(activeSm)
    {
      if !L.IsStopped(activeSm.currentState) {
        results := results + [Result(onDone, Busy)];
        return;
      }
      previousDefaultControlMode := configData.defaultControlMode;
      configData := configData.(defaultControlMode := Raw(mode));
      pendingSelectMode := mode;
      pendingSelectCallback := Some(onDone);
      saves := saves + [configData];
    }

    method OnSaveConfigDone(status: NvmStatus)
      requires pendingSelectCallback.Some?
      modifies this, activeSm
      ensures View() == M.OnSaveConfigDone(old(View()), status)
      ensures if status == Ok then fresh(activeSm) else activeSm == old(activeSm)
    {
      if status != Ok {
        configData := configData.(defaultControlMode := previousDefaultControlMode);
        AnswerSelect(SelectNvmFailed);
      } else {
        Activate(pendingSelectMode);
        AnswerSelect(Selected);
      }
    }

    /** Cleared first, then called. */
    method AnswerSelect(result: SelectResult)
      requires pendingSelectCallback.Some?
      modifies this`pendingSelectCallback, this`results
      ensures pendingSelectCallback == None
      ensures results == old(results) + [Result(old(pendingSelectCallback).value, result)]
    {
      var callback := pendingSelectCallback.value;
      pendingSelectCallback := None;
      results := results + [Result(callback, result)];
    }

    method Activate(mode: ControlMode)
      modifies this, activeSm
      ensures View() == M.Activate(old(View()), mode) && fresh(activeSm)
    {
      activeSm.CmdEmergencyStop();
      retired := retired + [activeSm.View()];
      var machine := new F.FocStateMachineCommon(Variant(mode), STOPPED_DRIVE);
      active, activeSm := mode, machine;
    }

    method TrySetCurrentPidGains(gains: L.Gains) returns (done: bool)
      modifies activeSm`drive
      ensures done && View() == old(View()).(machine := L.SetCurrentGains(old(activeSm.View()), gains))
    {
      activeSm.drive := activeSm.drive.(current := L.Given(gains));
      done := true;
    }

    /** Refused by a torque machine. */
    method TrySetSpeedPidGains(gains: L.Gains) returns (done: bool)
      modifies activeSm`drive
      ensures done == (activeSm.mode != L.Torque)
      ensures View() == old(View()).(machine := L.SetSpeedGains(old(activeSm.View()), gains))
    {
      done := activeSm.mode != L.Torque;
      if done {
        activeSm.drive := activeSm.drive.(speed := gains);
      }
    }

    /** With no select pending, the active mode is the one the configuration in memory names. */
    method Active() returns (mode: ControlMode)
      requires ModeAgrees(View())
      ensures pendingSelectCallback == None ==> mode == FromRaw(configData.defaultControlMode)
      ensures pendingSelectCallback.Some? ==> mode == FromRaw(previousDefaultControlMode)
    {
      mode := active;
    }
  }
}
