/** Selecting a control mode: the choice is saved first, then the active machine is replaced. */
module ControlModeModel {
  import opened Basics
  import opened RecordLayout
  import S = StorageModel
  import R = StorageRuns
  import L = LifecycleModel

  datatype ControlMode = TorqueMode | SpeedMode | PositionMode

  datatype SelectResult = Selected | Busy | SelectNvmFailed

  datatype Result = Result(command: nat, result: SelectResult)

  function Raw(mode: ControlMode): Byte {
    match mode
    case TorqueMode => 0
    case SpeedMode => 1
    case PositionMode => 2
  }

  /** Anything unknown is torque control. */
  function FromRaw(raw: Byte): ControlMode {
    match raw
    case 1 => SpeedMode
    case 2 => PositionMode
    case _ => TorqueMode
  }

  function Variant(mode: ControlMode): L.Mode {
    if mode == TorqueMode then L.Torque else L.OuterLoop
  }

  const STOPPED_DRIVE := L.Drive(false, 0, 0, L.FromMotor(0, 0), L.Gains(0, 0, 0), 0, 0, 0, 0)

  /** A machine as constructed. */
  function NewMachine(mode: ControlMode): L.Machine {
    L.Machine(Variant(mode), L.Idle, L.HardwareFailure, NO_CALIBRATION, None, STOPPED_DRIVE, [], [L.CheckValid])
  }

  datatype Selector = Selector(
    config: ConfigData, pendingMode: ControlMode, pending: Option<nat>, previousDefault: Byte,
    active: ControlMode, machine: L.Machine, retired: seq<L.Machine>,
    saves: seq<ConfigData>, results: seq<Result>)

  /** The coordinator as constructed from a configuration. */
  function Construct(config: ConfigData): Selector {
    var mode := FromRaw(config.defaultControlMode);
    Selector(config, TorqueMode, None, 0, mode, NewMachine(mode), [], [], [])
  }

  /** Stop the active machine and put a new one in its place. */
  function Activate(s: Selector, mode: ControlMode): Selector {
    s.(active := mode, machine := NewMachine(mode), retired := s.retired + [L.CmdEmergencyStop(s.machine)])
  }

  /** The coordinator asserts that no select is pending. */
  function Select(s: Selector, mode: ControlMode, command: nat): Selector
    requires s.pending == None
  {
    if !L.IsStopped(s.machine.state) then s.(results := s.results + [Result(command, Busy)])
    else
      var config := s.config.(defaultControlMode := Raw(mode));
      s.(previousDefault := s.config.defaultControlMode, config := config,
         pendingMode := mode, pending := Some(command), saves := s.saves + [config])
  }

  function OnSaveConfigDone(s: Selector, status: NvmStatus): Selector
    requires s.pending.Some?
  {
    if status != Ok then
      s.(config := s.config.(defaultControlMode := s.previousDefault), pending := None,
         results := s.results + [Result(s.pending.value, SelectNvmFailed)])
    else
      Activate(s, s.pendingMode).(pending := None, results := s.results + [Result(s.pending.value, Selected)])
  }

  // ---------------------------------------------------------------------------
  // Runs
  // ---------------------------------------------------------------------------

  datatype System = System(selector: Selector, store: R.Run, next: nat)

  datatype Event =
    | Choose(mode: ControlMode)
    | Machine(e: L.Event)                                // anything happening to the active machine
    | Region(stage: S.Stage, fault: Option<seq<Byte>>)   // a region operation completes
    | Client(request: S.Request)                         // any other client of the storage service

  /** Hand the configuration to be saved to the storage service, numbered like the select command. */
  ghost function Deliver(dev: S.Device, s: System): (t: System)
    requires s.store.nvm.Shape(dev)
    ensures t.store.nvm.Shape(dev)
  {
    if s.selector.saves == [] then s.(next := s.next + 1)
    else System(s.selector.(saves := []),
                R.Next(dev, s.store, R.Ask(S.SaveConfig(s.selector.saves[0])), s.next), s.next + 1)
  }

  /** The answer to the pending select's own save is passed on, others are not for the coordinator. */
  function Hear(s: Selector, before: seq<S.Answer>, answers: seq<S.Answer>): Selector {
    var n := |answers|;
    if n == |before| || n == 0 || s.pending != Some(answers[n - 1].token) || !answers[n - 1].outcome.Done? then s
    else OnSaveConfigDone(s, answers[n - 1].outcome.status)
  }

  ghost function Next(dev: S.Device, s: System, e: Event): (t: System)
    requires s.store.nvm.Shape(dev)
    ensures t.store.nvm.Shape(dev)
  {
    match e
    case Choose(mode) =>
      if s.selector.pending.Some? then s else Deliver(dev, s.(selector := Select(s.selector, mode, s.next)))
    case Machine(x) =>
      s.(selector := s.selector.(machine := L.Step(s.selector.machine, x, s.next)), next := s.next + 1)
    case Region(stage, fault) =>
      var store := R.Next(dev, s.store, R.Finish(stage, fault), s.next);
      System(Hear(s.selector, s.store.answers, store.answers), store, s.next + 1)
    case Client(q) => System(s.selector, R.Next(dev, s.store, R.Ask(q), s.next), s.next + 1)
  }

  ghost function After(dev: S.Device, start: System, es: seq<Event>): (t: System)
    requires start.store.nvm.Shape(dev)
    ensures t.store.nvm.Shape(dev)
    decreases es
  {
    if es == [] then start else Next(dev, After(dev, start, es[..|es| - 1]), es[|es| - 1])
  }

  /** With no select pending the active mode is the configured default; while one is pending the default
      already shows the choice, the old default still names the active mode, and the save, if accepted, is
      of the present configuration. */
  predicate ModeAgrees(s: Selector) {
    match s.pending
    case None => s.active == FromRaw(s.config.defaultControlMode)
    case Some(_) => s.config.defaultControlMode == Raw(s.pendingMode) && s.active == FromRaw(s.previousDefault)
  }

  ghost predicate PendingKnown(s: System) {
    s.selector.pending.Some? ==>
      && s.selector.pending.value < s.next
      && (s.selector.pending.value in s.store.accepted ==>
            s.store.accepted[s.selector.pending.value] == S.SaveConfig(s.selector.config))
  }

  predicate Retired(s: Selector) {
    forall i | 0 <= i < |s.retired| :: !s.retired[i].drive.started && !s.retired[i].state.Enabled?
  }

  /** The machine is of the kind its mode asks for. */
  predicate MachineFits(s: Selector) {
    s.machine.mode == L.Torque <==> s.active == TorqueMode
  }

  ghost predicate Good(dev: S.Device, s: System) {
    && s.store.nvm.Shape(dev) && R.Consistent(dev, s.store, s.next)
    && s.selector.saves == [] && ModeAgrees(s.selector) && PendingKnown(s) && Retired(s.selector)
    && MachineFits(s.selector)
  }

  lemma ActivateRetires(s: Selector, mode: ControlMode)
    requires Retired(s)
    ensures Retired(Activate(s, mode))
  {
    assert !L.CmdEmergencyStop(s.machine).drive.started && !L.CmdEmergencyStop(s.machine).state.Enabled?;
  }

  lemma HearGood(s: Selector, before: seq<S.Answer>, answers: seq<S.Answer>)
    requires ModeAgrees(s) && Retired(s) && s.saves == [] && MachineFits(s)
    ensures var t := Hear(s, before, answers);
            && ModeAgrees(t) && Retired(t) && t.saves == [] && MachineFits(t)
            && (t.pending.Some? ==> t == s)
  {
    ActivateRetires(s, s.pendingMode);
  }

  /** Requests are accepted under their own number and never forgotten. */
  lemma AcceptedStays(dev: S.Device, r: R.Run, e: R.Event, token: nat, t: nat)
    requires r.nvm.Shape(dev)
    ensures var n := R.Next(dev, r, e, token);
            if t == token && e.Ask? then t in n.accepted ==> n.accepted[t] == e.request || t in r.accepted
            else t in n.accepted <==> t in r.accepted
    ensures t in r.accepted && t != token ==>
              t in R.Next(dev, r, e, token).accepted && R.Next(dev, r, e, token).accepted[t] == r.accepted[t]
  {
  }

  lemma ChooseGood(dev: S.Device, s: System, mode: ControlMode)
    requires Good(dev, s) && s.selector.pending == None
    ensures Good(dev, Next(dev, s, Choose(mode)))
  {
    var t := Select(s.selector, mode, s.next);
    if t.saves != [] {
      var e := R.Ask(S.SaveConfig(t.saves[0]));
      R.StepConsistent(dev, s.store, e, s.next);
      AcceptedStays(dev, s.store, e, s.next, s.next);
    } else {
      Later(dev, s.store, s.next);
    }
  }

  lemma Later(dev: S.Device, r: R.Run, k: nat)
    requires R.Consistent(dev, r, k)
    ensures R.Consistent(dev, r, k + 1)
  {
  }

  lemma StaysKnown(dev: S.Device, s: System, e: R.Event)
    requires s.store.nvm.Shape(dev) && PendingKnown(s)
    ensures PendingKnown(System(s.selector, R.Next(dev, s.store, e, s.next), s.next + 1))
  {
    if s.selector.pending.Some? {
      AcceptedStays(dev, s.store, e, s.next, s.selector.pending.value);
    }
  }

  lemma RegionGood(dev: S.Device, s: System, stage: S.Stage, fault: Option<seq<Byte>>)
    requires Good(dev, s)
    ensures Good(dev, Next(dev, s, Region(stage, fault)))
  {
    var e := R.Finish(stage, fault);
    R.StepConsistent(dev, s.store, e, s.next);
    HearGood(s.selector, s.store.answers, R.Next(dev, s.store, e, s.next).answers);
    StaysKnown(dev, s, e);
  }

  lemma ClientGood(dev: S.Device, s: System, q: S.Request)
    requires Good(dev, s)
    ensures Good(dev, Next(dev, s, Client(q)))
  {
    R.StepConsistent(dev, s.store, R.Ask(q), s.next);
    StaysKnown(dev, s, R.Ask(q));
  }

  lemma MachineKeepsMode(m: L.Machine, e: L.Event, k: nat)
    ensures L.Step(m, e, k).mode == m.mode
  {
  }

  lemma StepGood(dev: S.Device, s: System, e: Event)
    requires Good(dev, s)
    ensures Good(dev, Next(dev, s, e))
  {
    match e
    case Choose(mode) =>
      if s.selector.pending == None {
        ChooseGood(dev, s, mode);
      }
    case Machine(x) =>
      Later(dev, s.store, s.next);
      MachineKeepsMode(s.selector.machine, x, s.next);
    case Region(stage, fault) => RegionGood(dev, s, stage, fault);
    case Client(q) => ClientGood(dev, s, q);
  }

  /** In every run from construction the active mode and the configured default agree, and every machine
      that was replaced had been stopped, even when it was enabled while the save was under way; the active machine
      is a torque machine exactly in torque mode. */
  lemma {:induction false} RunGood(dev: S.Device, config: ConfigData, store: R.Run, es: seq<Event>)
    requires R.Starting(dev, store)
    ensures Good(dev, After(dev, System(Construct(config), store, 0), es))
    decreases es
  {
    if es == [] {
      R.StartConsistent(dev, store);
    } else {
      RunGood(dev, config, store, es[..|es| - 1]);
      StepGood(dev, After(dev, System(Construct(config), store, 0), es[..|es| - 1]), es[|es| - 1]);
    }
  }

  /** How the step that answers a select leaves things: on success the chosen mode is active, it is the
      default, and the configuration on the medium constructs a coordinator in that mode; on failure default
      and active mode are what they were before the select. */
  lemma SelectAnswered(dev: S.Device, s: System, stage: S.Stage, fault: Option<seq<Byte>>)
    requires Good(dev, s) && s.selector.pending.Some?
    requires Next(dev, s, Region(stage, fault)).selector.pending == None
    ensures var t := Next(dev, s, Region(stage, fault));
            var last := t.selector.results[|s.selector.results|];
            && |t.selector.results| == |s.selector.results| + 1 && last.command == s.selector.pending.value
            && (last.result == Selected ==>
                  && t.selector.active == s.selector.pendingMode
                  && t.store.nvm.StoredConfig(dev) == t.selector.config
                  && t.selector.config.defaultControlMode
                     == (match s.selector.pendingMode case TorqueMode => 0 case SpeedMode => 1 case PositionMode => 2)
                  && t.selector.machine.state == L.Idle && !t.selector.machine.drive.started
                  && Construct(t.store.nvm.StoredConfig(dev)).active == s.selector.pendingMode)
            && (last.result != Selected ==>
                  && last.result == SelectNvmFailed
                  && t.selector.config.defaultControlMode == s.selector.previousDefault
                  && t.selector.active == s.selector.active)
  {
    var e := R.Finish(stage, fault);
    var store := R.Next(dev, s.store, e, s.next);
    var a := store.answers[|store.answers| - 1];
    AnswerOrigin(dev, s.store, stage, fault, s.next);
    assert a in S.Complete(dev, s.store.nvm, stage, fault).1;
    if a.outcome == S.Done(Ok) {
      R.AnswerOfSave(dev, s.store, s.next, stage, fault, a);
    }
  }

  lemma AnswerOrigin(dev: S.Device, r: R.Run, stage: S.Stage, fault: Option<seq<Byte>>, k: nat)
    requires r.nvm.Shape(dev)
    ensures var f := R.Next(dev, r, R.Finish(stage, fault), k);
            f.answers == r.answers ||
            (f.nvm == S.Complete(dev, r.nvm, stage, fault).0
             && f.answers == r.answers + S.Complete(dev, r.nvm, stage, fault).1
             && |f.answers| == |r.answers| + 1)
  {
  }

  /** What a select does at once: it is answered busy, and nothing else happens, exactly when the machine is
      calibrating, enabled or at fault; otherwise the chosen mode becomes the default in memory, is asked to be
      saved, and the select waits. */
  lemma SelectAtOnce(s: Selector, mode: ControlMode, command: nat)
    requires s.pending == None
    ensures var t := Select(s, mode, command);
            var busy := s.machine.state.Calibrating? || s.machine.state.Enabled? || s.machine.state.Fault?;
            && (busy ==> t == s.(results := s.results + [Result(command, Busy)]))
            && (!busy ==>
                  && t.results == s.results && t.pending == Some(command) && t.active == s.active
                  && t.machine == s.machine && t.saves == s.saves + [t.config]
                  && t.config == s.config.(defaultControlMode :=
                       match mode case TorqueMode => 0 case SpeedMode => 1 case PositionMode => 2))
  {
  }

  /** Which mode a stored configuration comes up in. */
  lemma ModeOfConfig(config: ConfigData)
    ensures var s := Construct(config);
            && s.active == (if config.defaultControlMode == 1 then SpeedMode
                            else if config.defaultControlMode == 2 then PositionMode else TorqueMode)
            && MachineFits(s) && s.machine.state == L.Idle && s.machine.outbox == [L.CheckValid]
  {
  }

  // ---------------------------------------------------------------------------
  // Is a select answered?
  // ---------------------------------------------------------------------------

  /** The configuration slot works for the pending select. */
  predicate OwnSave(s: System) {
    && s.selector.pending.Some? && S.ConfigSlot in s.store.jobs
    && s.store.jobs[S.ConfigSlot].token == s.selector.pending.value
  }

  /** Storage never took the save of the pending select. */
  predicate SaveRefused(s: System) {
    s.selector.pending.Some? && s.selector.pending.value !in s.store.accepted
  }

  ghost predicate CanBeAnswered(dev: S.Device, s: System)
    requires s.store.nvm.Shape(dev)
  {
    exists es: seq<Event> :: After(dev, s, es).selector.pending != s.selector.pending
  }

  lemma NotAnswered(answers: seq<S.Answer>, token: nat)
    requires R.Count(answers, token) == 0 && answers != []
    ensures answers[|answers| - 1].token != token
  {
  }

  lemma StaysRefused(dev: S.Device, s: System, e: Event)
    requires Good(dev, s) && SaveRefused(s)
    ensures var t := Next(dev, s, e); SaveRefused(t) && t.selector.pending == s.selector.pending
  {
    match e
    case Choose(mode) =>
    case Machine(x) =>
    case Region(stage, fault) =>
      var event := R.Finish(stage, fault);
      var store := R.Next(dev, s.store, event, s.next);
      R.StepConsistent(dev, s.store, event, s.next);
      AcceptedStays(dev, s.store, event, s.next, s.selector.pending.value);
      if store.answers != [] {
        NotAnswered(store.answers, s.selector.pending.value);
      }
    case Client(q) => AcceptedStays(dev, s.store, R.Ask(q), s.next, s.selector.pending.value);
  }

  lemma {:induction false} NeverAnswered(dev: S.Device, s: System, es: seq<Event>)
    requires Good(dev, s) && SaveRefused(s)
    ensures var t := After(dev, s, es); Good(dev, t) && SaveRefused(t) && t.selector.pending == s.selector.pending
    decreases es
  {
    if es != [] {
      NeverAnswered(dev, s, es[..|es| - 1]);
      StepGood(dev, After(dev, s, es[..|es| - 1]), es[|es| - 1]);
      StaysRefused(dev, After(dev, s, es[..|es| - 1]), es[|es| - 1]);
    }
  }

  lemma AfterSnoc(dev: S.Device, s: System, es: seq<Event>, e: Event)
    requires s.store.nvm.Shape(dev)
    ensures After(dev, s, es + [e]) == Next(dev, After(dev, s, es), e)
  {
    assert (es + [e])[..|es|] == es;
  }

  lemma {:induction false} AfterCons(dev: S.Device, s: System, e: Event, es: seq<Event>)
    requires s.store.nvm.Shape(dev)
    ensures After(dev, s, [e] + es) == After(dev, Next(dev, s, e), es)
    decreases es
  {
    if es == [] {
      AfterSnoc(dev, s, [], e);
      assert [e] + es == [] + [e];
    } else {
      var before, last := es[..|es| - 1], es[|es| - 1];
      AfterCons(dev, s, e, before);
      AfterSnoc(dev, s, [e] + before, last);
      AfterSnoc(dev, Next(dev, s, e), before, last);
      assert [e] + es == [e] + before + [last] && es == before + [last];
    }
  }

  /** One link of the chain completes: the chain goes on, or the select is answered. */
  lemma LinkStep(dev: S.Device, s: System)
    requires Good(dev, s) && OwnSave(s)
    ensures var stage := s.store.jobs[S.ConfigSlot].stage;
            var t := Next(dev, s, Region(stage, None));
            match S.NextStage(stage)
            case Some(next) =>
              t.selector == s.selector && OwnSave(t) && t.store.jobs[S.ConfigSlot].stage == next
            case None => t.selector.pending == None
  {
    var stage := s.store.jobs[S.ConfigSlot].stage;
    R.InFlight(dev, s.store, S.ConfigSlot);
    assert R.JobOk(dev, s.store.nvm, S.ConfigSlot, s.store.jobs[S.ConfigSlot]);
    assert s.store.answers + [] == s.store.answers;
  }

  lemma AnsweredBy(dev: S.Device, s: System, e: Event)
    requires s.store.nvm.Shape(dev) && Next(dev, s, e).selector.pending != s.selector.pending
    ensures CanBeAnswered(dev, s)
  {
    assert [e][..0] == [];
    assert After(dev, s, [e]) == Next(dev, s, e);
  }

  lemma AnsweredLater(dev: S.Device, s: System, e: Event)
    requires s.store.nvm.Shape(dev) && Next(dev, s, e).selector == s.selector
    requires CanBeAnswered(dev, Next(dev, s, e))
    ensures CanBeAnswered(dev, s)
  {
    var t := Next(dev, s, e);
    var es: seq<Event> :| After(dev, t, es).selector.pending != t.selector.pending;
    AfterCons(dev, s, e, es);
  }

  lemma {:induction false} OwnSaveAnswers(dev: S.Device, s: System)
    requires Good(dev, s) && OwnSave(s)
    ensures CanBeAnswered(dev, s)
    decreases R.Remaining(s.store.jobs[S.ConfigSlot].stage)
  {
    var e := Region(s.store.jobs[S.ConfigSlot].stage, None);
    LinkStep(dev, s);
    if S.NextStage(e.stage).None? {
      AnsweredBy(dev, s, e);
    } else {
      StepGood(dev, s, e);
      OwnSaveAnswers(dev, Next(dev, s, e));
      AnsweredLater(dev, s, e);
    }
  }

  lemma Chosen(dev: S.Device, s: System, mode: ControlMode)
    requires Good(dev, s) && s.selector.pending == None && L.IsStopped(s.selector.machine.state)
    ensures var t := Next(dev, s, Choose(mode));
            && t.selector.pending == Some(s.next)
            && if s.store.nvm.Holder(S.ConfigSlot) == None then OwnSave(t) else SaveRefused(t)
  {
  }

  /** A select that is not refused for a busy machine can be answered, by region operations alone, exactly when
      the configuration slot is free as it arrives. Otherwise storage drops its save without a word: whatever
      follows it stays pending, and the coordinator forbids the next select. */
  lemma SelectAnsweredIff(dev: S.Device, s: System, mode: ControlMode)
    requires Good(dev, s) && s.selector.pending == None && L.IsStopped(s.selector.machine.state)
    ensures CanBeAnswered(dev, Next(dev, s, Choose(mode))) <==> s.store.nvm.Holder(S.ConfigSlot) == None
  {
    var t := Next(dev, s, Choose(mode));
    Chosen(dev, s, mode);
    ChooseGood(dev, s, mode);
    if OwnSave(t) {
      OwnSaveAnswers(dev, t);
    } else if CanBeAnswered(dev, t) {
      var es: seq<Event> :| After(dev, t, es).selector.pending != t.selector.pending;
      NeverAnswered(dev, t, es);
      assert false;
    }
  }

  // ---------------------------------------------------------------------------
  // Durability
  // ---------------------------------------------------------------------------

  /** Nothing under way will change the configuration record. */
  ghost predicate ConfigAtRest(r: R.Run) {
    forall stage | stage in r.nvm.flight ::
      stage !in {S.ConfigErase, S.ConfigWrite, S.FormatCalibration, S.FormatConfig}
  }

  predicate Harmless(e: R.Event) {
    e.Ask? ==> !e.request.SaveConfig? && !e.request.Format?
  }

  lemma HarmlessStep(dev: S.Device, r: R.Run, e: R.Event, k: nat)
    requires r.nvm.Shape(dev) && ConfigAtRest(r) && Harmless(e)
    ensures var n := R.Next(dev, r, e, k);
            ConfigAtRest(n) && n.nvm.ConfigRegion(dev) == r.nvm.ConfigRegion(dev)
  {
    match e
    case Ask(q) => HarmlessAsk(dev, r, q, k);
    case Finish(stage, fault) => HarmlessFinish(dev, r, stage, fault, k);
  }

  lemma HarmlessAsk(dev: S.Device, r: R.Run, q: S.Request, k: nat)
    requires r.nvm.Shape(dev) && ConfigAtRest(r) && !q.SaveConfig? && !q.Format?
    ensures var n := R.Next(dev, r, R.Ask(q), k);
            ConfigAtRest(n) && n.nvm.ConfigRegion(dev) == r.nvm.ConfigRegion(dev)
  {
  }

  lemma HarmlessFinish(dev: S.Device, r: R.Run, stage: S.Stage, fault: Option<seq<Byte>>, k: nat)
    requires r.nvm.Shape(dev) && ConfigAtRest(r)
    ensures var n := R.Next(dev, r, R.Finish(stage, fault), k);
            ConfigAtRest(n) && n.nvm.ConfigRegion(dev) == r.nvm.ConfigRegion(dev)
  {
    if stage in r.nvm.flight {
      R.RecordUntouched(dev, r.nvm, stage, fault, dev.config, CONFIG_RECORD);
    }
  }

  /** The chosen mode survives: whatever calibration work, loads, validity checks and calibration faults
      follow, a coordinator constructed from the medium comes up in the same mode until the next
      configuration save or format. */
  lemma {:induction false} ChoiceSurvives(dev: S.Device, r: R.Run, es: seq<R.Event>)
    requires r.nvm.Shape(dev) && ConfigAtRest(r) && forall i | 0 <= i < |es| :: Harmless(es[i])
    ensures var n := R.After(dev, r, es);
            && ConfigAtRest(n) && n.nvm.StoredConfig(dev) == r.nvm.StoredConfig(dev)
            && Construct(n.nvm.StoredConfig(dev)).active == Construct(r.nvm.StoredConfig(dev)).active
    decreases es
  {
    if es != [] {
      ChoiceSurvives(dev, r, es[..|es| - 1]);
      HarmlessStep(dev, R.After(dev, r, es[..|es| - 1]), es[|es| - 1], |es| - 1);
    }
  }
}
