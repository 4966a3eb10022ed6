/** Are accepted commands answered? When one can no longer be, and what makes it so. */
module LifecycleLiveness {
  import opened Basics
  import opened RecordLayout
  import opened LifecycleModel
  import opened IdentificationModel
  import opened LifecycleSystem
  import S = StorageModel
  import R = StorageRuns

  predicate Invalidating(r: R.Run) { CalibrationJob(r) == Some(S.InvalidateCalibration) }

  /** A command is pending and nothing is left that could answer it: while calibrating, no save and no service of
      the present step that still owes its callback and has the samples for it; otherwise no invalidation. */
  predicate Stranded(s: System) {
    && s.machine.pending.Some?
    && if s.machine.state.Calibrating? then
         !CanAnswer(s.services, ServiceFor(s.machine.state.step)) && Saving(s.store) == None
       else !Invalidating(s.store)
  }

  /** An emergency stop or a fault aborts whatever is pending. */
  predicate Aborts(e: SystemEvent) {
    e.External? && (e.e.EmergencyStop? || e.e.FaultRaised?)
  }

  // ---------------------------------------------------------------------------
  // The five ways to strand a command
  // ---------------------------------------------------------------------------

  /** A clear command is accepted while the boot load or an abandoned save holds the calibration slot: storage
      refuses its invalidation without a word. */
  predicate ClearRefused(s: System, e: SystemEvent) {
    && e == External(ClearCalibration) && Accepts(s.machine)
    && (Loading(s.store) || Saving(s.store).Some?)
  }

  /** The invalidation completes while the motor is enabled: the machine drops its callback. */
  predicate CallbackDropped(s: System, e: SystemEvent) {
    && e.Region? && e.stage == S.InvalidateErase && Invalidating(s.store)
    && s.machine.pending.Some? && s.machine.state.Enabled?
  }

  /** The last identification succeeds. */
  predicate Identifies(m: Machine, e: Event) {
    && IsCalibrating(m, FinalStep(m.mode)) && ServiceOf(e) == Some(FinalService(m.mode))
    && match e
       case AlignmentDone(angle) => angle.Some?
       case MechanicsDone(friction, inertia, _, _) => friction.Some? && inertia.Some?
       case _ => false
  }

  /** The calibration is complete while the boot load or the invalidation of an aborted clear command holds the
      calibration slot: storage refuses its save without a word. */
  predicate SaveRefused(s: System, e: SystemEvent) {
    && e.External? && !Ignored(s, e.e) && Identifies(s.machine, e.e)
    && (Loading(s.store) || Invalidating(s.store))
  }

  /** Resistance and inductance are found while an earlier alignment, abandoned, is still pending: the alignment
      service drops the new request without a word. */
  predicate AlignmentRefused(s: System, e: SystemEvent) {
    && e.External? && !Ignored(s, e.e) && e.e.ResistanceDone? && IsCalibrating(s.machine, ResistanceStep)
    && e.e.r.Some? && e.e.l.Some? && ForceAlignment in s.services.outstanding
    && Saving(s.store) == None
  }

  /** An earlier mechanical identification, abandoned, ends by its timer and takes the samples from the service of
      the present step. */
  predicate SamplesTaken(s: System, e: SystemEvent) {
    && e.External? && !Ignored(s, e.e) && e.e.MechanicsDone?
    && s.machine.state.Calibrating? && s.machine.state.step in {ResistanceStep, AlignmentStep}
    && CanAnswer(s.services, ServiceFor(s.machine.state.step)) && !s.services.settling && Saving(s.store) == None
  }

  predicate Strands(s: System, e: SystemEvent) {
    ClearRefused(s, e) || CallbackDropped(s, e) || SaveRefused(s, e) || AlignmentRefused(s, e) || SamplesTaken(s, e)
  }

  predicate StrandsCalibration(s: System, e: SystemEvent) {
    SaveRefused(s, e) || AlignmentRefused(s, e) || SamplesTaken(s, e)
  }

  // ---------------------------------------------------------------------------
  // What holds between events
  // ---------------------------------------------------------------------------

  predicate Booked(m: Machine) {
    && (m.state.Calibrating? ==> m.pending.Some?)
    && (m.state.Fault? ==> m.pending == None)
  }

  /** Until the current has settled nobody has the samples. */
  predicate Settling(s: System) {
    s.services.settling ==>
      && s.services.listener == Nobody
      && (s.machine.state.Calibrating? ==> s.machine.state.step == ResistanceStep)
  }

  ghost predicate Live(dev: S.Device, s: System) {
    && Fits(dev, s) && Booked(s.machine) && Settling(s)
    && (s.machine.pending.Some? ==> s.machine.pending.value < s.next)
  }

  /** The calibration slot only ever works for the machine. */
  lemma JobKinds(dev: S.Device, r: R.Run, k: nat)
    requires R.Consistent(dev, r, k)
    ensures CalibrationJob(r) == None || Loading(r) || Invalidating(r) || Saving(r).Some?
  {
    if S.CalibrationSlot in r.jobs {
      assert R.JobOk(dev, r.nvm, S.CalibrationSlot, r.jobs[S.CalibrationSlot]);
    }
  }

  /** What an event that is neither ignored nor a storage answer can do to the pending command. */
  lemma ExternalCases(m: Machine, e: Event, k: nat)
    requires !FromStorage(e) && m.outbox == [] && Booked(m) && DriveAgrees(m)
    ensures var n := Step(m, e, k);
            && Booked(n) && |n.outbox| <= 1 && n.mode == m.mode
            && (n.pending == m.pending || n.pending == None || n.pending == Some(k))
            && (e.EmergencyStop? || e.FaultRaised? ==> n.pending == None && n.outbox == [])
            && (n.outbox == [] ==>
                  || n.pending == None
                  || (n.pending == m.pending && (n.state.Calibrating? <==> m.state.Calibrating?)
                      && (m.state.Calibrating? ==>
                            n.state == m.state && ServiceOf(e) != Some(ServiceFor(m.state.step)))))
            && (n.outbox != [] ==>
                  match n.outbox[0]
                  case Run(service) =>
                    && n.state.Calibrating? && service == ServiceFor(n.state.step)
                    && !Identifies(m, e)
                    && ((e == Calibrate && Accepts(m) && n.pending == Some(k) && IsCalibrating(n, PolePairsStep))
                        || (m.state.Calibrating? && ServiceOf(e) == Some(ServiceFor(m.state.step))
                            && n.pending == m.pending
                            && (service == ForceAlignment <==>
                                  e.ResistanceDone? && IsCalibrating(m, ResistanceStep) && e.r.Some? && e.l.Some?)))
                  case Save(_) =>
                    && Identifies(m, e) && n.pending == m.pending
                    && n.state.Calibrating? && n.state.step == m.state.step
                  case Invalidate =>
                    && e == ClearCalibration && Accepts(m) && n.pending == Some(k) && n.state == m.state
                  case _ => false)
            && (Identifies(m, e) ==> n.outbox != [] && n.outbox[0].Save?)
            && (e == ClearCalibration && Accepts(m) ==> n.outbox != [] && n.outbox[0].Invalidate?)
  {
  }

  /** What handing over a request leaves, without a look into the storage service. */
  predicate HandsOver(s: System, t: System) {
    && t.machine == s.machine.(outbox := []) && s.next <= t.next
    && if s.machine.outbox == [] then t == s
       else if s.machine.outbox[0].Run? then
         t.store == s.store && t.services == Asked(s.services, s.machine.outbox[0].service)
       else
         var q := StorageRequest(s.machine.outbox[0]);
         && t.services == s.services
         && CalibrationJob(t.store) ==
            if S.SlotOf(q) == S.CalibrationSlot && CalibrationJob(s.store) == None then Some(q)
            else CalibrationJob(s.store)
  }

  lemma DeliverCases(dev: S.Device, s: System)
    requires s.store.nvm.Shape(dev) && R.Consistent(dev, s.store, s.next)
    ensures HandsOver(s, Deliver(dev, s))
  {
    if s.machine.outbox != [] && !s.machine.outbox[0].Run? {
      AskJob(dev, s.store, StorageRequest(s.machine.outbox[0]), s.next);
    }
  }

  /** What one event means for the pending command. */
  predicate Judged(s: System, e: SystemEvent, t: System) {
    && (Stranded(t) <==> Strands(s, e) || (Stranded(s) && !Aborts(e)))
    && (Strands(s, e) ==> !Stranded(s))
    && (Stranded(s) && !Aborts(e) ==> t.machine.pending == s.machine.pending)
    && (Aborts(e) ==> t.machine.pending == None)
  }

  /** What else an event keeps. */
  predicate Booking(s: System, t: System) {
    && Booked(t.machine) && (Settling(s) ==> Settling(t)) && s.next <= t.next
    && (t.machine.pending.Some? && t.machine.pending != s.machine.pending ==>
          s.machine.pending == None && t.machine.pending == Some(s.next) && s.next < t.next)
    && (t.machine.pending.Some? && t.machine.pending == s.machine.pending ==>
          (t.machine.state.Calibrating? <==> s.machine.state.Calibrating?))
  }

  /** The event comes, t is what is left when the machine's requests have been handed over. */
  predicate Comes(s: System, e: Event, t: System) {
    && !Ignored(s, e) && s.machine.outbox == [] && Booked(s.machine) && Settling(s) && DriveAgrees(s.machine)
    && HandsOver(System(Step(s.machine, e, s.next), s.store, Answered(s.services, e), s.next + 1), t)
  }

  lemma ExternalBooking(s: System, e: Event, t: System)
    requires Comes(s, e, t)
    ensures Booking(s, t)
  {
    ExternalCases(s.machine, e, s.next);
  }

  lemma QuietJudged(s: System, e: Event, t: System)
    requires Comes(s, e, t) && Step(s.machine, e, s.next).outbox == []
    ensures Judged(s, External(e), t)
  {
    ExternalCases(s.machine, e, s.next);
  }

  lemma RunJudged(s: System, e: Event, t: System)
    requires Comes(s, e, t) && Step(s.machine, e, s.next).outbox != [] && Step(s.machine, e, s.next).outbox[0].Run?
    ensures Judged(s, External(e), t)
  {
    ExternalCases(s.machine, e, s.next);
  }

  lemma AskJudged(s: System, e: Event, t: System)
    requires Comes(s, e, t) && Step(s.machine, e, s.next).outbox != [] && !Step(s.machine, e, s.next).outbox[0].Run?
    requires CalibrationJob(s.store) == None || Loading(s.store) || Invalidating(s.store) || Saving(s.store).Some?
    ensures Judged(s, External(e), t)
  {
    ExternalCases(s.machine, e, s.next);
  }

  lemma ExternalJudged(s: System, e: Event, t: System)
    requires Comes(s, e, t)
    requires CalibrationJob(s.store) == None || Loading(s.store) || Invalidating(s.store) || Saving(s.store).Some?
    ensures Judged(s, External(e), t) && Booking(s, t)
  {
    ExternalBooking(s, e, t);
    var outbox := Step(s.machine, e, s.next).outbox;
    if outbox == [] {
      QuietJudged(s, e, t);
    } else if outbox[0].Run? {
      RunJudged(s, e, t);
    } else {
      AskJudged(s, e, t);
    }
  }

  lemma EventComes(dev: S.Device, s: System, e: Event)
    requires Live(dev, s) && !Ignored(s, e)
    ensures Comes(s, e, Next(dev, s, External(e)))
  {
    Later(dev, s.store, s.next, s.next + 1);
    DeliverCases(dev, System(Step(s.machine, e, s.next), s.store, Answered(s.services, e), s.next + 1));
  }

  lemma IgnoredJudged(s: System, e: Event)
    requires Ignored(s, e) && Booked(s.machine)
    ensures Judged(s, External(e), s) && Booking(s, s)
  {
  }

  lemma ExternalStranding(dev: S.Device, s: System, e: Event)
    requires Live(dev, s)
    ensures Judged(s, External(e), Next(dev, s, External(e))) && Booking(s, Next(dev, s, External(e)))
  {
    if Ignored(s, e) {
      IgnoredJudged(s, e);
    } else {
      JobKinds(dev, s.store, s.next);
      EventComes(dev, s, e);
      ExternalJudged(s, e, Next(dev, s, External(e)));
    }
  }

  // ---------------------------------------------------------------------------
  // Storage answers
  // ---------------------------------------------------------------------------

  /** What a storage answer can do to the pending command. */
  lemma CallbackCases(m: Machine, q: S.Request, o: S.Outcome)
    requires m.outbox == [] && Booked(m)
    requires q.SaveCalibration? || q.InvalidateCalibration? ==> o.Done?
    ensures var n := Callback(m, q, o);
            && Booked(n)
            && (n.outbox != [] ==> q.CheckCalibration? && n.outbox == [Load])
            && if (q.SaveCalibration? && m.state.Calibrating?)
                  || (q.InvalidateCalibration? && m.pending.Some? && IsStopped(m.state)) then
                 n.pending == None
               else
                 && n.pending == m.pending && (n.state.Calibrating? <==> m.state.Calibrating?)
                 && (m.state.Calibrating? ==> n.state == m.state)
  {
  }

  /** Saves and invalidations are answered with a status. */
  lemma AnswerKind(dev: S.Device, r: R.Run, f: R.Run, stage: S.Stage, fault: Option<seq<Byte>>)
    requires r.nvm.Shape(dev) && f.nvm.Shape(dev) && R.JobsMatch(dev, r) && Finishes(dev, r, f, stage, fault)
    requires f.answers != r.answers
    ensures var q, o := r.jobs[S.StageSlot(stage)].request, f.answers[|r.answers|].outcome;
            && (q.SaveCalibration? || q.InvalidateCalibration? ==> o.Done?)
            && (stage == S.InvalidateErase <==> q.InvalidateCalibration?)
            && (S.SlotOf(q) == S.CalibrationSlot ==> CalibrationJob(r) == Some(q))
  {
    assert R.JobOk(dev, r.nvm, S.StageSlot(stage), r.jobs[S.StageSlot(stage)]);
  }

  /** The invalidation that holds the slot is one operation long and succeeds. */
  lemma InvalidationEnds(dev: S.Device, r: R.Run, fault: Option<seq<Byte>>, k: nat)
    requires R.Consistent(dev, r, k) && Invalidating(r)
    ensures var f := R.Next(dev, r, R.Finish(S.InvalidateErase, fault), k);
            && S.CalibrationSlot in r.jobs
            && f.answers == r.answers + [S.Answer(r.jobs[S.CalibrationSlot].token, S.Done(Ok))]
            && f.accepted == r.accepted
            && r.jobs[S.CalibrationSlot].token in r.accepted
            && r.accepted[r.jobs[S.CalibrationSlot].token] == S.InvalidateCalibration
            && CalibrationJob(f) == None
  {
    R.InFlight(dev, r, S.CalibrationSlot);
    assert R.JobOk(dev, r.nvm, S.CalibrationSlot, r.jobs[S.CalibrationSlot]);
  }

  lemma AnswerJudged(
    s: System, stage: S.Stage, fault: Option<seq<Byte>>, q: S.Request, o: S.Outcome, u: System, t: System)
    requires s.machine.outbox == [] && Booked(s.machine)
    requires q.SaveCalibration? || q.InvalidateCalibration? ==> o.Done?
    requires stage == S.InvalidateErase <==> q.InvalidateCalibration?
    requires S.SlotOf(q) == S.CalibrationSlot ==> CalibrationJob(s.store) == Some(q)
    requires u.machine == Callback(s.machine, q, o) && u.services == s.services && u.next == s.next + 1
    requires CalibrationJob(u.store) == if S.SlotOf(q) == S.CalibrationSlot then None else CalibrationJob(s.store)
    requires HandsOver(u, t)
    ensures Judged(s, Region(stage, fault), t) && Booking(s, t)
  {
    CallbackCases(s.machine, q, o);
  }

  lemma HeardStranding(dev: S.Device, s: System, store: R.Run, stage: S.Stage, fault: Option<seq<Byte>>)
    requires Fits(dev, s) && Booked(s.machine) && store.nvm.Shape(dev) && R.Consistent(dev, store, s.next + 1)
    requires Finishes(dev, s.store, store, stage, fault) && store.answers != s.store.answers
    ensures Judged(s, Region(stage, fault), AfterRegion(dev, s, store)) && Booking(s, AfterRegion(dev, s, store))
  {
    var a := store.answers[|s.store.answers|];
    var q := store.accepted[a.token];
    var u := System(Callback(s.machine, q, a.outcome), store, s.services, s.next + 1);
    AnswerKind(dev, s.store, store, stage, fault);
    Heard(dev, s, store, a, q);
    DeliverCases(dev, u);
    AnswerJudged(s, stage, fault, q, a.outcome, u, AfterRegion(dev, s, store));
  }

  lemma RegionStranding(dev: S.Device, s: System, stage: S.Stage, fault: Option<seq<Byte>>)
    requires Live(dev, s)
    ensures Judged(s, Region(stage, fault), Next(dev, s, Region(stage, fault)))
    ensures Booking(s, Next(dev, s, Region(stage, fault)))
  {
    var store := R.Next(dev, s.store, R.Finish(stage, fault), s.next);
    R.StepConsistent(dev, s.store, R.Finish(stage, fault), s.next);
    FinishJob(dev, s.store, stage, fault, s.next);
    if store.answers == s.store.answers {
      if stage == S.InvalidateErase && Invalidating(s.store) {
        InvalidationEnds(dev, s.store, fault, s.next);
        assert false;
      }
    } else {
      HeardStranding(dev, s, store, stage, fault);
    }
  }

  lemma ClientStranding(dev: S.Device, s: System, q: S.Request)
    requires Live(dev, s)
    ensures Judged(s, Client(q), Next(dev, s, Client(q))) && Booking(s, Next(dev, s, Client(q)))
  {
    if q.SaveConfig? || q.LoadConfig? || q.Format? {
      AskJob(dev, s.store, q, s.next);
    }
  }

  /** One event, whatever it is: a command is stranded afterwards exactly when the event strands it, or it was
      stranded before and is not aborted. */
  lemma StepStranding(dev: S.Device, s: System, e: SystemEvent)
    requires Live(dev, s)
    ensures Judged(s, e, Next(dev, s, e)) && Booking(s, Next(dev, s, e)) && Live(dev, Next(dev, s, e))
  {
    StepFits(dev, s, e);
    match e
    case External(x) => ExternalStranding(dev, s, x);
    case Region(stage, fault) => RegionStranding(dev, s, stage, fault);
    case Client(q) => ClientStranding(dev, s, q);
    case SamplingBegins =>
  }

  lemma {:induction false} RunLive(dev: S.Device, start: System, es: seq<SystemEvent>)
    requires Live(dev, start)
    ensures Live(dev, After(dev, start, es))
    decreases es
  {
    if es != [] {
      RunLive(dev, start, es[..|es| - 1]);
      StepStranding(dev, After(dev, start, es[..|es| - 1]), es[|es| - 1]);
    }
  }

  lemma BootLive(dev: S.Device, m: Machine, store: R.Run)
    requires Booting(dev, m, store) && m.pending == None
    ensures Live(dev, PowerOn(dev, m, store))
  {
    BootFits(dev, m, store);
  }

  // ---------------------------------------------------------------------------
  // What stranded means
  // ---------------------------------------------------------------------------

  predicate NothingAborted(es: seq<SystemEvent>) {
    forall i | 0 <= i < |es| :: !Aborts(es[i])
  }

  /** Some continuation without an emergency stop or a fault settles the pending command. */
  ghost predicate CanBeAnswered(dev: S.Device, s: System)
    requires s.store.nvm.Shape(dev)
  {
    exists es: seq<SystemEvent> ::
      NothingAborted(es) && After(dev, s, es).machine.pending != s.machine.pending
  }

  lemma AnsweredBy(dev: S.Device, s: System, e: SystemEvent)
    requires s.store.nvm.Shape(dev) && !Aborts(e) && Next(dev, s, e).machine.pending != s.machine.pending
    ensures CanBeAnswered(dev, s)
  {
    assert [e][..0] == [] && NothingAborted([e]);
    assert After(dev, s, [e]) == Next(dev, s, e);
  }

  lemma AnsweredLater(dev: S.Device, s: System, e: SystemEvent)
    requires s.store.nvm.Shape(dev) && !Aborts(e) && Next(dev, s, e).machine.pending == s.machine.pending
    requires CanBeAnswered(dev, Next(dev, s, e))
    ensures CanBeAnswered(dev, s)
  {
    var t := Next(dev, s, e);
    var es: seq<SystemEvent> :| NothingAborted(es) && After(dev, t, es).machine.pending != t.machine.pending;
    AfterCons(dev, s, e, es);
    assert NothingAborted([e] + es);
  }

  lemma {:induction false} StaysStranded(dev: S.Device, s: System, es: seq<SystemEvent>)
    requires Live(dev, s) && Stranded(s) && NothingAborted(es)
    ensures Stranded(After(dev, s, es)) && After(dev, s, es).machine.pending == s.machine.pending
    decreases es
  {
    if es != [] {
      var before := es[..|es| - 1];
      StaysStranded(dev, s, before);
      RunLive(dev, s, before);
      StepStranding(dev, After(dev, s, before), es[|es| - 1]);
    }
  }

  lemma NoResultEnds(m: Machine, k: nat)
    requires m.state.Calibrating? && m.pending.Some?
    ensures var e := NoResult(ServiceFor(m.state.step));
            && ServiceOf(e) == Some(ServiceFor(m.state.step)) && !FromStorage(e)
            && Step(m, e, k).pending == None && Step(m, e, k).outbox == m.outbox
  {
  }

  lemma ServiceAnswersNow(dev: S.Device, s: System)
    requires s.store.nvm.Shape(dev) && s.machine.outbox == [] && s.machine.pending.Some?
    requires s.machine.state.Calibrating? && Answers(s.services, NoResult(ServiceFor(s.machine.state.step)))
    ensures CanBeAnswered(dev, s)
  {
    NoResultEnds(s.machine, s.next);
    AnsweredBy(dev, s, External(NoResult(ServiceFor(s.machine.state.step))));
  }

  lemma ServiceAnswers(dev: S.Device, s: System)
    requires s.store.nvm.Shape(dev) && s.machine.outbox == [] && s.machine.pending.Some?
    requires s.machine.state.Calibrating? && CanAnswer(s.services, ServiceFor(s.machine.state.step))
    ensures CanBeAnswered(dev, s)
  {
    CanAnswerIff(s.services, ServiceFor(s.machine.state.step));
    if Answers(s.services, NoResult(ServiceFor(s.machine.state.step))) {
      ServiceAnswersNow(dev, s);
    } else {
      ServiceAnswersNow(dev, Next(dev, s, SamplingBegins));
      AnsweredLater(dev, s, SamplingBegins);
    }
  }

  /** The chain that holds the calibration slot goes on or ends. */
  lemma ChainStep(dev: S.Device, r: R.Run, k: nat)
    requires R.Consistent(dev, r, k) && S.CalibrationSlot in r.jobs
    ensures var stage := r.jobs[S.CalibrationSlot].stage;
            var f := R.Next(dev, r, R.Finish(stage, None), k);
            && S.StageSlot(stage) == S.CalibrationSlot && stage in r.nvm.flight
            && (S.NextStage(stage).Some? ==>
                  && f.answers == r.answers && CalibrationJob(f) == CalibrationJob(r)
                  && f.jobs[S.CalibrationSlot].stage == S.NextStage(stage).value)
            && (S.NextStage(stage).None? ==> f.answers != r.answers)
  {
    var stage := r.jobs[S.CalibrationSlot].stage;
    R.InFlight(dev, r, S.CalibrationSlot);
    assert r.answers + [] == r.answers;
  }

  lemma SaveEnds(dev: S.Device, s: System)
    requires Live(dev, s) && s.machine.state.Calibrating? && Saving(s.store).Some?
    requires S.NextStage(s.store.jobs[S.CalibrationSlot].stage).None?
    ensures Next(dev, s, Region(s.store.jobs[S.CalibrationSlot].stage, None)).machine.pending == None
  {
    var stage := s.store.jobs[S.CalibrationSlot].stage;
    var store := R.Next(dev, s.store, R.Finish(stage, None), s.next);
    ChainStep(dev, s.store, s.next);
    FinishJob(dev, s.store, stage, None, s.next);
    AnswerKind(dev, s.store, store, stage, None);
    var a := store.answers[|s.store.answers|];
    Heard(dev, s, store, a, store.accepted[a.token]);
    CallbackCases(s.machine, store.accepted[a.token], a.outcome);
  }

  lemma {:induction false} SaveAnswers(dev: S.Device, s: System)
    requires Live(dev, s) && s.machine.state.Calibrating? && Saving(s.store).Some?
    ensures CanBeAnswered(dev, s)
    decreases R.Remaining(s.store.jobs[S.CalibrationSlot].stage)
  {
    var stage := s.store.jobs[S.CalibrationSlot].stage;
    var e := Region(stage, None);
    ChainStep(dev, s.store, s.next);
    if S.NextStage(stage).None? {
      SaveEnds(dev, s);
      AnsweredBy(dev, s, e);
    } else {
      StepStranding(dev, s, e);
      SaveAnswers(dev, Next(dev, s, e));
      AnsweredLater(dev, s, e);
    }
  }

  /** When an invalidation completes with a command pending, the command is answered exactly when the machine is
      stopped; otherwise the machine does not notice at all. */
  lemma InvalidationHeard(dev: S.Device, s: System, fault: Option<seq<Byte>>)
    requires Live(dev, s) && Invalidating(s.store) && s.machine.pending.Some?
    ensures var t := Next(dev, s, Region(S.InvalidateErase, fault));
            && CalibrationJob(t.store) == None
            && (IsStopped(s.machine.state) ==>
                  && t.machine.pending == None && t.machine.state == Idle
                  && t.machine.answers == s.machine.answers + [Reply(s.machine.pending.value, Succeeded)])
            && (!IsStopped(s.machine.state) ==> t.machine == s.machine)
  {
    var store := R.Next(dev, s.store, R.Finish(S.InvalidateErase, fault), s.next);
    InvalidationEnds(dev, s.store, fault, s.next);
    Heard(dev, s, store, S.Answer(s.store.jobs[S.CalibrationSlot].token, S.Done(Ok)), S.InvalidateCalibration);
  }

  /** The invalidation of an accepted clear command becomes the work of the calibration slot exactly when the slot
      is free; otherwise storage does not notice at all. */
  lemma ClearAccepted(dev: S.Device, s: System)
    requires Live(dev, s) && Accepts(s.machine)
    ensures var t := Next(dev, s, External(ClearCalibration));
            && t.machine.pending == Some(s.next) && t.machine.state == s.machine.state
            && (CalibrationJob(s.store) == None ==>
                  Invalidating(t.store) && t.store.jobs[S.CalibrationSlot].token == s.next + 1)
            && (CalibrationJob(s.store).Some? ==> t.store == s.store)
  {
    assert s.store.nvm.Holder(S.CalibrationSlot) ==
           if S.CalibrationSlot in s.store.jobs then Some(s.store.jobs[S.CalibrationSlot].token) else None;
  }

  lemma DisableStops(dev: S.Device, s: System)
    requires s.store.nvm.Shape(dev) && s.machine.outbox == [] && s.machine.state.Enabled?
    ensures var t := Next(dev, s, External(Disable));
            t.store == s.store && t.machine.state.Ready? && t.machine.pending == s.machine.pending
  {
  }

  lemma StoppedAnswers(dev: S.Device, s: System)
    requires Live(dev, s) && Invalidating(s.store) && s.machine.pending.Some? && IsStopped(s.machine.state)
    ensures CanBeAnswered(dev, s)
  {
    InvalidationHeard(dev, s, None);
    AnsweredBy(dev, s, Region(S.InvalidateErase, None));
  }

  lemma InvalidationAnswers(dev: S.Device, s: System)
    requires Live(dev, s) && Invalidating(s.store) && s.machine.pending.Some? && !s.machine.state.Calibrating?
    ensures CanBeAnswered(dev, s)
  {
    if s.machine.state.Enabled? {
      DisableStops(dev, s);
      StepStranding(dev, s, External(Disable));
      StoppedAnswers(dev, Next(dev, s, External(Disable)));
      AnsweredLater(dev, s, External(Disable));
    } else {
      StoppedAnswers(dev, s);
    }
  }

  /** Stranded is what it says: no continuation but an emergency stop or a fault ever settles the command. */
  lemma StrandedIffNeverAnswered(dev: S.Device, s: System)
    requires Live(dev, s) && s.machine.pending.Some?
    ensures Stranded(s) <==> !CanBeAnswered(dev, s)
  {
    if Stranded(s) {
      if CanBeAnswered(dev, s) {
        var es: seq<SystemEvent> :|
          NothingAborted(es) && After(dev, s, es).machine.pending != s.machine.pending;
        StaysStranded(dev, s, es);
        assert false;
      }
    } else if !s.machine.state.Calibrating? {
      InvalidationAnswers(dev, s);
    } else if Saving(s.store).Some? {
      SaveAnswers(dev, s);
    } else {
      ServiceAnswers(dev, s);
    }
  }

  // ---------------------------------------------------------------------------
  // Over whole runs
  // ---------------------------------------------------------------------------

  /** Event i strands the command, and none after it aborts it. */
  ghost predicate StrandedAt(dev: S.Device, start: System, es: seq<SystemEvent>, i: nat)
    requires start.store.nvm.Shape(dev)
  {
    && i < |es| && Strands(After(dev, start, es[..i]), es[i])
    && forall j | i < j < |es| :: !Aborts(es[j])
  }

  lemma StrandedAtSnoc(dev: S.Device, start: System, es: seq<SystemEvent>, e: SystemEvent, i: nat)
    requires start.store.nvm.Shape(dev)
    ensures StrandedAt(dev, start, es + [e], i) <==>
            (StrandedAt(dev, start, es, i) && !Aborts(e)) || (i == |es| && Strands(After(dev, start, es), e))
  {
    var all := es + [e];
    if i < |es| {
      assert all[..i] == es[..i];
      assert forall j | i < j < |es| :: all[j] == es[j];
      assert i < |es| ==> all[|es|] == e;
    } else if i == |es| {
      assert all[..i] == es;
    }
  }

  lemma {:induction false} StrandingEvent(dev: S.Device, start: System, es: seq<SystemEvent>) returns (i: nat)
    requires Live(dev, start) && !Stranded(start) && Stranded(After(dev, start, es))
    ensures StrandedAt(dev, start, es, i)
    decreases es
  {
    var before, e := es[..|es| - 1], es[|es| - 1];
    assert before + [e] == es;
    RunLive(dev, start, before);
    StepStranding(dev, After(dev, start, before), e);
    if Strands(After(dev, start, before), e) {
      i := |before|;
    } else {
      i := StrandingEvent(dev, start, before);
    }
    StrandedAtSnoc(dev, start, before, e, i);
  }

  lemma {:induction false} StrandedSince(dev: S.Device, start: System, es: seq<SystemEvent>, i: nat)
    requires Live(dev, start) && StrandedAt(dev, start, es, i)
    ensures Stranded(After(dev, start, es))
    decreases es
  {
    var before, e := es[..|es| - 1], es[|es| - 1];
    assert before + [e] == es;
    RunLive(dev, start, before);
    StepStranding(dev, After(dev, start, before), e);
    StrandedAtSnoc(dev, start, before, e, i);
    if i < |before| {
      StrandedSince(dev, start, before, i);
    }
  }

  /** In every run from power-on a command is stranded exactly when one of the five happened to it: an accepted
      clear command whose invalidation was refused, an invalidation that completed while the motor was enabled,
      a finished calibration whose save was refused, an alignment that was refused, or samples taken away by an
      earlier mechanical identification. */
  lemma StrandedIff(dev: S.Device, m: Machine, store: R.Run, es: seq<SystemEvent>)
    requires Booting(dev, m, store) && m.pending == None
    ensures Stranded(After(dev, PowerOn(dev, m, store), es)) <==>
            exists i: nat :: StrandedAt(dev, PowerOn(dev, m, store), es, i)
  {
    var start := PowerOn(dev, m, store);
    BootLive(dev, m, store);
    if Stranded(After(dev, start, es)) {
      var i := StrandingEvent(dev, start, es);
    } else if i: nat :| StrandedAt(dev, start, es, i) {
      StrandedSince(dev, start, es, i);
      assert false;
    }
  }

  // ---------------------------------------------------------------------------
  // Command by command
  // ---------------------------------------------------------------------------

  /** Command id is pending, and the machine is calibrating for it or not. */
  predicate Holds(m: Machine, id: nat, calibrating: bool) {
    m.pending == Some(id) && (m.state.Calibrating? <==> calibrating)
  }

  lemma {:induction false} NumbersGrow(dev: S.Device, start: System, es: seq<SystemEvent>, j: nat)
    requires Live(dev, start) && j <= |es|
    ensures After(dev, start, es[..j]).next <= After(dev, start, es).next
    decreases es
  {
    if j < |es| {
      var before := es[..|es| - 1];
      assert before[..j] == es[..j];
      NumbersGrow(dev, start, before, j);
      RunLive(dev, start, before);
      StepStranding(dev, After(dev, start, before), es[|es| - 1]);
    } else {
      assert es[..j] == es;
    }
  }

  lemma HeldBefore(dev: S.Device, s: System, e: SystemEvent, id: nat, calibrating: bool)
    requires Live(dev, s) && id < s.next && Holds(Next(dev, s, e).machine, id, calibrating)
    ensures Holds(s.machine, id, calibrating) && !Aborts(e)
  {
    StepStranding(dev, s, e);
  }

  /** A command still pending has been pending all the time. */
  lemma {:induction false} HeldSince(
    dev: S.Device, start: System, es: seq<SystemEvent>, i: nat, j: nat, id: nat, calibrating: bool)
    requires Live(dev, start) && i <= j <= |es| && id < After(dev, start, es[..i]).next
    requires Holds(After(dev, start, es).machine, id, calibrating)
    ensures Holds(After(dev, start, es[..j]).machine, id, calibrating)
    decreases es
  {
    if j < |es| {
      var before := es[..|es| - 1];
      assert before[..i] == es[..i] && before[..j] == es[..j];
      NumbersGrow(dev, start, before, i);
      RunLive(dev, start, before);
      HeldBefore(dev, After(dev, start, before), es[|es| - 1], id, calibrating);
      HeldSince(dev, start, before, i, j, id, calibrating);
    } else {
      assert es[..j] == es;
    }
  }

  lemma CommandAccepted(dev: S.Device, s: System, c: Event)
    requires Live(dev, s) && IsCommand(c) && Accepts(s.machine)
    ensures var t := Next(dev, s, External(c));
            s.next < t.next && Holds(t.machine, s.next, c == Calibrate)
  {
    StepStranding(dev, s, External(c));
  }

  lemma Unfold(dev: S.Device, start: System, es: seq<SystemEvent>, j: nat)
    requires start.store.nvm.Shape(dev) && j < |es|
    ensures After(dev, start, es[..j + 1]) == Next(dev, After(dev, start, es[..j]), es[j])
  {
    assert es[..j + 1][..j] == es[..j];
  }

  /** Event i is an accepted command, and at the end of the run it is still pending. */
  ghost predicate StillPending(dev: S.Device, start: System, es: seq<SystemEvent>, i: nat, c: Event)
    requires start.store.nvm.Shape(dev)
  {
    && i < |es| && es[i] == External(c) && IsCommand(c) && Accepts(After(dev, start, es[..i]).machine)
    && After(dev, start, es).machine.pending == Some(After(dev, start, es[..i]).next)
  }

  lemma StillHeld(dev: S.Device, start: System, es: seq<SystemEvent>, i: nat, c: Event, j: nat)
    requires Live(dev, start) && StillPending(dev, start, es, i, c) && i < j <= |es|
    ensures After(dev, start, es[..j]).machine.pending.Some?
    ensures After(dev, start, es[..j]).machine.state.Calibrating? <==> c == Calibrate
  {
    var s := After(dev, start, es[..i]);
    RunLive(dev, start, es[..i]);
    CommandAccepted(dev, s, c);
    Unfold(dev, start, es, i);
    var calibrating := After(dev, start, es).machine.state.Calibrating?;
    HeldSince(dev, start, es, i + 1, i + 1, s.next, calibrating);
    HeldSince(dev, start, es, i + 1, j, s.next, calibrating);
  }

  lemma PendingNotAborted(dev: S.Device, start: System, es: seq<SystemEvent>, j: nat)
    requires Live(dev, start) && j < |es| && After(dev, start, es[..j + 1]).machine.pending.Some?
    ensures !Aborts(es[j])
  {
    RunLive(dev, start, es[..j]);
    Unfold(dev, start, es, j);
    StepStranding(dev, After(dev, start, es[..j]), es[j]);
  }

  lemma NeverAborted(dev: S.Device, start: System, es: seq<SystemEvent>, i: nat, c: Event, j: nat)
    requires Live(dev, start) && StillPending(dev, start, es, i, c) && i < j < |es|
    ensures !Aborts(es[j])
  {
    StillHeld(dev, start, es, i, c, j + 1);
    PendingNotAborted(dev, start, es, j);
  }

  lemma StrandedFromHere(dev: S.Device, start: System, es: seq<SystemEvent>, i: nat, c: Event, k: nat)
    requires Live(dev, start) && StillPending(dev, start, es, i, c) && i <= k < |es|
    requires Strands(After(dev, start, es[..k]), es[k])
    ensures Stranded(After(dev, start, es))
  {
    assert StrandedAt(dev, start, es, k) by {
      forall j | k < j < |es| ensures !Aborts(es[j]) {
        NeverAborted(dev, start, es, i, c, j);
      }
    }
    StrandedSince(dev, start, es, k);
  }

  /** What strands a command happens to it after its acceptance, or on it. */
  lemma StrandedByOwn(dev: S.Device, start: System, es: seq<SystemEvent>, i: nat, c: Event) returns (k: nat)
    requires Live(dev, start) && !Stranded(start) && StillPending(dev, start, es, i, c)
    requires Stranded(After(dev, start, es))
    ensures i <= k < |es| && Strands(After(dev, start, es[..k]), es[k])
  {
    k := StrandingEvent(dev, start, es);
    if k < i {
      assert es[..i][..k] == es[..k];
      assert StrandedAt(dev, start, es[..i], k);
      StrandedSince(dev, start, es[..i], k);
      assert false;
    }
  }

  /** What can strand a clear command when it is accepted, and what later. */
  lemma ClearStrands(s: System, e: SystemEvent)
    requires Strands(s, e)
    ensures e == External(ClearCalibration) ==> ClearRefused(s, e)
    ensures s.machine.pending.Some? && !s.machine.state.Calibrating? ==> CallbackDropped(s, e)
  {
  }

  /** The same for a calibrate command. */
  lemma CalibrateStrands(s: System, e: SystemEvent)
    requires Strands(s, e)
    ensures e != External(Calibrate)
    ensures s.machine.pending.Some? && s.machine.state.Calibrating? ==> StrandsCalibration(s, e)
  {
  }

  lemma ClearStrandedBy(dev: S.Device, start: System, es: seq<SystemEvent>, i: nat) returns (k: nat)
    requires Live(dev, start) && !Stranded(start) && StillPending(dev, start, es, i, ClearCalibration)
    requires Stranded(After(dev, start, es))
    ensures i <= k < |es|
    ensures if i == k then ClearRefused(After(dev, start, es[..i]), es[i])
            else CallbackDropped(After(dev, start, es[..k]), es[k])
  {
    k := StrandedByOwn(dev, start, es, i, ClearCalibration);
    ClearStrands(After(dev, start, es[..k]), es[k]);
    if i < k {
      StillHeld(dev, start, es, i, ClearCalibration, k);
    }
  }

  lemma CalibrateStrandedBy(dev: S.Device, start: System, es: seq<SystemEvent>, i: nat) returns (k: nat)
    requires Live(dev, start) && !Stranded(start) && StillPending(dev, start, es, i, Calibrate)
    requires Stranded(After(dev, start, es))
    ensures i < k < |es| && StrandsCalibration(After(dev, start, es[..k]), es[k])
  {
    k := StrandedByOwn(dev, start, es, i, Calibrate);
    CalibrateStrands(After(dev, start, es[..k]), es[k]);
    StillHeld(dev, start, es, i, Calibrate, k);
  }

  /** An accepted clear command that is still pending is stranded exactly when the boot load or an abandoned save
      held the calibration slot when it was accepted, or an invalidation has completed since while the motor was
      enabled. */
  lemma ClearStrandedIff(dev: S.Device, m: Machine, store: R.Run, es: seq<SystemEvent>, i: nat)
    requires Booting(dev, m, store) && m.pending == None
    requires StillPending(dev, PowerOn(dev, m, store), es, i, ClearCalibration)
    ensures var start := PowerOn(dev, m, store);
            Stranded(After(dev, start, es)) <==>
            || ClearRefused(After(dev, start, es[..i]), es[i])
            || exists k | i < k < |es| :: CallbackDropped(After(dev, start, es[..k]), es[k])
  {
    var start := PowerOn(dev, m, store);
    BootLive(dev, m, store);
    if Stranded(After(dev, start, es)) {
      var k := ClearStrandedBy(dev, start, es, i);
    } else if ClearRefused(After(dev, start, es[..i]), es[i]) {
      StrandedFromHere(dev, start, es, i, ClearCalibration, i);
      assert false;
    } else if k :| i < k < |es| && CallbackDropped(After(dev, start, es[..k]), es[k]) {
      StrandedFromHere(dev, start, es, i, ClearCalibration, k);
      assert false;
    }
  }

  /** An accepted calibrate command that is still pending is stranded exactly when, since its acceptance, its
      calibration was completed while the boot load or the invalidation of an aborted clear command held the
      calibration slot, or its alignment was refused, or an earlier mechanical identification took the samples
      it needed. */
  lemma CalibrateStrandedIff(dev: S.Device, m: Machine, store: R.Run, es: seq<SystemEvent>, i: nat)
    requires Booting(dev, m, store) && m.pending == None
    requires StillPending(dev, PowerOn(dev, m, store), es, i, Calibrate)
    ensures var start := PowerOn(dev, m, store);
            Stranded(After(dev, start, es)) <==>
            exists k | i < k < |es| :: StrandsCalibration(After(dev, start, es[..k]), es[k])
  {
    var start := PowerOn(dev, m, store);
    BootLive(dev, m, store);
    if Stranded(After(dev, start, es)) {
      var k := CalibrateStrandedBy(dev, start, es, i);
    } else if k :| i < k < |es| && StrandsCalibration(After(dev, start, es[..k]), es[k]) {
      StrandedFromHere(dev, start, es, i, Calibrate, k);
      assert false;
    }
  }
}
