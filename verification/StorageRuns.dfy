/** The storage service over whole runs: any interleaving of requests, completions and write faults. */
module StorageRuns {
  import opened Basics
  import opened RecordLayout
  import opened NvmRegions
  import opened StorageModel

  datatype Event =
    | Ask(request: Request)
    | Finish(stage: Stage, fault: Option<seq<Byte>>)

  /** What the slot of an accepted request is working on. */
  datatype Job = Job(token: nat, request: Request, stage: Stage)

  /** The service together with the history of a run. Requests are numbered by their event. */
  datatype Run = Run(
    nvm: Nvm, jobs: map<Slot, Job>,
    accepted: map<nat, Request>, spent: map<nat, nat>, answers: seq<Answer>)

  ghost predicate Starting(dev: Device, r: Run) {
    && r.nvm.Shape(dev) && r.nvm.flight == multiset{}
    && (forall s: Slot :: r.nvm.Holder(s) == None)
    && r.jobs == map[] && r.accepted == map[] && r.spent == map[] && r.answers == []
  }

  ghost function Asked(dev: Device, r: Run, token: nat, q: Request): Run
    requires r.nvm.Shape(dev)
  {
    if Busy(r.nvm, q) then r
    else Run(Submit(dev, r.nvm, token, q), r.jobs[SlotOf(q) := Job(token, q, FirstStage(q))],
             r.accepted[token := q], r.spent[token := 0], r.answers)
  }

  ghost function Finished(dev: Device, r: Run, stage: Stage, fault: Option<seq<Byte>>): Run
    requires r.nvm.Shape(dev)
  {
    var slot := StageSlot(stage);
    if stage !in r.nvm.flight || slot !in r.jobs then r
    else
      var (n, answers) := Complete(dev, r.nvm, stage, fault);
      var job := r.jobs[slot];
      Run(n, match NextStage(stage)
             case Some(next) => r.jobs[slot := job.(stage := next)]
             case None => r.jobs - {slot},
          r.accepted,
          r.spent[job.token := 1 + if job.token in r.spent then r.spent[job.token] else 0],
          r.answers + answers)
  }

  ghost function Next(dev: Device, r: Run, e: Event, token: nat): (n: Run)
    requires r.nvm.Shape(dev)
    ensures n.nvm.Shape(dev)
  {
    match e
    case Ask(q) => Asked(dev, r, token, q)
    case Finish(stage, fault) => Finished(dev, r, stage, fault)
  }

  ghost function After(dev: Device, start: Run, es: seq<Event>): (r: Run)
    requires start.nvm.Shape(dev)
    ensures r.nvm.Shape(dev)
  {
    if es == [] then start else Next(dev, After(dev, start, es[..|es| - 1]), es[|es| - 1], |es| - 1)
  }

  /** Region operations a request needs in all. */
  function Cost(q: Request): (c: nat)
    ensures 1 <= c <= 3
  {
    match q
    case SaveCalibration(_) => 3
    case SaveConfig(_) => 3
    case Format => 2
    case _ => 1
  }

  /** Region operations still ahead of a stage, itself included. */
  function Remaining(stage: Stage): (c: nat)
    ensures c == 1 + match NextStage(stage) case Some(next) => Remaining(next) case None => 0
    decreases match stage case SaveErase => 2 case ConfigErase => 2 case SaveWrite => 1 case ConfigWrite => 1
                          case FormatCalibration => 1 case _ => 0
  {
    match NextStage(stage)
    case Some(next) => 1 + Remaining(next)
    case None => 1
  }

  /** The stages a request passes through. */
  predicate StageFits(q: Request, stage: Stage) {
    match q
    case SaveCalibration(_) => stage in {SaveErase, SaveWrite, SaveRead}
    case SaveConfig(_) => stage in {ConfigErase, ConfigWrite, ConfigRead}
    case Format => stage in {FormatCalibration, FormatConfig}
    case _ => stage == FirstStage(q)
  }

  function Count(answers: seq<Answer>, token: nat): nat {
    if answers == [] then 0
    else Count(answers[..|answers| - 1], token) + if answers[|answers| - 1].token == token then 1 else 0
  }

  lemma CountMore(answers: seq<Answer>, a: Answer, token: nat)
    ensures Count(answers + [a], token) == Count(answers, token) + if a.token == token then 1 else 0
  {
    assert (answers + [a])[..|answers|] == answers;
  }

  /** The request still holds its slot. */
  predicate Open(r: Run, token: nat) {
    token in r.accepted && var s := SlotOf(r.accepted[token]); s in r.jobs && r.jobs[s].token == token
  }

  /** One operation per job, seen from the operation. */
  predicate FlightOk(flight: multiset<Stage>, jobs: map<Slot, Job>, st: Stage) {
    flight[st] == if StageSlot(st) in jobs && jobs[StageSlot(st)].stage == st then 1 else 0
  }

  /** Each slot with a callback has exactly one region operation in flight, and the buffer of a save
      holds the record of the data it was asked to save. */
  ghost predicate JobsMatch(dev: Device, r: Run)
    requires r.nvm.Shape(dev)
  {
    && (forall s: Slot :: r.nvm.Holder(s) == if s in r.jobs then Some(r.jobs[s].token) else None)
    && (forall st: Stage :: FlightOk(r.nvm.flight, r.jobs, st))
    && (forall s | s in r.jobs :: JobOk(dev, r.nvm, s, r.jobs[s]))
  }

  ghost predicate JobOk(dev: Device, n: Nvm, s: Slot, job: Job)
    requires n.Shape(dev)
  {
    && SlotOf(job.request) == s && StageFits(job.request, job.stage)
    && (job.request.SaveCalibration? ==>
          n.calibrationBuffer == CalibrationRecord(dev.crc, job.request.calibration))
    && (job.request.SaveConfig? ==> n.configBuffer == ConfigRecord(dev.crc, job.request.config))
  }

  /** Every accepted request is either still open, with the rest of its chain ahead of it, or has been
      answered exactly once after exactly as many completions as it needs. */
  ghost predicate BooksBalance(r: Run) {
    && (forall s | s in r.jobs ::
          r.jobs[s].token in r.accepted && r.accepted[r.jobs[s].token] == r.jobs[s].request
          && SlotOf(r.jobs[s].request) == s)
    && r.spent.Keys == r.accepted.Keys
    && (forall t | t in r.accepted :: Balanced(r, t))
    && (forall t | t !in r.accepted :: Count(r.answers, t) == 0)
  }

  ghost predicate Balanced(r: Run, t: nat)
    requires t in r.accepted && t in r.spent
  {
    if Open(r, t) then
      && r.spent[t] + Remaining(r.jobs[SlotOf(r.accepted[t])].stage) == Cost(r.accepted[t])
      && Count(r.answers, t) == 0
    else
      r.spent[t] == Cost(r.accepted[t]) && Count(r.answers, t) == 1
  }

  ghost predicate Consistent(dev: Device, r: Run, events: nat) {
    && r.nvm.Shape(dev) && JobsMatch(dev, r) && BooksBalance(r)
    && forall t | t in r.accepted :: t < events
  }

  // ---------------------------------------------------------------------------
  // Every step keeps the books
  // ---------------------------------------------------------------------------

  lemma StartConsistent(dev: Device, r: Run)
    requires Starting(dev, r)
    ensures Consistent(dev, r, 0)
  {
  }

  /** How an accepted request changes slots, buffers and the operations in flight. */
  ghost predicate Admits(dev: Device, n: Nvm, m: Nvm, token: nat, q: Request) {
    && (forall s: Slot :: m.Holder(s) == if s == SlotOf(q) then Some(token) else n.Holder(s))
    && m.flight == n.flight + multiset{FirstStage(q)}
    && m.calibrationBuffer ==
       (if q.SaveCalibration? then CalibrationRecord(dev.crc, q.calibration) else n.calibrationBuffer)
    && m.configBuffer == (if q.SaveConfig? then ConfigRecord(dev.crc, q.config) else n.configBuffer)
  }

  lemma SubmitAdmits(dev: Device, n: Nvm, token: nat, q: Request)
    requires n.Shape(dev) && !Busy(n, q)
    ensures Admits(dev, n, Submit(dev, n, token, q), token, q)
  {
    SetOne(n.slots, SlotOf(q), Some(token));
  }

  function JobsAfter(jobs: map<Slot, Job>, stage: Stage): map<Slot, Job>
    requires StageSlot(stage) in jobs
  {
    match NextStage(stage)
    case Some(next) => jobs[StageSlot(stage) := jobs[StageSlot(stage)].(stage := next)]
    case None => jobs - {StageSlot(stage)}
  }

  /** How a completion changes them. */
  ghost predicate Advances(n: Nvm, m: Nvm, stage: Stage) {
    && (forall s: Slot ::
          m.Holder(s) == if s == StageSlot(stage) && NextStage(stage).None? then None else n.Holder(s))
    && m.flight == FlightAfter(n.flight, stage)
    && m.calibrationBuffer == n.calibrationBuffer && m.configBuffer == n.configBuffer
  }

  lemma SetOne(slots: Slots, slot: Slot, holder: Option<nat>)
    ensures forall s: Slot :: slots.Set(slot, holder).Of(s) == if s == slot then holder else slots.Of(s)
  {
  }

  lemma CompleteAdvances(dev: Device, n: Nvm, stage: Stage, fault: Option<seq<Byte>>)
    requires n.Shape(dev) && stage in n.flight
    ensures Advances(n, Complete(dev, n, stage, fault).0, stage)
  {
    SetOne(n.slots, StageSlot(stage), None);
  }

  /** One accepted request, on the books. */
  ghost predicate Opens(r: Run, a: Run, token: nat, q: Request) {
    && a.jobs == r.jobs[SlotOf(q) := Job(token, q, FirstStage(q))]
    && a.accepted == r.accepted[token := q] && a.spent == r.spent[token := 0] && a.answers == r.answers
  }

  lemma FirstStageCost(q: Request)
    ensures Remaining(FirstStage(q)) == Cost(q)
    ensures StageSlot(FirstStage(q)) == SlotOf(q) && StageFits(q, FirstStage(q))
  {
  }

  lemma AskMatches(dev: Device, r: Run, a: Run, q: Request, token: nat)
    requires r.nvm.Shape(dev) && a.nvm.Shape(dev) && JobsMatch(dev, r)
    requires SlotOf(q) !in r.jobs && Admits(dev, r.nvm, a.nvm, token, q) && Opens(r, a, token, q)
    ensures JobsMatch(dev, a)
  {
    FirstStageCost(q);
    forall st: Stage ensures FlightOk(a.nvm.flight, a.jobs, st) {
      assert FlightOk(r.nvm.flight, r.jobs, st);
    }
    forall s | s in a.jobs ensures JobOk(dev, a.nvm, s, a.jobs[s]) {
      if s != SlotOf(q) {
        assert JobOk(dev, r.nvm, s, r.jobs[s]);
      }
    }
  }

  lemma AskBalanced(r: Run, a: Run, q: Request, token: nat, t: nat)
    requires t in r.accepted && t in r.spent && Balanced(r, t)
    requires token !in r.accepted && SlotOf(q) !in r.jobs && Opens(r, a, token, q)
    ensures Balanced(a, t)
  {
    var s := SlotOf(r.accepted[t]);
    if s != SlotOf(q) {
      assert Open(a, t) <==> Open(r, t);
    }
  }

  lemma AskBalances(r: Run, a: Run, q: Request, token: nat)
    requires BooksBalance(r) && token !in r.accepted && SlotOf(q) !in r.jobs && Opens(r, a, token, q)
    ensures BooksBalance(a)
  {
    FirstStageCost(q);
    forall t | t in a.accepted ensures Balanced(a, t) {
      if t != token {
        AskBalanced(r, a, q, token, t);
      }
    }
  }

  /** One completion, on the books. */
  ghost predicate Moves(r: Run, f: Run, stage: Stage) {
    var slot := StageSlot(stage);
    && slot in r.jobs && r.jobs[slot].stage == stage
    && f.jobs == JobsAfter(r.jobs, stage)
    && f.accepted == r.accepted
    && f.spent ==
       r.spent[r.jobs[slot].token := 1 + if r.jobs[slot].token in r.spent then r.spent[r.jobs[slot].token] else 0]
    && (forall t: nat :: Count(f.answers, t) == Count(r.answers, t)
          + if NextStage(stage).None? && t == r.jobs[slot].token then 1 else 0)
  }

  lemma StageFollows(q: Request, stage: Stage)
    requires StageFits(q, stage) && NextStage(stage).Some?
    ensures StageFits(q, NextStage(stage).value) && StageSlot(NextStage(stage).value) == StageSlot(stage)
    ensures NextStage(stage).value != stage
  {
  }

  lemma FinishFlight(flight: multiset<Stage>, jobs: map<Slot, Job>, stage: Stage, st: Stage)
    requires FlightOk(flight, jobs, st) && FlightOk(flight, jobs, stage)
    requires StageSlot(stage) in jobs && jobs[StageSlot(stage)].stage == stage
    requires NextStage(stage).Some? ==>
               StageSlot(NextStage(stage).value) == StageSlot(stage) && NextStage(stage).value != stage
    ensures FlightOk(FlightAfter(flight, stage), JobsAfter(jobs, stage), st)
  {
  }

  lemma FinishMatches(dev: Device, r: Run, f: Run, stage: Stage)
    requires r.nvm.Shape(dev) && f.nvm.Shape(dev) && JobsMatch(dev, r)
    requires Advances(r.nvm, f.nvm, stage) && Moves(r, f, stage)
    ensures JobsMatch(dev, f)
  {
    var job := r.jobs[StageSlot(stage)];
    assert JobOk(dev, r.nvm, StageSlot(stage), job);
    assert FlightOk(r.nvm.flight, r.jobs, stage);
    if NextStage(stage).Some? {
      StageFollows(job.request, stage);
    }
    forall st: Stage ensures FlightOk(f.nvm.flight, f.jobs, st) {
      assert FlightOk(r.nvm.flight, r.jobs, st);
      FinishFlight(r.nvm.flight, r.jobs, stage, st);
    }
    forall s | s in f.jobs ensures JobOk(dev, f.nvm, s, f.jobs[s]) {
      assert JobOk(dev, r.nvm, s, r.jobs[s]);
      if s == StageSlot(stage) {
        StageFollows(r.jobs[s].request, stage);
      }
    }
  }

  lemma FinishBalances(r: Run, f: Run, stage: Stage)
    requires BooksBalance(r) && Moves(r, f, stage)
    ensures BooksBalance(f)
  {
    forall t | t in f.accepted ensures Balanced(f, t) {
      TokenBalances(r, f, stage, t);
    }
  }

  lemma TokenBalances(r: Run, f: Run, stage: Stage, t: nat)
    requires BooksBalance(r) && Moves(r, f, stage) && t in f.accepted
    ensures Balanced(f, t)
  {
    assert Balanced(r, t);
  }

  lemma FinishMoves(dev: Device, r: Run, stage: Stage, fault: Option<seq<Byte>>)
    requires r.nvm.Shape(dev) && JobsMatch(dev, r) && stage in r.nvm.flight
    ensures Moves(r, Finished(dev, r, stage, fault), stage)
  {
    var slot := StageSlot(stage);
    assert FlightOk(r.nvm.flight, r.jobs, stage);
    assert r.nvm.Holder(slot) == Some(r.jobs[slot].token);
    var answers := Complete(dev, r.nvm, stage, fault).1;
    forall t: nat ensures Count(r.answers + answers, t) == Count(r.answers, t)
                          + if NextStage(stage).None? && t == r.jobs[slot].token then 1 else 0 {
      if NextStage(stage).None? {
        CountMore(r.answers, answers[0], t);
      } else {
        assert r.answers + answers == r.answers;
      }
    }
  }

  lemma StepConsistent(dev: Device, r: Run, e: Event, k: nat)
    requires Consistent(dev, r, k)
    ensures Consistent(dev, Next(dev, r, e, k), k + 1)
  {
    var a := Next(dev, r, e, k);
    match e
    case Ask(q) =>
      if !Busy(r.nvm, q) {
        assert r.nvm.Holder(SlotOf(q)) == None;
        SubmitAdmits(dev, r.nvm, k, q);
        AskMatches(dev, r, a, q, k);
        AskBalances(r, a, q, k);
      }
    case Finish(stage, fault) =>
      if stage in r.nvm.flight {
        CompleteAdvances(dev, r.nvm, stage, fault);
        FinishMoves(dev, r, stage, fault);
        FinishMatches(dev, r, a, stage);
        FinishBalances(r, a, stage);
      }
  }

  /** Every run, whatever the interleaving and the faults, keeps the books. */
  lemma {:induction false} RunConsistent(dev: Device, start: Run, es: seq<Event>)
    requires Starting(dev, start)
    ensures Consistent(dev, After(dev, start, es), |es|)
    decreases es
  {
    if es == [] {
      StartConsistent(dev, start);
    } else {
      RunConsistent(dev, start, es[..|es| - 1]);
      StepConsistent(dev, After(dev, start, es[..|es| - 1]), es[|es| - 1], |es| - 1);
    }
  }

  // ---------------------------------------------------------------------------
  // What a caller can rely on
  // ---------------------------------------------------------------------------

  /** The region operation an unanswered request is waiting for. */
  ghost predicate Waiting(r: Run, token: nat, stage: Stage) {
    && token in r.accepted && token in r.spent
    && stage in r.nvm.flight && r.nvm.Holder(StageSlot(stage)) == Some(token)
    && r.spent[token] + Remaining(stage) == Cost(r.accepted[token])
  }

  /** An accepted request is called back exactly once, after exactly Cost(request) <= 3 region operations
      of its own; until then its slot is held by it and its next operation is in flight. */
  lemma AnsweredExactlyOnce(dev: Device, start: Run, es: seq<Event>, token: nat)
    requires Starting(dev, start)
    ensures var r := After(dev, start, es);
            if token !in r.accepted then Count(r.answers, token) == 0
            else
              token in r.spent
              && if Count(r.answers, token) == 1 then r.spent[token] == Cost(r.accepted[token])
                 else Count(r.answers, token) == 0 && exists stage: Stage :: Waiting(r, token, stage)
  {
    RunConsistent(dev, start, es);
    var r := After(dev, start, es);
    if token in r.accepted {
      assert Balanced(r, token);
      if Open(r, token) {
        var s := SlotOf(r.accepted[token]);
        InFlight(dev, r, s);
        assert Waiting(r, token, r.jobs[s].stage);
      }
    }
  }

  lemma InFlight(dev: Device, r: Run, s: Slot)
    requires r.nvm.Shape(dev) && JobsMatch(dev, r) && s in r.jobs
    ensures StageSlot(r.jobs[s].stage) == s && r.jobs[s].stage in r.nvm.flight
    ensures r.nvm.Holder(s) == Some(r.jobs[s].token)
  {
    assert JobOk(dev, r.nvm, s, r.jobs[s]);
    assert FlightOk(r.nvm.flight, r.jobs, r.jobs[s].stage);
  }

  /** A refused request leaves no trace at all; an accepted one touches only its slot, its buffer and the
      list of operations in flight, never the medium. */
  lemma Refused(dev: Device, n: Nvm, token: nat, q: Request)
    requires n.Shape(dev)
    ensures n.Holder(SlotOf(q)).Some? <==> Submit(dev, n, token, q) == n
    ensures Submit(dev, n, token, q).medium == n.medium
  {
  }

  /** What the answer to a save says of the medium. */
  ghost predicate SavedIsStored(dev: Device, n: Nvm, q: Request)
    requires n.Shape(dev)
  {
    && (q.SaveCalibration? ==> n.Stored(dev) == Some(q.calibration))
    && (q.SaveConfig? ==> n.StoredConfig(dev) == q.config)
  }

  lemma ReadBackIsStored(dev: Device, n: Nvm, s: Slot, job: Job)
    requires n.Shape(dev) && JobOk(dev, n, s, job) && NextStage(job.stage).None?
    requires Verdict(dev, n, job.stage) == Done(Ok)
    ensures SavedIsStored(dev, n, job.request)
  {
    match job.request
    case SaveCalibration(d) =>
      assert job.stage == SaveRead && n.CalibrationRegion(dev) == n.calibrationBuffer;
      DecodeCalibrationRecord(dev.crc, d);
    case SaveConfig(d) =>
      assert job.stage == ConfigRead && n.ConfigRegion(dev) == n.configBuffer;
      DecodeConfigRecord(dev.crc, d);
    case _ =>
  }

  lemma SameMedium(dev: Device, n: Nvm, m: Nvm, q: Request)
    requires n.Shape(dev) && m.Shape(dev) && n.medium == m.medium
    ensures SavedIsStored(dev, n, q) == SavedIsStored(dev, m, q)
  {
  }

  lemma AnswerOfSave(dev: Device, r: Run, k: nat, stage: Stage, fault: Option<seq<Byte>>, a: Answer)
    requires Consistent(dev, r, k)
    requires a in Complete(dev, r.nvm, stage, fault).1 && a.outcome == Done(Ok)
    ensures a.token in r.accepted && SavedIsStored(dev, Complete(dev, r.nvm, stage, fault).0, r.accepted[a.token])
  {
    var slot := StageSlot(stage);
    assert FlightOk(r.nvm.flight, r.jobs, stage);
    InFlight(dev, r, slot);
    var m := r.nvm.(medium := Effect(dev, r.nvm, stage, fault));
    assert JobOk(dev, r.nvm, slot, r.jobs[slot]);
    ReadBackIsStored(dev, m, slot, r.jobs[slot]);
    SameMedium(dev, m, Complete(dev, r.nvm, stage, fault).0, r.jobs[slot].request);
  }

  /** A save that reports Ok: at that instant the region decodes to exactly the data that was to be saved,
      whatever else is in flight. */
  lemma SavedMeansStored(dev: Device, start: Run, es: seq<Event>, stage: Stage, fault: Option<seq<Byte>>, a: Answer)
    requires Starting(dev, start)
    requires a in Complete(dev, After(dev, start, es).nvm, stage, fault).1 && a.outcome == Done(Ok)
    ensures var r := After(dev, start, es);
            && a.token in r.accepted
            && SavedIsStored(dev, Complete(dev, r.nvm, stage, fault).0, r.accepted[a.token])
  {
    RunConsistent(dev, start, es);
    AnswerOfSave(dev, After(dev, start, es), |es|, stage, fault, a);
  }

  /** A load answers with what the region decodes to at that instant, a validity check with whether it
      decodes at all; a load that fails hands over no data. */
  lemma ReadersAgree(dev: Device, n: Nvm, stage: Stage)
    requires n.Shape(dev)
    ensures stage == LoadRead ==>
              var o := Verdict(dev, n, stage);
              o.CalibrationLoaded? && o.loaded == n.Stored(dev) && (o.status == Ok <==> o.loaded.Some?)
    ensures stage == CheckRead ==> Verdict(dev, n, stage) == Validity(n.Stored(dev).Some?)
  {
    ValidIffLoadable(dev.crc, n.CalibrationRegion(dev));
  }

  /** The region an operation may change, if any. */
  function Target(dev: Device, stage: Stage): Option<Region> {
    if stage in {SaveErase, SaveWrite, InvalidateErase, FormatCalibration} then Some(dev.calibration)
    else if stage in {ConfigErase, ConfigWrite, FormatConfig} then Some(dev.config)
    else None
  }

  lemma UntouchedByWrite(medium: seq<Byte>, r: Region, data: seq<Byte>, fault: Option<seq<Byte>>, i: nat)
    requires r.Fits(|medium|) && |data| <= r.size && i < |medium| && !(r.base <= i < r.base + r.size)
    ensures Worn(WriteAt(medium, r, data), r, fault)[i] == medium[i]
  {
  }

  /** Calibration operations never change a byte outside the calibration region, and configuration
      operations none outside theirs; reading changes nothing. */
  lemma StaysInRegion(dev: Device, n: Nvm, stage: Stage, fault: Option<seq<Byte>>, i: nat)
    requires n.Shape(dev) && i < dev.size
    requires match Target(dev, stage) case Some(r) => !(r.base <= i < r.base + r.size) case None => true
    ensures Effect(dev, n, stage, fault)[i] == n.medium[i]
  {
    match stage
    case SaveErase => UntouchedByWrite(n.medium, dev.calibration, Erased(dev.calibration.size), fault, i);
    case InvalidateErase => UntouchedByWrite(n.medium, dev.calibration, Erased(dev.calibration.size), fault, i);
    case FormatCalibration => UntouchedByWrite(n.medium, dev.calibration, Erased(dev.calibration.size), fault, i);
    case SaveWrite => UntouchedByWrite(n.medium, dev.calibration, n.calibrationBuffer, fault, i);
    case ConfigErase => UntouchedByWrite(n.medium, dev.config, Erased(dev.config.size), fault, i);
    case FormatConfig => UntouchedByWrite(n.medium, dev.config, Erased(dev.config.size), fault, i);
    case ConfigWrite => UntouchedByWrite(n.medium, dev.config, n.configBuffer, fault, i);
    case _ =>
  }

  /** Whatever completes outside the chains of one record leaves that record as it was. */
  lemma RecordUntouched(dev: Device, n: Nvm, stage: Stage, fault: Option<seq<Byte>>, other: Region, size: nat)
    requires n.Shape(dev) && other.Fits(dev.size) && size <= other.size
    requires match Target(dev, stage) case Some(r) => r.Disjoint(other) case None => true
    ensures ReadAt(Complete(dev, n, stage, fault).0.medium, other, size) == ReadAt(n.medium, other, size)
  {
    forall i: nat | other.base <= i < other.base + size ensures Effect(dev, n, stage, fault)[i] == n.medium[i] {
      StaysInRegion(dev, n, stage, fault, i);
    }
    assert ReadAt(Effect(dev, n, stage, fault), other, size) == ReadAt(n.medium, other, size);
  }

  /** Calibration and configuration never disturb each other; only formatting reaches both. */
  lemma RecordsIndependent(dev: Device, n: Nvm, stage: Stage, fault: Option<seq<Byte>>)
    requires n.Shape(dev)
    ensures StageSlot(stage) in {CalibrationSlot, ValiditySlot} ==>
              Complete(dev, n, stage, fault).0.ConfigRegion(dev) == n.ConfigRegion(dev)
    ensures StageSlot(stage) in {ConfigSlot, ValiditySlot} ==>
              Complete(dev, n, stage, fault).0.CalibrationRegion(dev) == n.CalibrationRegion(dev)
  {
    if StageSlot(stage) in {CalibrationSlot, ValiditySlot} {
      RecordUntouched(dev, n, stage, fault, dev.config, CONFIG_RECORD);
    }
    if StageSlot(stage) in {ConfigSlot, ValiditySlot} {
      RecordUntouched(dev, n, stage, fault, dev.calibration, CALIBRATION_RECORD);
    }
  }

  // ---------------------------------------------------------------------------
  // What is gone
  // ---------------------------------------------------------------------------

  lemma ReadErased(medium: seq<Byte>, r: Region, n: nat)
    requires r.Fits(|medium|) && n <= r.size
    ensures ReadAt(EraseAt(medium, r), r, n) == seq(n, _ => 0xFF)
  {
  }

  /** An invalidation that completes without a fault leaves no calibration, and formatting neither a calibration
      nor, in its second half, a configuration. */
  lemma ErasedIsGone(dev: Device, n: Nvm, stage: Stage)
    requires n.Shape(dev) && stage in n.flight
    ensures stage in {InvalidateErase, FormatCalibration} ==> Complete(dev, n, stage, None).0.Stored(dev) == None
    ensures stage == FormatConfig ==> Complete(dev, n, stage, None).0.StoredConfig(dev) == DEFAULT_CONFIG
  {
    ErasedIsInvalid(dev.crc);
    ReadErased(n.medium, dev.calibration, CALIBRATION_RECORD);
    ReadErased(n.medium, dev.config, CONFIG_RECORD);
  }

  /** In every run, when an invalidation is answered, its completion being without a fault, the region decodes to
      nothing at that instant. */
  lemma InvalidatedMeansGone(dev: Device, start: Run, es: seq<Event>, a: Answer)
    requires Starting(dev, start)
    requires a in Complete(dev, After(dev, start, es).nvm, InvalidateErase, None).1
    ensures var r := After(dev, start, es);
            && a.token in r.accepted && r.accepted[a.token] == InvalidateCalibration && a.outcome == Done(Ok)
            && Complete(dev, r.nvm, InvalidateErase, None).0.Stored(dev) == None
  {
    var r := After(dev, start, es);
    RunConsistent(dev, start, es);
    assert FlightOk(r.nvm.flight, r.jobs, InvalidateErase);
    InFlight(dev, r, CalibrationSlot);
    assert JobOk(dev, r.nvm, CalibrationSlot, r.jobs[CalibrationSlot]);
    ErasedIsGone(dev, r.nvm, InvalidateErase);
  }

  /** No fault, and no record written. */
  predicate Clean(r: Run, e: Event) {
    e.Finish? ==> e.fault.None? && (e.stage == SaveWrite ==> SaveWrite !in r.nvm.flight)
  }

  /** What is gone stays gone until something is written. */
  lemma StaysGone(dev: Device, r: Run, e: Event, token: nat)
    requires r.nvm.Shape(dev) && r.nvm.Stored(dev) == None && Clean(r, e)
    ensures Next(dev, r, e, token).nvm.Stored(dev) == None
  {
    match e
    case Ask(q) =>
    case Finish(stage, fault) =>
      if stage in r.nvm.flight {
        if stage in {SaveErase, InvalidateErase, FormatCalibration} {
          SomethingErased(dev, r.nvm, stage);
        } else {
          RecordUntouched(dev, r.nvm, stage, fault, dev.calibration, CALIBRATION_RECORD);
        }
      }
  }

  lemma SomethingErased(dev: Device, n: Nvm, stage: Stage)
    requires n.Shape(dev) && stage in n.flight && stage in {SaveErase, InvalidateErase, FormatCalibration}
    ensures Complete(dev, n, stage, None).0.Stored(dev) == None
  {
    ErasedIsInvalid(dev.crc);
    ReadErased(n.medium, dev.calibration, CALIBRATION_RECORD);
  }

  ghost predicate CleanRun(dev: Device, start: Run, es: seq<Event>)
    requires start.nvm.Shape(dev)
    decreases es
  {
    es == [] ||
    (CleanRun(dev, start, es[..|es| - 1]) && Clean(After(dev, start, es[..|es| - 1]), es[|es| - 1]))
  }

  /** A property of the medium that clean steps keep. */
  ghost predicate KeptClean(dev: Device, g: Nvm -> bool) {
    forall r: Run, e: Event, token: nat ::
      r.nvm.Shape(dev) && g(r.nvm) && Clean(r, e) ==> g(Next(dev, r, e, token).nvm)
  }

  lemma {:induction false} KeptSince(dev: Device, start: Run, es: seq<Event>, g: Nvm -> bool)
    requires start.nvm.Shape(dev) && g(start.nvm) && KeptClean(dev, g) && CleanRun(dev, start, es)
    ensures g(After(dev, start, es).nvm)
    decreases es
  {
    if es != [] {
      KeptSince(dev, start, es[..|es| - 1], g);
    }
  }

  /** In a clean run without a calibration there is none at the end. */
  lemma GoneSince(dev: Device, start: Run, es: seq<Event>)
    requires start.nvm.Shape(dev) && start.nvm.Stored(dev) == None && CleanRun(dev, start, es)
    ensures After(dev, start, es).nvm.Stored(dev) == None
  {
    ghost var g := (n: Nvm) => n.Shape(dev) && n.Stored(dev) == None;
    forall r: Run, e: Event, token: nat | r.nvm.Shape(dev) && g(r.nvm) && Clean(r, e)
      ensures g(Next(dev, r, e, token).nvm)
    {
      StaysGone(dev, r, e, token);
    }
    KeptSince(dev, start, es, g);
  }

  lemma FirstHalf(dev: Device, r: Run, token: nat)
    requires r.nvm.Shape(dev) && FormatCalibration in r.nvm.flight && FormatSlot in r.jobs
    ensures Next(dev, r, Finish(FormatCalibration, None), token).nvm.Stored(dev) == None
  {
    SomethingErased(dev, r.nvm, FormatCalibration);
  }

  lemma SecondHalf(dev: Device, n: Nvm)
    requires n.Shape(dev) && FormatConfig in n.flight && n.Stored(dev) == None
    ensures var m := Complete(dev, n, FormatConfig, None).0;
            m.Stored(dev) == None && m.StoredConfig(dev) == DEFAULT_CONFIG
  {
    ErasedIsGone(dev, n, FormatConfig);
    RecordUntouched(dev, n, FormatConfig, None, dev.calibration, CALIBRATION_RECORD);
  }

  /** Formatting: when its second half completes there is the default configuration, and if its first half had no
      fault and the run since is clean, there is no calibration. */
  lemma FormatMeansGone(dev: Device, r: Run, token: nat, es: seq<Event>)
    requires r.nvm.Shape(dev) && FormatCalibration in r.nvm.flight && FormatSlot in r.jobs
    requires var first := Next(dev, r, Finish(FormatCalibration, None), token);
             CleanRun(dev, first, es) && FormatConfig in After(dev, first, es).nvm.flight
    ensures var first := Next(dev, r, Finish(FormatCalibration, None), token);
            var n := Complete(dev, After(dev, first, es).nvm, FormatConfig, None).0;
            n.Stored(dev) == None && n.StoredConfig(dev) == DEFAULT_CONFIG
  {
    var first := Next(dev, r, Finish(FormatCalibration, None), token);
    FirstHalf(dev, r, token);
    GoneSince(dev, first, es);
    SecondHalf(dev, After(dev, first, es).nvm);
  }

  // ---------------------------------------------------------------------------
  // A save that nothing disturbs
  // ---------------------------------------------------------------------------

  /** The chain of a save is at this stage, for this request. */
  ghost predicate AtStage(dev: Device, r: Run, k: nat, q: Request, token: nat, stage: Stage) {
    && Consistent(dev, r, k) && SlotOf(q) in r.jobs && r.jobs[SlotOf(q)] == Job(token, q, stage)
  }

  lemma AskedAtFirst(dev: Device, r: Run, k: nat, q: Request)
    requires Consistent(dev, r, k) && SlotOf(q) !in r.jobs
    ensures AtStage(dev, Next(dev, r, Ask(q), k), k + 1, q, k, FirstStage(q))
  {
    StepConsistent(dev, r, Ask(q), k);
    assert r.nvm.Holder(SlotOf(q)) == None;
  }

  lemma StageOn(dev: Device, r: Run, k: nat, q: Request, token: nat, stage: Stage)
    requires AtStage(dev, r, k, q, token, stage) && NextStage(stage).Some?
    ensures var f := Next(dev, r, Finish(stage, None), k);
            AtStage(dev, f, k + 1, q, token, NextStage(stage).value) && f.answers == r.answers
  {
    StepConsistent(dev, r, Finish(stage, None), k);
    assert JobOk(dev, r.nvm, SlotOf(q), r.jobs[SlotOf(q)]);
    InFlight(dev, r, SlotOf(q));
    FinishMoves(dev, r, stage, None);
    assert r.answers + [] == r.answers;
  }

  lemma WriteReads(dev: Device, n: Nvm, stage: Stage)
    requires n.Shape(dev) && stage in n.flight
    ensures var m := Complete(dev, n, stage, None).0;
            && (stage == SaveWrite ==> m.CalibrationRegion(dev) == m.calibrationBuffer)
            && (stage == ConfigWrite ==> m.ConfigRegion(dev) == m.configBuffer)
  {
    ReadBack(n.medium, dev.calibration, n.calibrationBuffer);
    ReadBack(n.medium, dev.config, n.configBuffer);
  }

  lemma ReadAnswers(dev: Device, r: Run, k: nat, q: Request, token: nat, stage: Stage)
    requires AtStage(dev, r, k, q, token, stage) && (q.SaveCalibration? || q.SaveConfig?) && NextStage(stage).None?
    requires stage == SaveRead ==> r.nvm.CalibrationRegion(dev) == r.nvm.calibrationBuffer
    requires stage == ConfigRead ==> r.nvm.ConfigRegion(dev) == r.nvm.configBuffer
    ensures var f := Next(dev, r, Finish(stage, None), k);
            f.answers == r.answers + [Answer(token, Done(Ok))] && SavedIsStored(dev, f.nvm, q)
  {
    assert JobOk(dev, r.nvm, SlotOf(q), r.jobs[SlotOf(q)]);
    InFlight(dev, r, SlotOf(q));
    AnswerOfSave(dev, r, k, stage, None, Answer(token, Done(Ok)));
  }

  lemma FromWrite(dev: Device, r: Run, k: nat, q: Request, token: nat, write: Stage, read: Stage)
    requires AtStage(dev, r, k, q, token, write) && write in {SaveWrite, ConfigWrite} && NextStage(write) == Some(read)
    requires q.SaveCalibration? || q.SaveConfig?
    ensures var f := Next(dev, Next(dev, r, Finish(write, None), k), Finish(read, None), k + 1);
            f.answers == r.answers + [Answer(token, Done(Ok))] && SavedIsStored(dev, f.nvm, q)
  {
    var f := WriteDone(dev, r, k, q, token, write, read);
    ReadAnswers(dev, f, k + 1, q, token, read);
  }

  lemma WriteDone(dev: Device, r: Run, k: nat, q: Request, token: nat, write: Stage, read: Stage) returns (f: Run)
    requires AtStage(dev, r, k, q, token, write) && write in {SaveWrite, ConfigWrite} && NextStage(write) == Some(read)
    ensures f == Next(dev, r, Finish(write, None), k) && f.answers == r.answers
    ensures AtStage(dev, f, k + 1, q, token, read)
    ensures read == SaveRead ==> f.nvm.CalibrationRegion(dev) == f.nvm.calibrationBuffer
    ensures read == ConfigRead ==> f.nvm.ConfigRegion(dev) == f.nvm.configBuffer
  {
    f := Next(dev, r, Finish(write, None), k);
    StageOn(dev, r, k, q, token, write);
    WrittenReads(dev, r, k, q, token, write);
  }

  lemma FromErase(dev: Device, r: Run, k: nat, q: Request, token: nat, erase: Stage, write: Stage, read: Stage)
    requires AtStage(dev, r, k, q, token, erase) && NextStage(erase) == Some(write)
    requires write in {SaveWrite, ConfigWrite} && NextStage(write) == Some(read)
    requires q.SaveCalibration? || q.SaveConfig?
    ensures var erased := Next(dev, r, Finish(erase, None), k);
            var f := Next(dev, Next(dev, erased, Finish(write, None), k + 1), Finish(read, None), k + 2);
            f.answers == r.answers + [Answer(token, Done(Ok))] && SavedIsStored(dev, f.nvm, q)
  {
    StageOn(dev, r, k, q, token, erase);
    FromWrite(dev, Next(dev, r, Finish(erase, None), k), k + 1, q, token, write, read);
  }

  /** A save asked for while its slot is free, its three operations following one another without a fault, is
      answered Ok, and the region decodes to what was to be saved. */
  lemma CleanSaveSucceeds(dev: Device, r: Run, k: nat, q: Request)
    requires Consistent(dev, r, k) && (q.SaveCalibration? || q.SaveConfig?) && SlotOf(q) !in r.jobs
    ensures var config := q.SaveConfig?;
            var asked := Next(dev, r, Ask(q), k);
            var erased := Next(dev, asked, Finish(if config then ConfigErase else SaveErase, None), k + 1);
            var written := Next(dev, erased, Finish(if config then ConfigWrite else SaveWrite, None), k + 2);
            var read := Next(dev, written, Finish(if config then ConfigRead else SaveRead, None), k + 3);
            && asked.answers == r.answers
            && read.answers == asked.answers + [Answer(k, Done(Ok))] && SavedIsStored(dev, read.nvm, q)
  {
    AskedAtFirst(dev, r, k, q);
    var asked := Next(dev, r, Ask(q), k);
    if q.SaveConfig? {
      FromErase(dev, asked, k + 1, q, k, ConfigErase, ConfigWrite, ConfigRead);
    } else {
      FromErase(dev, asked, k + 1, q, k, SaveErase, SaveWrite, SaveRead);
    }
  }

  lemma WrittenReads(dev: Device, r: Run, k: nat, q: Request, token: nat, stage: Stage)
    requires AtStage(dev, r, k, q, token, stage) && stage in {SaveWrite, ConfigWrite}
    ensures var f := Next(dev, r, Finish(stage, None), k);
            && (stage == SaveWrite ==> f.nvm.CalibrationRegion(dev) == f.nvm.calibrationBuffer)
            && (stage == ConfigWrite ==> f.nvm.ConfigRegion(dev) == f.nvm.configBuffer)
  {
    InFlight(dev, r, SlotOf(q));
    WriteReads(dev, r.nvm, stage);
  }
}
