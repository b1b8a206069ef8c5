/** With one worker the fields of a queue record agree with its status in every reachable state. */
module Records {
  import opened Common
  import opened VideoJobs
  import opened Failures
  import opened QueueState
  import opened Aggregation
  import opened PostgresState
  import opened Pipeline
  import opened PipelineSafety
  import opened SingleWorker
  import opened Attempts
  import opened CutFree
  import opened PipelineTheorems

  /** Started when attempted, an error exactly after a failure, and finished once terminal. */
  predicate Consistent(x: VideoJob) {
    && x.createdAt.Some? && x.updatedAt.Some?
    && (x.status == Queued ==> x.attempts == 0)
    && (x.status in {Processing, FailedRetryable, FailedTerminal} ==> x.attempts > 0)
    && (x.startedAt.Some? <==> x.attempts > 0)
    && (IsTerminal(x.status) ==> x.finishedAt.Some?)
    && (x.lastErrorCode.Some? <==> x.status in {FailedRetryable, FailedTerminal})
    && (x.lastErrorMessage.Some? <==> x.lastErrorCode.Some?)
    && x.status != Superseded
  }

  predicate AllConsistent(jobs: Jobs) {
    forall j :: j in jobs ==> Consistent(jobs[j])
  }

  /** What the stages of one worker may write over a record. */
  predicate Permitted(x: VideoJob, status: VideoJobStatus, code: Option<string>, text: Option<string>) {
    && (status in {FailedRetryable, FailedTerminal} ==> x.attempts > 0 && code.Some? && text.Some?)
    && (status in {Processing, Classified} ==> code.None? && text.None?)
    && status !in {Queued, Superseded}
  }

  /** A finish time, once set, is never cleared. */
  lemma UpdateKeepsConsistent(x: VideoJob, status: VideoJobStatus, code: Option<string>, text: Option<string>,
                              now: Time)
    requires Consistent(x) && Permitted(x, status, code, text)
    ensures var x' := WithStatus(x, status, code, text, now);
            Consistent(x') && (x'.finishedAt.Some? <==> IsTerminal(status) || x.finishedAt.Some?)
  {
  }

  lemma StatusKeepsConsistent(q: Queue, jobId: string, status: VideoJobStatus, code: Option<string>,
                              text: Option<string>, now: Time)
    requires AllConsistent(q.jobs) && jobId in q.jobs && Permitted(q.jobs[jobId], status, code, text)
    ensures AllConsistent(UpdateStatus(q, jobId, status, code, text, now).jobs)
  {
    hide WithStatus, Consistent, Permitted;
    UpdateKeepsConsistent(q.jobs[jobId], status, code, text, now);
  }

  lemma WorkKeepsConsistent(cfg: Config, st: Stores, m: Message, stage: Stage, c: Choice)
    requires StageOk(cfg, st, m, stage) && SoloStage(cfg, st.q, m, stage) && AllConsistent(st.q.jobs)
    ensures AllConsistent(Effects(cfg, st, m, stage, c).q.jobs)
  {
    hide AllConsistent, Consistent, Pending, VerdictFor, EffectsOf, Script, CommitOf, MarkProcessing, SetFailed,
      UpdateStatus, TripleOf;
    var record := st.q.jobs[m.jobId];
    match stage {
      case AdoptClassified(job) => StatusKeepsConsistent(st.q, job.jobId, Classified, None, None, c.now);
      case StartProcessing(job, _) => StatusKeepsConsistent(st.q, job.jobId, Processing, None, None, c.now);
      case Finishing(job) => StatusKeepsConsistent(st.q, job.jobId, Classified, None, None, c.now);
      case RecordingFailure(job, f) =>
        StatusKeepsConsistent(st.q, job.jobId, f.status, Some(f.errorCode), Some(f.errorMessage), c.now);
      case _ =>
    }
  }

  lemma StepKeepsConsistent(cfg: Config, s: System, e: Event)
    requires SystemOk(cfg, s) && Solo(cfg, s) && Enabled(cfg, s, e) && AllConsistent(s.stores.q.jobs)
    ensures AllConsistent(Apply(cfg, s, e).stores.q.jobs)
  {
    hide StoresOk, StageOk, SoloStage, OnePublisher, Effects, AfterWork, Allows, MissedBy, NoneLost, NextMessage;
    match e {
      case Work(w, c) => WorkKeepsConsistent(cfg, s.stores, s.workers[w].m, s.workers[w].stage, c);
      case ApiEnqueue(r, now) =>
      case Read(w) =>
      case Cut(w) =>
    }
  }

  lemma {:induction false} RunKeepsConsistent(cfg: Config, s: System, events: seq<Event>)
    requires SystemOk(cfg, s) && Solo(cfg, s) && AllConsistent(s.stores.q.jobs) && ValidRun(cfg, s, events)
    ensures AllConsistent(Run(cfg, s, events).stores.q.jobs)
    decreases |events|
  {
    hide SystemOk, Solo, AllConsistent, Apply, Enabled;
    if events != [] {
      StepKeepsSafe(cfg, s, events[0]);
      StepKeepsSolo(cfg, s, events[0]);
      StepKeepsConsistent(cfg, s, events[0]);
      RunKeepsConsistent(cfg, Apply(cfg, s, events[0]), events[1..]);
    }
  }

  // ---------- finish times ----------

  /** An unfinished record has a finish time only once its job has a result. */
  predicate FinishOk(jobs: Jobs, results: map<string, VideoResult>) {
    forall j :: j in jobs && jobs[j].finishedAt.Some? ==> IsTerminal(jobs[j].status) || j in results
  }

  /** Exactly the terminal records and the reopened ones have a finish time. */
  predicate FinishExact(jobs: Jobs, reopened: set<string>) {
    && reopened <= jobs.Keys
    && forall j :: j in jobs ==> (jobs[j].finishedAt.Some? <==> IsTerminal(jobs[j].status) || j in reopened)
  }

  predicate ReopensRecord(q: Queue, m: Message, stage: Stage) {
    stage.RecordingFailure? && m.jobId in q.jobs && IsTerminal(q.jobs[m.jobId].status)
  }

  /** The job whose terminal record a step overwrites with a failure. */
  function Reopens(s: System, e: Event): set<string> {
    if e.Work? && e.w < |s.workers| && s.workers[e.w].Busy?
       && ReopensRecord(s.stores.q, s.workers[e.w].m, s.workers[e.w].stage)
    then {s.workers[e.w].m.jobId} else {}
  }

  /** All such jobs of a run. */
  function Reopened(cfg: Config, s: System, events: seq<Event>): set<string>
    requires ValidRun(cfg, s, events)
    decreases |events|
  {
    if events == [] then {} else Reopens(s, events[0]) + Reopened(cfg, Apply(cfg, s, events[0]), events[1..])
  }

  /** The record after an await: as it was, or with a new status, which sets a finish time but never clears one. */
  predicate FinishKept(x: VideoJob, x': VideoJob) {
    x' == x || (x'.finishedAt.Some? <==> IsTerminal(x'.status) || x.finishedAt.Some?)
  }

  lemma StageFinish(cfg: Config, st: Stores, m: Message, stage: Stage, c: Choice)
    requires m.jobId in st.q.jobs && StageOk(cfg, st, m, stage)
    ensures var jobs' := Effects(cfg, st, m, stage, c).q.jobs;
            m.jobId in jobs' && FinishKept(st.q.jobs[m.jobId], jobs'[m.jobId])
  {
    if SetsStatus(stage) {
      hide VerdictFor, EffectsOf, Script, TripleOf;
    } else {
      OtherJobs(cfg, st, m, stage, c);
      hide Effects, StageOk;
    }
  }

  /** Only the record of `k` changes; a terminal one only when it is reopened, which takes a result. */
  predicate FinishMove(jobs: Jobs, jobs': Jobs, k: string, reopens: bool, results: map<string, VideoResult>) {
    && k in jobs && jobs'.Keys == jobs.Keys && (forall j :: j in jobs && j != k ==> jobs'[j] == jobs[j])
    && FinishKept(jobs[k], jobs'[k]) && (jobs'[k] == jobs[k] || reopens || !IsTerminal(jobs[k].status))
    && (reopens ==> IsTerminal(jobs[k].status) && k in results)
  }

  lemma FinishStep(jobs: Jobs, jobs': Jobs, k: string, reopens: bool, results: map<string, VideoResult>,
                   results': map<string, VideoResult>, reopened: set<string>)
    requires FinishMove(jobs, jobs', k, reopens, results) && FinishOk(jobs, results) && Kept(results, results')
    ensures FinishOk(jobs', results')
    ensures FinishExact(jobs, reopened) ==> FinishExact(jobs', reopened + if reopens then {k} else {})
  {
  }

  lemma WorkMoves(cfg: Config, st: Stores, m: Message, stage: Stage, c: Choice)
    requires StoresOk(cfg, st) && m in st.q.messages && StageOk(cfg, st, m, stage) && SoloStage(cfg, st.q, m, stage)
    ensures FinishMove(st.q.jobs, Effects(cfg, st, m, stage, c).q.jobs, m.jobId, ReopensRecord(st.q, m, stage),
                       st.db.results)
  {
    RecordKnown(cfg, st.q, m, stage);
    hide StoresOk, Effects, StageOk, SoloStage, StageChange, FinishKept, SetsStatus, IsTerminal;
    StageFinish(cfg, st, m, stage, c);
    StageJobs(cfg, st, m, stage, c);
    StageJobsKept(st.q.jobs, Effects(cfg, st, m, stage, c).q.jobs, m.jobId, stage, c);
    if SetsStatus(stage) {
      SoloRecord(cfg, st, m, stage);
    } else {
      FailuresSetStatus(stage);
      OtherJobs(cfg, st, m, stage, c);
    }
  }

  lemma WorkKeepsFinish(cfg: Config, st: Stores, m: Message, stage: Stage, c: Choice, reopened: set<string>)
    requires StoresOk(cfg, st) && m in st.q.messages && StageOk(cfg, st, m, stage) && SoloStage(cfg, st.q, m, stage)
    requires FinishOk(st.q.jobs, st.db.results) && Grows(st, Effects(cfg, st, m, stage, c))
    ensures var st', reopens := Effects(cfg, st, m, stage, c), ReopensRecord(st.q, m, stage);
            && FinishOk(st'.q.jobs, st'.db.results)
            && (FinishExact(st.q.jobs, reopened) ==>
                  FinishExact(st'.q.jobs, reopened + if reopens then {m.jobId} else {}))
  {
    hide StoresOk, Effects, StageOk, SoloStage, FinishOk, FinishExact, FinishMove, SameWork, ReopensRecord;
    WorkMoves(cfg, st, m, stage, c);
    FinishStep(st.q.jobs, Effects(cfg, st, m, stage, c).q.jobs, m.jobId, ReopensRecord(st.q, m, stage), st.db.results,
               Effects(cfg, st, m, stage, c).db.results, reopened);
  }

  lemma RecordKnown(cfg: Config, q: Queue, m: Message, stage: Stage)
    requires SoloStage(cfg, q, m, stage)
    ensures m.jobId in q.jobs
  {
  }

  lemma FailuresSetStatus(stage: Stage)
    ensures stage.RecordingFailure? ==> SetsStatus(stage)
  {
  }

  /** At these stages the record has not ended, or it was finished by the update whose answer was lost. */
  lemma SoloRecord(cfg: Config, st: Stores, m: Message, stage: Stage)
    requires StoresOk(cfg, st) && SoloStage(cfg, st.q, m, stage) && (SetsStatus(stage) || stage.LookUpPersisted?)
    ensures st.q.jobs[m.jobId].status != FailedTerminal
    ensures IsTerminal(st.q.jobs[m.jobId].status) ==> stage.RecordingFailure? && m.jobId in st.db.results
  {
    hide Pending, FailureOk, ValidQueue, RowsOk, ResultsOk, FramesOwned, ActionsOk, LogOk;
  }

  lemma StepKeepsFinish(cfg: Config, s: System, e: Event, reopened: set<string>)
    requires SystemOk(cfg, s) && Solo(cfg, s) && Enabled(cfg, s, e)
    requires FinishOk(s.stores.q.jobs, s.stores.db.results)
    ensures var st' := Apply(cfg, s, e).stores;
            && FinishOk(st'.q.jobs, st'.db.results)
            && (FinishExact(s.stores.q.jobs, reopened) ==> FinishExact(st'.q.jobs, reopened + Reopens(s, e)))
  {
    hide StoresOk, StageOk, SoloStage, OnePublisher, Effects, AfterWork, Allows, MissedBy, NoneLost, NextMessage,
      FinishOk, FinishExact, Enqueue, ReadMessages, Grows;
    StepKeepsSafe(cfg, s, e);
    OwnJobKnown(cfg, s.stores.q, s.workers[0]);
    assert reopened + {} == reopened;
    match e {
      case Work(w, c) => WorkKeepsFinish(cfg, s.stores, s.workers[w].m, s.workers[w].stage, c, reopened);
      case ApiEnqueue(r, now) => EnqueueKeepsFinish(s.stores.q, s.stores.db.results, r, now, reopened);
      case Read(w) =>
      case Cut(w) =>
    }
  }

  lemma EnqueueKeepsFinish(q: Queue, results: map<string, VideoResult>, r: VideoDetectRequest, now: Time,
                           reopened: set<string>)
    requires FinishOk(q.jobs, results)
    ensures FinishOk(Enqueue(q, r, now).jobs, results)
    ensures FinishExact(q.jobs, reopened) ==> FinishExact(Enqueue(q, r, now).jobs, reopened)
  {
  }

  lemma {:induction false} RunKeepsFinish(cfg: Config, s: System, events: seq<Event>, reopened: set<string>)
    requires SystemOk(cfg, s) && Solo(cfg, s) && ValidRun(cfg, s, events)
    requires FinishOk(s.stores.q.jobs, s.stores.db.results) && FinishExact(s.stores.q.jobs, reopened)
    ensures var st' := Run(cfg, s, events).stores;
            && FinishOk(st'.q.jobs, st'.db.results)
            && FinishExact(st'.q.jobs, reopened + Reopened(cfg, s, events))
    decreases |events|
  {
    hide SystemOk, Solo, FinishOk, FinishExact, Reopens, Apply, Enabled;
    if events == [] {
      assert reopened + {} == reopened;
    } else {
      var s1 := Apply(cfg, s, events[0]);
      StepKeepsSafe(cfg, s, events[0]);
      StepKeepsSolo(cfg, s, events[0]);
      StepKeepsFinish(cfg, s, events[0], reopened);
      RunKeepsFinish(cfg, s1, events[1..], reopened + Reopens(s, events[0]));
      assert reopened + Reopens(s, events[0]) + Reopened(cfg, s1, events[1..]) == reopened + Reopened(cfg, s, events);
    }
  }

  /** In every state one worker can reach, cut anywhere, every record's times, attempts and error agree with its status;
      it has a finish time exactly when it is terminal or was reopened by a failure recorded over it. */
  lemma RecordsAgreeWithStatus(cfg: Config, events: seq<Event>, s: System, j: string)
    requires Reaches(cfg, 1, events, s) && j in s.stores.q.jobs
    ensures Consistent(s.stores.q.jobs[j])
    ensures var x := s.stores.q.jobs[j];
            x.finishedAt.Some? <==> IsTerminal(x.status) || j in Reopened(cfg, Init(1), events)
  {
    RecordsOfRun(cfg, events);
    hide Run, Reopened, Consistent, IsTerminal;
  }

  lemma InitRecords()
    ensures AllConsistent(Init(1).stores.q.jobs) && FinishOk(Init(1).stores.q.jobs, Init(1).stores.db.results)
    ensures FinishExact(Init(1).stores.q.jobs, {})
  {
  }

  lemma RecordsOfRun(cfg: Config, events: seq<Event>)
    requires ValidRun(cfg, Init(1), events)
    ensures var st := Run(cfg, Init(1), events).stores;
            && AllConsistent(st.q.jobs) && FinishOk(st.q.jobs, st.db.results)
            && FinishExact(st.q.jobs, Reopened(cfg, Init(1), events))
  {
    hide *;
    InitSafe(cfg, 1);
    InitExact(cfg);
    InitRecords();
    RunKeepsConsistent(cfg, Init(1), events);
    RunKeepsFinish(cfg, Init(1), events, {});
    assert {} + Reopened(cfg, Init(1), events) == Reopened(cfg, Init(1), events);
  }

  // ---------- Postgres rows ----------

  predicate Ended(s: VideoJobStatus) {
    s in {Classified, FailedTerminal}
  }

  /** The worker is in an attempt of this job that has not committed. */
  predicate Attempting(pc: Pc, j: string) {
    && pc.Busy? && pc.m.jobId == j
    && (pc.stage.StartProcessing? || pc.stage.MarkingProcessing? || pc.stage.Computing? || pc.stage.Moving?
        || pc.stage.Committing?)
  }

  /** A row has a finish time exactly when it has ended, and ends for good only with the queue record. */
  predicate RowConsistent(row: VideoJob, record: VideoJob, attempting: bool) {
    && (row.finishedAt.Some? <==> Ended(row.status))
    && (row.status == FailedTerminal ==> record.status == FailedTerminal)
    && (attempting ==> row.status != Classified)
  }

  predicate RowsConsistent(rows: Jobs, jobs: Jobs, pc: Pc) {
    forall j :: j in rows ==> j in jobs && RowConsistent(rows[j], jobs[j], Attempting(pc, j))
  }

  /** A job under way whose record has a finish time has a row. */
  lemma UnfinishedWithoutRow(cfg: Config, st: Stores, j: string)
    requires StoresOk(cfg, st) && FinishOk(st.q.jobs, st.db.results) && j in st.q.jobs && j !in st.db.jobs
    requires !IsTerminal(st.q.jobs[j].status)
    ensures st.q.jobs[j].finishedAt.None?
  {
    hide ValidQueue, RowsOk, FramesOwned, ActionsOk, LogOk, ClassifiedOk;
  }

  /** Only the two marks and the commit touch the rows. */
  lemma OtherStagesKeepRows(cfg: Config, st: Stores, m: Message, stage: Stage, c: Choice)
    requires !stage.MarkingProcessing? && !stage.MarkingFailed? && !stage.Committing?
    ensures Effects(cfg, st, m, stage, c).db.jobs == st.db.jobs
  {
    hide UpdateStatus, Requeue, Ack, AppendDeadLetter;
  }

  lemma MarkedRow(db: Db, job: VideoJob, record: VideoJob, now: Time)
    requires job.status == Processing && record.status == Processing
    requires job.jobId !in db.jobs ==> job.finishedAt.None?
    requires job.jobId in db.jobs ==> RowConsistent(db.jobs[job.jobId], record, true)
    ensures var rows, k := MarkProcessing(db, job, now).jobs, job.jobId;
            && (k in rows ==> RowConsistent(rows[k], record, true))
            && (forall j :: j != k ==> (j in rows <==> j in db.jobs) && (j in db.jobs ==> rows[j] == db.jobs[j]))
  {
    hide TripleTaken;
  }

  lemma FailedRow(db: Db, k: string, f: ProcessingFailure, record: VideoJob, now: Time)
    requires f.status in {FailedRetryable, FailedTerminal} && record.status == f.status
    ensures var rows := SetFailed(db, k, f.status, f.errorCode, f.errorMessage, now).jobs;
            && (k in rows ==> RowConsistent(rows[k], record, false))
            && (forall j :: j != k ==> (j in rows <==> j in db.jobs) && (j in db.jobs ==> rows[j] == db.jobs[j]))
  {
  }

  /** What one await of the only worker, but the commit, does to the rows: only its own job's row may change, and stays
      consistent. */
  lemma OwnRow(cfg: Config, st: Stores, pc: Pc, c: Choice)
    requires StoresOk(cfg, st) && pc.Busy? && StageOk(cfg, st, pc.m, pc.stage) && SoloStage(cfg, st.q, pc.m, pc.stage)
             && Allows(cfg, st, pc.stage, c)
    requires RowsConsistent(st.db.jobs, st.q.jobs, pc) && FinishOk(st.q.jobs, st.db.results)
    requires !pc.stage.Committing? && !pc.stage.Acking?
    ensures var st', pc', k := Effects(cfg, st, pc.m, pc.stage, c), AfterWork(cfg, st, pc, c), pc.m.jobId;
            && (k in st'.db.jobs ==>
                  k in st'.q.jobs && RowConsistent(st'.db.jobs[k], st'.q.jobs[k], Attempting(pc', k)))
            && (forall j :: j != k ==> (j in st'.db.jobs <==> j in st.db.jobs) && (j in st.db.jobs ==>
               st'.db.jobs[j] == st.db.jobs[j]))
  {
    hide StoresOk, FinishOk, Pending, VerdictFor, EffectsOf, Script, CommitOf, ClassifyProcessingError, TripleOf,
      MarkProcessing, SetFailed, RowConsistent, WithStatus;
    var k := pc.m.jobId;
    if k in st.db.jobs {
      assert RowConsistent(st.db.jobs[k], st.q.jobs[k], Attempting(pc, k));
    }
    match pc.stage {
      case MarkingProcessing(job) =>
        if k !in st.db.jobs {
          UnfinishedWithoutRow(cfg, st, k);
        }
        MarkedRow(st.db, job, st.q.jobs[k], c.now);
        Relaxed(st.db.jobs, st.q.jobs[k], k);
        Relaxed(MarkProcessing(st.db, job, c.now).jobs, st.q.jobs[k], k);
      case MarkingFailed(job, f) => FailedRow(st.db, k, f, st.q.jobs[k], c.now);
      case _ => OtherStageRow(cfg, st, pc, c);
    }
  }

  lemma Relaxed(rows: Jobs, record: VideoJob, k: string)
    ensures k in rows && RowConsistent(rows[k], record, true) ==> RowConsistent(rows[k], record, false)
  {
  }

  lemma OtherStageRow(cfg: Config, st: Stores, pc: Pc, c: Choice)
    requires StoresOk(cfg, st) && pc.Busy? && StageOk(cfg, st, pc.m, pc.stage) && SoloStage(cfg, st.q, pc.m, pc.stage)
             && Allows(cfg, st, pc.stage, c)
    requires !pc.stage.Committing? && !pc.stage.Acking? && !pc.stage.MarkingProcessing? && !pc.stage.MarkingFailed?
    requires pc.m.jobId in st.db.jobs ==>
               RowConsistent(st.db.jobs[pc.m.jobId], st.q.jobs[pc.m.jobId], Attempting(pc, pc.m.jobId))
    ensures var st', pc', k := Effects(cfg, st, pc.m, pc.stage, c), AfterWork(cfg, st, pc, c), pc.m.jobId;
            && st'.db.jobs == st.db.jobs
            && (k in st.db.jobs ==> k in st'.q.jobs && RowConsistent(st.db.jobs[k], st'.q.jobs[k], Attempting(pc', k)))
  {
    hide Pending, VerdictFor, EffectsOf, Script, CommitOf, ClassifyProcessingError, TripleOf, MarkProcessing,
      SetFailed, Effects, UnderWay, FailureOk, StoresOk;
    OtherStagesKeepRows(cfg, st, pc.m, pc.stage, c);
    StageJobs(cfg, st, pc.m, pc.stage, c);
    hide StageOk;
    if SetsStatus(pc.stage) || pc.stage.LookUpPersisted? {
      SoloRecord(cfg, st, pc.m, pc.stage);
    }
    hide SoloStage;
  }

  lemma CommitRow(cfg: Config, st: Stores, pc: Pc, c: Choice)
    requires pc.Busy? && pc.stage.Committing? && StoresOk(cfg, st) && StageOk(cfg, st, pc.m, pc.stage)
    requires Allows(cfg, st, pc.stage, c) && RowsConsistent(st.db.jobs, st.q.jobs, pc)
    ensures var st', pc', k := Effects(cfg, st, pc.m, pc.stage, c), AfterWork(cfg, st, pc, c), pc.m.jobId;
            && st'.q == st.q
            && (k in st'.db.jobs ==> k in st.q.jobs && RowConsistent(st'.db.jobs[k], st.q.jobs[k], Attempting(pc', k)))
            && (forall j :: j != k ==> (j in st'.db.jobs <==> j in st.db.jobs) && (j in st.db.jobs ==>
               st'.db.jobs[j] == st.db.jobs[j]))
  {
    hide StoresOk, VerdictFor, EffectsOf, Script, CommitOf, ClassifyProcessingError, TripleOf, FramesInserted,
      NoFramesOf;
    CommitCondition(cfg, st, pc.stage.job, pc.stage.verdict, c);
    var k := pc.m.jobId;
    if k in st.db.jobs {
      assert RowConsistent(st.db.jobs[k], st.q.jobs[k], Attempting(pc, k));
    }
  }

  lemma NotMarking(batch: seq<Message>, j: string)
    ensures !Attempting(NextMessage(batch), j) && !Attempting(Idle, j)
  {
  }

  lemma QuietRows(rows: Jobs, jobs: Jobs, jobs': Jobs, pc: Pc, pc': Pc)
    requires RowsConsistent(rows, jobs, pc) && forall j :: Attempting(pc', j) ==> Attempting(pc, j)
    requires forall j :: j in jobs ==> j in jobs' && jobs'[j] == jobs[j]
    ensures RowsConsistent(rows, jobs', pc')
  {
    hide Attempting;
    forall j | j in rows
      ensures j in jobs' && RowConsistent(rows[j], jobs'[j], Attempting(pc', j))
    {
      assert RowConsistent(rows[j], jobs[j], Attempting(pc, j));
    }
  }

  lemma WorkKeepsRows(cfg: Config, st: Stores, pc: Pc, c: Choice)
    requires StoresOk(cfg, st) && pc.Busy? && StageOk(cfg, st, pc.m, pc.stage) && SoloStage(cfg, st.q, pc.m, pc.stage)
    requires Allows(cfg, st, pc.stage, c) && FinishOk(st.q.jobs, st.db.results)
    requires RowsConsistent(st.db.jobs, st.q.jobs, pc)
    ensures RowsConsistent(Effects(cfg, st, pc.m, pc.stage, c).db.jobs, Effects(cfg, st, pc.m, pc.stage, c).q.jobs,
                           AfterWork(cfg, st, pc, c))
  {
    hide StoresOk, FinishOk, Allows, Pending, RowConsistent, StageOk, Effects, AfterWork, Attempting;
    var st', pc', k := Effects(cfg, st, pc.m, pc.stage, c), AfterWork(cfg, st, pc, c), pc.m.jobId;
    if pc.stage.Acking? {
      AckRows(cfg, st, pc, c);
    } else {
      if pc.stage.Committing? {
        CommitRow(cfg, st, pc, c);
      } else {
        OwnRow(cfg, st, pc, c);
      }
      StageJobs(cfg, st, pc.m, pc.stage, c);
      OthersNotMarked(cfg, st, pc, c);
      hide SoloStage, StageChange;
      assert forall j :: j in st.q.jobs && j != k ==> st'.q.jobs[j] == st.q.jobs[j] by {
        StageJobsKept(st.q.jobs, st'.q.jobs, k, pc.stage, c);
      }
      forall j | j in st'.db.jobs
        ensures j in st'.q.jobs && RowConsistent(st'.db.jobs[j], st'.q.jobs[j], Attempting(pc', j))
      {
        StageJobsKept(st.q.jobs, st'.q.jobs, k, pc.stage, c);
        if j != k {
          assert RowConsistent(st.db.jobs[j], st.q.jobs[j], Attempting(pc, j));
        }
      }
    }
  }

  lemma StageJobsKept(jobs: Jobs, jobs': Jobs, k: string, stage: Stage, c: Choice)
    requires StageChange(jobs, jobs', k, stage, c)
    ensures k in jobs && jobs'.Keys == jobs.Keys && forall j :: j in jobs && j != k ==> jobs'[j] == jobs[j]
  {
  }

  lemma OthersNotMarked(cfg: Config, st: Stores, pc: Pc, c: Choice)
    requires pc.Busy? && !pc.stage.Acking?
    ensures forall j :: j != pc.m.jobId ==> !Attempting(pc, j) && !Attempting(AfterWork(cfg, st, pc, c), j)
  {
    hide NextStage;
  }

  lemma AckRows(cfg: Config, st: Stores, pc: Pc, c: Choice)
    requires pc.Busy? && pc.stage.Acking? && RowsConsistent(st.db.jobs, st.q.jobs, pc)
    ensures RowsConsistent(Effects(cfg, st, pc.m, pc.stage, c).db.jobs, Effects(cfg, st, pc.m, pc.stage, c).q.jobs,
                           AfterWork(cfg, st, pc, c))
  {
    hide RowConsistent, NextMessage;
    forall j
      ensures !Attempting(NextMessage(pc.rest), j)
    {
      NotMarking(pc.rest, j);
    }
    QuietRows(st.db.jobs, st.q.jobs, st.q.jobs, pc, NextMessage(pc.rest));
  }

  lemma StepKeepsRows(cfg: Config, s: System, e: Event)
    requires SystemOk(cfg, s) && Solo(cfg, s) && Enabled(cfg, s, e)
    requires FinishOk(s.stores.q.jobs, s.stores.db.results)
    requires RowsConsistent(s.stores.db.jobs, s.stores.q.jobs, s.workers[0])
    ensures var s' := Apply(cfg, s, e);
            |s'.workers| == 1 && RowsConsistent(s'.stores.db.jobs, s'.stores.q.jobs, s'.workers[0])
  {
    hide StoresOk, StageOk, SoloStage, OnePublisher, Effects, AfterWork, Allows, MissedBy, NoneLost, NextMessage,
      FinishOk, RowsConsistent, Attempting, ReadMessages;
    var st, pc := s.stores, s.workers[0];
    forall j
      ensures !Attempting(NextMessage(ReadMessages(st.q, cfg.readCount)), j) && !Attempting(Idle, j)
    {
      NotMarking(ReadMessages(st.q, cfg.readCount), j);
    }
    match e {
      case Work(w, c) => WorkKeepsRows(cfg, st, pc, c);
      case ApiEnqueue(r, now) => QuietRows(st.db.jobs, st.q.jobs, Enqueue(st.q, r, now).jobs, pc, pc);
      case Read(w) => QuietRows(st.db.jobs, st.q.jobs, st.q.jobs, pc, NextMessage(ReadMessages(st.q, cfg.readCount)));
      case Cut(w) => QuietRows(st.db.jobs, st.q.jobs, st.q.jobs, pc, Idle);
    }
  }

  lemma {:induction false} RunKeepsRows(cfg: Config, s: System, events: seq<Event>)
    requires SystemOk(cfg, s) && Solo(cfg, s) && ValidRun(cfg, s, events)
    requires FinishOk(s.stores.q.jobs, s.stores.db.results)
    requires RowsConsistent(s.stores.db.jobs, s.stores.q.jobs, s.workers[0])
    ensures var s' := Run(cfg, s, events);
            |s'.workers| == 1 && RowsConsistent(s'.stores.db.jobs, s'.stores.q.jobs, s'.workers[0])
    decreases |events|
  {
    hide SystemOk, FinishOk, RowsConsistent, Apply, Enabled, SoloOk;
    if events != [] {
      StepKeepsSafe(cfg, s, events[0]);
      StepKeepsSolo(cfg, s, events[0]);
      StepKeepsFinish(cfg, s, events[0], {});
      StepKeepsRows(cfg, s, events[0]);
      RunKeepsRows(cfg, Apply(cfg, s, events[0]), events[1..]);
    }
  }

  /** Likewise every Postgres row has a finish time exactly when it is CLASSIFIED or FAILED_TERMINAL, and is
      FAILED_TERMINAL only if the queue record is. */
  lemma RowsAgreeWithStatus(cfg: Config, events: seq<Event>, s: System, j: string)
    requires Reaches(cfg, 1, events, s) && j in s.stores.db.jobs
    ensures s.stores.db.jobs[j].finishedAt.Some? <==> s.stores.db.jobs[j].status in {Classified, FailedTerminal}
    ensures s.stores.db.jobs[j].status == FailedTerminal ==>
              j in s.stores.q.jobs && s.stores.q.jobs[j].status == FailedTerminal
  {
    InitSafe(cfg, 1);
    InitExact(cfg);
    hide SystemOk, SoloOk, Attempting;
    RunKeepsRows(cfg, Init(1), events);
  }
}
