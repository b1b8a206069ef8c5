/** Attempt accounting with one worker: the queue's attempts stay within the configured budget plus the cuts, and the
    Postgres row counts every attempt it did not miss. */
module Attempts {
  import opened Common
  import opened VideoJobs
  import opened Failures
  import opened QueueState
  import opened PostgresState
  import opened Pipeline
  import opened PipelineSafety
  import opened SingleWorker

  type Jobs = map<string, VideoJob>

  function Budget(cfg: Config): nat {
    if cfg.maxAttempts < 1 then 1 else cfg.maxAttempts
  }

  predicate UnderWayStage(stage: Stage) {
    stage.MarkingProcessing? || stage.Computing? || stage.Moving? || stage.Committing? || stage.Publishing?
    || stage.Finishing? || stage.RecordingFailure?
  }

  /** The job whose PROCESSING update the worker has made and not yet replaced. */
  function ActiveJob(pc: Pc): Option<string> {
    if pc.Busy? && UnderWayStage(pc.stage) then Some(pc.m.jobId) else None
  }

  /** The job whose attempt is still to be marked in Postgres. */
  function MarkJob(pc: Pc): Option<string> {
    if pc.Busy? && pc.stage.MarkingProcessing? then Some(pc.m.jobId) else None
  }

  predicate WithinBudget(cfg: Config, x: VideoJob, active: bool, cuts: nat) {
    && x.attempts <= Budget(cfg) + cuts
    && (x.status == Queued ==> x.attempts == 0)
    && (x.status == FailedRetryable ==> x.attempts < cfg.maxAttempts)
    && (x.status == Processing && !active ==> x.attempts < Budget(cfg) + cuts)
  }

  predicate AttemptsOk(cfg: Config, jobs: Jobs, active: Option<string>, cuts: multiset<string>) {
    forall j :: j in jobs ==> WithinBudget(cfg, jobs[j], active == Some(j), cuts[j])
  }

  predicate Balanced(row: nat, record: nat, missed: nat, pending: bool) {
    row + missed + (if pending then 1 else 0) == record
  }

  /** Conservation: what the row counted, what it missed and what is still to be marked add up to the queue's count. */
  ghost predicate CountsAgree(jobs: Jobs, rows: Jobs, mark: Option<string>, missed: multiset<string>) {
    && (forall j :: j in rows ==> j in jobs && Balanced(rows[j].attempts, jobs[j].attempts, missed[j], mark == Some(j)))
    && (forall j :: j !in rows ==> missed[j] == 0)
  }

  ghost predicate Accounted(cfg: Config, s: System) {
    && |s.workers| == 1
    && AttemptsOk(cfg, s.stores.q.jobs, ActiveJob(s.workers[0]), s.cuts)
    && CountsAgree(s.stores.q.jobs, s.stores.db.jobs, MarkJob(s.workers[0]), s.missed)
  }

  // ---------- queue records ----------

  /** Only the message's job changes its record, and only as the stage says. */
  predicate StageChange(jobs: Jobs, jobs': Jobs, k: string, stage: Stage, c: Choice) {
    && k in jobs && jobs'.Keys == jobs.Keys
    && (forall j :: j in jobs && j != k ==> jobs'[j] == jobs[j])
    && jobs'[k].attempts == (if stage.StartProcessing? then jobs[k].attempts + 1 else jobs[k].attempts)
    && jobs'[k].status ==
       match stage
       case AdoptClassified(_) => Classified
       case StartProcessing(_, _) => Processing
       case Finishing(_) => if c.outcome.Raised? then jobs[k].status else Classified
       case RecordingFailure(_, f) => f.status
       case _ => jobs[k].status
  }

  lemma StageJobs(cfg: Config, st: Stores, m: Message, stage: Stage, c: Choice)
    requires m.jobId in st.q.jobs && StageOk(cfg, st, m, stage)
    ensures StageChange(st.q.jobs, Effects(cfg, st, m, stage, c).q.jobs, m.jobId, stage, c)
  {
    if SetsStatus(stage) {
      StatusJobs(cfg, st, m, stage, c);
    } else {
      hide Effects;
      OtherJobs(cfg, st, m, stage, c);
    }
  }

  lemma StatusJobs(cfg: Config, st: Stores, m: Message, stage: Stage, c: Choice)
    requires m.jobId in st.q.jobs && StageOk(cfg, st, m, stage) && SetsStatus(stage)
    ensures StageChange(st.q.jobs, Effects(cfg, st, m, stage, c).q.jobs, m.jobId, stage, c)
  {
    hide VerdictFor, EffectsOf, Script, TripleOf;
  }

  /** The other stages leave the records alone. */
  lemma OtherJobs(cfg: Config, st: Stores, m: Message, stage: Stage, c: Choice)
    requires !SetsStatus(stage)
    ensures Effects(cfg, st, m, stage, c).q.jobs == st.q.jobs
  {
    hide EffectsOf, Script, CommitOf, MarkProcessing, SetFailed;
  }

  /** When the stage's job is active before and after the step. */
  lemma ActiveAfter(cfg: Config, st: Stores, pc: Pc, c: Choice)
    requires pc.Busy? && Allows(cfg, st, pc.stage, c)
    ensures ActiveJob(AfterWork(cfg, st, pc, c)) ==
            if pc.stage.StartProcessing?
               || (UnderWayStage(pc.stage) && !pc.stage.RecordingFailure? && !(pc.stage.Finishing? && c.outcome.Done?))
            then Some(pc.m.jobId) else None
    ensures MarkJob(AfterWork(cfg, st, pc, c)) == if pc.stage.StartProcessing? then Some(pc.m.jobId) else None
  {
    hide EffectsOf, Script, VerdictFor, CommitOf, IsRetryable, ErrorCode, ErrorMessage;
  }

  lemma WorkKeepsAttempts(cfg: Config, st: Stores, pc: Pc, c: Choice, cuts: multiset<string>)
    requires pc.Busy? && StageOk(cfg, st, pc.m, pc.stage) && SoloStage(cfg, st.q, pc.m, pc.stage)
             && Allows(cfg, st, pc.stage, c)
    requires AttemptsOk(cfg, st.q.jobs, ActiveJob(pc), cuts)
    ensures AttemptsOk(cfg, Effects(cfg, st, pc.m, pc.stage, c).q.jobs, ActiveJob(AfterWork(cfg, st, pc, c)), cuts)
  {
    hide Effects, AfterWork, Pending, VerdictFor, EffectsOf, Script, CommitOf;
    StageJobs(cfg, st, pc.m, pc.stage, c);
    ActiveAfter(cfg, st, pc, c);
    var jobs, jobs', k := st.q.jobs, Effects(cfg, st, pc.m, pc.stage, c).q.jobs, pc.m.jobId;
    var active, active' := ActiveJob(pc), ActiveJob(AfterWork(cfg, st, pc, c));
    assert WithinBudget(cfg, jobs[k], active == Some(k), cuts[k]);
    assert WithinBudget(cfg, jobs'[k], active' == Some(k), cuts[k]);
    hide StageOk, SoloStage, Allows, ActiveJob, WithinBudget;
    forall j | j in jobs'
      ensures WithinBudget(cfg, jobs'[j], active' == Some(j), cuts[j])
    {
      assert WithinBudget(cfg, jobs[j], active == Some(j), cuts[j]);
    }
  }

  // ---------- Postgres rows ----------

  lemma MarkedRow(db: Db, job: VideoJob, now: Time)
    requires job.attempts > 0
    ensures Counted(db.jobs, MarkProcessing(db, job, now).jobs, job.jobId, job.attempts)
  {
    var k, db1 := job.jobId, InsertJobOrIgnore(db, FirstRow(job));
    assert db1.jobs == db.jobs || (k !in db.jobs && db1.jobs == db.jobs[k := FirstRow(job)]);
    hide InsertJobOrIgnore, TripleTaken, TripleOf;
    assert MarkProcessing(db, job, now) == SetProcessing(db1, k, now);
    hide MarkProcessing;
  }

  /** The rows after marking one attempt of job `k`, whose queue record counts `attempts`. */
  predicate Counted(rows: Jobs, rows': Jobs, k: string, attempts: nat) {
    && (forall j :: j in rows && j != k ==> j in rows' && rows'[j] == rows[j])
    && (forall j :: j in rows' && j != k ==> j in rows)
    && (k in rows ==> k in rows' && rows'[k].attempts == rows[k].attempts + 1)
    && (k !in rows && k in rows' ==> rows'[k].attempts == attempts)
  }

  lemma MarkKeepsCounts(jobs: Jobs, rows: Jobs, rows': Jobs, k: string, missed: multiset<string>)
    requires CountsAgree(jobs, rows, Some(k), missed) && k in jobs && Counted(rows, rows', k, jobs[k].attempts)
    ensures CountsAgree(jobs, rows', None, missed)
  {
    forall j | j in rows'
      ensures j in jobs && Balanced(rows'[j].attempts, jobs[j].attempts, missed[j], false)
    {
      if j in rows {
        assert Balanced(rows[j].attempts, jobs[j].attempts, missed[j], j == k);
      } else {
        assert j == k;
      }
    }
  }

  lemma MissKeepsCounts(jobs: Jobs, rows: Jobs, k: string, missed: multiset<string>)
    requires CountsAgree(jobs, rows, Some(k), missed)
    ensures CountsAgree(jobs, rows, None, missed + if k in rows then multiset{k} else multiset{})
  {
    var more := missed + if k in rows then multiset{k} else multiset{};
    forall j | j in rows
      ensures j in jobs && Balanced(rows[j].attempts, jobs[j].attempts, more[j], false)
    {
      assert Balanced(rows[j].attempts, jobs[j].attempts, missed[j], j == k);
    }
  }

  predicate SameCounts(rows: Jobs, rows': Jobs) {
    rows'.Keys == rows.Keys && forall j :: j in rows ==> rows'[j].attempts == rows[j].attempts
  }

  /** Every stage but the mark leaves the rows' attempts alone. */
  lemma OtherRows(cfg: Config, st: Stores, m: Message, stage: Stage, c: Choice)
    requires StoresOk(cfg, st) && StageOk(cfg, st, m, stage) && Allows(cfg, st, stage, c) && !stage.MarkingProcessing?
    ensures SameCounts(st.db.jobs, Effects(cfg, st, m, stage, c).db.jobs)
  {
    hide StoresOk, EffectsOf, Script, VerdictFor, CommitOf;
    if stage.Committing? && !c.outcome.Raised? {
      hide FramesInserted, NoFramesOf;
      CommitCondition(cfg, st, stage.job, stage.verdict, c);
    }
  }

  lemma OtherKeepsCounts(jobs: Jobs, jobs': Jobs, rows: Jobs, rows': Jobs, k: string, stage: Stage, c: Choice,
                         missed: multiset<string>)
    requires CountsAgree(jobs, rows, None, missed) && SameCounts(rows, rows') && StageChange(jobs, jobs', k, stage, c)
    ensures CountsAgree(jobs', rows', if stage.StartProcessing? then Some(k) else None, missed)
  {
    forall j | j in rows'
      ensures j in jobs' && Balanced(rows'[j].attempts, jobs'[j].attempts, missed[j], stage.StartProcessing? && j == k)
    {
      assert Balanced(rows[j].attempts, jobs[j].attempts, missed[j], false);
    }
  }

  lemma MarkStage(cfg: Config, st: Stores, pc: Pc, c: Choice)
    requires pc.Busy? && pc.stage.MarkingProcessing?
    ensures Effects(cfg, st, pc.m, pc.stage, c).q == st.q
    ensures Effects(cfg, st, pc.m, pc.stage, c).db ==
            if c.outcome.Raised? then st.db else MarkProcessing(st.db, pc.stage.job, c.now)
  {
  }

  lemma WorkKeepsCounts(cfg: Config, st: Stores, pc: Pc, c: Choice, missed: multiset<string>)
    requires StoresOk(cfg, st) && pc.Busy? && StageOk(cfg, st, pc.m, pc.stage) && SoloStage(cfg, st.q, pc.m, pc.stage)
    requires Allows(cfg, st, pc.stage, c) && CountsAgree(st.q.jobs, st.db.jobs, MarkJob(pc), missed)
    ensures var st' := Effects(cfg, st, pc.m, pc.stage, c);
            CountsAgree(st'.q.jobs, st'.db.jobs, MarkJob(AfterWork(cfg, st, pc, c)),
                        missed + MissedBy(st, pc, !c.outcome.Raised?))
  {
    hide StoresOk, Effects, AfterWork, CountsAgree, Pending, VerdictFor, EffectsOf, Script, CommitOf, MarkProcessing;
    ActiveAfter(cfg, st, pc, c);
    StageJobs(cfg, st, pc.m, pc.stage, c);
    var st', k := Effects(cfg, st, pc.m, pc.stage, c), pc.m.jobId;
    if pc.stage.MarkingProcessing? {
      MarkStage(cfg, st, pc, c);
      if c.outcome.Raised? {
        MissKeepsCounts(st.q.jobs, st.db.jobs, k, missed);
      } else {
        MarkedRow(st.db, pc.stage.job, c.now);
        hide Counted;
        MarkKeepsCounts(st.q.jobs, st.db.jobs, st'.db.jobs, k, missed);
        assert missed + multiset{} == missed;
      }
    } else {
      OtherRows(cfg, st, pc.m, pc.stage, c);
      hide StageChange, SameCounts;
      OtherKeepsCounts(st.q.jobs, st'.q.jobs, st.db.jobs, st'.db.jobs, k, pc.stage, c, missed);
      assert missed + multiset{} == missed;
    }
  }

  // ---------- one step ----------

  lemma EnqueueKeepsAccounts(cfg: Config, q: Queue, rows: Jobs, pc: Pc, cuts: multiset<string>,
                             missed: multiset<string>, r: VideoDetectRequest, now: Time)
    requires AttemptsOk(cfg, q.jobs, ActiveJob(pc), cuts) && CountsAgree(q.jobs, rows, MarkJob(pc), missed)
    ensures AttemptsOk(cfg, Enqueue(q, r, now).jobs, ActiveJob(pc), cuts)
    ensures CountsAgree(Enqueue(q, r, now).jobs, rows, MarkJob(pc), missed)
  {
    var jobs, jobs' := q.jobs, Enqueue(q, r, now).jobs;
    hide ActiveJob, MarkJob, Balanced;
    assert forall j :: j in jobs ==> j in jobs' && jobs'[j] == jobs[j];
    assert forall j :: j in jobs' && j !in jobs ==> jobs'[j].attempts == 0 && jobs'[j].status == Queued;
    hide Enqueue;
    forall j | j in jobs'
      ensures WithinBudget(cfg, jobs'[j], ActiveJob(pc) == Some(j), cuts[j])
    {
      if j in jobs {
        assert WithinBudget(cfg, jobs[j], ActiveJob(pc) == Some(j), cuts[j]);
      }
    }
  }

  lemma CutKeepsAttempts(cfg: Config, jobs: Jobs, pc: Pc, cuts: multiset<string>)
    requires AttemptsOk(cfg, jobs, ActiveJob(pc), cuts)
    ensures AttemptsOk(cfg, jobs, None, cuts + if pc.Busy? then multiset{pc.m.jobId} else multiset{})
  {
    forall j | j in jobs
      ensures WithinBudget(cfg, jobs[j], false, (cuts + if pc.Busy? then multiset{pc.m.jobId} else multiset{})[j])
    {
      assert WithinBudget(cfg, jobs[j], ActiveJob(pc) == Some(j), cuts[j]);
    }
  }

  lemma CutKeepsCounts(st: Stores, pc: Pc, missed: multiset<string>)
    requires CountsAgree(st.q.jobs, st.db.jobs, MarkJob(pc), missed)
    ensures CountsAgree(st.q.jobs, st.db.jobs, None, missed + MissedBy(st, pc, false))
  {
    if pc.Busy? && pc.stage.MarkingProcessing? {
      hide CountsAgree;
      MissKeepsCounts(st.q.jobs, st.db.jobs, pc.m.jobId, missed);
    } else {
      assert missed + multiset{} == missed;
    }
  }

  lemma ReadIsInactive(batch: seq<Message>)
    ensures ActiveJob(NextMessage(batch)) == None && MarkJob(NextMessage(batch)) == None
  {
  }

  lemma StepKeepsAccounts(cfg: Config, s: System, e: Event)
    requires SystemOk(cfg, s) && Solo(cfg, s) && Accounted(cfg, s) && Enabled(cfg, s, e)
    ensures Accounted(cfg, Apply(cfg, s, e))
  {
    hide StoresOk, StageOk, SoloStage, NoneLost, OnePublisher, AttemptsOk, CountsAgree, Effects, AfterWork, Allows,
      MissedBy, Enqueue, ReadMessages, NextMessage, ActiveJob, MarkJob;
    var st, pc := s.stores, s.workers[0];
    match e {
      case ApiEnqueue(r, now) => EnqueueKeepsAccounts(cfg, st.q, st.db.jobs, pc, s.cuts, s.missed, r, now);
      case Read(w) =>
        IdleIsInactive();
        ReadIsInactive(ReadMessages(st.q, cfg.readCount));
      case Work(w, c) =>
        WorkKeepsCounts(cfg, st, pc, c, s.missed);
        WorkKeepsAttempts(cfg, st, pc, c, s.cuts);
      case Cut(w) =>
        IdleIsInactive();
        CutKeepsAttempts(cfg, st.q.jobs, pc, s.cuts);
        CutKeepsCounts(st, pc, s.missed);
    }
  }

  lemma IdleIsInactive()
    ensures ActiveJob(Idle) == None && MarkJob(Idle) == None
  {
  }
}
