/** What holds in every reachable state, for any number of workers, retries, cuts and lost answers: committed data is
    complete, effects are causal, and each job's effects are a prefix of one script. */
module PipelineSafety {
  import opened Common
  import opened VideoJobs
  import opened Failures
  import opened QueueState
  import opened ModerationPolicy
  import opened Aggregation
  import opened PostgresState
  import opened Pipeline

  // ---------- the invariant ----------

  /** A job's effects from its commit on. External moves may be repeated by retries and are not counted here. */
  function EffectsOf(log: seq<Effect>, jobId: string): seq<Effect> {
    if log == [] then [] else
    var last := log[|log| - 1];
    EffectsOf(log[..|log| - 1], jobId) + (if last.jobId == jobId && !last.Moved? then [last] else [])
  }

  /** The frame rows of the job are the given frames, in order. */
  predicate StoredAs(db: Db, jobId: string, frames: seq<FrameResult>) {
    forall i :: 0 <= i < |frames| ==>
      HasFrame(db, jobId, i) && db.frames[FrameId(jobId, i)].frame == frames[i]
          && db.frames[FrameId(jobId, i)].jobId == jobId
  }

  /** The stored result is the aggregate of the frames stored with it. */
  ghost predicate Backed(cfg: Config, db: Db, jobId: string)
    requires jobId in db.results && jobId in db.jobs
  {
    exists frames :: StoredAs(db, jobId, frames) && VerdictFor(cfg, db.jobs[jobId], Verdict(frames, db.results[jobId]))
  }

  /** Postgres rows belong to queue jobs, agree with them on the work to do, and are unique per triple. */
  predicate RowsOk(jobs: map<string, VideoJob>, rows: map<string, VideoJob>) {
    && (forall j :: j in rows ==> j in jobs && rows[j].jobId == j && TripleOf(rows[j]) == TripleOf(jobs[j]))
    && (forall j, k {:trigger TripleOf(rows[j]), TripleOf(rows[k])} ::
          j in rows && k in rows && TripleOf(rows[j]) == TripleOf(rows[k]) ==> j == k)
  }

  ghost predicate ResultsOk(cfg: Config, db: Db) {
    && (forall j :: j in db.results ==> j in db.jobs && db.results[j].jobId == j)
    && (forall j {:trigger Backed(cfg, db, j)} :: j in db.results ==> Backed(cfg, db, j))
  }

  /** Every frame row belongs to a committed result and is counted by it. */
  predicate FramesOwned(frames: map<string, FrameRow>, results: map<string, VideoResult>) {
    && FramesKeyed(frames)
    && forall k :: k in frames ==>
         frames[k].jobId in results && frames[k].frame.frameIndex < results[frames[k].jobId].totalFrameCount
  }

  /** The action of a required move, kept under its own id, with the video, threshold and score of the result. */
  predicate ActionFits(id: string, a: StorageAction, r: VideoResult) {
    && r.moveRequired && a.actionId == id && a.videoId == r.videoId
    && a.threshold == r.moveThreshold && a.finalScore == r.finalScore
  }

  /** One action per result that requires a move, none for the others. */
  predicate ActionsOk(actions: map<string, StorageAction>, results: map<string, VideoResult>) {
    && (forall a :: a in actions ==>
          actions[a].jobId in results && ActionFits(a, actions[a], results[actions[a].jobId]))
    && (forall j {:trigger HasAction(actions, j)} :: j in results && results[j].moveRequired ==> HasAction(actions, j))
    && (forall a, b :: a in actions && b in actions && actions[a].jobId == actions[b].jobId ==> a == b)
  }

  predicate HasAction(actions: map<string, StorageAction>, jobId: string) {
    exists a :: a in actions && actions[a].jobId == jobId
  }

  predicate MovedBeforeCommit(log: seq<Effect>, jobId: string) {
    exists i, k :: 0 <= i < k < |log| && log[i] == Moved(jobId) && log[k].Committed? && log[k].jobId == jobId
  }

  /** The effects of a job form a prefix of its script, empty exactly until the commit; a required move came first. */
  ghost predicate LogOk(results: map<string, VideoResult>, log: seq<Effect>) {
    && (forall j {:trigger EffectsOf(log, j)} :: j !in results ==> EffectsOf(log, j) == [])
    && (forall j {:trigger EffectsOf(log, j)} :: j in results ==>
          EffectsOf(log, j) != [] && EffectsOf(log, j) <= Script(j, results[j]))
    && (forall j {:trigger MovedBeforeCommit(log, j)} :: j in results && results[j].moveRequired ==>
       MovedBeforeCommit(log, j))
  }

  /** CLASSIFIED, in either store, only with a committed result. */
  predicate ClassifiedOk(jobs: map<string, VideoJob>, results: map<string, VideoResult>) {
    forall j :: j in jobs && jobs[j].status == Classified ==> j in results
  }

  ghost predicate StoresOk(cfg: Config, st: Stores) {
    && ValidQueue(st.q) && RowsOk(st.q.jobs, st.db.jobs)
    && ResultsOk(cfg, st.db) && FramesOwned(st.db.frames, st.db.results) && ActionsOk(st.db.actions, st.db.results)
    && ClassifiedOk(st.q.jobs, st.db.results) && ClassifiedOk(st.db.jobs, st.db.results)
    && LogOk(st.db.results, st.log)
  }

  /** A local copy names the message's job and the same work. */
  predicate Copy(st: Stores, m: Message, job: VideoJob) {
    m.jobId in st.q.jobs && job.jobId == m.jobId && TripleOf(job) == TripleOf(st.q.jobs[m.jobId])
  }

  predicate RightFailure(f: ProcessingFailure) {
    f.status in {FailedRetryable, FailedTerminal} && (f.retryable <==> f.status == FailedRetryable)
  }

  predicate StageOk(cfg: Config, st: Stores, m: Message, stage: Stage) {
    match stage
    case LookUpJob => true
    case LookUpAgain(job) => Copy(st, m, job)
    case LookUpPersisted(job, current) => Copy(st, m, job) && Copy(st, m, current)
    case AdoptClassified(job) => Copy(st, m, job) && m.jobId in st.db.results
    case StartProcessing(job, current) => Copy(st, m, job) && Copy(st, m, current)
    case MarkingProcessing(job) => Copy(st, m, job)
    case Computing(job) => Copy(st, m, job)
    case Moving(job, v) => Copy(st, m, job) && VerdictFor(cfg, job, v)
    case Committing(job, v) =>
      Copy(st, m, job) && VerdictFor(cfg, job, v) && (v.result.moveRequired ==> Moved(m.jobId) in st.log)
    case Publishing(job, v, todo) =>
      Copy(st, m, job) && m.jobId in st.db.results && todo != []
      && EffectsOf(st.log, m.jobId) + todo == Script(m.jobId, st.db.results[m.jobId])
    case Finishing(job) => Copy(st, m, job) && m.jobId in st.db.results
    case RecordingFailure(job, f) => Copy(st, m, job) && RightFailure(f)
    case MarkingFailed(job, f) => Copy(st, m, job) && RightFailure(f)
    case Requeueing(jobId) => jobId == m.jobId && jobId in st.q.jobs
    case DeadLettering(_, _) => true
    case Acking => true
  }

  predicate LocalOk(cfg: Config, st: Stores, pc: Pc) {
    pc.Busy? ==>
      pc.m in st.q.messages && (forall x :: x in pc.rest ==> x in st.q.messages) && StageOk(cfg, st, pc.m, pc.stage)
  }

  predicate Publisher(pc: Pc, jobId: string) {
    pc.Busy? && pc.stage.Publishing? && pc.m.jobId == jobId
  }

  /** At most one worker is publishing a given job. */
  predicate OnePublisher(workers: seq<Pc>) {
    forall v, w :: 0 <= v < w < |workers| ==>
      !(workers[v].Busy? && workers[v].stage.Publishing? && Publisher(workers[w], workers[v].m.jobId))
  }

  ghost predicate SystemOk(cfg: Config, s: System) {
    && StoresOk(cfg, s.stores)
    && (forall w :: 0 <= w < |s.workers| ==> LocalOk(cfg, s.stores, s.workers[w]))
    && OnePublisher(s.workers)
  }

  // ---------- monotonicity ----------

  predicate SameWork(rows: map<string, VideoJob>, rows': map<string, VideoJob>) {
    forall j :: j in rows ==> j in rows' && TripleOf(rows'[j]) == TripleOf(rows[j])
  }

  predicate Kept<T(==)>(m: map<string, T>, m': map<string, T>) {
    forall k :: k in m ==> k in m' && m'[k] == m[k]
  }

  /** Nothing that was stored, committed or logged is ever taken back. */
  predicate Grows(st: Stores, st': Stores) {
    && SameWork(st.q.jobs, st'.q.jobs)
    && st.q.messages <= st'.q.messages
    && SameWork(st.db.jobs, st'.db.jobs)
    && Kept(st.db.results, st'.db.results)
    && Kept(st.db.frames, st'.db.frames)
    && Kept(st.db.actions, st'.db.actions)
    && st.log <= st'.log
  }

  lemma GrowsTransitive(a: Stores, b: Stores, c: Stores)
    requires Grows(a, b) && Grows(b, c)
    ensures Grows(a, c)
  {
  }

  lemma LocalStable(cfg: Config, st: Stores, st': Stores, pc: Pc)
    requires Grows(st, st') && LocalOk(cfg, st, pc)
    requires pc.Busy? && pc.stage.Publishing? ==> EffectsOf(st'.log, pc.m.jobId) == EffectsOf(st.log, pc.m.jobId)
    ensures LocalOk(cfg, st', pc)
  {
    hide VerdictFor, EffectsOf, Script;
  }

  lemma EffectsOfAppend(log: seq<Effect>, e: Effect, jobId: string)
    ensures EffectsOf(log + [e], jobId) == EffectsOf(log, jobId) + (if e.jobId == jobId && !e.Moved? then [e] else [])
  {
    assert (log + [e])[..|log|] == log;
  }

  // ---------- queue steps ----------

  lemma RowsStable(jobs: map<string, VideoJob>, jobs': map<string, VideoJob>, rows: map<string, VideoJob>)
    requires RowsOk(jobs, rows) && SameWork(jobs, jobs')
    ensures RowsOk(jobs', rows)
  {
  }

  lemma QueueUpdateKeeps(cfg: Config, st: Stores, q': Queue)
    requires StoresOk(cfg, st) && ValidQueue(q') && SameWork(st.q.jobs, q'.jobs) && st.q.messages <= q'.messages
    requires ClassifiedOk(q'.jobs, st.db.results)
    ensures StoresOk(cfg, st.(q := q')) && Grows(st, st.(q := q'))
  {
    hide ValidQueue, RowsOk, ResultsOk, FramesOwned, ActionsOk, LogOk, ClassifiedOk, SameWork;
    RowsStable(st.q.jobs, q'.jobs, st.db.jobs);
    SameWorkReflexive(st.db.jobs);
  }

  lemma StatusStep(cfg: Config, st: Stores, jobId: string, status: VideoJobStatus, code: Option<string>,
                   text: Option<string>, now: Time)
    requires StoresOk(cfg, st) && (status == Classified ==> jobId in st.db.results)
    ensures var st' := st.(q := UpdateStatus(st.q, jobId, status, code, text, now));
            StoresOk(cfg, st') && Grows(st, st')
  {
    hide RowsOk, ResultsOk, FramesOwned, ActionsOk, LogOk;
    UpdateKeepsValid(st.q, jobId, status, code, text, now);
    hide ValidQueue;
    QueueUpdateKeeps(cfg, st, UpdateStatus(st.q, jobId, status, code, text, now));
  }

  lemma EnqueueStep(cfg: Config, st: Stores, r: VideoDetectRequest, now: Time)
    requires StoresOk(cfg, st) && r.jobId != ""
    ensures var st' := st.(q := Enqueue(st.q, r, now)); StoresOk(cfg, st') && Grows(st, st')
  {
    hide RowsOk, ResultsOk, FramesOwned, ActionsOk, LogOk;
    EnqueueKeepsValid(st.q, r, now);
    hide ValidQueue;
    QueueUpdateKeeps(cfg, st, Enqueue(st.q, r, now));
  }

  lemma RequeueStep(cfg: Config, st: Stores, jobId: string)
    requires StoresOk(cfg, st)
    ensures var st' := st.(q := Requeue(st.q, jobId)); StoresOk(cfg, st') && Grows(st, st')
  {
    hide RowsOk, ResultsOk, FramesOwned, ActionsOk, LogOk, ClassifiedOk;
    RequeueKeepsValid(st.q, jobId);
    QueueUpdateKeeps(cfg, st, Requeue(st.q, jobId));
  }

  lemma AckStep(cfg: Config, st: Stores, m: Message)
    requires StoresOk(cfg, st) && m in st.q.messages
    ensures var st' := st.(q := Ack(st.q, m.id)); StoresOk(cfg, st') && Grows(st, st')
  {
    hide RowsOk, ResultsOk, FramesOwned, ActionsOk, LogOk, ClassifiedOk;
    AckKeepsValid(st.q, m.id);
    QueueUpdateKeeps(cfg, st, Ack(st.q, m.id));
  }

  lemma DeadLetterStep(cfg: Config, st: Stores, m: Message, code: string, text: string)
    requires StoresOk(cfg, st)
    ensures var st' := st.(q := AppendDeadLetter(st.q, m, code, text)); StoresOk(cfg, st') && Grows(st, st')
  {
    hide RowsOk, ResultsOk, FramesOwned, ActionsOk, LogOk, ClassifiedOk;
    QueueUpdateKeeps(cfg, st, AppendDeadLetter(st.q, m, code, text));
  }

  // ---------- job row steps ----------

  lemma BackedStable(cfg: Config, db: Db, db': Db, j: string)
    requires j in db.results && j in db.jobs && Backed(cfg, db, j)
    requires j in db'.results && db'.results[j] == db.results[j]
    requires j in db'.jobs && db'.jobs[j].jobId == db.jobs[j].jobId && TripleOf(db'.jobs[j]) == TripleOf(db.jobs[j])
    requires Kept(db.frames, db'.frames)
    ensures Backed(cfg, db', j)
  {
    var frames :| StoredAs(db, j, frames) && VerdictFor(cfg, db.jobs[j], Verdict(frames, db.results[j]));
    assert forall i :: 0 <= i < |frames| ==> HasFrame(db, j, i);
    assert StoredAs(db', j, frames);
    assert VerdictFor(cfg, db'.jobs[j], Verdict(frames, db'.results[j]));
  }

  /** Inserting or relabelling job rows without touching what identifies them. */
  lemma JobRowsStep(cfg: Config, st: Stores, rows: map<string, VideoJob>)
    requires StoresOk(cfg, st)
    requires SameWork(st.db.jobs, rows) && RowsOk(st.q.jobs, rows) && ClassifiedOk(rows, st.db.results)
    ensures var st' := st.(db := st.db.(jobs := rows)); StoresOk(cfg, st') && Grows(st, st')
  {
    var db' := st.db.(jobs := rows);
    hide ValidQueue, FramesOwned, ActionsOk, LogOk, ClassifiedOk, Backed;
    forall j | j in db'.results
      ensures j in db'.jobs && Backed(cfg, db', j)
    {
      BackedStable(cfg, st.db, db', j);
    }
    hide RowsOk;
  }

  lemma RowsAfterInsert(jobs: map<string, VideoJob>, db: Db, job: VideoJob)
    requires RowsOk(jobs, db.jobs) && job.jobId in jobs && TripleOf(job) == TripleOf(jobs[job.jobId])
    ensures var db' := InsertJobOrIgnore(db, job);
            db' == db.(jobs := db'.jobs) && RowsOk(jobs, db'.jobs) && SameWork(db.jobs, db'.jobs)
  {
    if job.jobId in db.jobs || TripleTaken(db, TripleOf(job)) {
      SameWorkReflexive(db.jobs);
    } else {
      RowsAfterNew(jobs, db.jobs, job);
    }
    hide RowsOk, SameWork, TripleTaken;
  }

  lemma RowsAfterNew(jobs: map<string, VideoJob>, rows: map<string, VideoJob>, job: VideoJob)
    requires RowsOk(jobs, rows) && job.jobId in jobs && TripleOf(job) == TripleOf(jobs[job.jobId])
    requires job.jobId !in rows && forall j :: j in rows ==> TripleOf(rows[j]) != TripleOf(job)
    ensures RowsOk(jobs, rows[job.jobId := job]) && SameWork(rows, rows[job.jobId := job])
  {
    hide TripleOf;
  }

  lemma RowsAfterRelabel(jobs: map<string, VideoJob>, rows: map<string, VideoJob>, row: VideoJob)
    requires RowsOk(jobs, rows) && row.jobId in rows && TripleOf(row) == TripleOf(rows[row.jobId])
    ensures RowsOk(jobs, rows[row.jobId := row]) && SameWork(rows, rows[row.jobId := row])
  {
  }

  lemma RowsAfterMark(jobs: map<string, VideoJob>, db: Db, job: VideoJob, now: Time)
    requires RowsOk(jobs, db.jobs) && job.jobId in jobs && TripleOf(job) == TripleOf(jobs[job.jobId])
    ensures var db' := MarkProcessing(db, job, now);
            db' == db.(jobs := db'.jobs) && RowsOk(jobs, db'.jobs) && SameWork(db.jobs, db'.jobs)
  {
    var db1 := InsertJobOrIgnore(db, FirstRow(job));
    RowsAfterInsert(jobs, db, FirstRow(job));
    if job.jobId in db1.jobs {
      RowsAfterRelabel(jobs, db1.jobs, SetProcessing(db1, job.jobId, now).jobs[job.jobId]);
    }
  }

  lemma MarkProcessingStep(cfg: Config, st: Stores, job: VideoJob, now: Time)
    requires StoresOk(cfg, st) && job.jobId in st.q.jobs && TripleOf(job) == TripleOf(st.q.jobs[job.jobId])
    ensures var st' := st.(db := MarkProcessing(st.db, job, now)); StoresOk(cfg, st') && Grows(st, st')
  {
    hide ValidQueue, ResultsOk, FramesOwned, ActionsOk, LogOk, RowsOk, SameWork, Kept;
    RowsAfterMark(st.q.jobs, st.db, job, now);
    JobRowsStep(cfg, st, MarkProcessing(st.db, job, now).jobs);
  }

  lemma SetFailedStep(cfg: Config, st: Stores, jobId: string, status: VideoJobStatus, code: string, text: string,
                      now: Time)
    requires StoresOk(cfg, st) && status != Classified
    ensures var st' := st.(db := SetFailed(st.db, jobId, status, code, text, now)); StoresOk(cfg, st') && Grows(st, st')
  {
    hide ValidQueue, ResultsOk, FramesOwned, ActionsOk, LogOk, RowsOk, ClassifiedOk, SetFailed, SameWork, Kept;
    RowsAfterFailure(st.q.jobs, st.db, jobId, status, code, text, now);
    JobRowsStep(cfg, st, SetFailed(st.db, jobId, status, code, text, now).jobs);
  }

  lemma RowsAfterFailure(jobs: map<string, VideoJob>, db: Db, jobId: string, status: VideoJobStatus, code: string,
                         text: string, now: Time)
    requires RowsOk(jobs, db.jobs) && ClassifiedOk(db.jobs, db.results) && status != Classified
    ensures var db' := SetFailed(db, jobId, status, code, text, now);
            && db' == db.(jobs := db'.jobs)
            && RowsOk(jobs, db'.jobs) && SameWork(db.jobs, db'.jobs) && ClassifiedOk(db'.jobs, db.results)
  {
    if jobId in db.jobs {
      RowsAfterRelabel(jobs, db.jobs, SetFailed(db, jobId, status, code, text, now).jobs[jobId]);
    }
    hide RowsOk, SameWork;
  }

  // ---------- log steps ----------

  lemma MovedBeforeCommitStable(log: seq<Effect>, e: Effect, j: string)
    requires MovedBeforeCommit(log, j)
    ensures MovedBeforeCommit(log + [e], j)
  {
    var i, k :| 0 <= i < k < |log| && log[i] == Moved(j) && log[k].Committed? && log[k].jobId == j;
    var log' := log + [e];
    assert log'[i] == Moved(j) && log'[k] == log[k];
  }

  lemma LogAfterAppend(results: map<string, VideoResult>, log: seq<Effect>, e: Effect)
    requires LogOk(results, log)
    requires e.Moved? || (e.jobId in results && EffectsOf(log, e.jobId) + [e] <= Script(e.jobId, results[e.jobId]))
    ensures LogOk(results, log + [e])
  {
    hide EffectsOf, Script, MovedBeforeCommit;
    forall j {:trigger EffectsOf(log + [e], j)}
      ensures EffectsOf(log + [e], j) == EffectsOf(log, j) + (if e.jobId == j && !e.Moved? then [e] else [])
    {
      EffectsOfAppend(log, e, j);
    }
    forall j | j in results && results[j].moveRequired
      ensures MovedBeforeCommit(log + [e], j)
    {
      MovedBeforeCommitStable(log, e, j);
    }
  }

  lemma LogStep(cfg: Config, st: Stores, e: Effect)
    requires StoresOk(cfg, st)
    requires e.Moved?
             || (e.jobId in st.db.results
                 && EffectsOf(st.log, e.jobId) + [e] <= Script(e.jobId, st.db.results[e.jobId]))
    ensures var st' := st.(log := st.log + [e]); StoresOk(cfg, st') && Grows(st, st')
  {
    hide ValidQueue, RowsOk, ResultsOk, FramesOwned, ActionsOk, ClassifiedOk;
    LogAfterAppend(st.db.results, st.log, e);
  }

  // ---------- the final transaction ----------

  lemma {:induction false} InsertFramesOnlyAddsFrames(db: Db, jobId: string, videoId: string, frames: seq<FrameResult>)
    ensures var o := InsertFrames(db, jobId, videoId, frames);
            o.Some? ==> o.value == db.(frames := o.value.frames)
  {
    if frames != [] {
      InsertFramesOnlyAddsFrames(db, jobId, videoId, frames[..|frames| - 1]);
    }
  }

  lemma VerdictFacts(cfg: Config, job: VideoJob, v: Verdict)
    requires VerdictFor(cfg, job, v)
    ensures v.result.jobId == job.jobId && v.result.totalFrameCount == |v.frames| && Sequential(v.frames)
    ensures v.result.videoId == job.videoId
    ensures forall f :: f in v.frames ==> SeveritiesInRange(f)
  {
    assert forall f :: f in v.frames ==> ValidFrame(f);
  }

  /** When the final transaction of a job goes through: its parent row exists, the job has no result yet, and the
      generated action id is new. So a job shut out of the table by another job's triple always rolls back. */
  lemma CommitCondition(cfg: Config, st: Stores, job: VideoJob, v: Verdict, c: Choice)
    requires StoresOk(cfg, st) && VerdictFor(cfg, job, v)
    ensures CommitOf(st.db, job, v, c).Some? <==>
            && job.jobId in st.db.jobs
            && job.jobId !in st.db.results
            && (v.result.moveRequired ==> ActionFor(job, v.result, c.uuid).actionId !in st.db.actions)
    ensures CommitOf(st.db, job, v, c).Some? ==> CommittedTables(st.db, CommitOf(st.db, job, v, c).value, job, v, c)
  {
    hide ValidQueue, RowsOk, ResultsOk, ActionsOk, LogOk, ClassifiedOk;
    VerdictFacts(cfg, job, v);
    hide VerdictFor;
    if job.jobId in st.db.results {
      InsertFramesOnlyAddsFrames(st.db, job.jobId, job.videoId, v.frames);
    } else {
      assert NoFramesOf(st.db, job.jobId);
      CommitFinalSucceeds(st.db, job, v.frames, v.result, ActionOf(job, v, c.uuid), c.now);
    }
  }

  /** The tables after the final transaction of a job that had no result. */
  predicate CommittedTables(db: Db, db': Db, job: VideoJob, v: Verdict, c: Choice) {
    && NoFramesOf(db, job.jobId) && job.jobId in db.jobs && job.jobId !in db.results
    && FramesInserted(db, db.(frames := db'.frames), job.jobId, job.videoId, v.frames)
    && db'.results == db.results[job.jobId := v.result]
    && db'.actions == (if v.result.moveRequired
                       then db.actions[ActionFor(job, v.result, c.uuid).actionId := ActionFor(job, v.result, c.uuid)]
                       else db.actions)
    && (v.result.moveRequired ==> ActionFor(job, v.result, c.uuid).actionId !in db.actions)
    && db'.jobs == SetClassified(db, job.jobId, c.now).jobs
  }

  lemma CommittedKeepsTables(db: Db, db': Db, job: VideoJob, v: Verdict, c: Choice)
    requires CommittedTables(db, db', job, v, c)
    ensures Kept(db.results, db'.results) && Kept(db.frames, db'.frames) && Kept(db.actions, db'.actions)
    ensures job.jobId in db.jobs && job.jobId !in db.results && db'.results == db.results[job.jobId := v.result]
    ensures db'.jobs.Keys == db.jobs.Keys
    ensures forall j :: j in db.jobs ==>
              db'.jobs[j].jobId == db.jobs[j].jobId && TripleOf(db'.jobs[j]) == TripleOf(db.jobs[j])
  {
  }

  lemma CommittedResults(cfg: Config, db: Db, db': Db, job: VideoJob, v: Verdict, c: Choice)
    requires ResultsOk(cfg, db) && VerdictFor(cfg, job, v) && CommittedTables(db, db', job, v, c)
    requires db.jobs[job.jobId].jobId == job.jobId && TripleOf(job) == TripleOf(db.jobs[job.jobId])
    ensures ResultsOk(cfg, db')
  {
    hide FramesInserted, NoFramesOf, Backed, SetClassified;
    CommittedKeepsTables(db, db', job, v, c);
    forall j | j in db'.results
      ensures j in db'.jobs && db'.results[j].jobId == j && Backed(cfg, db', j)
    {
      if j == job.jobId {
        VerdictFacts(cfg, job, v);
        NewResultBacked(cfg, db, db', job, v, c);
      } else {
        hide Kept, VerdictFor;
        OldResultBacked(cfg, db, db', j);
      }
    }
  }

  lemma OldResultBacked(cfg: Config, db: Db, db': Db, j: string)
    requires ResultsOk(cfg, db) && Kept(db.results, db'.results) && Kept(db.frames, db'.frames)
    requires j in db.results && j in db'.jobs
    requires j in db.jobs && db'.jobs[j].jobId == db.jobs[j].jobId && TripleOf(db'.jobs[j]) == TripleOf(db.jobs[j])
    ensures j in db'.results && db'.results[j].jobId == j && Backed(cfg, db', j)
  {
    hide Backed, VerdictFor;
    BackedStable(cfg, db, db', j);
  }

  lemma NewResultBacked(cfg: Config, db: Db, db': Db, job: VideoJob, v: Verdict, c: Choice)
    requires VerdictFor(cfg, job, v) && CommittedTables(db, db', job, v, c)
    requires db.jobs[job.jobId].jobId == job.jobId && TripleOf(job) == TripleOf(db.jobs[job.jobId])
    ensures Backed(cfg, db', job.jobId)
  {
    var j, added := job.jobId, db.(frames := db'.frames);
    assert forall i :: 0 <= i < |v.frames| ==> HasFrame(added, j, i);
    assert StoredAs(db', j, v.frames);
    assert VerdictFor(cfg, db'.jobs[j], Verdict(v.frames, db'.results[j]));
  }

  lemma CommittedFrames(cfg: Config, db: Db, db': Db, job: VideoJob, v: Verdict, c: Choice)
    requires FramesOwned(db.frames, db.results) && VerdictFor(cfg, job, v) && CommittedTables(db, db', job, v, c)
    ensures FramesOwned(db'.frames, db'.results)
  {
    VerdictFacts(cfg, job, v);
    hide VerdictFor;
    var added := db.(frames := db'.frames);
    forall k | k in db'.frames
      ensures k == FrameId(db'.frames[k].jobId, db'.frames[k].frame.frameIndex)
      ensures db'.frames[k].jobId in db'.results
      ensures db'.frames[k].frame.frameIndex < db'.results[db'.frames[k].jobId].totalFrameCount
    {
      if k in db.frames {
        assert db'.frames[k] == db.frames[k];
      } else {
        assert k in added.frames;
        var i :| 0 <= i < |v.frames| && k == FrameId(job.jobId, i);
        assert HasFrame(added, job.jobId, i);
        assert v.frames[i].frameIndex == i;
      }
    }
  }

  lemma CommittedActions(db: Db, db': Db, job: VideoJob, v: Verdict, c: Choice)
    requires ActionsOk(db.actions, db.results) && CommittedTables(db, db', job, v, c)
    requires v.result.videoId == job.videoId
    ensures ActionsOk(db'.actions, db'.results) && Kept(db.actions, db'.actions)
  {
    hide FramesInserted, NoFramesOf, SetClassified, ActionsOk;
    var action := ActionFor(job, v.result, c.uuid);
    assert action.jobId == job.jobId && (v.result.moveRequired ==> ActionFits(action.actionId, action, v.result));
    hide ActionFor, ActionFits;
    if v.result.moveRequired {
      ActionAdded(db.actions, db.results, action, v.result);
    } else {
      NoActionAdded(db.actions, db.results, job.jobId, v.result);
    }
  }

  lemma ActionAdded(actions: map<string, StorageAction>, results: map<string, VideoResult>, a: StorageAction,
                    r: VideoResult)
    requires ActionsOk(actions, results) && a.jobId !in results && a.actionId !in actions
    requires ActionFits(a.actionId, a, r)
    ensures ActionsOk(actions[a.actionId := a], results[a.jobId := r])
  {
    var actions' := actions[a.actionId := a];
    forall j | HasAction(actions, j)
      ensures HasAction(actions', j)
    {
      var b :| b in actions && actions[b].jobId == j;
      assert b in actions' && actions'[b].jobId == j;
    }
    assert a.actionId in actions' && actions'[a.actionId].jobId == a.jobId;
    assert HasAction(actions', a.jobId);
    assert r.moveRequired;
    hide HasAction, ActionFits;
  }

  lemma NoActionAdded(actions: map<string, StorageAction>, results: map<string, VideoResult>, j: string, r: VideoResult)
    requires ActionsOk(actions, results) && j !in results && !r.moveRequired
    ensures ActionsOk(actions, results[j := r])
  {
    hide HasAction, ActionFits;
  }

  lemma CommittedLog(results: map<string, VideoResult>, log: seq<Effect>, j: string, r: VideoResult)
    requires LogOk(results, log) && j !in results
    requires r.moveRequired ==> Moved(j) in log
    ensures LogOk(results[j := r], log + [Committed(j, r)])
    ensures EffectsOf(log + [Committed(j, r)], j) == [Committed(j, r)]
  {
    var e := Committed(j, r);
    var log' := log + [e];
    assert [e] <= Script(j, r);
    CommittedMoves(results, log, j, r);
    hide EffectsOf, Script, MovedBeforeCommit;
    forall k {:trigger EffectsOf(log', k)}
      ensures EffectsOf(log', k) == EffectsOf(log, k) + (if e.jobId == k then [e] else [])
    {
      EffectsOfAppend(log, e, k);
    }
    assert EffectsOf(log', j) == [e];
  }

  lemma CommittedMoves(results: map<string, VideoResult>, log: seq<Effect>, j: string, r: VideoResult)
    requires forall k :: k in results && results[k].moveRequired ==> MovedBeforeCommit(log, k)
    requires r.moveRequired ==> Moved(j) in log
    ensures forall k :: k in results[j := r] && results[j := r][k].moveRequired ==>
              MovedBeforeCommit(log + [Committed(j, r)], k)
  {
    var e := Committed(j, r);
    var log' := log + [e];
    forall k | k in results[j := r] && results[j := r][k].moveRequired
      ensures MovedBeforeCommit(log', k)
    {
      if k == j {
        var i :| 0 <= i < |log| && log[i] == Moved(j);
        assert log'[i] == Moved(j) && log'[|log|] == e;
      } else {
        MovedBeforeCommitStable(log, e, k);
      }
    }
  }

  /** The final transaction of a job, when it commits. */
  lemma CommitKeeps(cfg: Config, st: Stores, job: VideoJob, v: Verdict, c: Choice)
    requires StoresOk(cfg, st) && VerdictFor(cfg, job, v) && CommitOf(st.db, job, v, c).Some?
    requires job.jobId in st.q.jobs && TripleOf(job) == TripleOf(st.q.jobs[job.jobId])
    requires v.result.moveRequired ==> Moved(job.jobId) in st.log
    ensures var st' := st.(db := CommitOf(st.db, job, v, c).value, log := st.log + [Committed(job.jobId, v.result)]);
            && job.jobId !in st.db.results
            && Grows(st, st') && StoresOk(cfg, st')
            && job.jobId in st'.db.results && st'.db.results[job.jobId] == v.result
            && EffectsOf(st'.log, job.jobId) == [Committed(job.jobId, v.result)]
  {
    hide ValidQueue, RowsOk, CommittedTables, CommitOf, EffectsOf, VerdictFor, ResultsOk, FramesOwned, ActionsOk,
      LogOk, ClassifiedOk, Kept, SameWork;
    CommitCondition(cfg, st, job, v, c);
    var db, db' := st.db, CommitOf(st.db, job, v, c).value;
    CommittedJobs(st.q.jobs, db, db', job, v, c);
    CommittedKeepsTables(db, db', job, v, c);
    RowIdentifies(st.q.jobs, db.jobs, job.jobId);
    CommittedResults(cfg, db, db', job, v, c);
    CommittedFrames(cfg, db, db', job, v, c);
    VerdictFacts(cfg, job, v);
    CommittedActions(db, db', job, v, c);
    CommittedLog(db.results, st.log, job.jobId, v.result);
    SameWorkReflexive(st.q.jobs);
  }

  lemma SameWorkReflexive(rows: map<string, VideoJob>)
    ensures SameWork(rows, rows)
  {
  }

  lemma RowIdentifies(jobs: map<string, VideoJob>, rows: map<string, VideoJob>, j: string)
    requires RowsOk(jobs, rows) && j in rows
    ensures j in jobs && rows[j].jobId == j && TripleOf(rows[j]) == TripleOf(jobs[j])
  {
  }

  lemma CommittedJobs(jobs: map<string, VideoJob>, db: Db, db': Db, job: VideoJob, v: Verdict, c: Choice)
    requires RowsOk(jobs, db.jobs) && CommittedTables(db, db', job, v, c)
    requires ClassifiedOk(jobs, db.results) && ClassifiedOk(db.jobs, db.results)
    ensures RowsOk(jobs, db'.jobs) && SameWork(db.jobs, db'.jobs)
    ensures ClassifiedOk(jobs, db'.results) && ClassifiedOk(db'.jobs, db'.results)
  {
    hide FramesInserted, NoFramesOf;
    RowsAfterRelabel(jobs, db.jobs, db'.jobs[job.jobId]);
    hide RowsOk;
  }

  // ---------- one worker step ----------

  lemma CommitStep(cfg: Config, st: Stores, m: Message, stage: Stage, c: Choice)
    requires StoresOk(cfg, st) && stage.Committing? && StageOk(cfg, st, m, stage) && Allows(cfg, st, stage, c)
    ensures var st' := Effects(cfg, st, m, stage, c);
            StoresOk(cfg, st') && Grows(st, st') && StageOk(cfg, st', m, NextStage(cfg, st, m, stage, c))
  {
    hide StoresOk, CommitOf, VerdictFor, EffectsOf, Script, Grows;
    var job, v := stage.job, stage.verdict;
    if c.outcome.Raised? {
      GrowsReflexive(st);
    } else {
      CommitKeeps(cfg, st, job, v, c);
      ScriptHead(job.jobId, v.result);
    }
  }

  lemma ScriptHead(j: string, r: VideoResult)
    ensures |Script(j, r)| >= 4 && Script(j, r)[0] == Committed(j, r)
    ensures [Committed(j, r)] + Script(j, r)[1..] == Script(j, r)
  {
  }

  /** Publishing appends the next effect of the script, and nothing of another job. */
  lemma PublishStep(cfg: Config, st: Stores, m: Message, stage: Stage, c: Choice)
    requires StoresOk(cfg, st) && stage.Publishing? && StageOk(cfg, st, m, stage) && Allows(cfg, st, stage, c)
    ensures var st' := Effects(cfg, st, m, stage, c);
            StoresOk(cfg, st') && Grows(st, st') && StageOk(cfg, st', m, NextStage(cfg, st, m, stage, c))
  {
    hide StoresOk, EffectsOf, VerdictFor, Grows, Script, IsRetryable, ErrorCode, ErrorMessage;
    var j, todo := m.jobId, stage.todo;
    GrowsReflexive(st);
    NextOfScript(j, st.db.results[j], EffectsOf(st.log, j), todo);
    if !c.outcome.Raised? {
      LogStep(cfg, st, todo[0]);
      EffectsOfAppend(st.log, todo[0], j);
    }
  }

  lemma NextOfScript(j: string, r: VideoResult, before: seq<Effect>, todo: seq<Effect>)
    requires todo != [] && before + todo == Script(j, r)
    ensures todo[0].jobId == j && !todo[0].Moved?
    ensures before + [todo[0]] <= Script(j, r) && (before + [todo[0]]) + todo[1..] == Script(j, r)
  {
    ScriptEntries(j, r);
    assert Script(j, r)[|before|] == todo[0];
  }

  lemma ScriptEntries(j: string, r: VideoResult)
    ensures forall i :: 0 <= i < |Script(j, r)| ==> Script(j, r)[i].jobId == j && !Script(j, r)[i].Moved?
  {
  }

  lemma MoveStep(cfg: Config, st: Stores, m: Message, stage: Stage, c: Choice)
    requires StoresOk(cfg, st) && stage.Moving? && StageOk(cfg, st, m, stage) && Allows(cfg, st, stage, c)
    ensures var st' := Effects(cfg, st, m, stage, c);
            StoresOk(cfg, st') && Grows(st, st') && StageOk(cfg, st', m, NextStage(cfg, st, m, stage, c))
  {
    hide StoresOk, VerdictFor;
    LogStep(cfg, st, Moved(stage.job.jobId));
  }

  /** The stores stay good and only grow, and the worker's next stage is sound. */
  lemma OwnStep(cfg: Config, st: Stores, pc: Pc, c: Choice)
    requires StoresOk(cfg, st) && pc.Busy? && LocalOk(cfg, st, pc) && Allows(cfg, st, pc.stage, c)
    ensures var st' := Effects(cfg, st, pc.m, pc.stage, c);
            && StoresOk(cfg, st') && Grows(st, st')
            && (!pc.stage.Acking? ==> StageOk(cfg, st', pc.m, NextStage(cfg, st, pc.m, pc.stage, c)))
  {
    hide StoresOk, StageOk, NextStage, Effects, Grows, Allows;
    var stage := pc.stage;
    if stage.Moving? {
      MoveStep(cfg, st, pc.m, stage, c);
    } else if stage.Committing? {
      CommitStep(cfg, st, pc.m, stage, c);
    } else if stage.Publishing? {
      PublishStep(cfg, st, pc.m, stage, c);
    } else if stage.MarkingProcessing? || stage.MarkingFailed? {
      MarkStep(cfg, st, pc.m, stage, c);
    } else if stage.AdoptClassified? || stage.StartProcessing? || stage.Finishing? || stage.RecordingFailure? {
      StatusStage(cfg, st, pc.m, stage, c);
    } else if stage.Acking? || stage.Requeueing? || stage.DeadLettering? {
      MessageStage(cfg, st, pc.m, stage, c);
    } else {
      LookStage(cfg, st, pc.m, stage, c);
    }
  }

  /** Stages that append or acknowledge queue entries. */
  lemma MessageStage(cfg: Config, st: Stores, m: Message, stage: Stage, c: Choice)
    requires StoresOk(cfg, st) && m in st.q.messages && StageOk(cfg, st, m, stage) && Allows(cfg, st, stage, c)
    requires stage.Acking? || stage.Requeueing? || stage.DeadLettering?
    ensures var st' := Effects(cfg, st, m, stage, c);
            && StoresOk(cfg, st') && Grows(st, st')
            && (!stage.Acking? ==> StageOk(cfg, st', m, NextStage(cfg, st, m, stage, c)))
  {
    hide StoresOk, Grows;
    match stage {
      case Acking => AckStep(cfg, st, m);
      case Requeueing(jobId) => RequeueStep(cfg, st, jobId);
      case DeadLettering(code, text) => DeadLetterStep(cfg, st, m, code, text);
    }
  }

  /** Stages that only read. */
  lemma LookStage(cfg: Config, st: Stores, m: Message, stage: Stage, c: Choice)
    requires StoresOk(cfg, st) && StageOk(cfg, st, m, stage) && Allows(cfg, st, stage, c)
    requires stage.LookUpJob? || stage.LookUpAgain? || stage.LookUpPersisted? || stage.Computing?
    ensures Effects(cfg, st, m, stage, c) == st && Grows(st, st)
    ensures StageOk(cfg, st, m, NextStage(cfg, st, m, stage, c))
  {
    hide RowsOk, ResultsOk, FramesOwned, ActionsOk, LogOk, VerdictFor;
  }

  lemma JobIdKnown(cfg: Config, st: Stores, m: Message)
    requires StoresOk(cfg, st)
    ensures m.jobId in st.q.jobs ==> st.q.jobs[m.jobId].jobId == m.jobId
  {
    hide RowsOk, ResultsOk, FramesOwned, ActionsOk, LogOk, ClassifiedOk, IndexPointsToOwner, MessagesNumbered;
  }

  /** Stages that set a queue status. */
  lemma StatusStage(cfg: Config, st: Stores, m: Message, stage: Stage, c: Choice)
    requires StoresOk(cfg, st) && StageOk(cfg, st, m, stage) && Allows(cfg, st, stage, c)
    requires stage.AdoptClassified? || stage.StartProcessing? || stage.Finishing? || stage.RecordingFailure?
    ensures var st' := Effects(cfg, st, m, stage, c);
            StoresOk(cfg, st') && Grows(st, st') && StageOk(cfg, st', m, NextStage(cfg, st, m, stage, c))
  {
    hide StoresOk, VerdictFor, UpdateStatus, EffectsOf, Script, Grows, IsRetryable, ErrorCode, ErrorMessage;
    GrowsReflexive(st);
    JobIdKnown(cfg, st, m);
    var job := stage.job;
    var st' := Effects(cfg, st, m, stage, c);
    match stage {
      case AdoptClassified(_) => StatusStep(cfg, st, job.jobId, Classified, None, None, c.now);
      case StartProcessing(_, current) =>
        StatusStep(cfg, st, job.jobId, Processing, None, None, c.now);
        CopyStable(st, st', m, WithStatus(st.q.jobs[m.jobId], Processing, None, None, c.now));
      case Finishing(_) => StatusStep(cfg, st, job.jobId, Classified, None, None, c.now);
      case RecordingFailure(_, f) =>
        StatusStep(cfg, st, job.jobId, f.status, Some(f.errorCode), Some(f.errorMessage), c.now);
    }
    CopyStable(st, st', m, job);
  }

  lemma CopyStable(st: Stores, st': Stores, m: Message, job: VideoJob)
    requires Grows(st, st') && Copy(st, m, job)
    ensures Copy(st', m, job)
  {
  }

  /** Stages that write the job's Postgres row. */
  lemma MarkStep(cfg: Config, st: Stores, m: Message, stage: Stage, c: Choice)
    requires StoresOk(cfg, st) && StageOk(cfg, st, m, stage) && Allows(cfg, st, stage, c)
    requires stage.MarkingProcessing? || stage.MarkingFailed?
    ensures var st' := Effects(cfg, st, m, stage, c);
            StoresOk(cfg, st') && Grows(st, st') && StageOk(cfg, st', m, NextStage(cfg, st, m, stage, c))
  {
    hide StoresOk, MarkProcessing, SetFailed;
    match stage {
      case MarkingProcessing(job) => MarkProcessingStep(cfg, st, job, c.now);
      case MarkingFailed(job, f) => SetFailedStep(cfg, st, job.jobId, f.status, f.errorCode, f.errorMessage, c.now);
    }
  }

  /** A step of one worker adds no committed effect to a job another worker is publishing. */
  lemma OthersUndisturbed(cfg: Config, st: Stores, pc: Pc, c: Choice, j: string)
    requires StoresOk(cfg, st) && pc.Busy? && LocalOk(cfg, st, pc) && Allows(cfg, st, pc.stage, c)
    requires j in st.db.results && !Publisher(pc, j)
    ensures EffectsOf(Effects(cfg, st, pc.m, pc.stage, c).log, j) == EffectsOf(st.log, j)
    ensures pc.stage.Committing? && !c.outcome.Raised? ==> pc.m.jobId != j
  {
    hide StoresOk, EffectsOf, CommitOf, VerdictFor, Script, NextStage, Grows;
    match pc.stage {
      case Moving(job, v) => EffectsOfAppend(st.log, Moved(job.jobId), j);
      case Committing(job, v) =>
        if !c.outcome.Raised? {
          CommitKeeps(cfg, st, job, v, c);
          EffectsOfAppend(st.log, Committed(job.jobId, v.result), j);
        }
      case Publishing(job, v, todo) =>
        NextOfScript(pc.m.jobId, st.db.results[pc.m.jobId], EffectsOf(st.log, pc.m.jobId), todo);
        EffectsOfAppend(st.log, todo[0], j);
      case _ =>
    }
  }

  lemma PublishedIsCommitted(cfg: Config, st: Stores, pc: Pc)
    requires pc.Busy? && pc.stage.Publishing? && LocalOk(cfg, st, pc)
    ensures pc.m.jobId in st.db.results
  {
    hide EffectsOf, Script;
  }

  lemma StartOnOk(cfg: Config, st: Stores, batch: seq<Message>)
    requires forall x :: x in batch ==> x in st.q.messages
    ensures LocalOk(cfg, st, NextMessage(batch)) && forall j :: !Publisher(NextMessage(batch), j)
    ensures NextMessage(batch).Busy? ==> !NextMessage(batch).stage.Publishing?
  {
    if batch != [] {
      assert batch[0] in batch;
    }
  }

  /** The worker's own message, its batch and its next stage after a step other than the acknowledgement. */
  lemma OwnStageAfter(cfg: Config, st: Stores, pc: Pc, c: Choice)
    requires pc.Busy? && LocalOk(cfg, st, pc) && Allows(cfg, st, pc.stage, c)
    requires var st' := Effects(cfg, st, pc.m, pc.stage, c);
             && Grows(st, st')
             && (!pc.stage.Acking? ==> StageOk(cfg, st', pc.m, NextStage(cfg, st, pc.m, pc.stage, c)))
    ensures !pc.stage.Acking? ==> LocalOk(cfg, Effects(cfg, st, pc.m, pc.stage, c), AfterWork(cfg, st, pc, c))
    ensures pc.stage.Acking? ==> Effects(cfg, st, pc.m, pc.stage, c).q.messages == st.q.messages
    ensures pc.stage.Acking? ==> forall x :: x in pc.rest ==> x in st.q.messages
    ensures forall j :: Publisher(AfterWork(cfg, st, pc, c), j) ==>
              pc.m.jobId == j && (pc.stage.Committing? || pc.stage.Publishing?)
    ensures pc.stage.Committing? && c.outcome.Raised? ==> forall j :: !Publisher(AfterWork(cfg, st, pc, c), j)
  {
    hide StageOk, VerdictFor, Script, SameWork, Kept;
  }

  /** What one step of worker `w` means for itself and for any other worker `v`. */
  lemma WorkStep(cfg: Config, st: Stores, pc: Pc, c: Choice, other: Pc)
    requires StoresOk(cfg, st) && pc.Busy? && LocalOk(cfg, st, pc) && LocalOk(cfg, st, other)
             && Allows(cfg, st, pc.stage, c)
    requires other.Busy? && other.stage.Publishing? ==> !Publisher(pc, other.m.jobId)
    ensures var st' := Effects(cfg, st, pc.m, pc.stage, c);
            && LocalOk(cfg, st', other)
            && LocalOk(cfg, st', AfterWork(cfg, st, pc, c))
            && (other.Busy? && other.stage.Publishing? ==> !Publisher(AfterWork(cfg, st, pc, c), other.m.jobId))
  {
    hide StoresOk, EffectsOf, VerdictFor, Script, Effects, Grows, LocalOk, Allows, NextStage;
    var st' := Effects(cfg, st, pc.m, pc.stage, c);
    OwnStep(cfg, st, pc, c);
    OwnStageAfter(cfg, st, pc, c);
    if other.Busy? && other.stage.Publishing? {
      PublishedIsCommitted(cfg, st, other);
      OthersUndisturbed(cfg, st, pc, c, other.m.jobId);
    }
    LocalStable(cfg, st, st', other);
    if pc.stage.Acking? {
      StartOnOk(cfg, st, pc.rest);
      LocalStable(cfg, st, st', NextMessage(pc.rest));
    }
  }

  lemma WorkKeepsSafe(cfg: Config, s: System, w: nat, c: Choice)
    requires SystemOk(cfg, s) && Enabled(cfg, s, Work(w, c))
    ensures SystemOk(cfg, Apply(cfg, s, Work(w, c))) && Grows(s.stores, Apply(cfg, s, Work(w, c)).stores)
  {
    hide StoresOk, StageOk, Effects, NextStage, Allows;
    var s' := Apply(cfg, s, Work(w, c));
    var pc := s.workers[w];
    OwnStep(cfg, s.stores, pc, c);
    forall v | 0 <= v < |s'.workers| && v != w
      ensures LocalOk(cfg, s'.stores, s'.workers[v])
      ensures s'.workers[v].Busy? && s'.workers[v].stage.Publishing? ==>
              !Publisher(s'.workers[w], s'.workers[v].m.jobId)
    {
      WorkStep(cfg, s.stores, pc, c, s.workers[v]);
    }
    WorkStep(cfg, s.stores, pc, c, Idle);
  }

  lemma EnqueueKeepsSafe(cfg: Config, s: System, r: VideoDetectRequest, now: Time)
    requires SystemOk(cfg, s) && ValidRequest(r)
    ensures SystemOk(cfg, Apply(cfg, s, ApiEnqueue(r, now)))
            && Grows(s.stores, Apply(cfg, s, ApiEnqueue(r, now)).stores)
  {
    hide StoresOk, LocalOk, Enqueue;
    EnqueueStep(cfg, s.stores, r, now);
    var st' := s.stores.(q := Enqueue(s.stores.q, r, now));
    forall v | 0 <= v < |s.workers|
      ensures LocalOk(cfg, st', s.workers[v])
    {
      LocalStable(cfg, s.stores, st', s.workers[v]);
    }
  }

  lemma ReadKeepsSafe(cfg: Config, s: System, w: nat)
    requires SystemOk(cfg, s) && Enabled(cfg, s, Read(w))
    ensures SystemOk(cfg, Apply(cfg, s, Read(w))) && Grows(s.stores, Apply(cfg, s, Read(w)).stores)
  {
    hide StoresOk, LocalOk, ReadMessages, NextMessage, Grows;
    ReadIsKnown(s.stores.q, cfg.readCount);
    StartOnOk(cfg, s.stores, ReadMessages(s.stores.q, cfg.readCount));
    GrowsReflexive(s.stores);
  }

  lemma ReadIsKnown(q: Queue, count: nat)
    ensures forall x :: x in ReadMessages(q, count) ==> x in q.messages
  {
    UnackedMember(q.messages, q.acked);
    assert forall x :: x in ReadMessages(q, count) ==> x in Pending(q);
  }

  lemma StepKeepsSafe(cfg: Config, s: System, e: Event)
    requires SystemOk(cfg, s) && Enabled(cfg, s, e)
    ensures SystemOk(cfg, Apply(cfg, s, e)) && Grows(s.stores, Apply(cfg, s, e).stores)
  {
    hide SystemOk, Apply, Grows;
    match e {
      case ApiEnqueue(r, now) => EnqueueKeepsSafe(cfg, s, r, now);
      case Read(w) => ReadKeepsSafe(cfg, s, w);
      case Work(w, c) => WorkKeepsSafe(cfg, s, w, c);
      case Cut(w) => CutKeepsSafe(cfg, s, w);
    }
  }

  lemma CutKeepsSafe(cfg: Config, s: System, w: nat)
    requires SystemOk(cfg, s) && Enabled(cfg, s, Cut(w))
    ensures SystemOk(cfg, Apply(cfg, s, Cut(w))) && Grows(s.stores, Apply(cfg, s, Cut(w)).stores)
  {
    hide StoresOk, StageOk, MissedBy;
    assert Apply(cfg, s, Cut(w)).stores == s.stores;
    GrowsReflexive(s.stores);
    hide Grows;
  }

  // ---------- all runs ----------

  lemma InitSafe(cfg: Config, workers: nat)
    ensures SystemOk(cfg, Init(workers))
  {
    EmptyStoresOk(cfg);
    hide StoresOk;
  }

  lemma EmptyStoresOk(cfg: Config)
    ensures StoresOk(cfg, Stores(EmptyQueue(), EmptyDb(), []))
  {
    hide FramesOwned, ActionsOk, ClassifiedOk, RowsOk, ValidQueue, ResultsOk, LogOk;
    EmptyTablesOk(map[], map[], map[], map[], map[]);
    EmptyQueueOk(EmptyQueue());
    EmptyLogOk(map[]);
    EmptyResultsOk(cfg, EmptyDb());
  }

  lemma EmptyLogOk(results: map<string, VideoResult>)
    requires forall j :: j !in results
    ensures LogOk(results, [])
  {
    hide Script, MovedBeforeCommit;
  }

  lemma EmptyResultsOk(cfg: Config, db: Db)
    requires forall j :: j !in db.results
    ensures ResultsOk(cfg, db)
  {
    hide Backed;
  }

  lemma EmptyTablesOk(jobs: map<string, VideoJob>, rows: map<string, VideoJob>, frames: map<string, FrameRow>,
                      actions: map<string, StorageAction>, results: map<string, VideoResult>)
    requires forall j: string :: j !in jobs && j !in rows && j !in frames && j !in actions && j !in results
    ensures RowsOk(jobs, rows) && FramesOwned(frames, results) && ActionsOk(actions, results)
    ensures ClassifiedOk(jobs, results) && ClassifiedOk(rows, results)
  {
  }

  lemma EmptyQueueOk(q: Queue)
    requires q.messages == [] && q.queue == [] && q.acked == {}
    requires (forall j :: j !in q.jobs) && (forall t :: t !in q.uniqueIndex)
    ensures ValidQueue(q)
  {
  }

  lemma {:induction false} RunKeepsSafe(cfg: Config, s: System, events: seq<Event>)
    requires SystemOk(cfg, s) && ValidRun(cfg, s, events)
    ensures SystemOk(cfg, Run(cfg, s, events)) && Grows(s.stores, Run(cfg, s, events).stores)
    decreases |events|
  {
    hide SystemOk, Apply, Grows;
    if events == [] {
      GrowsReflexive(s.stores);
    } else {
      var s1 := Apply(cfg, s, events[0]);
      StepKeepsSafe(cfg, s, events[0]);
      RunKeepsSafe(cfg, s1, events[1..]);
      GrowsTransitive(s.stores, s1.stores, Run(cfg, s1, events[1..]).stores);
    }
  }

  lemma GrowsReflexive(st: Stores)
    ensures Grows(st, st)
  {
  }
}
