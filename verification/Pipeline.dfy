/** The job lifecycle as a transition system: any number of workers, one step per await, API enqueues in between, and
    a cut of any worker at any step (process death, cancellation, or an exception that escapes `run_once`). */
module Pipeline {
  import opened Common
  import opened VideoJobs
  import opened Failures
  import opened QueueState
  import opened ModerationPolicy
  import opened Aggregation
  import opened PostgresState

  datatype Config = Config(maxAttempts: int, readCount: nat, aggregation: AggregationSettings)

  /** The frames of one attempt and their aggregate. */
  datatype Verdict = Verdict(frames: seq<FrameResult>, result: VideoResult)

  /** External effects in the order they took place. */
  datatype Effect =
    | Moved(jobId: string)
    | Committed(jobId: string, result: VideoResult)
    | CanonicalRow(jobId: string, result: VideoResult)
    | LegacyRow(jobId: string, result: VideoResult)
    | StorageActionRow(jobId: string, result: VideoResult)
    | RuntimeWrite(jobId: string, result: VideoResult)

  datatype Stores = Stores(q: Queue, db: Db, log: seq<Effect>)

  /** The await a worker is about to perform, with the local variables that are live there. */
  datatype Stage =
    | LookUpJob
    | LookUpAgain(job: VideoJob)
    | LookUpPersisted(job: VideoJob, current: VideoJob)
    | AdoptClassified(job: VideoJob)
    | StartProcessing(job: VideoJob, current: VideoJob)
    | MarkingProcessing(job: VideoJob)
    | Computing(job: VideoJob)
    | Moving(job: VideoJob, verdict: Verdict)
    | Committing(job: VideoJob, verdict: Verdict)
    | Publishing(job: VideoJob, verdict: Verdict, todo: seq<Effect>)
    | Finishing(job: VideoJob)
    | RecordingFailure(job: VideoJob, failure: ProcessingFailure)
    | MarkingFailed(job: VideoJob, failure: ProcessingFailure)
    | Requeueing(jobId: string)
    | DeadLettering(code: string, text: string)
    | Acking

  /** `rest` holds the messages of the current batch that come after the one being handled. */
  datatype Pc = Idle | Busy(m: Message, rest: seq<Message>, stage: Stage)

  /** How an awaited store operation ends: performed, raised without effect, or performed with its answer lost. */
  datatype Outcome = Done | Raised(e: Exn) | Lost(e: Exn)

  /** What the environment decides during one step. */
  datatype Choice = Choice(now: Time, outcome: Outcome, verdict: Verdict, uuid: string)

  /** The choice of an await that ends with this outcome and decides nothing else. */
  function When(cfg: Config, now: Time, outcome: Outcome): Choice {
    Choice(now, outcome, Verdict([], Summarize(cfg.aggregation, "", "", "", map[], 0, 0, Safe, 0)), "")
  }

  datatype Event =
    | ApiEnqueue(request: VideoDetectRequest, now: Time)
    | Read(w: nat)
    | Work(w: nat, choice: Choice)
    | Cut(w: nat)

  /** `cuts` counts the cut handlings of each job, `missed` the attempts its existing Postgres row failed to count. */
  datatype System = System(stores: Stores, workers: seq<Pc>, cuts: multiset<string>, missed: multiset<string>)

  function Init(workers: nat): System {
    System(Stores(EmptyQueue(), EmptyDb(), []), seq(workers, _ => Idle), multiset{}, multiset{})
  }

  // ---------- one worker step ----------

  /** What `finalize_classification` does from its commit on, in order. */
  function Script(jobId: string, r: VideoResult): seq<Effect> {
    [Committed(jobId, r), CanonicalRow(jobId, r), LegacyRow(jobId, r)]
    + (if r.moveRequired then [StorageActionRow(jobId, r)] else [])
    + [RuntimeWrite(jobId, r)]
  }

  function ActionOf(job: VideoJob, v: Verdict, uuid: string): Option<StorageAction> {
    if v.result.moveRequired then Some(ActionFor(job, v.result, uuid)) else None
  }

  function CommitOf(db: Db, job: VideoJob, v: Verdict, c: Choice): Option<Db> {
    CommitFinal(db, job, v.frames, v.result, ActionOf(job, v, c.uuid), c.now)
  }

  function StartOn(m: Message, rest: seq<Message>): Pc {
    if m.jobId == "" then Busy(m, rest, DeadLettering("queue_message_missing_job_id",
        "queue message did not contain a job_id"))
    else Busy(m, rest, LookUpJob)
  }

  function NextMessage(rest: seq<Message>): Pc {
    if rest == [] then Idle else StartOn(rest[0], rest[1..])
  }

  /** The `except` branch: the classified failure is recorded next. */
  function OnFailure(cfg: Config, job: VideoJob, o: Outcome, next: Stage): Stage {
    match o
    case Done => next
    case Raised(e) => RecordingFailure(job, ClassifyProcessingError(e, job.attempts, cfg.maxAttempts))
    case Lost(e) => RecordingFailure(job, ClassifyProcessingError(e, job.attempts, cfg.maxAttempts))
  }

  /** The stores after the await at `stage`. */
  function Effects(cfg: Config, st: Stores, m: Message, stage: Stage, c: Choice): Stores {
    var performed := !c.outcome.Raised?;
    match stage
    case LookUpJob => st
    case LookUpAgain(_) => st
    case LookUpPersisted(_, _) => st
    case AdoptClassified(job) => st.(q := UpdateStatus(st.q, job.jobId, Classified, None, None, c.now))
    case StartProcessing(job, _) => st.(q := UpdateStatus(st.q, job.jobId, Processing, None, None, c.now))
    case MarkingProcessing(job) => if performed then st.(db := MarkProcessing(st.db, job, c.now)) else st
    case Computing(_) => st
    case Moving(job, v) => if performed && v.result.moveRequired then st.(log := st.log + [Moved(job.jobId)]) else st
    case Committing(job, v) =>
      var committed := CommitOf(st.db, job, v, c);
      if performed && committed.Some?
      then st.(db := committed.value, log := st.log + [Committed(job.jobId, v.result)])
      else st
    case Publishing(_, _, todo) => if performed && todo != [] then st.(log := st.log + [todo[0]]) else st
    case Finishing(job) =>
      if performed then st.(q := UpdateStatus(st.q, job.jobId, Classified, None, None, c.now)) else st
    case RecordingFailure(job, f) =>
      st.(q := UpdateStatus(st.q, job.jobId, f.status, Some(f.errorCode), Some(f.errorMessage), c.now))
    case MarkingFailed(job, f) =>
      st.(db := SetFailed(st.db, job.jobId, f.status, f.errorCode, f.errorMessage, c.now))
    case Requeueing(jobId) => st.(q := Requeue(st.q, jobId))
    case DeadLettering(code, text) => st.(q := AppendDeadLetter(st.q, m, code, text))
    case Acking => st.(q := Ack(st.q, m.id))
  }

  /** Where the worker goes from `stage`. */
  function NextStage(cfg: Config, st: Stores, m: Message, stage: Stage, c: Choice): Stage {
    match stage
    case LookUpJob =>
      if m.jobId in st.q.jobs then LookUpAgain(st.q.jobs[m.jobId])
      else DeadLettering("queue_job_not_found", "queue job " + m.jobId + " was not found")
    case LookUpAgain(job) =>
      var current := if job.jobId in st.q.jobs then st.q.jobs[job.jobId] else job;
      if IsTerminal(current.status) then Acking else LookUpPersisted(job, current)
    case LookUpPersisted(job, current) =>
      if job.jobId in st.db.jobs && st.db.jobs[job.jobId].status == Classified then AdoptClassified(job)
      else StartProcessing(job, current)
    case AdoptClassified(_) => Acking
    case StartProcessing(job, current) =>
      MarkingProcessing(if job.jobId in st.q.jobs
                        then WithStatus(st.q.jobs[job.jobId], Processing, None, None, c.now) else current)
    case MarkingProcessing(job) => OnFailure(cfg, job, c.outcome, Computing(job))
    case Computing(job) => OnFailure(cfg, job, c.outcome, Moving(job, c.verdict))
    case Moving(job, v) => OnFailure(cfg, job, c.outcome, Committing(job, v))
    case Committing(job, v) => OnFailure(cfg, job, c.outcome, Publishing(job, v, Script(job.jobId, v.result)[1..]))
    case Publishing(job, v, todo) =>
      OnFailure(cfg, job, c.outcome, if |todo| <= 1 then Finishing(job) else Publishing(job, v, todo[1..]))
    case Finishing(job) => OnFailure(cfg, job, c.outcome, Acking)
    case RecordingFailure(job, f) => MarkingFailed(job, f)
    case MarkingFailed(job, f) =>
      if f.retryable then Requeueing(m.jobId) else DeadLettering(f.errorCode, f.errorMessage)
    case Requeueing(_) => Acking
    case DeadLettering(_, _) => Acking
    case Acking => Acking
  }

  /** A verdict `_process_video` can arrive at for this job: indexed, validated frames and their aggregate. */
  predicate VerdictFor(cfg: Config, job: VideoJob, v: Verdict) {
    && ValidFrames(v.frames)
    && Sequential(v.frames)
    && Aggregate(cfg.aggregation, job.jobId, job.videoId, job.policyVersion, v.frames) == Ok(v.result)
  }

  /** The choices open at a stage. Raising from an await outside the processor's `try` is a cut, before or after its
      effect; a commit is performed only if no constraint is violated. */
  predicate Allows(cfg: Config, st: Stores, stage: Stage, c: Choice) {
    match stage
    case MarkingProcessing(_) => true
    case Computing(job) => c.outcome.Done? ==> VerdictFor(cfg, job, c.verdict)
    case Moving(_, v) => !v.result.moveRequired ==> c.outcome.Done?
    case Committing(job, v) => !c.outcome.Raised? ==> CommitOf(st.db, job, v, c).Some?
    case Publishing(_, _, todo) => todo != []
    case Finishing(_) => true
    case _ => c.outcome.Done?
  }

  // ---------- the system ----------

  predicate Enabled(cfg: Config, s: System, e: Event) {
    match e
    case ApiEnqueue(r, _) => ValidRequest(r)
    case Read(w) => w < |s.workers| && s.workers[w].Idle?
    case Work(w, c) => w < |s.workers| && s.workers[w].Busy? && Allows(cfg, s.stores, s.workers[w].stage, c)
    case Cut(w) => w < |s.workers|
  }

  /** The attempt being marked is lost for the job's existing row when the mark is not performed. */
  function MissedBy(st: Stores, pc: Pc, performed: bool): multiset<string> {
    if pc.Busy? && pc.stage.MarkingProcessing? && !performed && pc.m.jobId in st.db.jobs
    then multiset{pc.m.jobId} else multiset{}
  }

  /** Once its message is acknowledged the worker takes the next one of the batch. */
  function AfterWork(cfg: Config, st: Stores, pc: Pc, c: Choice): Pc
    requires pc.Busy?
  {
    if pc.stage.Acking? then NextMessage(pc.rest) else Busy(pc.m, pc.rest, NextStage(cfg, st, pc.m, pc.stage, c))
  }

  function Apply(cfg: Config, s: System, e: Event): System
    requires Enabled(cfg, s, e)
  {
    match e
    case ApiEnqueue(r, now) => s.(stores := s.stores.(q := Enqueue(s.stores.q, r, now)))
    case Read(w) => s.(workers := s.workers[w := NextMessage(ReadMessages(s.stores.q, cfg.readCount))])
    case Work(w, c) =>
      var pc := s.workers[w];
      s.(stores := Effects(cfg, s.stores, pc.m, pc.stage, c),
        workers := s.workers[w := AfterWork(cfg, s.stores, pc, c)],
        missed := s.missed + MissedBy(s.stores, pc, !c.outcome.Raised?))
    case Cut(w) =>
      var pc := s.workers[w];
      s.(workers := s.workers[w := Idle],
        cuts := s.cuts + (if pc.Busy? then multiset{pc.m.jobId} else multiset{}),
        missed := s.missed + MissedBy(s.stores, pc, false))
  }

  predicate ValidRun(cfg: Config, s: System, events: seq<Event>)
    decreases |events|
  {
    events == [] || (Enabled(cfg, s, events[0]) && ValidRun(cfg, Apply(cfg, s, events[0]), events[1..]))
  }

  function Run(cfg: Config, s: System, events: seq<Event>): System
    requires ValidRun(cfg, s, events)
    decreases |events|
  {
    if events == [] then s else Run(cfg, Apply(cfg, s, events[0]), events[1..])
  }

  lemma {:induction false} RunAppend(cfg: Config, s: System, xs: seq<Event>, ys: seq<Event>)
    requires ValidRun(cfg, s, xs) && ValidRun(cfg, Run(cfg, s, xs), ys)
    ensures ValidRun(cfg, s, xs + ys) && Run(cfg, s, xs + ys) == Run(cfg, Run(cfg, s, xs), ys)
    decreases |xs|
  {
    if xs == [] {
      assert xs + ys == ys;
    } else {
      assert (xs + ys)[1..] == xs[1..] + ys;
      RunAppend(cfg, Apply(cfg, s, xs[0]), xs[1..], ys);
    }
  }
}
