/** How an awaited call ends for the code after it: with a value, with an exception, or never (the worker was cut). */
module Awaiting {
  import opened Failures

  datatype Awaited<+T> = Resolved(value: T) | Raises(e: Exn) | Interrupted {
    predicate IsFailure() {
      !Resolved?
    }

    function PropagateFailure<U>(): Awaited<U>
      requires IsFailure()
    {
      match this
      case Raises(e) => Awaited.Raises(e)
      case Interrupted => Awaited.Interrupted
    }

    function Extract(): T
      requires Resolved?
    {
      value
    }
  }
}

/** The single worker as the source writes it: methods over the repositories, with API enqueues let in at every await
    and a cut possible there. The ghost trace records each await as one event of the transition system, so that every
    state the worker can be in is a reachable state of that system. */
module VideoWorker {
  import opened Common
  import opened VideoJobs
  import opened Failures
  import opened QueueState
  import opened QueueRepository
  import opened ModerationPolicy
  import opened Aggregation
  import opened PostgresState
  import opened PostgresRepository
  import opened FramePaths
  import ModelOutput
  import opened FramePipeline
  import opened Pipeline
  import opened PipelineSafety
  import opened SingleWorker
  import Attempts
  import opened CutFree
  import opened PipelineTheorems
  import opened Awaiting

  // ---------- traces ----------

  /** `after` continues `before`, without a cut unless `cut` is set. */
  predicate Continues(before: seq<Event>, after: seq<Event>, cut: bool) {
    before <= after && (!cut ==> NoCuts(after[|before|..]))
  }

  lemma QueueIsValid(cfg: Config, trace: seq<Event>, s: System)
    requires Reaches(cfg, 1, trace, s)
    ensures ValidQueue(s.stores.q) && WellKept(s.stores.q)
  {
    hide Reaches, JobsKeyed, MessagesListed, IndexPointsToOwner, RowsOk, ResultsOk, FramesOwned, ActionsOk,
      ClassifiedOk, LogOk, LocalOk, OnePublisher;
    ReachableIsSafe(cfg, 1, trace, s);
  }

  lemma EnqueueKeepsPending(q: Queue, r: VideoDetectRequest, now: Time)
    requires ValidQueue(q)
    ensures Pending(q) <= Pending(Enqueue(q, r, now))
  {
    hide JobsKeyed, IndexPointsToOwner;
    if ExistingJob(q, r).None? {
      var job := NewJob(r, now);
      PendingAfterAppend(q.(jobs := q.jobs[job.jobId := job],
          uniqueIndex := q.uniqueIndex[TripleOf(job) := job.jobId]), job);
    }
  }

  lemma AckedAsBefore(q: Queue, r: VideoDetectRequest, now: Time)
    ensures Enqueue(q, r, now).acked == q.acked && Enqueue(q, r, now).dlq == q.dlq
  {
  }

  /** A longer waiting list starts with the same messages. */
  lemma ReadGrows(q: Queue, q': Queue, count: nat)
    requires Pending(q) <= Pending(q')
    ensures ReadMessages(q, count) <= ReadMessages(q', count)
  {
    hide Pending;
  }

  /** The message in hand and what the stage says about the local job record. */
  lemma InHand(cfg: Config, trace: seq<Event>, s: System)
    requires Reaches(cfg, 1, trace, s) && |s.workers| == 1 && s.workers[0].Busy?
    ensures StageOk(cfg, s.stores, s.workers[0].m, s.workers[0].stage)
    ensures s.workers[0].m in s.stores.q.messages && s.workers[0].m.id <= |s.stores.q.messages|
  {
    hide Reaches, RowsOk, ResultsOk, FramesOwned, ActionsOk, ClassifiedOk, LogOk, OnePublisher, StageOk, JobsKeyed,
      IndexPointsToOwner;
    ReachableIsSafe(cfg, 1, trace, s);
  }

  /** What a commit leaves in the tables. */
  lemma CommittedTablesOf(cfg: Config, trace: seq<Event>, s: System, job: VideoJob, v: Verdict,
                          action: Option<StorageAction>, now: Time)
    requires Reaches(cfg, 1, trace, s) && CommitFinal(s.stores.db, job, v.frames, v.result, action, now).Some?
    requires VerdictFor(cfg, job, v)
    ensures var db, db' := s.stores.db, CommitFinal(s.stores.db, job, v.frames, v.result, action, now).value;
            && job.jobId !in db.results && db'.results == db.results[job.jobId := v.result]
            && db'.actions == (if action.Some? then db.actions[action.value.actionId := action.value] else db.actions)
            && RowsAdded(db.frames, db'.frames, job.jobId, job.videoId, v.frames)
            && job.jobId in db'.jobs && db'.jobs[job.jobId].status == Classified
  {
    ReachableIsSafe(cfg, 1, trace, s);
    VerdictFacts(cfg, job, v);
    hide Reaches, ValidQueue, RowsOk, ResultsOk, ActionsOk, ClassifiedOk, LogOk, LocalOk, OnePublisher, VerdictFor,
      CommitFinal, RowsAdded, Insertable;
    CommitFinalExactly(s.stores.db, job, v.frames, v.result, action, now);
  }

  lemma AfterTheCommit(j: string, r: VideoResult)
    ensures var todo := Script(j, r)[1..];
            && |todo| > 2 && todo[0] == CanonicalRow(j, r) && todo[1..][0] == LegacyRow(j, r)
            && |todo[1..]| > 1 && |todo[1..][1..]| >= 1
            && (r.moveRequired ==> |todo[1..][1..]| == 2 && todo[1..][1..][0] == StorageActionRow(j, r)
                                   && todo[1..][1..][1..] == [RuntimeWrite(j, r)])
            && (!r.moveRequired ==> todo[1..][1..] == [RuntimeWrite(j, r)])
  {
    var rows := [Committed(j, r), CanonicalRow(j, r), LegacyRow(j, r)];
    assert Script(j, r) == rows + (if r.moveRequired then [StorageActionRow(j, r)] else []) + [RuntimeWrite(j, r)];
  }

  lemma InOrder(log: seq<Effect>, two: seq<Effect>, action: seq<Effect>, last: seq<Effect>)
    requires |two| == 2
    ensures log + [two[0]] + [two[1]] + action + last == log + two + action + last
    ensures action == [] ==> log + [two[0]] + [two[1]] + last == log + two + action + last
  {
    assert two == [two[0]] + [two[1]];
    assert log + [two[0]] + [two[1]] == log + two;
    assert action == [] ==> log + two + action == log + two;
  }

  /** The log gains the move, if one is required, the commit and the rows of the publication in their order. */
  predicate Finalized(log: seq<Effect>, log': seq<Effect>, j: string, r: VideoResult) {
    log' == log + (if r.moveRequired then [Moved(j)] else []) + [Committed(j, r)]
            + [CanonicalRow(j, r), LegacyRow(j, r)] + (if r.moveRequired then [StorageActionRow(j, r)] else [])
            + [RuntimeWrite(j, r)]
  }

  /** The tables gain the frame rows, the result and, with this id, the action of a required move. */
  predicate Stored(db: Db, db': Db, job: VideoJob, v: Verdict, uuid: string) {
    && job.jobId !in db.results && db'.results == db.results[job.jobId := v.result]
    && RowsAdded(db.frames, db'.frames, job.jobId, job.videoId, v.frames)
    && (!v.result.moveRequired ==> db'.actions == db.actions)
    && (v.result.moveRequired ==>
          var id := "storage-action:" + job.jobId + ":" + uuid;
          db'.actions == db.actions[id := StorageAction(id, job.jobId, job.videoId, job.publisherUserId,
                                                        v.result.moveThreshold, v.result.finalScore)])
  }

  lemma ContinuesItself(a: seq<Event>)
    ensures Continues(a, a, false)
  {
  }

  lemma ContinuesWith(a: seq<Event>, b: seq<Event>, e: Event)
    requires Continues(a, b, false)
    ensures Continues(a, b + [e], e.Cut?)
  {
    assert (b + [e])[|a|..] == b[|a|..] + [e];
  }

  /** A message in hand, the rest of its batch, and the trace when the batch was asked for. */
  datatype Hand = Hand(from: seq<Event>, m: Message, rest: seq<Message>)

  function IdsOf(messages: seq<Message>): set<nat> {
    set i | 0 <= i < |messages| :: messages[i].id
  }

  lemma IdsOfNext(messages: seq<Message>, i: nat)
    requires i < |messages|
    ensures IdsOf(messages[..i + 1]) == IdsOf(messages[..i]) + {messages[i].id}
  {
    var n, w := messages[..i + 1], messages[..i];
    assert n == w + [messages[i]];
    forall id | id in IdsOf(w) + {messages[i].id}
      ensures id in IdsOf(n)
    {
      if id in IdsOf(w) {
        var k :| 0 <= k < |w| && w[k].id == id;
        assert n[k].id == id;
      } else {
        assert n[i].id == id;
      }
    }
  }

  lemma BatchEnds(messages: seq<Message>)
    ensures IdsOf(messages[..0]) == {} && messages[..|messages|] == messages
    ensures messages[0..] == messages && NextMessage(messages[|messages|..]) == Idle
  {
  }

  lemma NextIsStart(messages: seq<Message>, i: nat)
    requires i < |messages|
    ensures NextMessage(messages[i..]) == StartOn(messages[i], messages[i + 1..])
  {
    assert messages[i..][1..] == messages[i + 1..];
  }

  class ExternalServices {
    var log: seq<Effect>

    constructor ()
      ensures log == []
    {
      log := [];
    }

    method Perform(e: Effect)
      modifies this
      ensures log == old(log) + [e]
    {
      log := log + [e];
    }
  }

  class VideoQueueWorker {
    const cfg: Config
    const frameBatchSize: int
    const gpuMaxAttempts: int
    /** The model's answer to try k at batch b of a job's n-th attempt is `model(job, n)(b)(k)`. */
    const model: (string, nat) -> nat -> nat -> Response
    const queue: InMemoryVideoQueueRepository
    const db: PostgresDatabase
    const outside: ExternalServices
    ghost var trace: seq<Event>
    ghost var sys: System

    constructor (cfg: Config, frameBatchSize: int, gpuMaxAttempts: int, model: (string, nat) -> nat -> nat -> Response)
      ensures Valid() && trace == [] && sys.workers == [Idle]
      ensures this.cfg == cfg && fresh(queue) && fresh(db) && fresh(outside)
    {
      this.cfg, this.frameBatchSize, this.gpuMaxAttempts, this.model := cfg, frameBatchSize, gpuMaxAttempts, model;
      queue := new InMemoryVideoQueueRepository();
      db := new PostgresDatabase();
      outside := new ExternalServices();
      trace, sys := [], Init(1);
    }

    /** The repositories are in the state the trace leads to. */
    ghost predicate Valid()
      reads this, queue, db, outside
    {
      && |sys.workers| == 1
      && sys.stores == Stores(queue.State(), db.State(), outside.log)
      && Reaches(cfg, 1, trace, sys)
    }

    ghost method Advance(e: Event)
      requires Reaches(cfg, 1, trace, sys) && Enabled(cfg, sys, e)
      modifies this
      ensures trace == old(trace) + [e] && sys == Apply(cfg, old(sys), e) && Reaches(cfg, 1, trace, sys)
    {
      StepReaches(cfg, 1, trace, sys, e);
      trace, sys := trace + [e], Apply(cfg, sys, e);
    }

    // ---------- one await ----------

    /** The worker holds a message and `stage` is its next await; nothing was cut since `hand.from`. */
    ghost predicate Ready(hand: Hand, stage: Stage)
      reads this, queue, db, outside
    {
      Valid() && sys.workers == [Busy(hand.m, hand.rest, stage)] && Continues(hand.from, trace, false)
    }

    /** The worker was cut and has dropped its batch. */
    ghost predicate Stopped(from: seq<Event>)
      reads this, queue, db, outside
    {
      Valid() && sys.workers == [Idle] && Continues(from, trace, true)
    }

    /** What happens while the worker waits: any number of enqueues by the API, and then perhaps the worker's end. */
    method Wait(ghost from: seq<Event>) returns (alive: bool)
      requires Valid() && Continues(from, trace, false)
      modifies this, queue
      ensures Valid() && Continues(from, trace, !alive)
      ensures sys.workers == if alive then old(sys.workers) else [Idle]
      ensures queue.ackedMessageIds == old(queue.ackedMessageIds) && queue.dlq == old(queue.dlq)
      ensures Pending(old(queue.State())) <= Pending(queue.State())
    {
      hide Reaches, ValidQueue, WellKept, Continues, Pending, Enqueue;
      var enqueues: nat :| 0 <= enqueues;
      for i := 0 to enqueues
        invariant Valid() && Continues(from, trace, false)
        invariant sys.workers == old(sys.workers)
        invariant queue.ackedMessageIds == old(queue.ackedMessageIds) && queue.dlq == old(queue.dlq)
        invariant Pending(old(queue.State())) <= Pending(queue.State())
      {
        var request: VideoDetectRequest := *;
        var now: Time := *;
        if ValidRequest(request) {
          QueueIsValid(cfg, trace, sys);
          EnqueueKeepsPending(queue.State(), request, now);
          AckedAsBefore(queue.State(), request, now);
          var answer := queue.EnqueueVideoJob(request, now);
          ContinuesWith(from, trace, ApiEnqueue(request, now));
          Advance(ApiEnqueue(request, now));
        }
      }
      alive := *;
      if !alive {
        ContinuesWith(from, trace, Cut(0));
        Advance(Cut(0));
      }
    }

    /** Book one await as an event of the transition system. */
    ghost method Record(hand: Hand, stage: Stage, c: Choice)
      requires Reaches(cfg, 1, trace, sys) && sys.workers == [Busy(hand.m, hand.rest, stage)]
      requires Continues(hand.from, trace, false) && Allows(cfg, sys.stores, stage, c)
      modifies this
      ensures Reaches(cfg, 1, trace, sys) && Continues(hand.from, trace, false)
      ensures sys.stores == Effects(cfg, old(sys.stores), hand.m, stage, c)
      ensures sys.workers == [AfterWork(cfg, old(sys.stores), Busy(hand.m, hand.rest, stage), c)]
    {
      hide Reaches, Effects, AfterWork, Allows, MissedBy, Continues;
      ContinuesWith(hand.from, trace, Work(0, c));
      Advance(Work(0, c));
    }

    // ---------- the queue service ----------

    /** `get_status_by_job_id` where the message is taken up. */
    method FindJob(ghost hand: Hand, jobId: string) returns (r: Awaited<Option<VideoJob>>)
      requires Ready(hand, LookUpJob) && jobId == hand.m.jobId
      modifies this, queue
      ensures !r.Raises? && (r.Interrupted? ==> Stopped(hand.from))
      ensures r.Resolved? && r.value.Some? ==> Ready(hand, LookUpAgain(r.value.value)) && r.value.value.jobId == jobId
      ensures r.Resolved? && r.value.None? ==>
                Ready(hand, DeadLettering("queue_job_not_found", "queue job " + jobId + " was not found"))
      ensures queue.ackedMessageIds == old(queue.ackedMessageIds)
    {
      hide Reaches, Continues;
      var alive := Wait(hand.from);
      if !alive {
        return Interrupted;
      }
      var job := queue.GetJobById(jobId);
      Record(hand, LookUpJob, When(cfg, 0, Done));
      InHand(cfg, trace, sys);
      return Resolved(job);
    }

    /** `get_status_by_job_id` at the start of `process`, falling back to the record in hand. */
    method Refresh(ghost hand: Hand, job: VideoJob) returns (r: Awaited<VideoJob>)
      requires Ready(hand, LookUpAgain(job))
      modifies this, queue
      ensures !r.Raises? && (r.Interrupted? ==> Stopped(hand.from))
      ensures r.Resolved? ==> Ready(hand, if IsTerminal(r.value.status) then Acking else LookUpPersisted(job, r.value))
      ensures queue.ackedMessageIds == old(queue.ackedMessageIds)
    {
      hide Reaches, Continues, IsTerminal;
      var alive := Wait(hand.from);
      if !alive {
        return Interrupted;
      }
      var current := queue.GetJobById(job.jobId);
      Record(hand, LookUpAgain(job), When(cfg, 0, Done));
      return Resolved(if current.Some? then current.value else job);
    }

    /** Where an exception inside the `try` of `process` leads. */
    ghost function FailureAt(job: VideoJob, e: Exn): Stage {
      RecordingFailure(job, ClassifyProcessingError(e, job.attempts, cfg.maxAttempts))
    }

    /** The status an await at `stage` asks the queue to set. */
    ghost predicate Sets(stage: Stage, jobId: string, status: VideoJobStatus, code: Option<string>,
                         text: Option<string>) {
      match stage
      case AdoptClassified(job) => jobId == job.jobId && status == Classified && code == None && text == None
      case StartProcessing(job, _) => jobId == job.jobId && status == Processing && code == None && text == None
      case Finishing(job) => jobId == job.jobId && status == Classified && code == None && text == None
      case RecordingFailure(job, f) =>
        jobId == job.jobId && status == f.status && code == Some(f.errorCode) && text == Some(f.errorMessage)
      case _ => false
    }

    /** The store may refuse the update, or perform it and lose its answer. Inside the `try` that raises; elsewhere it
        ends the worker like a cut. */
    method UpdateStatus(ghost hand: Hand, ghost stage: Stage, inTry: bool, jobId: string, status: VideoJobStatus,
                        code: Option<string>, text: Option<string>)
      returns (r: Awaited<Option<VideoJob>>)
      requires Ready(hand, stage) && Sets(stage, jobId, status, code, text) && (inTry <==> stage.Finishing?)
      modifies this, queue
      ensures r.Interrupted? ==> Stopped(hand.from)
      ensures r.Raises? ==> stage.Finishing? && Ready(hand, FailureAt(stage.job, r.e))
      ensures r.Resolved? ==>
                match stage
                case StartProcessing(_, current) =>
                  Ready(hand, MarkingProcessing(if r.value.Some? then r.value.value else current))
                case RecordingFailure(job, f) => Ready(hand, MarkingFailed(job, f))
                case _ => Ready(hand, Acking)
      ensures queue.ackedMessageIds == old(queue.ackedMessageIds)
    {
      hide Reaches, Continues, ValidQueue, WellKept, WithStatus, ClassifyProcessingError;
      var alive := Wait(hand.from);
      if !alive {
        return Interrupted;
      }
      var now: Time := *;
      var outcome: Outcome := *;
      if !inTry {
        outcome := Done;
      }
      if outcome.Raised? {
        Record(hand, stage, When(cfg, now, outcome));
        return Raises(outcome.e);
      }
      QueueIsValid(cfg, trace, sys);
      var updated := queue.UpdateJobStatus(jobId, status, code, text, now);
      Record(hand, stage, When(cfg, now, outcome));
      if outcome.Lost? {
        return Raises(outcome.e);
      }
      return Resolved(updated);
    }

    method RequeueVideoJob(ghost hand: Hand, jobId: string) returns (r: Awaited<()>)
      requires Ready(hand, Requeueing(jobId))
      modifies this, queue
      ensures !r.Raises? && (r.Interrupted? ==> Stopped(hand.from))
      ensures r.Resolved? ==> Ready(hand, Acking)
      ensures queue.ackedMessageIds == old(queue.ackedMessageIds)
    {
      hide Reaches, Continues, ValidQueue, WellKept;
      var alive := Wait(hand.from);
      if !alive {
        return Interrupted;
      }
      QueueIsValid(cfg, trace, sys);
      InHand(cfg, trace, sys);
      var raised := queue.RequeueVideoJob(jobId);
      Record(hand, Requeueing(jobId), When(cfg, 0, Done));
      return Resolved(());
    }

    /** The message is done with and the worker turns to the rest of its batch. */
    ghost predicate Handled(hand: Hand)
      reads this, queue, db, outside
    {
      Valid() && sys.workers == [NextMessage(hand.rest)] && Continues(hand.from, trace, false)
    }

    method AckVideoJobMessage(ghost hand: Hand, messageId: nat) returns (r: Awaited<()>)
      requires Ready(hand, Acking) && messageId == hand.m.id
      modifies this, queue
      ensures !r.Raises? && (r.Interrupted? ==> Stopped(hand.from))
      ensures r.Resolved? ==> Handled(hand) && queue.ackedMessageIds == old(queue.ackedMessageIds) + {messageId}
      ensures queue.dlq == old(queue.dlq)
    {
      hide Reaches, Continues, ValidQueue, WellKept, NextMessage;
      var alive := Wait(hand.from);
      if !alive {
        return Interrupted;
      }
      QueueIsValid(cfg, trace, sys);
      InHand(cfg, trace, sys);
      queue.AckVideoJobMessage(messageId);
      Record(hand, Acking, When(cfg, 0, Done));
      return Resolved(());
    }

    /** Append the dead letter, then acknowledge. */
    method MoveVideoJobMessageToDlq(ghost hand: Hand, m: Message, code: string, text: string) returns (r: Awaited<()>)
      requires Ready(hand, DeadLettering(code, text)) && m == hand.m
      modifies this, queue
      ensures !r.Raises? && (r.Interrupted? ==> Stopped(hand.from))
      ensures r.Resolved? ==> Handled(hand) && queue.ackedMessageIds == old(queue.ackedMessageIds) + {m.id}
      ensures r.Resolved? ==> queue.dlq == old(queue.dlq) + [DeadLetter(m.id, m.jobId, code, text, m.payload)]
    {
      hide Reaches, Continues, ValidQueue, WellKept, NextMessage;
      var alive := Wait(hand.from);
      if !alive {
        return Interrupted;
      }
      QueueIsValid(cfg, trace, sys);
      queue.AppendToDlq(m, code, text);
      Record(hand, DeadLettering(code, text), When(cfg, 0, Done));
      r := AckVideoJobMessage(hand, m.id);
    }

    // ---------- Postgres, the model, the mover and the buffers ----------

    /** The persisted row; an exception here is outside the `try` and ends the worker. */
    method GetPersistedJob(ghost hand: Hand, job: VideoJob,
                           ghost current: VideoJob) returns (r: Awaited<Option<VideoJob>>)
      requires Ready(hand, LookUpPersisted(job, current))
      modifies this, queue
      ensures !r.Raises? && (r.Interrupted? ==> Stopped(hand.from))
      ensures r.Resolved? ==>
                Ready(hand, if r.value.Some? && r.value.value.status == Classified then AdoptClassified(job)
                            else StartProcessing(job, current))
      ensures queue.ackedMessageIds == old(queue.ackedMessageIds)
    {
      hide Reaches, Continues;
      var alive := Wait(hand.from);
      if !alive {
        return Interrupted;
      }
      var row := db.GetByJobId(job.jobId);
      Record(hand, LookUpPersisted(job, current), When(cfg, 0, Done));
      return Resolved(row);
    }

    /** The database may refuse, or do the work and lose its answer. */
    method MarkProcessing(ghost hand: Hand, job: VideoJob) returns (r: Awaited<()>)
      requires Ready(hand, MarkingProcessing(job))
      modifies this, queue, db
      ensures r.Interrupted? ==> Stopped(hand.from)
      ensures r.Raises? ==> Ready(hand, FailureAt(job, r.e))
      ensures r.Resolved? ==> Ready(hand, Computing(job))
      ensures queue.ackedMessageIds == old(queue.ackedMessageIds)
    {
      hide Reaches, Continues, ClassifyProcessingError;
      var alive := Wait(hand.from);
      if !alive {
        return Interrupted;
      }
      var now: Time := *;
      var outcome: Outcome := *;
      if !outcome.Raised? {
        db.MarkProcessing(job, now);
      }
      Record(hand, MarkingProcessing(job), When(cfg, now, outcome));
      return if outcome.Done? then Resolved(()) else Raises(outcome.e);
    }

    /** Download, probe, extraction, the model on every batch, and the aggregate. */
    method ComputeVerdict(ghost hand: Hand, job: VideoJob)
      returns (r: Awaited<Verdict>, ghost paths: seq<Path>, ghost said: seq<seq<ModelOutput.FrameOutput>>)
      requires Ready(hand, Computing(job))
      modifies this, queue
      ensures r.Interrupted? ==> Stopped(hand.from)
      ensures r.Raises? ==> Ready(hand, FailureAt(job, r.e))
      ensures r.Resolved? ==> Ready(hand, Moving(job, r.value)) && VerdictFor(cfg, job, r.value)
      ensures r.Resolved? ==> JudgedBy(job, paths, said, r.value)
      ensures queue.ackedMessageIds == old(queue.ackedMessageIds)
    {
      hide Reaches, Continues, ClassifyProcessingError, VerdictFor, Aggregate, JudgedBy, BatchFails, AllSaid;
      paths, said := [], [];
      var alive := Wait(hand.from);
      if !alive {
        r := Interrupted;
        return;
      }
      var outcome: Outcome := *;
      if !outcome.Done? {
        Record(hand, Computing(job), When(cfg, 0, outcome));
        r := Raises(outcome.e);
        return;
      }
      var extracted: seq<Path> := *;
      paths := extracted;
      var verdict;
      verdict, said := Judge(job, extracted);
      match verdict {
        case Err(e) =>
          Record(hand, Computing(job), When(cfg, 0, Raised(e)));
          r := Raises(e);
        case Ok(v) =>
          Record(hand, Computing(job), When(cfg, 0, Done).(verdict := v));
          r := Resolved(v);
      }
    }

    /** The verdict on these frames is the one on what the model said about them, batch by batch. */
    ghost predicate JudgedBy(job: VideoJob, paths: seq<Path>, said: seq<seq<ModelOutput.FrameOutput>>, v: Verdict)
    {
      && frameBatchSize >= 1
      && |said| == |FrameBatches(FramesFromPaths(paths), frameBatchSize)|
      && AllSaid(FrameBatches(FramesFromPaths(paths), frameBatchSize), gpuMaxAttempts, model(job.jobId, job.attempts),
                 said)
      && CarriesAll(FramesFromPaths(paths), Concat(said), v.frames)
      && SeverityIsOf(v.result, Concat(said)) && MaximaAreOf(v.result.maxCategorySeverities, Concat(said))
      && (v.result.finalIsNsfw <==> exists o :: o in Concat(said) && IsNsfw(o.categories))
    }

    /** Frames in batches through the model, then their aggregate: a verdict of the job, or the exception of the first
        batch the model does not answer. */
    method Judge(job: VideoJob, paths: seq<Path>)
      returns (r: Result<Verdict, Exn>, ghost said: seq<seq<ModelOutput.FrameOutput>>)
      ensures r.Ok? ==> VerdictFor(cfg, job, r.value) && |r.value.frames| == |paths|
      ensures r.Ok? ==> JudgedBy(job, paths, said, r.value)
      ensures r.Err? && frameBatchSize >= 1 && paths != [] ==>
                var batches := FrameBatches(FramesFromPaths(paths), frameBatchSize);
                && AllSaid(batches, gpuMaxAttempts, model(job.jobId, job.attempts), said) && |said| < |batches|
                && BatchFails(batches[|said|], gpuMaxAttempts, model(job.jobId, job.attempts)(|said|), r.error)
    {
      hide AllSaid, BatchFails, FrameBatches, CarriesAll, Attached, SeverityIsOf, MaximaAreOf, IsNsfw, Aggregate,
        ValidFrame, FramesFromPaths, ModelOutput.ValidOutput;
      var frames := FramesFromPaths(paths);
      var moderated;
      moderated, said := ModerateFrames(frames, frameBatchSize, gpuMaxAttempts, model(job.jobId, job.attempts));
      if moderated.Err? {
        return Err(moderated.error), said;
      }
      if frameBatchSize >= 1 {
        BatchesCover(frames, frameBatchSize);
        AllAttached(FrameBatches(frames, frameBatchSize), gpuMaxAttempts, model(job.jobId, job.attempts), said,
                    moderated.value);
        ResultsInFrameOrder(paths, moderated.value);
      }
      ResultFacts(cfg.aggregation, job.jobId, job.videoId, job.policyVersion, moderated.value);
      var aggregate := Aggregate(cfg.aggregation, job.jobId, job.videoId, job.policyVersion, moderated.value);
      if aggregate.Err? {
        return Err(OtherError("ValueError", "cannot aggregate an empty frame list")), said;
      }
      VerdictOfModel(cfg.aggregation, job.jobId, job.videoId, job.policyVersion, frames, Concat(said), moderated.value);
      return Ok(Verdict(moderated.value, aggregate.value)), said;
    }

    /** The external move, made before the final transaction when the verdict requires it. */
    method MoveIfRequired(ghost hand: Hand, job: VideoJob, v: Verdict) returns (r: Awaited<bool>)
      requires Ready(hand, Moving(job, v))
      modifies this, queue, outside
      ensures r.Interrupted? ==> Stopped(hand.from)
      ensures r.Raises? ==> Ready(hand, FailureAt(job, r.e))
      ensures r.Resolved? ==> Ready(hand, Committing(job, v)) && r.value == v.result.moveRequired
      ensures r.Resolved? ==> outside.log == old(outside.log) + if v.result.moveRequired then [Moved(job.jobId)] else []
      ensures queue.ackedMessageIds == old(queue.ackedMessageIds)
    {
      hide Reaches, Continues, ClassifyProcessingError;
      var alive := Wait(hand.from);
      if !alive {
        return Interrupted;
      }
      if !v.result.moveRequired {
        Record(hand, Moving(job, v), When(cfg, 0, Done));
        return Resolved(false);
      }
      var outcome: Outcome := *;
      if !outcome.Raised? {
        outside.Perform(Moved(job.jobId));
      }
      Record(hand, Moving(job, v), When(cfg, 0, outcome));
      return if outcome.Done? then Resolved(true) else Raises(outcome.e);
    }

    /** The final transaction; a violated constraint raises like a lost connection. */
    method Commit(ghost hand: Hand, job: VideoJob, v: Verdict, action: Option<StorageAction>, uuid: string)
      returns (r: Awaited<()>)
      requires Ready(hand, Committing(job, v)) && action == ActionOf(job, v, uuid)
      modifies this, queue, db, outside
      ensures r.Interrupted? ==> Stopped(hand.from)
      ensures r.Raises? ==> Ready(hand, FailureAt(job, r.e))
      ensures r.Resolved? ==> Ready(hand, Publishing(job, v, Script(job.jobId, v.result)[1..]))
      ensures r.Resolved? ==>
                && outside.log == old(outside.log) + [Committed(job.jobId, v.result)]
                && job.jobId !in old(db.results) && db.results == old(db.results)[job.jobId := v.result]
                && db.actions == (if action.Some? then old(db.actions)[action.value.actionId := action.value]
                                  else old(db.actions))
                && RowsAdded(old(db.frames), db.frames, job.jobId, job.videoId, v.frames)
                && job.jobId in db.jobs && db.jobs[job.jobId].status == Classified
      ensures queue.ackedMessageIds == old(queue.ackedMessageIds)
    {
      hide Reaches, Continues, ClassifyProcessingError, CommitFinal, ActionOf;
      var alive := Wait(hand.from);
      if !alive {
        return Interrupted;
      }
      var now: Time := *;
      var outcome: Outcome := *;
      if outcome.Raised? {
        Record(hand, Committing(job, v), When(cfg, now, outcome).(uuid := uuid));
        return Raises(outcome.e);
      }
      var committed := CommitFinalResult(db, job, v.frames, v.result, action, now);
      if !committed {
        var e := OtherError("IntegrityError", "constraint violated");
        Record(hand, Committing(job, v), When(cfg, now, Raised(e)).(uuid := uuid));
        return Raises(e);
      }
      InHand(cfg, trace, sys);
      CommittedTablesOf(cfg, trace, sys, job, v, action, now);
      NoteCommit(Committed(job.jobId, v.result));
      Record(hand, Committing(job, v), When(cfg, now, outcome).(uuid := uuid));
      return if outcome.Done? then Resolved(()) else Raises(outcome.e);
    }

    /** Book-keeping only: the commit takes its place in the order of effects. */
    method NoteCommit(e: Effect)
      modifies outside
      ensures outside.log == old(outside.log) + [e]
    {
      outside.Perform(e);
    }

    /** One push to a buffer, or the runtime write. */
    method Publish(ghost hand: Hand, ghost job: VideoJob, ghost v: Verdict, ghost todo: seq<Effect>, e: Effect)
      returns (r: Awaited<()>)
      requires Ready(hand, Publishing(job, v, todo)) && todo != [] && todo[0] == e
      modifies this, queue, outside
      ensures r.Interrupted? ==> Stopped(hand.from)
      ensures r.Raises? ==> Ready(hand, FailureAt(job, r.e))
      ensures r.Resolved? ==> Ready(hand, if |todo| <= 1 then Finishing(job) else Publishing(job, v, todo[1..]))
      ensures r.Resolved? ==> outside.log == old(outside.log) + [e]
      ensures queue.ackedMessageIds == old(queue.ackedMessageIds)
    {
      hide Reaches, Continues, ClassifyProcessingError;
      var alive := Wait(hand.from);
      if !alive {
        return Interrupted;
      }
      var outcome: Outcome := *;
      if !outcome.Raised? {
        outside.Perform(e);
      }
      Record(hand, Publishing(job, v, todo), When(cfg, 0, outcome));
      return if outcome.Done? then Resolved(()) else Raises(outcome.e);
    }

    /** Outside the `try`: an exception ends the worker. */
    method MarkFailed(ghost hand: Hand, job: VideoJob, failure: ProcessingFailure) returns (r: Awaited<()>)
      requires Ready(hand, MarkingFailed(job, failure))
      modifies this, queue, db
      ensures !r.Raises? && (r.Interrupted? ==> Stopped(hand.from))
      ensures r.Resolved? ==>
                Ready(hand, if failure.retryable then Requeueing(hand.m.jobId)
                            else DeadLettering(failure.errorCode, failure.errorMessage))
      ensures queue.ackedMessageIds == old(queue.ackedMessageIds)
    {
      hide Reaches, Continues, SetFailed;
      var alive := Wait(hand.from);
      if !alive {
        return Interrupted;
      }
      var now: Time := *;
      InHand(cfg, trace, sys);
      db.MarkFailed(job.jobId, failure.status, failure.errorCode, failure.errorMessage, now);
      Record(hand, MarkingFailed(job, failure), When(cfg, now, Done));
      return Resolved(());
    }

    // ---------- the detection service ----------

    /** Canonical row, legacy row, the action row if the video was moved, runtime key: in this order. */
    method PublishAfterCommit(ghost hand: Hand, job: VideoJob, v: Verdict, action: Option<StorageAction>)
      returns (r: Awaited<()>)
      requires Ready(hand, Publishing(job, v, Script(job.jobId, v.result)[1..])) && (action.Some? <==>
               v.result.moveRequired)
      modifies this, queue, outside
      ensures r.Interrupted? ==> Stopped(hand.from)
      ensures r.Raises? ==> Ready(hand, FailureAt(job, r.e))
      ensures r.Resolved? ==> Ready(hand, Finishing(job))
      ensures r.Resolved? ==>
                outside.log == old(outside.log) + [CanonicalRow(job.jobId, v.result), LegacyRow(job.jobId, v.result)]
                               + (if action.Some? then [StorageActionRow(job.jobId, v.result)] else [])
                               + [RuntimeWrite(job.jobId, v.result)]
      ensures queue.ackedMessageIds == old(queue.ackedMessageIds)
    {
      hide Ready, Stopped, FailureAt;
      var j, result := job.jobId, v.result;
      ghost var log, todo := outside.log, Script(j, result)[1..];
      AfterTheCommit(j, result);
      hide Script;
      var canonical :- Publish(hand, job, v, todo, CanonicalRow(j, result));
      var legacy :- Publish(hand, job, v, todo[1..], LegacyRow(j, result));
      if action.Some? {
        var stored :- Publish(hand, job, v, todo[1..][1..], StorageActionRow(j, result));
      }
      r := Publish(hand, job, v, [RuntimeWrite(j, result)], RuntimeWrite(j, result));
      if r.Resolved? {
        InOrder(log, [CanonicalRow(j, result), LegacyRow(j, result)],
                if action.Some? then [StorageActionRow(j, result)] else [], [RuntimeWrite(j, result)]);
      }
    }

    /** Move, commit, publish. */
    method FinalizeClassification(ghost hand: Hand, job: VideoJob, v: Verdict)
      returns (r: Awaited<()>, ghost uuid: string)
      requires Ready(hand, Moving(job, v))
      modifies this, queue, db, outside
      ensures r.Interrupted? ==> Stopped(hand.from)
      ensures r.Raises? ==> Ready(hand, FailureAt(job, r.e))
      ensures r.Resolved? ==> Ready(hand, Finishing(job))
      ensures r.Resolved? ==> Finalized(old(outside.log), outside.log, job.jobId, v.result)
      ensures r.Resolved? ==> Stored(old(db.State()), db.State(), job, v, uuid)
      ensures queue.ackedMessageIds == old(queue.ackedMessageIds)
    {
      hide Ready, Stopped, FailureAt, Script;
      var generated: string := *;
      uuid := generated;
      var moved :- MoveIfRequired(hand, job, v);
      var action := if moved then Some(ActionFor(job, v.result, generated)) else None;
      var committed :- Commit(hand, job, v, action, generated);
      r := PublishAfterCommit(hand, job, v, action);
    }

    // ---------- the processor ----------

    method ProcessVideo(ghost hand: Hand, job: VideoJob) returns (r: Awaited<()>)
      requires Ready(hand, Computing(job))
      modifies this, queue, db, outside
      ensures r.Interrupted? ==> Stopped(hand.from)
      ensures r.Raises? ==> Ready(hand, FailureAt(job, r.e))
      ensures r.Resolved? ==> Ready(hand, Acking)
      ensures queue.ackedMessageIds == old(queue.ackedMessageIds)
    {
      hide Ready, Stopped, FailureAt, VerdictFor, JudgedBy, Finalized, Stored;
      var verdict, paths, said :- ComputeVerdict(hand, job);
      var published, uuid :- FinalizeClassification(hand, job, verdict);
      var updated :- UpdateStatus(hand, Finishing(job), true, job.jobId, Classified, None, None);
      return Resolved(());
    }

    /** The two calls inside the `try`. */
    method Attempt(ghost hand: Hand, job: VideoJob) returns (r: Awaited<()>)
      requires Ready(hand, MarkingProcessing(job))
      modifies this, queue, db, outside
      ensures r.Interrupted? ==> Stopped(hand.from)
      ensures r.Raises? ==> Ready(hand, FailureAt(job, r.e))
      ensures r.Resolved? ==> Ready(hand, Acking)
      ensures queue.ackedMessageIds == old(queue.ackedMessageIds)
    {
      hide Ready, Stopped, FailureAt;
      var marked :- MarkProcessing(hand, job);
      r := ProcessVideo(hand, job);
    }

    /** `process`: nothing to report, or the failure its exception carries. */
    method Process(ghost hand: Hand, job: VideoJob) returns (r: Awaited<Option<ProcessingFailure>>)
      requires Ready(hand, LookUpAgain(job))
      modifies this, queue, db, outside
      ensures !r.Raises? && (r.Interrupted? ==> Stopped(hand.from))
      ensures r.Resolved? ==>
                Ready(hand, match r.value
                            case None => Acking
                            case Some(f) =>
                              if f.retryable then Requeueing(hand.m.jobId)
                              else DeadLettering(f.errorCode, f.errorMessage))
      ensures queue.ackedMessageIds == old(queue.ackedMessageIds)
    {
      hide Ready, Stopped, ClassifyProcessingError;
      var currentJob :- Refresh(hand, job);
      if IsTerminal(currentJob.status) {
        return Resolved(None);
      }
      var persistedJob :- GetPersistedJob(hand, job, currentJob);
      if persistedJob.Some? && persistedJob.value.status == Classified {
        var adopted :- UpdateStatus(hand, AdoptClassified(job), false, job.jobId, Classified, None, None);
        return Resolved(None);
      }
      var started :- UpdateStatus(hand, StartProcessing(job, currentJob), false, job.jobId, Processing, None, None);
      var processingJob := if started.Some? then started.value else currentJob;
      var attempt := Attempt(hand, processingJob);
      match attempt {
        case Resolved(_) => return Resolved(None);
        case Interrupted => return Interrupted;
        case Raises(e) =>
          var failure := ClassifyProcessingError(e, processingJob.attempts, cfg.maxAttempts);
          var recorded :- UpdateStatus(hand, RecordingFailure(processingJob, failure), false, processingJob.jobId,
                                       failure.status, Some(failure.errorCode), Some(failure.errorMessage));
          var marked :- MarkFailed(hand, processingJob, failure);
          return Resolved(Some(failure));
      }
    }

    // ---------- the worker ----------

    method HandleMessage(ghost hand: Hand, message: Message) returns (r: Awaited<()>)
      requires Valid() && Continues(hand.from, trace, false)
      requires message == hand.m && sys.workers == [StartOn(hand.m, hand.rest)]
      modifies this, queue, db, outside
      ensures !r.Raises? && (r.Interrupted? ==> Stopped(hand.from))
      ensures r.Resolved? ==> Handled(hand) && queue.ackedMessageIds == old(queue.ackedMessageIds) + {message.id}
      ensures r.Resolved? && message.jobId == "" ==>
                queue.dlq == old(queue.dlq) + [DeadLetter(message.id, "", "queue_message_missing_job_id",
                                                          "queue message did not contain a job_id", message.payload)]
    {
      assert Ready(hand, StartOn(hand.m, hand.rest).stage);
      hide Ready, Stopped, Handled;
      if message.jobId == "" {
        r := MoveVideoJobMessageToDlq(hand, message, "queue_message_missing_job_id",
          "queue message did not contain a job_id");
        return;
      }
      var job :- FindJob(hand, message.jobId);
      if job.None? {
        r := MoveVideoJobMessageToDlq(hand, message, "queue_job_not_found",
          "queue job " + message.jobId + " was not found");
        return;
      }
      var failure :- Process(hand, job.value);
      if failure.Some? {
        if failure.value.retryable {
          var requeued :- RequeueVideoJob(hand, job.value.jobId);
          r := AckVideoJobMessage(hand, message.id);
          return;
        }
        r := MoveVideoJobMessageToDlq(hand, message, failure.value.errorCode, failure.value.errorMessage);
        return;
      }
      r := AckVideoJobMessage(hand, message.id);
    }

    /** One round: read a batch and handle its messages in order. Whatever happens, the repositories stay in a reachable
        state of the transition system and the worker ends idle; and if the round returns, nothing was cut, and exactly
        the messages it read, the oldest waiting ones first, have been acknowledged. */
    method RunOnce() returns (r: Awaited<nat>, ghost batch: seq<Message>)
      requires Valid() && sys.workers == [Idle]
      modifies this, queue, db, outside
      ensures Valid() && sys.workers == [Idle] && !r.Raises?
      ensures Continues(old(trace), trace, r.Interrupted?)
      ensures r.Resolved? ==> r.value == |batch| <= cfg.readCount
      ensures r.Resolved? ==> ReadMessages(old(queue.State()), cfg.readCount) <= batch
      ensures r.Resolved? ==> queue.ackedMessageIds == old(queue.ackedMessageIds) + IdsOf(batch)
    {
      hide Reaches, Continues, NextMessage, StartOn, IdsOf, Pending;
      batch := [];
      ContinuesItself(trace);
      var alive := Wait(trace);
      if !alive {
        return Interrupted, [];
      }
      var messages := queue.ReadVideoJobMessages(cfg.readCount);
      batch := messages;
      ReadGrows(old(queue.State()), queue.State(), cfg.readCount);
      ContinuesWith(old(trace), trace, Read(0));
      Advance(Read(0));
      BatchEnds(messages);
      for i := 0 to |messages|
        invariant Valid() && Continues(old(trace), trace, false)
        invariant sys.workers == [NextMessage(messages[i..])]
        invariant queue.ackedMessageIds == old(queue.ackedMessageIds) + IdsOf(messages[..i])
      {
        NextIsStart(messages, i);
        IdsOfNext(messages, i);
        var handled := HandleMessage(Hand(old(trace), messages[i], messages[i + 1..]), messages[i]);
        if handled.IsFailure() {
          return Interrupted, batch;
        }
      }
      return Resolved(|messages|), batch;
    }
  }

  lemma ClassifiedHasResult(cfg: Config, s: System, j: string)
    requires SystemOk(cfg, s) && j in s.stores.q.jobs && s.stores.q.jobs[j].status == Classified
    ensures j in s.stores.db.results
  {
    hide ValidQueue, RowsOk, ResultsOk, FramesOwned, ActionsOk, LogOk, LocalOk, OnePublisher;
  }

  /** The guarantees of the transition system hold of the worker's objects at every moment: no unfinished job is without
      a waiting message, a classified job has its result, and attempts stay within the budget plus the job's cuts. */
  lemma ObjectsAreSafe(worker: VideoQueueWorker, j: string)
    requires worker.Valid() && j in worker.queue.jobs
    ensures !IsTerminal(worker.queue.jobs[j].status) ==> Names(Pending(worker.queue.State()), j)
    ensures worker.queue.jobs[j].status == Classified ==> j in worker.db.results
    ensures var most := if worker.cfg.maxAttempts < 1 then 1 else worker.cfg.maxAttempts;
            worker.queue.jobs[j].attempts <= most + worker.sys.cuts[j]
  {
    hide Reaches, SystemOk, Attempts.Accounted, Pending, SoloStage, InFlight, Attempts.Budget;
    SoloReached(worker.cfg, worker.trace, worker.sys);
    AttemptsBounded(worker.cfg, worker.trace, worker.sys, j);
    if worker.queue.jobs[j].status == Classified {
      ClassifiedHasResult(worker.cfg, worker.sys, j);
    }
  }
}
