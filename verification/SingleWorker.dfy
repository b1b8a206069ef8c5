/** What holds in every run with one worker, cut anywhere and with enqueues in between: no job is lost, and at each
    stage the worker knows its job's record. */
module SingleWorker {
  import opened Common
  import opened VideoJobs
  import opened Failures
  import opened QueueState
  import opened PostgresState
  import opened Pipeline
  import opened PipelineSafety

  // ---------- messages ----------

  /** The message being handled, then the rest of its batch. */
  function InFlight(pc: Pc): seq<Message> {
    if pc.Idle? then [] else [pc.m] + pc.rest
  }

  predicate Names(messages: seq<Message>, jobId: string) {
    exists i :: 0 <= i < |messages| && messages[i].jobId == jobId
  }

  /** Every job that is not finished has a message waiting to be delivered. */
  predicate NoneLost(q: Queue) {
    forall j {:trigger Names(Pending(q), j)} :: j in q.jobs && !IsTerminal(q.jobs[j].status) ==> Names(Pending(q), j)
  }

  /** The attempt is under way: the local record is the stored one. */
  predicate UnderWay(q: Queue, m: Message, job: VideoJob) {
    m.jobId in q.jobs && q.jobs[m.jobId] == job && job.status == Processing && job.attempts > 0
  }

  /** The attempt was recorded as CLASSIFIED, in an update whose answer was lost. */
  predicate Unanswered(q: Queue, m: Message, job: VideoJob) {
    && m.jobId in q.jobs && q.jobs[m.jobId].status == Classified
    && job.attempts > 0 && q.jobs[m.jobId].attempts == job.attempts
  }

  predicate FailureOk(cfg: Config, f: ProcessingFailure, attempts: nat) {
    && (f.retryable <==> f.status == FailedRetryable)
    && (f.status == FailedRetryable || f.status == FailedTerminal)
    && (f.retryable ==> attempts < cfg.maxAttempts)
  }

  /** What one worker knows at each stage, undisturbed by others. */
  predicate SoloStage(cfg: Config, q: Queue, m: Message, stage: Stage) {
    && m.jobId in q.jobs
    && var record := q.jobs[m.jobId];
       match stage
       case LookUpJob => true
       case LookUpAgain(_) => true
       case LookUpPersisted(_, _) => !IsTerminal(record.status)
       case AdoptClassified(_) => !IsTerminal(record.status)
       case StartProcessing(_, _) => !IsTerminal(record.status)
       case MarkingProcessing(job) => UnderWay(q, m, job)
       case Computing(job) => UnderWay(q, m, job)
       case Moving(job, _) => UnderWay(q, m, job)
       case Committing(job, _) => UnderWay(q, m, job)
       case Publishing(job, _, _) => UnderWay(q, m, job)
       case Finishing(job) => UnderWay(q, m, job)
       case RecordingFailure(job, f) =>
         (UnderWay(q, m, job) || Unanswered(q, m, job)) && FailureOk(cfg, f, record.attempts)
       case MarkingFailed(_, f) =>
         && record.status == f.status && FailureOk(cfg, f, record.attempts)
         && record.lastErrorCode == Some(f.errorCode) && record.lastErrorMessage == Some(f.errorMessage)
       case Requeueing(_) => record.status == FailedRetryable
       case DeadLettering(code, text) =>
         && record.status == FailedTerminal
         && record.lastErrorCode == Some(code) && record.lastErrorMessage == Some(text)
       case Acking => IsTerminal(record.status) || (Pending(q) != [] && Names(Pending(q)[1..], m.jobId))
  }

  predicate SoloOk(cfg: Config, q: Queue, pc: Pc) {
    && InFlight(pc) <= Pending(q)
    && NoneLost(q)
    && (pc.Busy? ==> SoloStage(cfg, q, pc.m, pc.stage))
  }

  // ---------- queue operations ----------

  lemma NamesAppend(a: seq<Message>, b: seq<Message>, j: string)
    ensures Names(a + b, j) <==> Names(a, j) || Names(b, j)
  {
    if Names(a, j) {
      var i :| 0 <= i < |a| && a[i].jobId == j;
      assert (a + b)[i].jobId == j;
    }
    if Names(b, j) {
      var i :| 0 <= i < |b| && b[i].jobId == j;
      assert (a + b)[|a| + i].jobId == j;
    }
  }

  lemma MessageNamesJob(q: Queue, m: Message)
    requires ValidQueue(q) && m in q.messages
    ensures m.jobId in q.jobs && m.jobId != "" && q.jobs[m.jobId].jobId == m.jobId
  {
  }

  /** Setting the status of the message's job. */
  lemma StatusKeepsPending(q: Queue, jobId: string, status: VideoJobStatus, code: Option<string>,
                           text: Option<string>, now: Time)
    requires NoneLost(q) && (jobId in q.jobs && !IsTerminal(status) ==> Names(Pending(q), jobId))
    ensures var q' := UpdateStatus(q, jobId, status, code, text, now);
            Pending(q') == Pending(q) && NoneLost(q')
  {
  }

  lemma EnqueuePending(q: Queue, r: VideoDetectRequest, now: Time)
    requires ValidQueue(q) && NoneLost(q)
    ensures var q' := Enqueue(q, r, now);
            && Pending(q) <= Pending(q') && NoneLost(q')
            && (forall j :: j in q.jobs ==> j in q'.jobs && q'.jobs[j] == q.jobs[j])
  {
    var q' := Enqueue(q, r, now);
    if ExistingJob(q, r).None? {
      EnqueueAdds(q, r, now);
      hide ValidQueue, Enqueue, Pending;
      var job := NewJob(r, now);
      var added := [Message(|q.messages| + 1, job.jobId, job)];
      forall j | j in q'.jobs && !IsTerminal(q'.jobs[j].status)
        ensures Names(Pending(q'), j)
      {
        NamesAppend(Pending(q), added, j);
        if j == job.jobId {
          assert added[0].jobId == j;
        }
      }
    }
  }

  /** An accepted request adds one job and one message at the end. */
  lemma EnqueueAdds(q: Queue, r: VideoDetectRequest, now: Time)
    requires MessagesNumbered(q) && ExistingJob(q, r).None?
    ensures var q', job := Enqueue(q, r, now), NewJob(r, now);
            && job.jobId !in q.jobs && q'.jobs == q.jobs[job.jobId := job]
            && Pending(q') == Pending(q) + [Message(|q.messages| + 1, job.jobId, job)]
            && q'.dlq == q.dlq && q'.acked == q.acked
  {
    var job := NewJob(r, now);
    var q1 := q.(jobs := q.jobs[job.jobId := job], uniqueIndex := q.uniqueIndex[TripleOf(job) := job.jobId]);
    PendingAfterAppend(q1, job);
    hide Unacked;
  }

  lemma RequeuePending(q: Queue, jobId: string)
    requires ValidQueue(q) && NoneLost(q) && jobId in q.jobs
    ensures var q' := Requeue(q, jobId);
            && Pending(q') == Pending(q) + [Message(|q.messages| + 1, jobId, q.jobs[jobId])]
            && NoneLost(q') && q'.jobs == q.jobs
  {
    var q', added := Requeue(q, jobId), [Message(|q.messages| + 1, jobId, q.jobs[jobId])];
    PendingAfterAppend(q, q.jobs[jobId]);
    forall j | j in q'.jobs && !IsTerminal(q'.jobs[j].status)
      ensures Names(Pending(q'), j)
    {
      NamesAppend(Pending(q), added, j);
    }
  }

  /** Acknowledging the oldest pending message loses no job that is finished or named again later. */
  lemma AckPending(q: Queue, m: Message)
    requires ValidQueue(q) && NoneLost(q) && Pending(q) != [] && Pending(q)[0] == m && m.jobId in q.jobs
    requires IsTerminal(q.jobs[m.jobId].status) || Names(Pending(q)[1..], m.jobId)
    ensures Pending(Ack(q, m.id)) == Pending(q)[1..] && NoneLost(Ack(q, m.id))
  {
    PendingAfterAckHead(q);
    var q' := Ack(q, m.id);
    forall j | j in q'.jobs && !IsTerminal(q'.jobs[j].status)
      ensures Names(Pending(q'), j)
    {
      assert Pending(q) == [m] + Pending(q)[1..];
      NamesAppend([m], Pending(q)[1..], j);
    }
  }

  // ---------- one step ----------

  lemma SoloStart(cfg: Config, q: Queue, batch: seq<Message>)
    requires ValidQueue(q) && NoneLost(q) && batch <= Pending(q)
    ensures SoloOk(cfg, q, NextMessage(batch))
  {
    if batch != [] {
      PendingFacts(q);
      assert batch[0] in Pending(q);
      MessageNamesJob(q, batch[0]);
      assert batch == [batch[0]] + batch[1..];
    }
  }

  lemma FailureIsOk(cfg: Config, e: Exn, attempts: nat)
    ensures FailureOk(cfg, ClassifyProcessingError(e, attempts, cfg.maxAttempts), attempts)
  {
  }

  predicate SetsStatus(stage: Stage) {
    stage.AdoptClassified? || stage.StartProcessing? || stage.Finishing? || stage.RecordingFailure?
  }

  predicate MovesMessages(stage: Stage) {
    stage.Acking? || stage.Requeueing? || stage.DeadLettering?
  }

  /** Stages that leave the queue alone. */
  lemma SoloQuiet(cfg: Config, st: Stores, m: Message, stage: Stage, c: Choice)
    requires StageOk(cfg, st, m, stage) && SoloStage(cfg, st.q, m, stage) && Allows(cfg, st, stage, c)
    requires !MovesMessages(stage) && !SetsStatus(stage)
    ensures Effects(cfg, st, m, stage, c).q == st.q
    ensures SoloStage(cfg, st.q, m, NextStage(cfg, st, m, stage, c))
  {
    hide Pending, ClassifyProcessingError, VerdictFor, EffectsOf, Script, CommitOf, MarkProcessing, SetFailed, TripleOf;
    if !c.outcome.Done? && !stage.LookUpJob? && !stage.LookUpAgain? && !stage.LookUpPersisted?
       && !stage.MarkingFailed? {
      FailureIsOk(cfg, c.outcome.e, stage.job.attempts);
    }
    hide Effects;
    QuietEffects(cfg, st, m, stage, c);
  }

  lemma QuietEffects(cfg: Config, st: Stores, m: Message, stage: Stage, c: Choice)
    requires !MovesMessages(stage) && !SetsStatus(stage)
    ensures Effects(cfg, st, m, stage, c).q == st.q
  {
    hide EffectsOf, Script, CommitOf, MarkProcessing, SetFailed;
  }

  /** Stages that set the status of the message's job. */
  lemma SoloStatus(cfg: Config, st: Stores, m: Message, stage: Stage, c: Choice)
    requires StageOk(cfg, st, m, stage) && SoloStage(cfg, st.q, m, stage) && Allows(cfg, st, stage, c)
    requires SetsStatus(stage) && NoneLost(st.q) && Names(Pending(st.q), m.jobId)
    ensures var q' := Effects(cfg, st, m, stage, c).q;
            Pending(q') == Pending(st.q) && NoneLost(q') && SoloStage(cfg, q', m, NextStage(cfg, st, m, stage, c))
  {
    if stage.Finishing? || stage.RecordingFailure? {
      SoloFinalStatus(cfg, st, m, stage, c);
    } else {
      SoloFirstStatus(cfg, st, m, stage, c);
    }
  }

  lemma SoloFirstStatus(cfg: Config, st: Stores, m: Message, stage: Stage, c: Choice)
    requires StageOk(cfg, st, m, stage) && SoloStage(cfg, st.q, m, stage) && Allows(cfg, st, stage, c)
    requires stage.AdoptClassified? || stage.StartProcessing?
    requires NoneLost(st.q) && Names(Pending(st.q), m.jobId)
    ensures var q' := Effects(cfg, st, m, stage, c).q;
            Pending(q') == Pending(st.q) && NoneLost(q') && SoloStage(cfg, q', m, NextStage(cfg, st, m, stage, c))
  {
    hide Pending, ClassifyProcessingError, VerdictFor, EffectsOf, Script, TripleOf, FailureOk, NoneLost;
    var status := if stage.AdoptClassified? then Classified else Processing;
    StatusKeepsPending(st.q, stage.job.jobId, status, None, None, c.now);
  }

  lemma SoloFinalStatus(cfg: Config, st: Stores, m: Message, stage: Stage, c: Choice)
    requires StageOk(cfg, st, m, stage) && SoloStage(cfg, st.q, m, stage) && Allows(cfg, st, stage, c)
    requires stage.Finishing? || stage.RecordingFailure?
    requires NoneLost(st.q) && Names(Pending(st.q), m.jobId)
    ensures var q' := Effects(cfg, st, m, stage, c).q;
            Pending(q') == Pending(st.q) && NoneLost(q') && SoloStage(cfg, q', m, NextStage(cfg, st, m, stage, c))
  {
    hide Pending, ClassifyProcessingError, VerdictFor, EffectsOf, Script, TripleOf, FailureOk, NoneLost;
    match stage {
      case Finishing(job) =>
        if !c.outcome.Done? {
          FailureIsOk(cfg, c.outcome.e, job.attempts);
        }
        StatusKeepsPending(st.q, job.jobId, Classified, None, None, c.now);
      case RecordingFailure(job, f) =>
        StatusKeepsPending(st.q, job.jobId, f.status, Some(f.errorCode), Some(f.errorMessage), c.now);
    }
  }

  /** Stages that append or acknowledge messages. */
  lemma SoloMessage(cfg: Config, st: Stores, pc: Pc, c: Choice)
    requires ValidQueue(st.q) && pc.Busy? && StageOk(cfg, st, pc.m, pc.stage) && SoloOk(cfg, st.q, pc)
             && Allows(cfg, st, pc.stage, c)
    requires MovesMessages(pc.stage)
    ensures SoloOk(cfg, Effects(cfg, st, pc.m, pc.stage, c).q, AfterWork(cfg, st, pc, c))
  {
    hide ValidQueue, SoloOk, StageOk, Pending, NextMessage;
    match pc.stage {
      case Acking => SoloAck(cfg, st.q, pc);
      case Requeueing(jobId) =>
        assert jobId == pc.m.jobId by {
          RequeuesOwnJob(cfg, st, pc);
        }
        SoloRequeue(cfg, st.q, pc);
      case DeadLettering(code, text) => SoloDeadLetter(cfg, st.q, pc);
    }
  }

  lemma RequeuesOwnJob(cfg: Config, st: Stores, pc: Pc)
    requires pc.Busy? && pc.stage.Requeueing? && StageOk(cfg, st, pc.m, pc.stage)
    ensures pc.stage.jobId == pc.m.jobId
  {
  }

  lemma SoloAck(cfg: Config, q: Queue, pc: Pc)
    requires ValidQueue(q) && pc.Busy? && pc.stage.Acking? && SoloOk(cfg, q, pc)
    ensures SoloOk(cfg, Ack(q, pc.m.id), NextMessage(pc.rest))
  {
    hide ValidQueue, Pending;
    AckPending(q, pc.m);
    AckKeepsKnown(q, pc.m);
    assert Pending(q)[1..][..|pc.rest|] == pc.rest;
    SoloStart(cfg, Ack(q, pc.m.id), pc.rest);
  }

  lemma SoloRequeue(cfg: Config, q: Queue, pc: Pc)
    requires ValidQueue(q) && pc.Busy? && pc.stage == Requeueing(pc.m.jobId) && SoloOk(cfg, q, pc)
    ensures SoloOk(cfg, Requeue(q, pc.m.jobId), Busy(pc.m, pc.rest, Acking))
  {
    var m := pc.m;
    RequeuePending(q, m.jobId);
    hide ValidQueue, Pending;
    var added := Message(|q.messages| + 1, m.jobId, q.jobs[m.jobId]);
    assert (Pending(q) + [added])[1..] == Pending(q)[1..] + [added];
    assert [added][0].jobId == m.jobId;
    NamesAppend(Pending(q)[1..], [added], m.jobId);
  }

  lemma SoloDeadLetter(cfg: Config, q: Queue, pc: Pc)
    requires pc.Busy? && pc.stage.DeadLettering? && SoloOk(cfg, q, pc)
    ensures SoloOk(cfg, AppendDeadLetter(q, pc.m, pc.stage.code, pc.stage.text), Busy(pc.m, pc.rest, Acking))
  {
    var q' := AppendDeadLetter(q, pc.m, pc.stage.code, pc.stage.text);
    assert Pending(q') == Pending(q);
    hide Pending;
  }

  lemma AckKeepsKnown(q: Queue, m: Message)
    requires ValidQueue(q) && Pending(q) != [] && Pending(q)[0] == m
    ensures ValidQueue(Ack(q, m.id))
  {
    PendingFacts(q);
    AckKeepsValid(q, m.id);
  }

  predicate Solo(cfg: Config, s: System) {
    |s.workers| == 1 && SoloOk(cfg, s.stores.q, s.workers[0])
  }

  /** One worker's steps, enqueues and cuts keep every unfinished job deliverable. */
  lemma StepKeepsSolo(cfg: Config, s: System, e: Event)
    requires SystemOk(cfg, s) && Solo(cfg, s) && Enabled(cfg, s, e)
    ensures Solo(cfg, Apply(cfg, s, e))
  {
    hide ValidQueue, RowsOk, ResultsOk, FramesOwned, ActionsOk, LogOk, ClassifiedOk, StageOk, SoloOk, Effects,
      AfterWork, Allows, Enqueue, ReadMessages, NextMessage, OnePublisher, MissedBy;
    var st, pc := s.stores, s.workers[0];
    match e {
      case ApiEnqueue(r, now) => EnqueueSolo(cfg, st.q, pc, r, now);
      case Read(w) => ReadSolo(cfg, st.q, pc, cfg.readCount);
      case Work(w, c) => WorkSolo(cfg, st, pc, c);
      case Cut(w) => CutSolo(cfg, st.q, pc);
    }
  }

  lemma CutSolo(cfg: Config, q: Queue, pc: Pc)
    requires SoloOk(cfg, q, pc)
    ensures SoloOk(cfg, q, Idle)
  {
    hide SoloStage, NoneLost;
  }

  lemma ReadSolo(cfg: Config, q: Queue, pc: Pc, count: nat)
    requires ValidQueue(q) && SoloOk(cfg, q, pc)
    ensures SoloOk(cfg, q, NextMessage(ReadMessages(q, count)))
  {
    hide SoloStage, NextMessage;
    SoloStart(cfg, q, ReadMessages(q, count));
  }

  lemma WorkSolo(cfg: Config, st: Stores, pc: Pc, c: Choice)
    requires StoresOk(cfg, st) && pc.Busy? && LocalOk(cfg, st, pc) && SoloOk(cfg, st.q, pc)
             && Allows(cfg, st, pc.stage, c)
    ensures SoloOk(cfg, Effects(cfg, st, pc.m, pc.stage, c).q, AfterWork(cfg, st, pc, c))
  {
    hide ValidQueue, RowsOk, ResultsOk, FramesOwned, ActionsOk, LogOk, ClassifiedOk, Effects, NextStage, StageOk,
      Allows, SoloStage, NoneLost, Pending;
    if MovesMessages(pc.stage) {
      SoloMessage(cfg, st, pc, c);
    } else if SetsStatus(pc.stage) {
      assert Pending(st.q)[0] == pc.m;
      assert Names(Pending(st.q), pc.m.jobId);
      SoloStatus(cfg, st, pc.m, pc.stage, c);
    } else {
      SoloQuiet(cfg, st, pc.m, pc.stage, c);
    }
  }

  lemma EnqueueSolo(cfg: Config, q: Queue, pc: Pc, r: VideoDetectRequest, now: Time)
    requires ValidQueue(q) && SoloOk(cfg, q, pc)
    ensures SoloOk(cfg, Enqueue(q, r, now), pc)
  {
    hide ValidQueue, Enqueue, Pending, SoloStage;
    EnqueuePending(q, r, now);
    if pc.Busy? {
      StageSurvives(cfg, q, Enqueue(q, r, now), pc.m, pc.stage);
    }
  }

  /** More records and later messages leave what a stage knows as it is. */
  lemma StageSurvives(cfg: Config, q: Queue, q': Queue, m: Message, stage: Stage)
    requires SoloStage(cfg, q, m, stage) && Pending(q) <= Pending(q')
    requires forall j :: j in q.jobs ==> j in q'.jobs && q'.jobs[j] == q.jobs[j]
    ensures SoloStage(cfg, q', m, stage)
  {
    hide Pending, FailureOk;
    if stage.Acking? && Pending(q) != [] && Names(Pending(q)[1..], m.jobId) {
      var more := Pending(q')[|Pending(q)|..];
      assert Pending(q') == Pending(q) + more;
      assert Pending(q')[1..] == Pending(q)[1..] + more;
      NamesAppend(Pending(q)[1..], more, m.jobId);
    }
  }
}
