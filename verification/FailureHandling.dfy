/** From an exception inside the attempt to the message's acknowledgement: what any worker makes of a failure. */
module FailureHandling {
  import opened Common
  import opened VideoJobs
  import opened Failures
  import opened QueueState
  import opened PostgresState
  import opened Pipeline
  import opened PipelineSafety
  import opened PipelineTheorems

  /** The awaits inside the `try` of `process`. */
  predicate InTry(stage: Stage) {
    || stage.MarkingProcessing? || stage.Computing? || stage.Moving? || stage.Committing? || stage.Publishing?
    || stage.Finishing?
  }

  /** Nothing but the record of job `j` differs, and its attempts do not. */
  predicate OnlyRecord(q: Queue, q': Queue, j: string) {
    && q' == q.(jobs := q'.jobs) && j in q.jobs && q'.jobs.Keys == q.jobs.Keys
    && (forall k :: k in q.jobs && k != j ==> q'.jobs[k] == q.jobs[k])
    && q'.jobs[j].attempts == q.jobs[j].attempts && q'.jobs[j].jobId == q.jobs[j].jobId
  }

  /** Both stores record the failure of job `j`. */
  predicate FailureRecorded(st: Stores, j: string, f: ProcessingFailure) {
    && j in st.q.jobs && st.q.jobs[j].status == f.status
    && st.q.jobs[j].lastErrorCode == Some(f.errorCode) && st.q.jobs[j].lastErrorMessage == Some(f.errorMessage)
    && (j in st.db.jobs ==>
          && st.db.jobs[j].status == f.status
          && st.db.jobs[j].lastErrorCode == Some(f.errorCode)
          && st.db.jobs[j].lastErrorMessage == Some(f.errorMessage))
  }

  lemma RaiseStep(cfg: Config, st: Stores, m: Message, stage: Stage, c: Choice)
    requires StageOk(cfg, st, m, stage) && InTry(stage) && !c.outcome.Done?
    ensures var f := ClassifyProcessingError(c.outcome.e, stage.job.attempts, cfg.maxAttempts);
            NextStage(cfg, st, m, stage, c) == RecordingFailure(stage.job, f) && stage.job.jobId == m.jobId
    ensures OnlyRecord(st.q, Effects(cfg, st, m, stage, c).q, m.jobId)
  {
    hide VerdictFor, CommitOf, EffectsOf, Script, MarkProcessing, ClassifyProcessingError;
  }

  /** The queue's record first, then the row. */
  lemma RecordSteps(cfg: Config, st: Stores, m: Message, job: VideoJob, f: ProcessingFailure, c: Choice, d: Choice)
    requires job.jobId == m.jobId && m.jobId in st.q.jobs && f.status in {FailedRetryable, FailedTerminal}
    ensures var st1 := Effects(cfg, st, m, RecordingFailure(job, f), c);
            var st2 := Effects(cfg, st1, m, MarkingFailed(job, f), d);
            && OnlyRecord(st.q, st2.q, m.jobId) && FailureRecorded(st2, m.jobId, f)
            && NextStage(cfg, st, m, RecordingFailure(job, f), c) == MarkingFailed(job, f)
            && NextStage(cfg, st1, m, MarkingFailed(job, f), d) ==
               (if f.retryable then Requeueing(m.jobId) else DeadLettering(f.errorCode, f.errorMessage))
  {
  }

  /** The message is requeued or dead-lettered, and acknowledged. */
  lemma DisposeSteps(cfg: Config, st: Stores, m: Message, f: ProcessingFailure, c: Choice, d: Choice)
    requires ValidQueue(st.q) && m.jobId in st.q.jobs
    ensures var stage := if f.retryable then Requeueing(m.jobId) else DeadLettering(f.errorCode, f.errorMessage);
            var st1 := Effects(cfg, st, m, stage, c);
            var st2 := Effects(cfg, st1, m, Acking, d);
            && NextStage(cfg, st, m, stage, c) == Acking && st2.q.jobs == st.q.jobs && st2.db == st.db
            && st2.q.acked == st.q.acked + {m.id}
            && (f.retryable ==>
                  && st2.q.messages == st.q.messages + [Message(|st.q.messages| + 1, m.jobId, st.q.jobs[m.jobId])]
                  && st2.q.dlq == st.q.dlq)
            && (!f.retryable ==>
                  && st2.q.messages == st.q.messages
                  && st2.q.dlq == st.q.dlq + [DeadLetter(m.id, m.jobId, f.errorCode, f.errorMessage, m.payload)])
  {
    hide MessagesNumbered, IndexPointsToOwner;
  }

  lemma OnlyRecordTransitive(a: Queue, b: Queue, c: Queue, j: string)
    requires OnlyRecord(a, b, j) && OnlyRecord(b, c, j)
    ensures OnlyRecord(a, c, j)
  {
  }

  /** One step of one of the workers. */
  lemma StepOf(cfg: Config, workers: nat, events: seq<Event>, s: System, w: nat, m: Message, rest: seq<Message>,
               stage: Stage, c: Choice)
    returns (s': System)
    requires Reaches(cfg, workers, events, s) && w < |s.workers| && s.workers[w] == Busy(m, rest, stage)
    requires Allows(cfg, s.stores, stage, c)
    ensures Reaches(cfg, workers, events + [Work(w, c)], s') && s'.stores == Effects(cfg, s.stores, m, stage, c)
    ensures s'.workers == s.workers[w := if stage.Acking? then NextMessage(rest)
                                         else Busy(m, rest, NextStage(cfg, s.stores, m, stage, c))]
  {
    hide Reaches, Effects, NextStage, Allows, MissedBy;
    StepReaches(cfg, workers, events, s, Work(w, c));
    s' := Apply(cfg, s, Work(w, c));
  }

  lemma QueueOf(cfg: Config, workers: nat, events: seq<Event>, s: System)
    requires Reaches(cfg, workers, events, s)
    ensures ValidQueue(s.stores.q)
  {
    hide Reaches, ValidQueue, RowsOk, ResultsOk, FramesOwned, ActionsOk, ClassifiedOk, LogOk, LocalOk, OnePublisher;
    ReachableIsSafe(cfg, workers, events, s);
  }

  lemma MessageOf(cfg: Config, workers: nat, events: seq<Event>, s: System, w: nat)
    requires Reaches(cfg, workers, events, s) && w < |s.workers| && s.workers[w].Busy?
    ensures StageOk(cfg, s.stores, s.workers[w].m, s.workers[w].stage)
    ensures s.workers[w].m in s.stores.q.messages
  {
    hide Reaches, StoresOk, StageOk, OnePublisher;
    ReachableIsSafe(cfg, workers, events, s);
  }

  lemma QuietAllowed(cfg: Config, st: Stores, stage: Stage, d: Choice)
    requires stage.RecordingFailure? || stage.MarkingFailed? || stage.Requeueing? || stage.DeadLettering?
             || stage.Acking?
    requires d.outcome.Done?
    ensures Allows(cfg, st, stage, d)
  {
  }

  lemma NextIdUnacked(q: Queue, m: Message)
    requires ValidQueue(q) && m in q.messages
    ensures |q.messages| + 1 !in q.acked + {m.id}
  {
    hide JobsKeyed, IndexPointsToOwner;
  }

  lemma JobStays(q: Queue, q': Queue, j: string)
    requires OnlyRecord(q, q', j)
    ensures j in q.jobs && j in q'.jobs && q'.jobs[j].attempts == q.jobs[j].attempts
    ensures q'.messages == q.messages && q'.acked == q.acked && q'.dlq == q.dlq
    ensures forall k :: k in q.jobs && k != j ==> k in q'.jobs && q'.jobs[k] == q.jobs[k]
  {
    assert forall k :: k in q.jobs ==> k in q'.jobs.Keys;
  }

  lemma RecordedStays(st: Stores, st': Stores, j: string, f: ProcessingFailure)
    requires FailureRecorded(st, j, f) && st'.q.jobs == st.q.jobs && st'.db == st.db
    ensures FailureRecorded(st', j, f)
  {
  }

  /** The first three steps: the exception, the queue's record, the row. */
  lemma FailureIsRecorded(cfg: Config, workers: nat, events: seq<Event>, s: System, w: nat, c: Choice, d1: Choice,
                          d2: Choice, f: ProcessingFailure)
    returns (s': System)
    requires Reaches(cfg, workers, events, s) && w < |s.workers| && s.workers[w].Busy? && InTry(s.workers[w].stage)
    requires Allows(cfg, s.stores, s.workers[w].stage, c) && !c.outcome.Done?
    requires f == ClassifyProcessingError(c.outcome.e, s.workers[w].stage.job.attempts, cfg.maxAttempts)
    requires d1.outcome.Done? && d2.outcome.Done?
    ensures Reaches(cfg, workers, events + [Work(w, c), Work(w, d1), Work(w, d2)], s')
    ensures var m := s.workers[w].m;
            && OnlyRecord(s.stores.q, s'.stores.q, m.jobId) && FailureRecorded(s'.stores, m.jobId, f)
            && s'.workers ==
               s.workers[w := Busy(m, s.workers[w].rest,
                                   if f.retryable then Requeueing(m.jobId)
                                   else DeadLettering(f.errorCode, f.errorMessage))]
  {
    hide Reaches, Effects, NextStage, Allows, StageOk, ClassifyProcessingError, FailureRecorded, OnlyRecord;
    var m, rest, stage := s.workers[w].m, s.workers[w].rest, s.workers[w].stage;
    MessageOf(cfg, workers, events, s, w);
    RaiseStep(cfg, s.stores, m, stage, c);
    var s1 := StepOf(cfg, workers, events, s, w, m, rest, stage, c);
    JobStays(s.stores.q, s1.stores.q, m.jobId);
    RecordSteps(cfg, s1.stores, m, stage.job, f, d1, d2);
    QuietAllowed(cfg, s1.stores, RecordingFailure(stage.job, f), d1);
    var s2 := StepOf(cfg, workers, events + [Work(w, c)], s1, w, m, rest, RecordingFailure(stage.job, f), d1);
    QuietAllowed(cfg, s2.stores, MarkingFailed(stage.job, f), d2);
    s' := StepOf(cfg, workers, events + [Work(w, c)] + [Work(w, d1)], s2, w, m, rest, MarkingFailed(stage.job, f), d2);
    assert events + [Work(w, c)] + [Work(w, d1)] + [Work(w, d2)] == events + [Work(w, c), Work(w, d1), Work(w, d2)];
    OnlyRecordTransitive(s.stores.q, s1.stores.q, s'.stores.q, m.jobId);
  }

  /** The last two: the message is requeued or dead-lettered, and acknowledged. */
  lemma FailureIsDisposed(cfg: Config, workers: nat, events: seq<Event>, s: System, w: nat, d: Choice,
                          f: ProcessingFailure)
    returns (s': System)
    requires Reaches(cfg, workers, events, s) && w < |s.workers| && s.workers[w].Busy? && d.outcome.Done?
    requires s.workers[w].m.jobId in s.stores.q.jobs
    requires s.workers[w].stage ==
             if f.retryable then Requeueing(s.workers[w].m.jobId) else DeadLettering(f.errorCode, f.errorMessage)
    ensures Reaches(cfg, workers, events + [Work(w, d), Work(w, d)], s')
    ensures s'.workers == s.workers[w := NextMessage(s.workers[w].rest)]
    ensures var q, q', m := s.stores.q, s'.stores.q, s.workers[w].m;
            && q'.jobs == q.jobs && s'.stores.db == s.stores.db && q'.acked == q.acked + {m.id}
            && (f.retryable ==>
                  q'.messages == q.messages + [Message(|q.messages| + 1, m.jobId, q.jobs[m.jobId])] && q'.dlq == q.dlq)
            && (!f.retryable ==>
                  && q'.messages == q.messages
                  && q'.dlq == q.dlq + [DeadLetter(m.id, m.jobId, f.errorCode, f.errorMessage, m.payload)])
  {
    hide Reaches, Effects, NextStage, Allows, ValidQueue, NextMessage;
    var m, rest, stage := s.workers[w].m, s.workers[w].rest, s.workers[w].stage;
    QueueOf(cfg, workers, events, s);
    DisposeSteps(cfg, s.stores, m, f, d, d);
    QuietAllowed(cfg, s.stores, stage, d);
    var s1 := StepOf(cfg, workers, events, s, w, m, rest, stage, d);
    QuietAllowed(cfg, s1.stores, Acking, d);
    s' := StepOf(cfg, workers, events + [Work(w, d)], s1, w, m, rest, Acking, d);
    assert events + [Work(w, d)] + [Work(w, d)] == events + [Work(w, d), Work(w, d)];
  }

  /** Every such await may raise before it has done anything, except that no move is attempted if none is required; and
      each may do its work and lose its answer, a commit only if no constraint stands against it. */
  predicate CanFail(st: Stores, stage: Stage, c: Choice) {
    && !c.outcome.Done?
    && (stage.Moving? ==> stage.verdict.result.moveRequired)
    && (stage.Committing? && c.outcome.Lost? ==> CommitOf(st.db, stage.job, stage.verdict, c).Some?)
  }

  lemma FailureAllowed(cfg: Config, st: Stores, m: Message, stage: Stage, c: Choice)
    requires StageOk(cfg, st, m, stage) && InTry(stage) && CanFail(st, stage, c)
    ensures Allows(cfg, st, stage, c)
  {
    hide VerdictFor, CommitOf, EffectsOf, Script;
  }

  /** The events of a worker from an exception to the end of its message. */
  function Handling(cfg: Config, w: nat, c: Choice, t1: Time, t2: Time): seq<Event> {
    [Work(w, c), Work(w, When(cfg, t1, Done)), Work(w, When(cfg, t2, Done)), Work(w, When(cfg, 0, Done)),
     Work(w, When(cfg, 0, Done))]
  }

  /** Any number of workers, whatever happened before: when an await of the attempt raises, five steps of the worker
      take it to its next message. Both stores then say why the job failed, and nothing but this job is touched. If the
      failure is retryable, one more message of the job is waiting; otherwise the message is dead-lettered with the same
      code and text. */
  lemma FailureIsHandled(cfg: Config, workers: nat, events: seq<Event>, s: System, w: nat, c: Choice, t1: Time,
                         t2: Time)
    returns (s': System)
    requires Reaches(cfg, workers, events, s) && w < |s.workers| && s.workers[w].Busy? && InTry(s.workers[w].stage)
    requires CanFail(s.stores, s.workers[w].stage, c)
    ensures Reaches(cfg, workers, events + Handling(cfg, w, c, t1, t2), s')
    ensures s'.workers == s.workers[w := NextMessage(s.workers[w].rest)]
    ensures var q, q', m := s.stores.q, s'.stores.q, s.workers[w].m;
            var f := ClassifyProcessingError(c.outcome.e, s.workers[w].stage.job.attempts, cfg.maxAttempts);
            && FailureRecorded(s'.stores, m.jobId, f) && m.jobId in q.jobs
            && q'.jobs[m.jobId].attempts == q.jobs[m.jobId].attempts
            && (forall k :: k in q.jobs && k != m.jobId ==> k in q'.jobs && q'.jobs[k] == q.jobs[k])
            && q'.acked == q.acked + {m.id}
            && (f.retryable ==>
                  && q'.messages == q.messages + [Message(|q.messages| + 1, m.jobId, q'.jobs[m.jobId])]
                  && |q.messages| + 1 !in q'.acked && q'.dlq == q.dlq)
            && (!f.retryable ==>
                  && q'.messages == q.messages
                  && q'.dlq == q.dlq + [DeadLetter(m.id, m.jobId, f.errorCode, f.errorMessage, m.payload)])
  {
    hide Reaches, Effects, NextStage, Allows, StageOk, ValidQueue, ClassifyProcessingError, FailureRecorded,
      OnlyRecord, NextMessage;
    var m := s.workers[w].m;
    var f := ClassifyProcessingError(c.outcome.e, s.workers[w].stage.job.attempts, cfg.maxAttempts);
    var d1, d2, d3 := When(cfg, t1, Done), When(cfg, t2, Done), When(cfg, 0, Done);
    QueueOf(cfg, workers, events, s);
    MessageOf(cfg, workers, events, s, w);
    FailureAllowed(cfg, s.stores, m, s.workers[w].stage, c);
    NextIdUnacked(s.stores.q, m);
    var s1 := FailureIsRecorded(cfg, workers, events, s, w, c, d1, d2, f);
    JobStays(s.stores.q, s1.stores.q, m.jobId);
    var trace := events + [Work(w, c), Work(w, d1), Work(w, d2)];
    s' := FailureIsDisposed(cfg, workers, trace, s1, w, d3, f);
    assert trace + [Work(w, d3), Work(w, d3)] == events + Handling(cfg, w, c, t1, t2);
    RecordedStays(s1.stores, s'.stores, m.jobId, f);
  }
}
