/** Where the guarantees end: for every configuration and every request, runs of one or two workers that show what the
    code does not promise. */
module Limits {
  import opened Common
  import opened VideoJobs
  import opened Failures
  import opened QueueState
  import opened ModerationPolicy
  import opened Aggregation
  import opened PostgresState
  import opened Pipeline
  import opened PipelineSafety
  import opened CutFree
  import opened Publication
  import opened PipelineTheorems
  import opened PublicationWindow

  lemma Step(cfg: Config, events: seq<Event>, s: System, e: Event) returns (events': seq<Event>, s': System)
    requires Reaches(cfg, 1, events, s) && Enabled(cfg, s, e)
    ensures Reaches(cfg, 1, events', s') && s' == Apply(cfg, s, e) && (NoCuts(events) && !e.Cut? ==> NoCuts(events'))
  {
    StepReaches(cfg, 1, events, s, e);
    events', s' := events + [e], Apply(cfg, s, e);
  }

  /** A step of the only worker. */
  lemma WorkOn(cfg: Config, events: seq<Event>, s: System, m: Message, stage: Stage, c: Choice)
    returns (events': seq<Event>, s': System)
    requires Reaches(cfg, 1, events, s) && s.workers == [Busy(m, [], stage)] && Allows(cfg, s.stores, stage, c)
    ensures Reaches(cfg, 1, events', s') && s'.stores == Effects(cfg, s.stores, m, stage, c)
    ensures NoCuts(events) ==> NoCuts(events')
    ensures s'.workers == [if stage.Acking? then Idle else Busy(m, [], NextStage(cfg, s.stores, m, stage, c))]
  {
    hide Reaches, Effects, NextStage, Allows, MissedBy, NoCuts;
    events', s' := Step(cfg, events, s, Work(0, c));
  }

  // ---------- to the start of an attempt ----------

  /** The only job of the system and its only message, neither acknowledged nor dead-lettered. */
  predicate OnlyJob(q: Queue, m: Message, job: VideoJob) {
    m.jobId != "" && job.jobId == m.jobId && q.jobs == map[m.jobId := job] && Pending(q) == [m] && q.dlq == []
  }

  lemma OneEnqueued(cfg: Config, r: VideoDetectRequest) returns (events: seq<Event>, s: System, m: Message)
    requires ValidRequest(r)
    ensures Reaches(cfg, 1, events, s) && NoCuts(events) && s.workers == [Idle] && m.jobId == r.jobId
    ensures OnlyJob(s.stores.q, m, NewJob(r, 0)) && s.stores.db == EmptyDb() && s.stores.log == []
  {
    events, s := Step(cfg, [], Init(1), ApiEnqueue(r, 0));
    m := Message(1, r.jobId, NewJob(r, 0));
    assert s.stores.q.messages == [m];
    assert [m][..0] == [];
    assert Unacked([m], {}) == Unacked([], {}) + [m];
  }

  lemma ReadOnly(cfg: Config, q: Queue, m: Message)
    requires Pending(q) == [m] && cfg.readCount >= 1 && m.jobId != ""
    ensures NextMessage(ReadMessages(q, cfg.readCount)) == Busy(m, [], LookUpJob)
  {
    hide Pending;
    assert [m][1..] == [];
  }

  /** From an idle worker to the job of its message. */
  lemma TakeUp(cfg: Config, events: seq<Event>, s: System, m: Message, job: VideoJob)
    returns (events': seq<Event>, s': System)
    requires Reaches(cfg, 1, events, s) && s.workers == [Idle] && OnlyJob(s.stores.q, m, job) && cfg.readCount >= 1
    ensures Reaches(cfg, 1, events', s') && s'.stores == s.stores && s'.workers == [Busy(m, [], LookUpAgain(job))]
    ensures NoCuts(events) ==> NoCuts(events')
  {
    hide Reaches, NoCuts, Pending;
    events', s' := Step(cfg, events, s, Read(0));
    ReadOnly(cfg, s.stores.q, m);
    events', s' := WorkOn(cfg, events', s', m, LookUpJob, When(cfg, 0, Done));
  }

  lemma SamePending(q: Queue, q': Queue)
    requires q'.messages == q.messages && q'.acked == q.acked
    ensures Pending(q') == Pending(q)
  {
  }

  lemma AckOnly(cfg: Config, workers: nat, events: seq<Event>, s: System, m: Message)
    requires Reaches(cfg, workers, events, s) && Pending(s.stores.q) == [m]
    ensures Pending(Ack(s.stores.q, m.id)) == []
  {
    hide Reaches, RowsOk, ResultsOk, FramesOwned, ActionsOk, ClassifiedOk, LogOk, LocalOk, OnePublisher;
    ReachableIsSafe(cfg, workers, events, s);
    PendingAfterAckHead(s.stores.q);
  }

  /** A first attempt about to be marked. */
  lemma Started(cfg: Config, r: VideoDetectRequest) returns (events: seq<Event>, s: System, m: Message, job: VideoJob)
    requires ValidRequest(r) && cfg.readCount >= 1
    ensures Reaches(cfg, 1, events, s) && NoCuts(events) && m.jobId == r.jobId
            && s.workers == [Busy(m, [], MarkingProcessing(job))]
    ensures OnlyJob(s.stores.q, m, job) && job.status == Processing && job.attempts == 1
    ensures s.stores.db == EmptyDb() && s.stores.log == []
  {
    hide Reaches, NoCuts, Pending;
    events, s, m := OneEnqueued(cfg, r);
    var first, quiet := NewJob(r, 0), When(cfg, 0, Done);
    events, s := TakeUp(cfg, events, s, m, first);
    events, s := WorkOn(cfg, events, s, m, LookUpAgain(first), quiet);
    events, s := WorkOn(cfg, events, s, m, LookUpPersisted(first, first), quiet);
    var before := s.stores.q;
    events, s := WorkOn(cfg, events, s, m, StartProcessing(first, first), quiet);
    job := WithStatus(first, Processing, None, None, 0);
    SamePending(before, s.stores.q);
  }

  // ---------- a terminal failure without a dead letter ----------

  lemma TerminalError(cfg: Config, job: VideoJob) returns (e: Exn, f: ProcessingFailure)
    ensures f == ClassifyProcessingError(e, job.attempts, cfg.maxAttempts)
    ensures !f.retryable && f.status == FailedTerminal
  {
    e := AppError("video_too_large", "", 400);
    f := ClassifyProcessingError(e, job.attempts, cfg.maxAttempts);
  }

  /** A terminal failure has been recorded, and nothing else. */
  lemma TerminallyFailed(cfg: Config, r: VideoDetectRequest)
    returns (events: seq<Event>, s: System, m: Message, failed: VideoJob)
    requires ValidRequest(r) && cfg.readCount >= 1
    ensures Reaches(cfg, 1, events, s) && m.jobId == r.jobId && |s.workers| == 1
    ensures OnlyJob(s.stores.q, m, failed) && failed.status == FailedTerminal
  {
    hide Reaches, NoCuts, Pending, ClassifyProcessingError;
    var job;
    events, s, m, job := Started(cfg, r);
    var q := s.stores.q;
    var e, f := TerminalError(cfg, job);
    events, s := WorkOn(cfg, events, s, m, MarkingProcessing(job), When(cfg, 0, Raised(e)));
    events, s := WorkOn(cfg, events, s, m, RecordingFailure(job, f), When(cfg, 0, Done));
    SamePending(q, s.stores.q);
    failed := s.stores.q.jobs[m.jobId];
  }

  /** The worker is cut between recording a terminal failure and dead-lettering the message: the redelivery finds the
      job finished and is acknowledged, so the job is FAILED_TERMINAL and never reaches the DLQ. */
  lemma TerminalWithoutDeadLetter(cfg: Config, r: VideoDetectRequest) returns (events: seq<Event>, s: System)
    requires ValidRequest(r) && cfg.readCount >= 1
    ensures Reaches(cfg, 1, events, s) && s.workers == [Idle]
    ensures r.jobId in s.stores.q.jobs && s.stores.q.jobs[r.jobId].status == FailedTerminal
    ensures s.stores.q.dlq == [] && Pending(s.stores.q) == []
  {
    hide Reaches, NoCuts, Pending;
    var m, failed;
    events, s, m, failed := TerminallyFailed(cfg, r);
    var quiet := When(cfg, 0, Done);
    events, s := Step(cfg, events, s, Cut(0));
    events, s := TakeUp(cfg, events, s, m, failed);
    events, s := WorkOn(cfg, events, s, m, LookUpAgain(failed), quiet);
    AckOnly(cfg, 1, events, s, m);
    events, s := WorkOn(cfg, events, s, m, Acking, quiet);
  }

  // ---------- around the commit ----------

  /** One safe frame. */
  function SafeFrame(): FrameResult {
    FrameResult(0, 0.0, Safe, false, 0,
                map[Safe := 0, Suggestive := 0, Nudity := 0, Porn := 0, Gore := 0, Violence := 0, SelfHarm := 0,
                    HateOrExtremism := 0, Drugs := 0, Unknown := 0, SexualMinorContent := 0], "")
  }

  lemma SafeFrameIsValid()
    ensures ValidFrame(SafeFrame())
  {
    var scores := SafeFrame().categories;
    forall c: Category
      ensures c in scores && scores[c] == 0
    {
      match c {
        case Safe => case Suggestive => case Nudity => case Porn => case Gore => case Violence => case SelfHarm =>
        case HateOrExtremism => case Drugs => case Unknown => case SexualMinorContent =>
      }
    }
  }

  lemma SomeVerdict(cfg: Config, job: VideoJob) returns (v: Verdict)
    ensures VerdictFor(cfg, job, v)
  {
    SafeFrameIsValid();
    hide SafeFrame, ValidFrame, Summarize;
    var frames := [SafeFrame()];
    v := Verdict(frames, Aggregate(cfg.aggregation, job.jobId, job.videoId, job.policyVersion, frames).value);
    SafeFrameIsFirst();
  }

  lemma SafeFrameIsFirst()
    ensures Sequential([SafeFrame()])
  {
  }

  /** A job whose final transaction has just committed: nothing is published yet. */
  lemma JustCommitted(cfg: Config, r: VideoDetectRequest)
    returns (events: seq<Event>, s: System, m: Message, job: VideoJob, v: Verdict, todo: seq<Effect>)
    requires ValidRequest(r) && cfg.readCount >= 1
    ensures Reaches(cfg, 1, events, s) && NoCuts(events) && m.jobId == r.jobId
            && s.workers == [Busy(m, [], Publishing(job, v, todo))]
    ensures OnlyJob(s.stores.q, m, job) && job.status == Processing && job.attempts == 1 && todo != []
    ensures r.jobId in s.stores.db.jobs && s.stores.db.jobs[r.jobId].status == Classified
    ensures r.jobId in s.stores.db.results && !Published(s.stores, r.jobId)
  {
    hide Reaches, NoCuts, Pending, VerdictFor, CommitOf, Script, Published;
    events, s, m, job := Started(cfg, r);
    v := SomeVerdict(cfg, job);
    var c := When(cfg, 0, Done).(verdict := v);
    events, s := WorkOn(cfg, events, s, m, MarkingProcessing(job), c);
    assert s.stores.db == EmptyDb().(jobs := s.stores.db.jobs) && r.jobId in s.stores.db.jobs;
    events, s := WorkOn(cfg, events, s, m, Computing(job), c);
    events, s := WorkOn(cfg, events, s, m, Moving(job, v), c);
    CommitIsOpen(cfg, events, s, job, v, c);
    events, s := WorkOn(cfg, events, s, m, Committing(job, v), c);
    NotYetPublished(s.stores, job.jobId, v.result);
    todo := Script(job.jobId, v.result)[1..];
  }

  lemma CommitIsOpen(cfg: Config, events: seq<Event>, s: System, job: VideoJob, v: Verdict, c: Choice)
    requires Reaches(cfg, 1, events, s) && VerdictFor(cfg, job, v)
    requires s.stores.db == EmptyDb().(jobs := s.stores.db.jobs) && job.jobId in s.stores.db.jobs
    ensures CommitOf(s.stores.db, job, v, c).Some?
    ensures var db' := CommitOf(s.stores.db, job, v, c).value;
            && db'.results == map[job.jobId := v.result]
            && job.jobId in db'.jobs && db'.jobs[job.jobId].status == Classified
  {
    hide Reaches, VerdictFor, CommitOf, StoresOk, FramesInserted;
    ReachableIsSafe(cfg, 1, events, s);
    CommitCondition(cfg, s.stores, job, v, c);
  }

  lemma NotYetPublished(st: Stores, j: string, r: VideoResult)
    requires st.db.results == map[j := r]
    requires st.log == [Committed(j, r)] || st.log == [Moved(j), Committed(j, r)]
    ensures !Published(st, j) && |Script(j, r)| > 1
  {
    var committed := Committed(j, r);
    assert EffectsOf([], j) == [];
    EffectsOfAppend([], committed, j);
    assert [] + [committed] == [committed] && [] + [Moved(j)] == [Moved(j)];
    EffectsOfAppend([], Moved(j), j);
    EffectsOfAppend([Moved(j)], committed, j);
    assert [Moved(j)] + [committed] == [Moved(j), committed];
    hide EffectsOf;
  }

  /** The worker is cut between commit and publication: the redelivery adopts the committed row, so the job is
      CLASSIFIED in the queue, with its result, and its rows are never published. */
  lemma ClassifiedWithoutPublication(cfg: Config, r: VideoDetectRequest) returns (events: seq<Event>, s: System)
    requires ValidRequest(r) && cfg.readCount >= 1
    ensures Reaches(cfg, 1, events, s) && s.workers == [Idle] && Pending(s.stores.q) == []
    ensures r.jobId in s.stores.q.jobs && s.stores.q.jobs[r.jobId].status == Classified
    ensures r.jobId in s.stores.db.results && !Published(s.stores, r.jobId)
  {
    hide Reaches, NoCuts, Pending, EffectsOf, Script;
    var m, job, v, todo;
    events, s, m, job, v, todo := JustCommitted(cfg, r);
    var quiet := When(cfg, 0, Done);
    events, s := Step(cfg, events, s, Cut(0));
    events, s := TakeUp(cfg, events, s, m, job);
    events, s := WorkOn(cfg, events, s, m, LookUpAgain(job), quiet);
    events, s := WorkOn(cfg, events, s, m, LookUpPersisted(job, job), quiet);
    var q := s.stores.q;
    events, s := WorkOn(cfg, events, s, m, AdoptClassified(job), quiet);
    SamePending(q, s.stores.q);
    AckOnly(cfg, 1, events, s, m);
    events, s := WorkOn(cfg, events, s, m, Acking, quiet);
  }

  /** A failure to publish after the commit overwrites the CLASSIFIED row: the result is stored, the job is not
      classified in either store. */
  lemma CommittedYetFailed(cfg: Config, r: VideoDetectRequest) returns (events: seq<Event>, s: System)
    requires ValidRequest(r) && cfg.readCount >= 1
    ensures Reaches(cfg, 1, events, s) && NoCuts(events) && r.jobId in s.stores.db.results
    ensures r.jobId in s.stores.db.jobs && s.stores.db.jobs[r.jobId].status in {FailedRetryable, FailedTerminal}
    ensures r.jobId in s.stores.q.jobs && s.stores.q.jobs[r.jobId].status in {FailedRetryable, FailedTerminal}
  {
    hide Reaches, NoCuts, Pending, EffectsOf, Script;
    var m, job, v, todo;
    events, s, m, job, v, todo := JustCommitted(cfg, r);
    var quiet := When(cfg, 0, Done);
    var e := RequestError("ConnectError", "");
    var f := ClassifyProcessingError(e, job.attempts, cfg.maxAttempts);
    events, s := WorkOn(cfg, events, s, m, Publishing(job, v, todo), When(cfg, 0, Raised(e)));
    events, s := WorkOn(cfg, events, s, m, RecordingFailure(job, f), quiet);
    events, s := WorkOn(cfg, events, s, m, MarkingFailed(job, f), quiet);
  }

  /** And no later attempt can repair it: once a job has a result its final transaction violates a key in every state
      that follows, with any number of workers. */
  lemma NoSecondCommit(cfg: Config, workers: nat, events: seq<Event>, s: System, later: seq<Event>, job: VideoJob,
                       v: Verdict, c: Choice)
    requires Reaches(cfg, workers, events, s) && ValidRun(cfg, s, later)
    requires job.jobId in s.stores.db.results && VerdictFor(cfg, job, v)
    ensures CommitOf(Run(cfg, s, later).stores.db, job, v, c).None?
  {
    hide Reaches, VerdictFor, CommitOf, StoresOk, Run, ValidRun;
    ReachableIsSafe(cfg, workers, events, s);
    RunKeepsSafe(cfg, s, later);
    CommitCondition(cfg, Run(cfg, s, later).stores, job, v, c);
  }

  // ---------- a lost answer to the final status update ----------

  /** Every push succeeds. */
  lemma {:induction false} PublishAll(cfg: Config, events: seq<Event>, s: System, m: Message, job: VideoJob, v: Verdict,
                                      todo: seq<Effect>)
    returns (events': seq<Event>, s': System)
    requires Reaches(cfg, 1, events, s) && s.workers == [Busy(m, [], Publishing(job, v, todo))] && todo != []
    ensures Reaches(cfg, 1, events', s') && s'.workers == [Busy(m, [], Finishing(job))] && s'.stores.q == s.stores.q
    ensures s'.stores.db == s.stores.db && (NoCuts(events) ==> NoCuts(events'))
    decreases |todo|
  {
    hide Reaches, NoCuts;
    events', s' := WorkOn(cfg, events, s, m, Publishing(job, v, todo), When(cfg, 0, Done));
    if |todo| > 1 {
      events', s' := PublishAll(cfg, events', s', m, job, v, todo[1..]);
    }
  }

  /** Two undisturbed steps of the only worker. */
  lemma TwoSteps(cfg: Config, s: System, m: Message, first: Stage, second: Stage)
    returns (later: seq<Event>, s': System)
    requires s.workers == [Busy(m, [], first)] && !first.Acking?
    requires var quiet := When(cfg, 0, Done);
             && Allows(cfg, s.stores, first, quiet) && NextStage(cfg, s.stores, m, first, quiet) == second
             && Allows(cfg, Effects(cfg, s.stores, m, first, quiet), second, quiet)
    ensures ValidRun(cfg, s, later) && Run(cfg, s, later) == s'
    ensures var quiet := When(cfg, 0, Done);
            s'.stores == Effects(cfg, Effects(cfg, s.stores, m, first, quiet), m, second, quiet)
  {
    hide Effects, NextStage, Allows, MissedBy, When;
    var e := Work(0, When(cfg, 0, Done));
    var s1 := Apply(cfg, s, e);
    s' := Apply(cfg, s1, e);
    NoEvents(cfg, s');
    FirstEvent(cfg, s1, e, []);
    FirstEvent(cfg, s, e, [e] + []);
    later := [e] + ([e] + []);
  }

  /** The final status update of a published job has been performed and its answer is lost. */
  lemma AnswerIsLost(cfg: Config, r: VideoDetectRequest)
    returns (events: seq<Event>, s: System, m: Message, job: VideoJob, f: ProcessingFailure)
    requires ValidRequest(r) && cfg.readCount >= 1
    ensures Reaches(cfg, 1, events, s) && NoCuts(events) && s.workers == [Busy(m, [], RecordingFailure(job, f))]
    ensures m.jobId == job.jobId == r.jobId && f.status in {FailedRetryable, FailedTerminal}
    ensures r.jobId in s.stores.q.jobs && s.stores.q.jobs[r.jobId].status == Classified && r.jobId in s.stores.db.jobs
  {
    hide Reaches, NoCuts, Pending, EffectsOf, Script, VerdictFor, Published;
    var v, todo;
    events, s, m, job, v, todo := JustCommitted(cfg, r);
    events, s := PublishAll(cfg, events, s, m, job, v, todo);
    var lost := When(cfg, 0, Lost(RequestError("ConnectError", "")));
    events, s := WorkOn(cfg, events, s, m, Finishing(job), lost);
    f := ClassifyProcessingError(lost.outcome.e, job.attempts, cfg.maxAttempts);
  }

  /** An instance of `TerminalRecords.OneWorkerChangesExactly`: the store performs the final status update and loses its
      answer, so the failure branch overwrites the CLASSIFIED record of a job that is published in full. */
  lemma LostFinalAnswerOverwrites(cfg: Config, r: VideoDetectRequest)
    returns (events: seq<Event>, s: System, later: seq<Event>, s': System)
    requires ValidRequest(r) && cfg.readCount >= 1
    ensures Reaches(cfg, 1, events, s) && NoCuts(events) && ValidRun(cfg, s, later) && Run(cfg, s, later) == s'
    ensures r.jobId in s.stores.q.jobs && s.stores.q.jobs[r.jobId].status == Classified && Published(s.stores, r.jobId)
    ensures r.jobId in s'.stores.q.jobs && s'.stores.q.jobs[r.jobId].status in {FailedRetryable, FailedTerminal}
    ensures r.jobId in s'.stores.db.jobs && s'.stores.db.jobs[r.jobId].status in {FailedRetryable, FailedTerminal}
    ensures Published(s'.stores, r.jobId)
  {
    hide Reaches, NoCuts, Pending, EffectsOf, Script, Run, ValidRun, ClassifyProcessingError;
    var m, job, f;
    events, s, m, job, f := AnswerIsLost(cfg, r);
    UncutClassifiedIsPublished(cfg, events, s, r.jobId);
    later, s' := TwoSteps(cfg, s, m, RecordingFailure(job, f), MarkingFailed(job, f));
  }

  lemma UncutClassifiedIsPublished(cfg: Config, events: seq<Event>, s: System, j: string)
    requires Reaches(cfg, 1, events, s) && NoCuts(events)
    requires j in s.stores.q.jobs && s.stores.q.jobs[j].status == Classified
    ensures Published(s.stores, j)
  {
    hide NoCuts, CutsHarmless, Published;
    NoCutsIsHarmless(cfg, Init(1), events);
    ClassifiedIsPublished(cfg, events, s, j);
  }


  // ---------- two workers ----------

  /** A step of one of two workers. */
  lemma WorkOf(cfg: Config, events: seq<Event>, s: System, w: nat, m: Message, stage: Stage, c: Choice)
    returns (events': seq<Event>, s': System)
    requires Reaches(cfg, 2, events, s) && |s.workers| == 2 && w < 2 && s.workers[w] == Busy(m, [], stage)
    requires Allows(cfg, s.stores, stage, c)
    ensures Reaches(cfg, 2, events', s') && s'.stores == Effects(cfg, s.stores, m, stage, c) && |s'.workers| == 2
    ensures s'.workers[w] == if stage.Acking? then Idle else Busy(m, [], NextStage(cfg, s.stores, m, stage, c))
    ensures s'.workers[1 - w] == s.workers[1 - w]
  {
    hide Reaches, Effects, NextStage, Allows, MissedBy;
    StepReaches(cfg, 2, events, s, Work(w, c));
    events', s' := events + [Work(w, c)], Apply(cfg, s, Work(w, c));
  }

  /** Both workers have read the same message. */
  lemma BothRead(cfg: Config, r: VideoDetectRequest) returns (events: seq<Event>, s: System, m: Message)
    requires ValidRequest(r) && cfg.readCount >= 1
    ensures Reaches(cfg, 2, events, s) && s.workers == [Busy(m, [], LookUpJob), Busy(m, [], LookUpJob)]
    ensures m.jobId == r.jobId && OnlyJob(s.stores.q, m, NewJob(r, 0)) && s.stores.db == EmptyDb()
  {
    m := Message(1, r.jobId, NewJob(r, 0));
    s := Init(2);
    assert Reaches(cfg, 2, [], s);
    hide Reaches, Pending, NextMessage;
    var first := ApiEnqueue(r, 0);
    StepReaches(cfg, 2, [], s, first);
    OneMessage(r);
    s := Apply(cfg, s, first);
    ReadOnly(cfg, s.stores.q, m);
    StepReaches(cfg, 2, [] + [first], s, Read(0));
    s := Apply(cfg, s, Read(0));
    StepReaches(cfg, 2, [] + [first] + [Read(0)], s, Read(1));
    s := Apply(cfg, s, Read(1));
    events := [] + [first] + [Read(0)] + [Read(1)];
  }

  lemma OneMessage(r: VideoDetectRequest)
    requires ValidRequest(r)
    ensures OnlyJob(Enqueue(EmptyQueue(), r, 0), Message(1, r.jobId, NewJob(r, 0)), NewJob(r, 0))
  {
    var m := Message(1, r.jobId, NewJob(r, 0));
    assert Enqueue(EmptyQueue(), r, 0).messages == [m];
    assert [m][..0] == [];
    assert Unacked([m], {}) == Unacked([], {}) + [m];
  }

  /** A worker looks the new job up and is about to start on it. */
  lemma LooksUp(cfg: Config, events: seq<Event>, s: System, w: nat, m: Message, first: VideoJob)
    returns (events': seq<Event>, s': System)
    requires Reaches(cfg, 2, events, s) && |s.workers| == 2 && w < 2 && s.workers[w] == Busy(m, [], LookUpJob)
    requires OnlyJob(s.stores.q, m, first) && !IsTerminal(first.status) && s.stores.db == EmptyDb()
    ensures Reaches(cfg, 2, events', s') && s'.stores == s.stores && |s'.workers| == 2
    ensures s'.workers[w] == Busy(m, [], StartProcessing(first, first)) && s'.workers[1 - w] == s.workers[1 - w]
  {
    hide Reaches, Pending;
    var quiet := When(cfg, 0, Done);
    events', s' := WorkOf(cfg, events, s, w, m, LookUpJob, quiet);
    events', s' := WorkOf(cfg, events', s', w, m, LookUpAgain(first), quiet);
    events', s' := WorkOf(cfg, events', s', w, m, LookUpPersisted(first, first), quiet);
  }

  /** The first worker starts on the job. */
  lemma StartsOn(cfg: Config, events: seq<Event>, s: System, m: Message, first: VideoJob)
    returns (events': seq<Event>, s': System, job: VideoJob)
    requires Reaches(cfg, 2, events, s) && |s.workers| == 2 && OnlyJob(s.stores.q, m, first)
    requires s.workers[0] == Busy(m, [], StartProcessing(first, first))
    ensures Reaches(cfg, 2, events', s') && s'.workers == [Busy(m, [], MarkingProcessing(job)), s.workers[1]]
    ensures OnlyJob(s'.stores.q, m, job)
  {
    hide Reaches, Pending;
    var before := s.stores.q;
    events', s' := WorkOf(cfg, events, s, 0, m, StartProcessing(first, first), When(cfg, 0, Done));
    job := WithStatus(first, Processing, None, None, 0);
    SamePending(before, s'.stores.q);
  }

  /** And fails it for good. */
  lemma FailureRecorded(cfg: Config, events: seq<Event>, s: System, m: Message, job: VideoJob)
    returns (events': seq<Event>, s': System, f: ProcessingFailure)
    requires Reaches(cfg, 2, events, s) && |s.workers| == 2 && s.workers[0] == Busy(m, [], MarkingProcessing(job))
    requires OnlyJob(s.stores.q, m, job)
    ensures Reaches(cfg, 2, events', s') && s'.workers == [Busy(m, [], MarkingFailed(job, f)), s.workers[1]]
    ensures !f.retryable && m.jobId in s'.stores.q.jobs && OnlyJob(s'.stores.q, m, s'.stores.q.jobs[m.jobId])
    ensures s'.stores.q.jobs[m.jobId].status == FailedTerminal
  {
    hide Reaches, Pending, ClassifyProcessingError;
    var before := s.stores.q;
    var e;
    e, f := TerminalError(cfg, job);
    events', s' := WorkOf(cfg, events, s, 0, m, MarkingProcessing(job), When(cfg, 0, Raised(e)));
    events', s' := WorkOf(cfg, events', s', 0, m, RecordingFailure(job, f), When(cfg, 0, Done));
    SamePending(before, s'.stores.q);
  }

  lemma DeadLettered(cfg: Config, events: seq<Event>, s: System, m: Message, job: VideoJob, f: ProcessingFailure)
    returns (events': seq<Event>, s': System)
    requires Reaches(cfg, 2, events, s) && |s.workers| == 2 && s.workers[0] == Busy(m, [], MarkingFailed(job, f))
    requires !f.retryable && m.jobId in s.stores.q.jobs && OnlyJob(s.stores.q, m, s.stores.q.jobs[m.jobId])
    ensures Reaches(cfg, 2, events', s') && s'.workers == [Busy(m, [], Acking), s.workers[1]]
    ensures s'.stores.q.jobs == s.stores.q.jobs && Pending(s'.stores.q) == [m]
    ensures |s'.stores.q.dlq| == 1 && s'.stores.q.dlq[0].jobId == m.jobId
  {
    hide Reaches, Pending;
    var quiet, before := When(cfg, 0, Done), s.stores.q;
    events', s' := WorkOf(cfg, events, s, 0, m, MarkingFailed(job, f), quiet);
    events', s' := WorkOf(cfg, events', s', 0, m, DeadLettering(f.errorCode, f.errorMessage), quiet);
    SamePending(before, s'.stores.q);
  }

  /** The first worker has given the job up while the second is about to start on it. */
  lemma GivenUp(cfg: Config, r: VideoDetectRequest)
    returns (events: seq<Event>, s: System, m: Message, first: VideoJob)
    requires ValidRequest(r) && cfg.readCount >= 1
    ensures Reaches(cfg, 2, events, s) && m.jobId == r.jobId && first.jobId == r.jobId
    ensures s.workers == [Busy(m, [], Acking), Busy(m, [], StartProcessing(first, first))]
    ensures r.jobId in s.stores.q.jobs && s.stores.q.jobs[r.jobId].status == FailedTerminal
    ensures Pending(s.stores.q) == [m] && |s.stores.q.dlq| == 1 && s.stores.q.dlq[0].jobId == r.jobId
  {
    hide Reaches, Pending;
    first := NewJob(r, 0);
    var job, f;
    events, s, m := BothRead(cfg, r);
    events, s := LooksUp(cfg, events, s, 1, m, first);
    events, s := LooksUp(cfg, events, s, 0, m, first);
    events, s, job := StartsOn(cfg, events, s, m, first);
    events, s, f := FailureRecorded(cfg, events, s, m, job);
    events, s := DeadLettered(cfg, events, s, m, job, f);
  }

  /** An instance of `TerminalRecords.ChangesExactly` and of `JobDelivery.StrandableExactly`: two workers read the same
      message. One fails the job for good and acknowledges; the other, which looked it up before, sets the
      FAILED_TERMINAL record back to PROCESSING and is cut: the job is unfinished and no message or worker is left for
      it. */
  lemma SecondWorkerStrandsTheJob(cfg: Config, r: VideoDetectRequest) returns (events: seq<Event>, s: System)
    requires ValidRequest(r) && cfg.readCount >= 1
    ensures Reaches(cfg, 2, events, s) && s.workers == [Idle, Idle]
    ensures r.jobId in s.stores.q.jobs && s.stores.q.jobs[r.jobId].status == Processing && Pending(s.stores.q) == []
    ensures |s.stores.q.dlq| == 1 && s.stores.q.dlq[0].jobId == r.jobId
  {
    hide Reaches, Pending;
    var m, first;
    events, s, m, first := GivenUp(cfg, r);
    var quiet := When(cfg, 0, Done);
    AckOnly(cfg, 2, events, s, m);
    var q := Ack(s.stores.q, m.id);
    events, s := WorkOf(cfg, events, s, 0, m, Acking, quiet);
    events, s := WorkOf(cfg, events, s, 1, m, StartProcessing(first, first), quiet);
    SamePending(q, s.stores.q);
    StepReaches(cfg, 2, events, s, Cut(1));
    events, s := events + [Cut(1)], Apply(cfg, s, Cut(1));
  }
}
