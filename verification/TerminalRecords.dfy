/** Any number of workers: exactly when a terminal queue record stays as it is. */
module TerminalRecords {
  import opened Common
  import opened VideoJobs
  import opened Failures
  import opened QueueState
  import opened PostgresState
  import opened Pipeline
  import opened PipelineSafety
  import opened SingleWorker
  import opened Attempts
  import opened CutFree
  import Drain
  import opened PipelineTheorems
  import opened PublicationWindow
  import opened Records

  predicate Terminal(st: Stores, j: string) {
    j in st.q.jobs && IsTerminal(st.q.jobs[j].status)
  }

  /** Past the look-up that would have found the job terminal, and not past the last status update. */
  predicate WillWrite(stage: Stage) {
    stage.LookUpPersisted? || stage.AdoptClassified? || stage.StartProcessing? || UnderWayStage(stage)
  }

  /** The worker looked this job up while it was unfinished and may still write its record. */
  predicate Writer(pc: Pc, j: string) {
    pc.Busy? && pc.m.jobId == j && WillWrite(pc.stage)
  }

  predicate SomeWriter(s: System, j: string) {
    exists w :: 0 <= w < |s.workers| && Writer(s.workers[w], j)
  }

  // ---------- it stays ----------

  lemma MessageJobKnown(cfg: Config, st: Stores, m: Message)
    requires StoresOk(cfg, st) && m in st.q.messages
    ensures m.jobId in st.q.jobs && m.jobId != ""
  {
    hide RowsOk, ResultsOk, FramesOwned, ActionsOk, LogOk, ClassifiedOk;
    MessageNamesJob(st.q, m);
  }

  /** A worker that is no writer of a finished job leaves its record alone and does not become one. */
  lemma NoNewWriter(cfg: Config, st: Stores, pc: Pc, c: Choice, j: string)
    requires StoresOk(cfg, st) && pc.Busy? && LocalOk(cfg, st, pc) && Allows(cfg, st, pc.stage, c)
    requires Terminal(st, j) && !Writer(pc, j)
    ensures var q' := Effects(cfg, st, pc.m, pc.stage, c).q; j in q'.jobs && q'.jobs[j] == st.q.jobs[j]
    ensures !Writer(AfterWork(cfg, st, pc, c), j)
  {
    MessageJobKnown(cfg, st, pc.m);
    StageJobs(cfg, st, pc.m, pc.stage, c);
    NeverWriter(cfg, st, pc, c, j);
    hide StoresOk, Effects, AfterWork, Allows, StageOk;
    if pc.m.jobId == j {
      OtherJobs(cfg, st, pc.m, pc.stage, c);
    }
  }

  lemma NeverWriter(cfg: Config, st: Stores, pc: Pc, c: Choice, j: string)
    requires pc.Busy? && LocalOk(cfg, st, pc) && Terminal(st, j) && !Writer(pc, j)
    ensures !Writer(AfterWork(cfg, st, pc, c), j)
  {
    hide VerdictFor, EffectsOf, Script, ClassifyProcessingError, TripleOf, RightFailure;
  }

  lemma NextIsNoWriter(batch: seq<Message>, j: string)
    ensures !Writer(NextMessage(batch), j) && !Writer(Idle, j)
  {
  }

  lemma EnqueueKeepsRecord(q: Queue, r: VideoDetectRequest, now: Time, j: string)
    requires j in q.jobs
    ensures j in Enqueue(q, r, now).jobs && Enqueue(q, r, now).jobs[j] == q.jobs[j]
  {
  }

  /** The only event that changes a terminal record is a status update by a writer. */
  lemma ChangeIsByWriter(cfg: Config, s: System, e: Event, j: string)
    requires SystemOk(cfg, s) && Enabled(cfg, s, e) && Terminal(s.stores, j)
    ensures var jobs' := Apply(cfg, s, e).stores.q.jobs;
            && j in jobs'
            && (jobs'[j] != s.stores.q.jobs[j] ==>
                  e.Work? && Writer(s.workers[e.w], j) && SetsStatus(s.workers[e.w].stage))
  {
    hide StoresOk, AfterWork, Effects, Allows, StageOk, OnePublisher, Enqueue, ReadMessages, NextMessage, MissedBy,
      Writer;
    match e {
      case ApiEnqueue(r, now) => EnqueueKeepsRecord(s.stores.q, r, now, j);
      case Read(w) =>
      case Work(w, c) =>
        var pc := s.workers[w];
        MessageJobKnown(cfg, s.stores, pc.m);
        StageJobs(cfg, s.stores, pc.m, pc.stage, c);
        if !Writer(pc, j) {
          NoNewWriter(cfg, s.stores, pc, c, j);
        } else if !SetsStatus(pc.stage) {
          OtherJobs(cfg, s.stores, pc.m, pc.stage, c);
        }
      case Cut(w) =>
    }
  }

  lemma NoWriterStep(cfg: Config, s: System, e: Event, j: string)
    requires SystemOk(cfg, s) && Enabled(cfg, s, e) && Terminal(s.stores, j) && !SomeWriter(s, j)
    ensures var s' := Apply(cfg, s, e);
            Terminal(s'.stores, j) && s'.stores.q.jobs[j] == s.stores.q.jobs[j] && !SomeWriter(s', j)
  {
    hide StoresOk, AfterWork, Effects, Allows, StageOk, OnePublisher, Enqueue, ReadMessages, NextMessage, MissedBy,
      Writer, SetsStatus, IsTerminal;
    ChangeIsByWriter(cfg, s, e, j);
    WorkersAfter(cfg, s, e, j);
  }

  lemma WorkersAfter(cfg: Config, s: System, e: Event, j: string)
    requires SystemOk(cfg, s) && Enabled(cfg, s, e) && Terminal(s.stores, j) && !SomeWriter(s, j)
    ensures !SomeWriter(Apply(cfg, s, e), j)
  {
    hide StoresOk, AfterWork, Effects, Allows, StageOk, OnePublisher, Enqueue, ReadMessages, NextMessage, MissedBy,
      Writer, Terminal;
    match e {
      case ApiEnqueue(r, now) =>
      case Read(w) => NextIsNoWriter(ReadMessages(s.stores.q, cfg.readCount), j);
      case Work(w, c) => NoNewWriter(cfg, s.stores, s.workers[w], c, j);
      case Cut(w) => NextIsNoWriter([], j);
    }
  }

  lemma {:induction false} NoWriterForever(cfg: Config, s: System, later: seq<Event>, j: string)
    requires SystemOk(cfg, s) && ValidRun(cfg, s, later) && Terminal(s.stores, j) && !SomeWriter(s, j)
    ensures var jobs' := Run(cfg, s, later).stores.q.jobs; j in jobs' && jobs'[j] == s.stores.q.jobs[j]
    decreases |later|
  {
    hide SystemOk, SomeWriter, Apply, Enabled, Grows;
    if later != [] {
      StepKeepsSafe(cfg, s, later[0]);
      NoWriterStep(cfg, s, later[0], j);
      NoWriterForever(cfg, Apply(cfg, s, later[0]), later[1..], j);
    }
  }

  // ---------- it can be changed ----------

  /** The step of a writer towards its next status update, made at another time than the record's last. */
  function TowardsUpdate(cfg: Config, stage: Stage, now: Time): Choice {
    if (SetsStatus(stage) && !stage.Finishing?) || stage.LookUpPersisted?
       || (stage.Moving? && !stage.verdict.result.moveRequired)
    then When(cfg, now, Done) else When(cfg, now, Raised(RequestError("ConnectError", "")))
  }

  function StepsToUpdate(stage: Stage): nat {
    if SetsStatus(stage) && !stage.Finishing? then 1 else if stage.Moving? then 3 else 2
  }

  function OtherTime(x: VideoJob): Time {
    if x.updatedAt == Some(0) then 1 else 0
  }

  lemma WriterStep(cfg: Config, s: System, w: nat, j: string, now: Time)
    requires SystemOk(cfg, s) && w < |s.workers| && Writer(s.workers[w], j)
    requires j in s.stores.q.jobs && s.stores.q.jobs[j].updatedAt != Some(now)
    ensures var stage, e := s.workers[w].stage, Work(w, TowardsUpdate(cfg, s.workers[w].stage, now));
            && Enabled(cfg, s, e)
            && var s' := Apply(cfg, s, e);
               && j in s'.stores.q.jobs
               && if StepsToUpdate(stage) == 1 then s'.stores.q.jobs[j] != s.stores.q.jobs[j]
                  else s'.stores.q.jobs[j] == s.stores.q.jobs[j] && |s'.workers| == |s.workers|
                       && Writer(s'.workers[w], j) && StepsToUpdate(s'.workers[w].stage) < StepsToUpdate(stage)
  {
    hide StoresOk, OnePublisher, Script, EffectsOf, VerdictFor, ClassifyProcessingError, MissedBy, TripleOf;
    var pc, e := s.workers[w], Work(w, TowardsUpdate(cfg, s.workers[w].stage, now));
    assert LocalOk(cfg, s.stores, pc);
  }

  lemma {:induction false} UpdateOn(cfg: Config, s: System, w: nat, j: string, now: Time) returns (later: seq<Event>)
    requires SystemOk(cfg, s) && w < |s.workers| && Writer(s.workers[w], j)
    requires j in s.stores.q.jobs && s.stores.q.jobs[j].updatedAt != Some(now)
    ensures ValidRun(cfg, s, later)
    ensures var jobs' := Run(cfg, s, later).stores.q.jobs; j in jobs' && jobs'[j] != s.stores.q.jobs[j]
    decreases StepsToUpdate(s.workers[w].stage)
  {
    var e := Work(w, TowardsUpdate(cfg, s.workers[w].stage, now));
    WriterStep(cfg, s, w, j, now);
    StepKeepsSafe(cfg, s, e);
    hide SystemOk, Apply, Enabled, TowardsUpdate, Writer, StepsToUpdate, Grows;
    if StepsToUpdate(s.workers[w].stage) == 1 {
      later := [];
    } else {
      later := UpdateOn(cfg, Apply(cfg, s, e), w, j, now);
    }
    FirstEvent(cfg, s, e, later);
    later := [e] + later;
  }

  lemma Changeable(cfg: Config, s: System, j: string) returns (later: seq<Event>)
    requires SystemOk(cfg, s) && SomeWriter(s, j) && j in s.stores.q.jobs
    ensures ValidRun(cfg, s, later)
    ensures var jobs' := Run(cfg, s, later).stores.q.jobs; j in jobs' && jobs'[j] != s.stores.q.jobs[j]
  {
    hide SystemOk, Run, ValidRun, Writer;
    var w :| 0 <= w < |s.workers| && Writer(s.workers[w], j);
    later := UpdateOn(cfg, s, w, j, OtherTime(s.stores.q.jobs[j]));
  }

  /** The run can follow and leaves the record of the job different. */
  predicate ChangedAfter(cfg: Config, s: System, later: seq<Event>, j: string)
    requires j in s.stores.q.jobs
  {
    && ValidRun(cfg, s, later)
    && var jobs' := Run(cfg, s, later).stores.q.jobs; j !in jobs' || jobs'[j] != s.stores.q.jobs[j]
  }

  /** Any number of workers: a terminal record can still change exactly when some worker looked the job up before it
      became terminal and has not made its last status update yet. */
  lemma ChangesExactly(cfg: Config, workers: nat, events: seq<Event>, s: System, j: string)
    requires Reaches(cfg, workers, events, s) && Terminal(s.stores, j)
    ensures (exists later :: ChangedAfter(cfg, s, later, j)) <==> SomeWriter(s, j)
  {
    ReachableIsSafe(cfg, workers, events, s);
    hide SystemOk, Reaches, Run, ValidRun, SomeWriter;
    if SomeWriter(s, j) {
      var later := Changeable(cfg, s, j);
      assert ChangedAfter(cfg, s, later, j);
    } else {
      forall later
        ensures !ChangedAfter(cfg, s, later, j)
      {
        if ValidRun(cfg, s, later) {
          NoWriterForever(cfg, s, later, j);
        }
      }
    }
  }

  // ---------- one worker ----------

  /** The worker is about to record a failure of this job. */
  predicate Failing(pc: Pc, j: string) {
    pc.Busy? && pc.m.jobId == j && pc.stage.RecordingFailure?
  }

  /** The only writer of a finished job that one worker can be is one whose final status update was performed and lost
      its answer. */
  lemma SoloWriterIsFailing(cfg: Config, q: Queue, pc: Pc, j: string)
    requires SoloOk(cfg, q, pc) && j in q.jobs && IsTerminal(q.jobs[j].status)
    ensures Writer(pc, j) <==> Failing(pc, j)
  {
    hide NoneLost, Pending, FailureOk;
  }

  /** One worker, cut anywhere: a terminal record can still change exactly when the worker is about to record a failure
      of that job. */
  lemma OneWorkerChangesExactly(cfg: Config, events: seq<Event>, s: System, j: string)
    requires Reaches(cfg, 1, events, s) && Terminal(s.stores, j) && |s.workers| == 1
    ensures (exists later :: ChangedAfter(cfg, s, later, j)) <==> Failing(s.workers[0], j)
  {
    SoloReached(cfg, events, s);
    hide SystemOk, SoloOk, Accounted, Reaches, Writer, Failing, ChangedAfter, IsTerminal;
    SoloWriterIsFailing(cfg, s.stores.q, s.workers[0], j);
    ChangesExactly(cfg, 1, events, s, j);
    OnlyWriter(s, j);
  }

  lemma OnlyWriter(s: System, j: string)
    requires |s.workers| == 1
    ensures SomeWriter(s, j) <==> Writer(s.workers[0], j)
  {
    hide Writer;
  }

  /** So once the worker is between messages every finished record is final. */
  lemma TerminalForever(cfg: Config, events: seq<Event>, s: System, later: seq<Event>, j: string)
    requires Reaches(cfg, 1, events, s) && ValidRun(cfg, s, later) && Terminal(s.stores, j)
    requires |s.workers| == 1 && !Failing(s.workers[0], j)
    ensures var jobs' := Run(cfg, s, later).stores.q.jobs; j in jobs' && jobs'[j] == s.stores.q.jobs[j]
  {
    hide Reaches, Failing, Run, ValidRun;
    OneWorkerChangesExactly(cfg, events, s, j);
    assert !ChangedAfter(cfg, s, later, j);
  }

  // ---------- answers that arrive ----------

  /** The final status update is performed and its answer is lost. */
  predicate AnswerLost(s: System, e: Event) {
    e.Work? && e.w < |s.workers| && s.workers[e.w].Busy? && s.workers[e.w].stage.Finishing? && e.choice.outcome.Lost?
  }

  predicate AnswersArrive(cfg: Config, s: System, events: seq<Event>)
    requires ValidRun(cfg, s, events)
    decreases |events|
  {
    events == [] || (!AnswerLost(s, events[0]) && AnswersArrive(cfg, Apply(cfg, s, events[0]), events[1..]))
  }

  /** The worker is recording no failure over a finished record. */
  predicate NoneReopening(s: System) {
    && |s.workers| == 1
    && (s.workers[0].Busy? && s.workers[0].stage.RecordingFailure? && s.workers[0].m.jobId in s.stores.q.jobs ==>
          !IsTerminal(s.stores.q.jobs[s.workers[0].m.jobId].status))
  }

  lemma NextRecordsNothing(batch: seq<Message>)
    ensures NextMessage(batch).Busy? ==> !NextMessage(batch).stage.RecordingFailure?
    ensures NextMessage(batch).Busy? ==> batch != [] && NextMessage(batch).m == batch[0]
  {
  }

  lemma FinishedAcknowledges(cfg: Config, st: Stores, pc: Pc, c: Choice)
    requires pc.Busy? && pc.stage.Finishing? && c.outcome.Done?
    ensures AfterWork(cfg, st, pc, c) == Busy(pc.m, pc.rest, Acking)
  {
  }

  lemma WorkReopensNone(cfg: Config, s: System, w: nat, c: Choice)
    requires SystemOk(cfg, s) && Solo(cfg, s) && NoneReopening(s) && Enabled(cfg, s, Work(w, c))
    requires !AnswerLost(s, Work(w, c))
    ensures NoneReopening(Apply(cfg, s, Work(w, c)))
  {
    hide StoresOk, OnePublisher, NoneLost, Pending, Effects, MissedBy, FailureOk, InFlight, StageOk, Allows,
      NextStage, NextMessage, SoloStage, AfterWork;
    var st, pc := s.stores, s.workers[0];
    NextRecordsNothing(pc.rest);
    MessageJobKnown(cfg, st, pc.m);
    StageJobs(cfg, st, pc.m, pc.stage, c);
    if pc.stage.Acking? {
      Drain.AckEffect(cfg, st, pc, c);
    } else {
      Drain.FailureAfter(cfg, st, pc, c);
      if pc.stage.Finishing? && c.outcome.Done? {
        FinishedAcknowledges(cfg, st, pc, c);
      }
    }
  }

  lemma StepReopensNone(cfg: Config, s: System, e: Event)
    requires SystemOk(cfg, s) && Solo(cfg, s) && NoneReopening(s) && Enabled(cfg, s, e) && !AnswerLost(s, e)
    ensures NoneReopening(Apply(cfg, s, e)) && Reopens(s, e) == {}
  {
    hide StoresOk, OnePublisher, SoloOk, Effects, AfterWork, MissedBy, Allows, Enqueue, ReadMessages, NextMessage;
    match e {
      case ApiEnqueue(r, now) =>
        if s.workers[0].Busy? && s.workers[0].m.jobId in s.stores.q.jobs {
          EnqueueKeepsRecord(s.stores.q, r, now, s.workers[0].m.jobId);
        }
      case Read(w) => NextRecordsNothing(ReadMessages(s.stores.q, cfg.readCount));
      case Work(w, c) => WorkReopensNone(cfg, s, w, c);
      case Cut(w) =>
    }
  }

  lemma {:induction false} RunReopensNone(cfg: Config, s: System, events: seq<Event>)
    requires SystemOk(cfg, s) && Solo(cfg, s) && NoneReopening(s) && ValidRun(cfg, s, events)
    requires AnswersArrive(cfg, s, events)
    ensures NoneReopening(Run(cfg, s, events)) && Reopened(cfg, s, events) == {}
    decreases |events|
  {
    hide SystemOk, SoloOk, NoneReopening, AnswerLost, Reopens, Apply, Enabled, Grows;
    if events != [] {
      StepKeepsSafe(cfg, s, events[0]);
      StepKeepsSolo(cfg, s, events[0]);
      StepReopensNone(cfg, s, events[0]);
      RunReopensNone(cfg, Apply(cfg, s, events[0]), events[1..]);
    }
  }

  /** One worker, cut anywhere: as long as every final status update that was performed was also answered, a terminal
      record never changes again, and a record has a finish time exactly when it is terminal. */
  lemma FinalOnceAnswered(cfg: Config, events: seq<Event>, s: System, later: seq<Event>, j: string)
    requires Reaches(cfg, 1, events, s) && ValidRun(cfg, s, later) && AnswersArrive(cfg, Init(1), events)
    requires j in s.stores.q.jobs
    ensures Terminal(s.stores, j) ==>
              var jobs' := Run(cfg, s, later).stores.q.jobs; j in jobs' && jobs'[j] == s.stores.q.jobs[j]
    ensures s.stores.q.jobs[j].finishedAt.Some? <==> Terminal(s.stores, j)
  {
    InitSafe(cfg, 1);
    InitExact(cfg);
    hide SystemOk, SoloOk, Accounted, Exact, AnswersArrive, Reopened, Consistent;
    RunReopensNone(cfg, Init(1), events);
    RecordsAgreeWithStatus(cfg, events, s, j);
    if Terminal(s.stores, j) {
      hide Run, ValidRun;
      TerminalForever(cfg, events, s, later, j);
    }
  }
}
