/** With one worker, a job classified in either store has been published in full, as long as no cut strikes between the
    commit of a job and the end of its publication. */
module Publication {
  import opened Common
  import opened VideoJobs
  import opened Failures
  import opened QueueState
  import opened PostgresState
  import opened Pipeline
  import opened PipelineSafety
  import opened SingleWorker
  import opened Attempts
  import opened CutFree

  /** Every effect of the job's script has taken place. */
  predicate Published(st: Stores, j: string) {
    j in st.db.results && EffectsOf(st.log, j) == Script(j, st.db.results[j])
  }

  /** The worker is past the commit of this job and has not yet overwritten its row with a failure. */
  predicate Unsettled(pc: Pc, j: string) {
    && pc.Busy? && pc.m.jobId == j
    && (pc.stage.Publishing? || pc.stage.Finishing? || pc.stage.RecordingFailure? || pc.stage.MarkingFailed?)
  }

  predicate PublishedOk(st: Stores, pc: Pc) {
    && (forall j {:trigger Published(st, j)} :: j in st.q.jobs && st.q.jobs[j].status == Classified ==>
       Published(st, j))
    && (forall j {:trigger Unsettled(pc, j)} :: j in st.db.jobs && st.db.jobs[j].status == Classified ==>
          Published(st, j) || Unsettled(pc, j))
    && (pc.Busy? && (pc.stage.AdoptClassified? || pc.stage.Finishing?) ==> Published(st, pc.m.jobId))
  }

  /** The worker is past the commit of its job, whose row says CLASSIFIED, and has not published everything. */
  predicate InWindow(st: Stores, pc: Pc) {
    && pc.Busy? && Unsettled(pc, pc.m.jobId)
    && pc.m.jobId in st.db.jobs && st.db.jobs[pc.m.jobId].status == Classified && !Published(st, pc.m.jobId)
  }

  /** A cut keeps the invariant exactly when it falls outside that window. */
  lemma CutKeepsPublishedExactly(st: Stores, pc: Pc)
    requires PublishedOk(st, pc)
    ensures PublishedOk(st, Idle) <==> !InWindow(st, pc)
  {
    hide Published;
    if InWindow(st, pc) {
      assert !Unsettled(Idle, pc.m.jobId);
    } else {
      forall j | j in st.db.jobs && st.db.jobs[j].status == Classified
        ensures Published(st, j)
      {
        assert Published(st, j) || Unsettled(pc, j);
      }
    }
  }

  /** No cut of the run strikes in the window. */
  predicate CutsHarmless(cfg: Config, s: System, events: seq<Event>)
    requires ValidRun(cfg, s, events)
    decreases |events|
  {
    events == [] ||
    ((events[0].Cut? ==> !InWindow(s.stores, s.workers[events[0].w]))
     && CutsHarmless(cfg, Apply(cfg, s, events[0]), events[1..]))
  }

  lemma {:induction false} NoCutsIsHarmless(cfg: Config, s: System, events: seq<Event>)
    requires ValidRun(cfg, s, events) && NoCuts(events)
    ensures CutsHarmless(cfg, s, events)
    decreases |events|
  {
    hide Apply, Enabled, InWindow;
    if events != [] {
      assert forall i :: 0 <= i < |events[1..]| ==> events[1..][i] == events[i + 1];
      NoCutsIsHarmless(cfg, Apply(cfg, s, events[0]), events[1..]);
    }
  }

  /** Published jobs stay so: nothing can follow the last effect of a script. */
  lemma PublishedStays(st: Stores, st': Stores, j: string)
    requires Grows(st, st') && LogOk(st'.db.results, st'.log) && Published(st, j)
    ensures Published(st', j)
  {
    EffectsOfPrefix(st.log, st'.log, j);
    hide EffectsOf, Script, MovedBeforeCommit;
    assert EffectsOf(st.log, j) <= EffectsOf(st'.log, j);
    assert EffectsOf(st'.log, j) <= Script(j, st'.db.results[j]);
  }

  lemma {:induction false} EffectsOfPrefix(log: seq<Effect>, log': seq<Effect>, j: string)
    requires log <= log'
    ensures EffectsOf(log, j) <= EffectsOf(log', j)
  {
    if |log| == |log'| {
      assert log == log';
    } else {
      EffectsOfPrefix(log, log'[..|log'| - 1], j);
    }
  }

  /** The last publishing step completes the script. */
  lemma LastStepPublishes(st: Stores, st': Stores, j: string, todo: seq<Effect>)
    requires j in st.db.results && EffectsOf(st.log, j) + todo == Script(j, st.db.results[j]) && |todo| == 1
    requires st'.db == st.db && st'.log == st.log + todo
    ensures Published(st', j)
  {
    var before := EffectsOf(st.log, j);
    NextOfScript(j, st.db.results[j], before, todo);
    EffectsOfAppend(st.log, todo[0], j);
    assert todo == [todo[0]];
  }

  /** Where the job rows of both stores may become CLASSIFIED. */
  lemma ClassifiedSteps(cfg: Config, st: Stores, pc: Pc, c: Choice)
    requires pc.Busy? && StageOk(cfg, st, pc.m, pc.stage) && SoloStage(cfg, st.q, pc.m, pc.stage)
             && Allows(cfg, st, pc.stage, c)
    ensures var st' := Effects(cfg, st, pc.m, pc.stage, c);
            && (forall j :: j in st'.q.jobs && st'.q.jobs[j].status == Classified ==>
                  (j in st.q.jobs && st.q.jobs[j].status == Classified)
                  || (j == pc.m.jobId && (pc.stage.AdoptClassified? || pc.stage.Finishing?)))
  {
    StageJobs(cfg, st, pc.m, pc.stage, c);
    hide Effects, VerdictFor, CommitOf, EffectsOf, Script, Pending;
  }

  lemma ClassifiedRows(cfg: Config, st: Stores, pc: Pc, c: Choice)
    requires StoresOk(cfg, st) && pc.Busy? && StageOk(cfg, st, pc.m, pc.stage) && Allows(cfg, st, pc.stage, c)
    ensures var st' := Effects(cfg, st, pc.m, pc.stage, c);
            && (forall j :: j in st'.db.jobs && st'.db.jobs[j].status == Classified ==>
                  (j in st.db.jobs && st.db.jobs[j].status == Classified && !(pc.stage.MarkingFailed?
                      && j == pc.m.jobId))
                  || (j == pc.m.jobId && pc.stage.Committing?))
  {
    hide StoresOk, VerdictFor, CommitOf, EffectsOf, Script;
    if pc.stage.Committing? && !c.outcome.Raised? {
      hide FramesInserted, NoFramesOf;
      CommitCondition(cfg, st, pc.stage.job, pc.stage.verdict, c);
    }
  }

  /** How far the worker gets in one step after its commit. */
  lemma UnsettledSteps(cfg: Config, st: Stores, pc: Pc, c: Choice)
    requires pc.Busy? && StageOk(cfg, st, pc.m, pc.stage) && Allows(cfg, st, pc.stage, c)
    ensures var pc', st' := AfterWork(cfg, st, pc, c), Effects(cfg, st, pc.m, pc.stage, c);
            && (pc.stage.Committing? && !c.outcome.Raised? ==> Unsettled(pc', pc.m.jobId))
            && (forall j :: Unsettled(pc, j) ==>
                  Unsettled(pc', j) || (j == pc.m.jobId && (pc.stage.MarkingFailed? || (pc.stage.Finishing?
                      && c.outcome.Done?))))
            && (pc'.Busy? && pc'.stage.AdoptClassified? ==>
                  pc.stage.LookUpPersisted? && pc'.m == pc.m && pc.m.jobId in st.db.jobs
                  && st.db.jobs[pc.m.jobId].status == Classified)
            && (pc'.Busy? && pc'.stage.Finishing? ==>
                  pc.stage.Publishing? && pc'.m == pc.m && |pc.stage.todo| == 1 && st'.log == st.log + pc.stage.todo)
  {
    hide VerdictFor, CommitOf, EffectsOf, IsRetryable, ErrorCode, ErrorMessage;
    if pc.stage.Committing? {
      ScriptHead(pc.stage.job.jobId, pc.stage.verdict.result);
    }
    hide Script;
    if pc.stage.Publishing? && |pc.stage.todo| == 1 {
      assert pc.stage.todo == [pc.stage.todo[0]];
    }
  }

  lemma WorkKeepsPublished(cfg: Config, st: Stores, pc: Pc, c: Choice)
    requires StoresOk(cfg, st) && pc.Busy? && LocalOk(cfg, st, pc) && SoloOk(cfg, st.q, pc)
             && Allows(cfg, st, pc.stage, c)
    requires PublishedOk(st, pc)
    ensures PublishedOk(Effects(cfg, st, pc.m, pc.stage, c), AfterWork(cfg, st, pc, c))
  {
    hide ValidQueue, RowsOk, ResultsOk, FramesOwned, ActionsOk, ClassifiedOk, Effects, AfterWork, Allows, SoloStage,
      NoneLost, InFlight, Published, Unsettled, LogOk, EffectsOf, Script, StageOk;
    var st', pc' := Effects(cfg, st, pc.m, pc.stage, c), AfterWork(cfg, st, pc, c);
    OwnStep(cfg, st, pc, c);
    ClassifiedSteps(cfg, st, pc, c);
    ClassifiedRows(cfg, st, pc, c);
    UnsettledSteps(cfg, st, pc, c);
    forall j | Published(st, j)
      ensures Published(st', j)
    {
      PublishedStays(st, st', j);
    }
    hide Grows;
    forall j | j in st'.db.jobs && st'.db.jobs[j].status == Classified
      ensures Published(st', j) || Unsettled(pc', j)
    {
      RowSettled(cfg, st, pc, c, j);
    }
    if pc'.Busy? && pc'.stage.Finishing? {
      FinishingPublishes(cfg, st, pc, c);
    }
    if pc'.Busy? && pc'.stage.AdoptClassified? {
      assert !Unsettled(pc, pc.m.jobId) by {
        NotUnsettled(pc, pc.m.jobId);
      }
    }
  }

  lemma NotUnsettled(pc: Pc, j: string)
    requires pc.Busy? && pc.stage.LookUpPersisted?
    ensures !Unsettled(pc, j)
  {
  }

  lemma FinishingPublishes(cfg: Config, st: Stores, pc: Pc, c: Choice)
    requires pc.Busy? && StageOk(cfg, st, pc.m, pc.stage) && pc.stage.Publishing? && |pc.stage.todo| == 1
    requires Effects(cfg, st, pc.m, pc.stage, c).log == st.log + pc.stage.todo
    ensures Published(Effects(cfg, st, pc.m, pc.stage, c), pc.m.jobId)
  {
    hide EffectsOf, Script, VerdictFor;
    LastStepPublishes(st, Effects(cfg, st, pc.m, pc.stage, c), pc.m.jobId, pc.stage.todo);
  }

  lemma RowSettled(cfg: Config, st: Stores, pc: Pc, c: Choice, j: string)
    requires StoresOk(cfg, st) && pc.Busy? && StageOk(cfg, st, pc.m, pc.stage) && Allows(cfg, st, pc.stage, c)
    requires PublishedOk(st, pc)
    requires var st' := Effects(cfg, st, pc.m, pc.stage, c);
             && j in st'.db.jobs && st'.db.jobs[j].status == Classified
             && (Published(st, j) ==> Published(st', j))
    ensures Published(Effects(cfg, st, pc.m, pc.stage, c), j) || Unsettled(AfterWork(cfg, st, pc, c), j)
  {
    hide StoresOk, Effects, AfterWork, Published, EffectsOf, Script, VerdictFor, CommitOf;
    ClassifiedRows(cfg, st, pc, c);
    UnsettledSteps(cfg, st, pc, c);
    RaisedCommitAddsNoRow(cfg, st, pc, c);
    hide StageOk, Allows;
    if j in st.db.jobs && st.db.jobs[j].status == Classified && !Published(st, j) {
      assert Unsettled(pc, j);
    }
  }

  lemma RaisedCommitAddsNoRow(cfg: Config, st: Stores, pc: Pc, c: Choice)
    requires pc.Busy?
    ensures pc.stage.Committing? && c.outcome.Raised? ==> Effects(cfg, st, pc.m, pc.stage, c) == st
    ensures pc.stage.Finishing? && c.outcome.Done? ==> Effects(cfg, st, pc.m, pc.stage, c).db == st.db
  {
    hide CommitOf;
  }

  ghost predicate AllPublished(s: System) {
    |s.workers| == 1 && PublishedOk(s.stores, s.workers[0])
  }

  lemma QuietStepKeepsPublished(st: Stores, st': Stores, pc: Pc, pc': Pc)
    requires PublishedOk(st, pc) && st'.db == st.db && st'.log == st.log
    requires forall j :: j in st'.q.jobs && st'.q.jobs[j].status == Classified ==>
               j in st.q.jobs && st.q.jobs[j].status == Classified
    requires (forall j :: Unsettled(pc, j) ==> Unsettled(pc', j))
    requires pc'.Busy? && (pc'.stage.AdoptClassified? || pc'.stage.Finishing?) ==> pc' == pc
    ensures PublishedOk(st', pc')
  {
    hide Unsettled, EffectsOf, Script;
    assert forall j :: Published(st', j) <==> Published(st, j);
    hide Published;
  }

  lemma StepKeepsPublished(cfg: Config, s: System, e: Event)
    requires SystemOk(cfg, s) && Solo(cfg, s) && AllPublished(s) && Enabled(cfg, s, e)
    requires e.Cut? ==> !InWindow(s.stores, s.workers[0])
    ensures AllPublished(Apply(cfg, s, e))
  {
    hide ValidQueue, RowsOk, ResultsOk, FramesOwned, ActionsOk, LogOk, ClassifiedOk, StageOk, SoloOk, OnePublisher,
      PublishedOk, Effects, AfterWork, Allows, MissedBy, ReadMessages, NextMessage, InWindow;
    var st, pc := s.stores, s.workers[0];
    match e {
      case ApiEnqueue(r, now) =>
        EnqueueClassifiesNothing(st.q, r, now);
        hide Enqueue, Unsettled;
        QuietStepKeepsPublished(st, st.(q := Enqueue(st.q, r, now)), pc, pc);
      case Read(w) =>
        ReadStage(ReadMessages(st.q, cfg.readCount));
        QuietStepKeepsPublished(st, st, pc, NextMessage(ReadMessages(st.q, cfg.readCount)));
      case Work(w, c) => WorkKeepsPublished(cfg, st, pc, c);
      case Cut(w) => CutKeepsPublishedExactly(st, pc);
    }
  }

  lemma EnqueueClassifiesNothing(q: Queue, r: VideoDetectRequest, now: Time)
    ensures forall j :: j in Enqueue(q, r, now).jobs && Enqueue(q, r, now).jobs[j].status == Classified ==>
              j in q.jobs && q.jobs[j].status == Classified
  {
  }

  lemma ReadStage(batch: seq<Message>)
    ensures var pc := NextMessage(batch); pc.Busy? ==> pc.stage.LookUpJob? || pc.stage.DeadLettering?
  {
  }

  lemma {:induction false} PublishedRun(cfg: Config, s: System, events: seq<Event>)
    requires SystemOk(cfg, s) && Solo(cfg, s) && AllPublished(s) && ValidRun(cfg, s, events)
    requires CutsHarmless(cfg, s, events)
    ensures AllPublished(Run(cfg, s, events))
    decreases |events|
  {
    hide SystemOk, SoloOk, PublishedOk, Apply, Grows, InWindow;
    if events != [] {
      StepKeepsSafe(cfg, s, events[0]);
      StepKeepsSolo(cfg, s, events[0]);
      StepKeepsPublished(cfg, s, events[0]);
      PublishedRun(cfg, Apply(cfg, s, events[0]), events[1..]);
    }
  }
}
