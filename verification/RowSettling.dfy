/** Exactly when a CLASSIFIED row of Postgres stays CLASSIFIED. */
module RowSettling {
  import opened Common
  import opened VideoJobs
  import opened Failures
  import opened QueueState
  import opened PostgresState
  import opened Pipeline
  import opened PipelineSafety
  import opened SingleWorker
  import opened Attempts
  import opened CutFree
  import opened Publication
  import opened PipelineTheorems
  import opened PublicationWindow
  import opened Records

  predicate RowClassified(db: Db, j: string) {
    j in db.jobs && db.jobs[j].status == Classified
  }

  /** What every reachable state of one worker satisfies. */
  ghost predicate SoloState(cfg: Config, s: System) {
    && SystemOk(cfg, s) && Solo(cfg, s) && FinishOk(s.stores.q.jobs, s.stores.db.results)
    && RowsConsistent(s.stores.db.jobs, s.stores.q.jobs, s.workers[0])
  }

  lemma StepKeepsSoloState(cfg: Config, s: System, e: Event)
    requires SoloState(cfg, s) && Enabled(cfg, s, e)
    ensures SoloState(cfg, Apply(cfg, s, e))
  {
    hide SystemOk, SoloOk, FinishOk, RowsConsistent, Apply, Enabled, Grows;
    StepKeepsSafe(cfg, s, e);
    StepKeepsSolo(cfg, s, e);
    StepKeepsFinish(cfg, s, e, {});
    StepKeepsRows(cfg, s, e);
  }

  lemma ReachedSoloState(cfg: Config, events: seq<Event>, s: System)
    requires Reaches(cfg, 1, events, s)
    ensures SoloState(cfg, s)
  {
    SoloReached(cfg, events, s);
    hide SystemOk, Solo, Accounted, FinishOk, RowsConsistent, Exact, Run, ValidRun, Init, AllConsistent, FinishExact;
    InitSafe(cfg, 1);
    InitExact(cfg);
    InitRows();
    RecordsOfRun(cfg, events);
    RunKeepsRows(cfg, Init(1), events);
  }

  lemma InitRows()
    ensures FinishOk(Init(1).stores.q.jobs, Init(1).stores.db.results)
    ensures RowsConsistent(Init(1).stores.db.jobs, Init(1).stores.q.jobs, Init(1).workers[0])
  {
  }

  // ---------- it stays ----------

  lemma NotAttempting(rows: Jobs, jobs: Jobs, pc: Pc, j: string)
    requires RowsConsistent(rows, jobs, pc) && j in rows && rows[j].status == Classified
    ensures !Attempting(pc, j)
  {
    hide Attempting;
    assert RowConsistent(rows[j], jobs[j], Attempting(pc, j));
  }

  lemma RowAfterWork(cfg: Config, st: Stores, pc: Pc, c: Choice, j: string)
    requires StoresOk(cfg, st) && pc.Busy? && StageOk(cfg, st, pc.m, pc.stage) && SoloStage(cfg, st.q, pc.m, pc.stage)
    requires Allows(cfg, st, pc.stage, c) && FinishOk(st.q.jobs, st.db.results)
    requires RowsConsistent(st.db.jobs, st.q.jobs, pc)
    requires RowClassified(st.db, j) && !Unsettled(pc, j)
    ensures RowClassified(Effects(cfg, st, pc.m, pc.stage, c).db, j)
    ensures !Unsettled(AfterWork(cfg, st, pc, c), j)
  {
    hide StoresOk, FinishOk, Allows, RowsConsistent, StageOk, SoloStage, Effects;
    NotAttempting(st.db.jobs, st.q.jobs, pc, j);
    NeverUnsettled(cfg, st, pc, c, j);
    hide AfterWork;
    if pc.stage.Acking? {
      OtherStagesKeepRows(cfg, st, pc.m, pc.stage, c);
    } else if j != pc.m.jobId {
      if pc.stage.Committing? {
        CommitRow(cfg, st, pc, c);
      } else {
        OwnRow(cfg, st, pc, c);
      }
    } else {
      OtherStagesKeepRows(cfg, st, pc.m, pc.stage, c);
    }
  }

  lemma NeverUnsettled(cfg: Config, st: Stores, pc: Pc, c: Choice, j: string)
    requires pc.Busy? && !Unsettled(pc, j) && !Attempting(pc, j)
    ensures !Unsettled(AfterWork(cfg, st, pc, c), j)
  {
    hide ClassifyProcessingError;
  }

  lemma RowStep(cfg: Config, s: System, e: Event, j: string)
    requires SoloState(cfg, s) && Enabled(cfg, s, e) && RowClassified(s.stores.db, j) && !Unsettled(s.workers[0], j)
    ensures var s' := Apply(cfg, s, e);
            |s'.workers| == 1 && RowClassified(s'.stores.db, j) && !Unsettled(s'.workers[0], j)
  {
    hide StoresOk, StageOk, SoloStage, OnePublisher, NoneLost, FinishOk, RowsConsistent, Effects, AfterWork, Allows,
      MissedBy, Enqueue, ReadMessages;
    match e {
      case Work(w, c) => RowAfterWork(cfg, s.stores, s.workers[0], c, j);
      case ApiEnqueue(r, now) =>
      case Read(w) => ReadStage(ReadMessages(s.stores.q, cfg.readCount));
      case Cut(w) =>
    }
  }

  lemma {:induction false} RowStays(cfg: Config, s: System, later: seq<Event>, j: string)
    requires SoloState(cfg, s) && ValidRun(cfg, s, later) && |s.workers| == 1
    requires RowClassified(s.stores.db, j) && !Unsettled(s.workers[0], j)
    ensures RowClassified(Run(cfg, s, later).stores.db, j)
    decreases |later|
  {
    hide SoloState, Apply, Enabled, Unsettled, RowClassified;
    if later != [] {
      StepKeepsSoloState(cfg, s, later[0]);
      RowStep(cfg, s, later[0], j);
      RowStays(cfg, Apply(cfg, s, later[0]), later[1..], j);
    }
  }

  // ---------- it can be overwritten ----------

  /** The step of a worker past its commit that leads towards the failed mark. */
  function TowardsFailure(cfg: Config, stage: Stage): Choice {
    if stage.Publishing? || stage.Finishing? then When(cfg, 0, Raised(RequestError("ConnectError", "")))
    else When(cfg, 0, Done)
  }

  function StepsToFailure(stage: Stage): nat {
    if stage.Publishing? || stage.Finishing? then 3 else if stage.RecordingFailure? then 2 else 1
  }

  lemma FailureStep(cfg: Config, s: System, j: string)
    requires SystemOk(cfg, s) && |s.workers| == 1 && Unsettled(s.workers[0], j) && j in s.stores.db.jobs
    ensures var pc, e := s.workers[0], Work(0, TowardsFailure(cfg, s.workers[0].stage));
            && Enabled(cfg, s, e)
            && var s' := Apply(cfg, s, e);
               && |s'.workers| == 1 && j in s'.stores.db.jobs
               && if pc.stage.MarkingFailed? then !RowClassified(s'.stores.db, j)
                  else Unsettled(s'.workers[0], j) && StepsToFailure(s'.workers[0].stage) < StepsToFailure(pc.stage)
  {
    hide StoresOk, OnePublisher, Script, EffectsOf, VerdictFor, ClassifyProcessingError, UpdateStatus;
    assert LocalOk(cfg, s.stores, s.workers[0]);
  }

  lemma {:induction false} Overwrite(cfg: Config, s: System, j: string) returns (later: seq<Event>)
    requires SystemOk(cfg, s) && |s.workers| == 1 && Unsettled(s.workers[0], j) && j in s.stores.db.jobs
    ensures ValidRun(cfg, s, later) && !RowClassified(Run(cfg, s, later).stores.db, j)
    decreases StepsToFailure(s.workers[0].stage)
  {
    var e := Work(0, TowardsFailure(cfg, s.workers[0].stage));
    FailureStep(cfg, s, j);
    StepKeepsSafe(cfg, s, e);
    hide SystemOk, Apply, Enabled, RowClassified, TowardsFailure, Unsettled, StepsToFailure;
    if s.workers[0].stage.MarkingFailed? {
      later := [];
    } else {
      later := Overwrite(cfg, Apply(cfg, s, e), j);
    }
    FirstEvent(cfg, s, e, later);
    later := [e] + later;
  }

  /** One worker: a CLASSIFIED row is CLASSIFIED in every continuation exactly when the worker is not between the commit
      of that job and its last write, that is, not publishing, finishing or recording a failure of it. */
  lemma RowStaysExactly(cfg: Config, events: seq<Event>, s: System, j: string)
    requires Reaches(cfg, 1, events, s) && |s.workers| == 1 && RowClassified(s.stores.db, j)
    ensures (forall later {:trigger ValidRun(cfg, s, later)} ::
               ValidRun(cfg, s, later) ==> RowClassified(Run(cfg, s, later).stores.db, j)) <==>
            !Unsettled(s.workers[0], j)
  {
    ReachedSoloState(cfg, events, s);
    hide Reaches, Unsettled, RowClassified;
    if Unsettled(s.workers[0], j) {
      OwnRowKnown(s.stores.db, j);
      var later := Overwrite(cfg, s, j);
    } else {
      forall later | ValidRun(cfg, s, later)
        ensures RowClassified(Run(cfg, s, later).stores.db, j)
      {
        RowStays(cfg, s, later, j);
      }
    }
  }

  lemma OwnRowKnown(db: Db, j: string)
    requires RowClassified(db, j)
    ensures j in db.jobs
  {
  }

  /** A cut in the publication window is never made good: in every continuation the row says CLASSIFIED and the job is
      not published. */
  lemma HarmfulCutIsForever(cfg: Config, events: seq<Event>, s: System, later: seq<Event>)
    requires Reaches(cfg, 1, events, s) && |s.workers| == 1 && InWindow(s.stores, s.workers[0])
    requires ValidRun(cfg, Apply(cfg, s, Cut(0)), later)
    ensures var s', j := Run(cfg, Apply(cfg, s, Cut(0)), later), s.workers[0].m.jobId;
            RowClassified(s'.stores.db, j) && !Published(s'.stores, j)
  {
    var cut, j := Apply(cfg, s, Cut(0)), s.workers[0].m.jobId;
    ReachedSoloState(cfg, events, s);
    StepKeepsSoloState(cfg, s, Cut(0));
    assert cut.workers == [Idle] && cut.stores == s.stores;
    ClassifiedRowHasResult(cfg, s, j);
    hide SystemOk, Solo, FinishOk, RowsConsistent, Reaches, EffectsOf, Script;
    RowStays(cfg, cut, later, j);
    assert !SomePublisher(cut, j);
    NoPublisherForever(cfg, cut, later, j);
  }

  lemma ClassifiedRowHasResult(cfg: Config, s: System, j: string)
    requires SystemOk(cfg, s) && RowClassified(s.stores.db, j)
    ensures j in s.stores.db.results
  {
    hide ValidQueue, RowsOk, ResultsOk, FramesOwned, ActionsOk, LogOk, LocalOk, OnePublisher;
  }
}
