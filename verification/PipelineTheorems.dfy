/** The main results about the job lifecycle, each over every run from the empty system. */
module PipelineTheorems {
  import opened Common
  import opened VideoJobs
  import opened QueueState
  import opened ModerationPolicy
  import opened Aggregation
  import opened PostgresState
  import opened Pipeline
  import opened PipelineSafety
  import opened SingleWorker
  import opened Attempts
  import opened CutFree
  import opened Drain
  import Fairness
  import opened Publication

  ghost predicate Reaches(cfg: Config, workers: nat, events: seq<Event>, s: System) {
    ValidRun(cfg, Init(workers), events) && Run(cfg, Init(workers), events) == s
  }

  lemma StepReaches(cfg: Config, workers: nat, trace: seq<Event>, s: System, e: Event)
    requires Reaches(cfg, workers, trace, s) && Enabled(cfg, s, e)
    ensures Reaches(cfg, workers, trace + [e], Apply(cfg, s, e))
  {
    hide Apply, Enabled;
    RunAppend(cfg, Init(workers), trace, [e]);
    assert ValidRun(cfg, Apply(cfg, s, e), []);
  }

  lemma ReachableIsSafe(cfg: Config, workers: nat, events: seq<Event>, s: System)
    requires Reaches(cfg, workers, events, s)
    ensures SystemOk(cfg, s)
  {
    InitSafe(cfg, workers);
    hide SystemOk;
    RunKeepsSafe(cfg, Init(workers), events);
  }

  // ---------- any number of workers ----------

  /** Position of an effect in the order commit, canonical row, legacy row, action row, runtime write. */
  function Order(e: Effect): nat {
    match e
    case Moved(_) => 0
    case Committed(_, _) => 1
    case CanonicalRow(_, _) => 2
    case LegacyRow(_, _) => 3
    case StorageActionRow(_, _) => 4
    case RuntimeWrite(_, _) => 5
  }

  predicate Of(e: Effect, j: string) {
    e.jobId == j && !e.Moved?
  }

  lemma {:induction false} PositionsKept(log: seq<Effect>, j: string, k: nat) returns (b: nat)
    requires k < |log| && Of(log[k], j)
    ensures b < |EffectsOf(log, j)| && EffectsOf(log, j)[b] == log[k]
    ensures EffectsOf(log, j)[..b] == EffectsOf(log[..k], j)
  {
    var n := |log|;
    if k == n - 1 {
      b := |EffectsOf(log[..n - 1], j)|;
    } else {
      b := PositionsKept(log[..n - 1], j, k);
      assert log[..n - 1][..k] == log[..k];
    }
  }

  lemma ScriptIncreases(j: string, r: VideoResult)
    ensures forall a, b :: 0 <= a < b < |Script(j, r)| ==> Order(Script(j, r)[a]) < Order(Script(j, r)[b])
    ensures forall a :: 0 <= a < |Script(j, r)| ==>
              !Script(j, r)[a].Moved? && Script(j, r)[a].result == r
              && (Script(j, r)[a].StorageActionRow? ==> r.moveRequired)
  {
  }

  /** Over every run, with retries, cuts, lost answers and any number of workers: the effects of one job follow each
      other in script order without repetition, all carry the committed result, and an action row needs a required
      move. */
  lemma PublishedAtMostOnceInOrder(cfg: Config, workers: nat, events: seq<Event>, s: System)
    requires Reaches(cfg, workers, events, s)
    ensures forall i, k :: 0 <= i < k < |s.stores.log| && !s.stores.log[i].Moved?
                           && Of(s.stores.log[k], s.stores.log[i].jobId) ==>
              Order(s.stores.log[i]) < Order(s.stores.log[k])
    ensures forall k :: 0 <= k < |s.stores.log| && !s.stores.log[k].Moved? ==>
              && s.stores.log[k].jobId in s.stores.db.results
              && s.stores.log[k].result == s.stores.db.results[s.stores.log[k].jobId]
              && (s.stores.log[k].StorageActionRow? ==> s.stores.log[k].result.moveRequired)
  {
    ReachableIsSafe(cfg, workers, events, s);
    var results, log := s.stores.db.results, s.stores.log;
    LogOkOf(cfg, s);
    hide SystemOk, Reaches;
    forall k | 0 <= k < |log| && !log[k].Moved?
      ensures log[k].jobId in results && log[k].result == results[log[k].jobId]
      ensures log[k].StorageActionRow? ==> log[k].result.moveRequired
    {
      EffectIsScripted(results, log, k);
    }
    forall i, k | 0 <= i < k < |log| && !log[i].Moved? && Of(log[k], log[i].jobId)
      ensures Order(log[i]) < Order(log[k])
    {
      LaterIsGreater(results, log, i, k);
    }
  }

  lemma LogOkOf(cfg: Config, s: System)
    requires SystemOk(cfg, s)
    ensures LogOk(s.stores.db.results, s.stores.log)
  {
    hide LogOk, ValidQueue, RowsOk, ResultsOk, FramesOwned, ActionsOk, ClassifiedOk, LocalOk, OnePublisher;
  }

  lemma EffectIsScripted(results: map<string, VideoResult>, log: seq<Effect>, k: nat)
    requires LogOk(results, log) && k < |log| && !log[k].Moved?
    ensures log[k].jobId in results && log[k].result == results[log[k].jobId]
    ensures log[k].StorageActionRow? ==> log[k].result.moveRequired
  {
    var j := log[k].jobId;
    var b := PositionsKept(log, j, k);
    hide EffectsOf, MovedBeforeCommit;
    ScriptIncreases(j, results[j]);
    hide Script;
    assert Script(j, results[j])[b] == log[k];
  }

  lemma LaterIsGreater(results: map<string, VideoResult>, log: seq<Effect>, i: nat, k: nat)
    requires LogOk(results, log) && i < k < |log| && !log[i].Moved? && Of(log[k], log[i].jobId)
    ensures Order(log[i]) < Order(log[k])
  {
    var j := log[i].jobId;
    var b := PositionsKept(log, j, k);
    assert log[..k][i] == log[i];
    var a := PositionsKept(log[..k], j, i);
    assert EffectsOf(log, j)[..b][a] == log[i];
    hide EffectsOf, MovedBeforeCommit, Order;
    ScriptIncreases(j, results[j]);
    hide Script;
    assert Script(j, results[j])[a] == log[i] && Script(j, results[j])[b] == log[k];
  }

  /** Every published row comes after the commit of its job, and a required move before that. */
  lemma EffectsAreCausal(cfg: Config, workers: nat, events: seq<Event>, s: System, k: nat)
    requires Reaches(cfg, workers, events, s) && k < |s.stores.log| && !s.stores.log[k].Moved?
    ensures var log, j := s.stores.log, s.stores.log[k].jobId;
            && (exists i :: 0 <= i <= k && log[i].Committed? && log[i].jobId == j)
            && (s.stores.log[k].result.moveRequired ==> MovedBeforeCommit(log, j))
  {
    ReachableIsSafe(cfg, workers, events, s);
    LogOkOf(cfg, s);
    var results, log, j := s.stores.db.results, s.stores.log, s.stores.log[k].jobId;
    hide SystemOk, Reaches;
    EffectIsScripted(results, log, k);
    var b := PositionsKept(log, j, k);
    assert EffectsOf(log, j)[0] == Script(j, results[j])[0];
    if b == 0 {
      assert log[k].Committed?;
    } else {
      assert EffectsOf(log[..k], j)[0] == EffectsOf(log, j)[..b][0];
      var i := FirstPosition(log[..k], j);
      assert log[..k][i] == log[i];
    }
  }

  lemma {:induction false} FirstPosition(log: seq<Effect>, j: string) returns (i: nat)
    requires EffectsOf(log, j) != []
    ensures i < |log| && log[i] == EffectsOf(log, j)[0] && Of(log[i], j)
  {
    var n := |log|;
    if EffectsOf(log[..n - 1], j) == [] {
      i := n - 1;
    } else {
      i := FirstPosition(log[..n - 1], j);
    }
  }

  lemma {:induction false} EffectsMember(log: seq<Effect>, j: string, e: Effect)
    ensures e in EffectsOf(log, j) <==> e in log && Of(e, j)
  {
    if log != [] {
      EffectsMember(log[..|log| - 1], j, e);
      assert log == log[..|log| - 1] + [log[|log| - 1]];
    }
  }

  lemma ScriptMembers(j: string, r: VideoResult)
    ensures CanonicalRow(j, r) in Script(j, r) && LegacyRow(j, r) in Script(j, r) && RuntimeWrite(j, r) in Script(j, r)
    ensures StorageActionRow(j, r) in Script(j, r) <==> r.moveRequired
    ensures forall k :: 0 <= k < |Script(j, r)| && Script(j, r)[k].RuntimeWrite? ==> k == |Script(j, r)| - 1
  {
    var script := Script(j, r);
    assert script[1] == CanonicalRow(j, r) && script[2] == LegacyRow(j, r);
    assert script[|script| - 1] == RuntimeWrite(j, r);
    assert r.moveRequired ==> script[3] == StorageActionRow(j, r);
  }

  lemma PublishedRows(st: Stores, j: string)
    requires LogOk(st.db.results, st.log) && j in st.db.results
    ensures var log, r := st.log, st.db.results[j];
            Published(st, j) <==>
            && CanonicalRow(j, r) in log && LegacyRow(j, r) in log && RuntimeWrite(j, r) in log
            && (StorageActionRow(j, r) in log <==> r.moveRequired)
  {
    var log, r := st.log, st.db.results[j];
    EffectsMember(log, j, CanonicalRow(j, r));
    EffectsMember(log, j, LegacyRow(j, r));
    EffectsMember(log, j, StorageActionRow(j, r));
    EffectsMember(log, j, RuntimeWrite(j, r));
    ScriptMembers(j, r);
    hide EffectsOf, Script, MovedBeforeCommit;
    var done := EffectsOf(log, j);
    assert done <= Script(j, r);
    if RuntimeWrite(j, r) in done {
      var k :| 0 <= k < |done| && done[k] == RuntimeWrite(j, r);
      assert Script(j, r)[k] == RuntimeWrite(j, r);
      assert done == Script(j, r);
    }
  }

  /** What a job's publication consists of: its canonical row, its legacy row, its runtime key, and the row of its
      action exactly if it has one; and the job counts as published in full exactly when all of these took place. */
  lemma PublishedExactly(cfg: Config, workers: nat, events: seq<Event>, s: System, j: string)
    requires Reaches(cfg, workers, events, s) && j in s.stores.db.results
    ensures var log, r := s.stores.log, s.stores.db.results[j];
            Published(s.stores, j) <==>
            && CanonicalRow(j, r) in log && LegacyRow(j, r) in log && RuntimeWrite(j, r) in log
            && (StorageActionRow(j, r) in log <==>
                exists a :: a in s.stores.db.actions && s.stores.db.actions[a].jobId == j)
  {
    hide Reaches, SystemOk, StoresOk, LogOk, Published;
    ReachableIsSafe(cfg, workers, events, s);
    SafeStores(cfg, s);
    ResultParts(cfg, s.stores, j);
    LogOkOf(cfg, s);
    PublishedRows(s.stores, j);
  }

  lemma SafeStores(cfg: Config, s: System)
    requires SystemOk(cfg, s)
    ensures StoresOk(cfg, s.stores)
  {
    hide StoresOk, LocalOk, OnePublisher;
  }

  /** At most one committed result per (video, source version, policy version), however many jobs were admitted. */
  lemma OneResultPerTriple(cfg: Config, workers: nat, events: seq<Event>, s: System, j: string, k: string)
    requires Reaches(cfg, workers, events, s) && j in s.stores.db.results && k in s.stores.db.results
    requires j in s.stores.q.jobs && k in s.stores.q.jobs
             && TripleOf(s.stores.q.jobs[j]) == TripleOf(s.stores.q.jobs[k])
    ensures j == k
  {
    ReachableIsSafe(cfg, workers, events, s);
    hide ValidQueue, FramesOwned, ActionsOk, ClassifiedOk, LocalOk, OnePublisher, LogOk, Backed, Reaches;
    var rows := s.stores.db.jobs;
    assert TripleOf(rows[j]) == TripleOf(rows[k]);
  }

  /** A second job of a triple whose row belongs to another job never gets a row, hence never a result. */
  lemma ShutOutForever(cfg: Config, workers: nat, events: seq<Event>, s: System, later: seq<Event>, j: string,
                       owner: string)
    requires Reaches(cfg, workers, events, s) && ValidRun(cfg, s, later)
    requires j in s.stores.q.jobs && owner in s.stores.db.jobs && owner in s.stores.q.jobs && j != owner
    requires TripleOf(s.stores.q.jobs[j]) == TripleOf(s.stores.q.jobs[owner])
    ensures var s' := Run(cfg, s, later); j !in s'.stores.db.jobs && j !in s'.stores.db.results
  {
    ReachableIsSafe(cfg, workers, events, s);
    RunKeepsSafe(cfg, s, later);
    var s' := Run(cfg, s, later);
    hide ValidQueue, RowsOk, FramesOwned, ActionsOk, ClassifiedOk, LocalOk, OnePublisher, LogOk, Backed, Run,
      ValidRun, Kept, Reaches;
    NoSecondRow(s'.stores.q.jobs, s'.stores.db.jobs, j, owner);
  }

  lemma NoSecondRow(jobs: map<string, VideoJob>, rows: map<string, VideoJob>, j: string, owner: string)
    requires RowsOk(jobs, rows) && owner in rows && j in jobs && j != owner
    requires owner in jobs && TripleOf(jobs[j]) == TripleOf(jobs[owner])
    ensures j !in rows
  {
  }

  /** What a committed result comes with: the rows of exactly its frames, whose aggregate it is, one action, with its
      video, threshold and score, when a move is required and none otherwise, and a verdict equal to the blocking policy
      of its maxima. */
  lemma CommittedIsComplete(cfg: Config, workers: nat, events: seq<Event>, s: System, j: string)
    requires Reaches(cfg, workers, events, s) && j in s.stores.db.results
    ensures var db, r := s.stores.db, s.stores.db.results[j];
            && j in db.jobs
            && (exists frames :: |frames| == r.totalFrameCount && StoredAs(db, j, frames)
                  && Aggregate(cfg.aggregation, j, db.jobs[j].videoId, db.jobs[j].policyVersion, frames) == Ok(r))
            && (forall k :: k in db.frames && db.frames[k].jobId == j ==>
                  exists i :: 0 <= i < r.totalFrameCount && k == FrameId(j, i))
            && (r.moveRequired <==> exists a :: a in db.actions && db.actions[a].jobId == j)
            && (forall a :: a in db.actions && db.actions[a].jobId == j ==>
                  && db.actions[a].actionId == a && db.actions[a].videoId == r.videoId
                  && db.actions[a].threshold == r.moveThreshold && db.actions[a].finalScore == r.finalScore)
            && (forall a, b :: a in db.actions && b in db.actions && db.actions[a].jobId == j == db.actions[b].jobId ==>
                  a == b)
            && (r.finalIsNsfw <==> IsNsfw(r.maxCategorySeverities))
  {
    ReachableIsSafe(cfg, workers, events, s);
    var db, r := s.stores.db, s.stores.db.results[j];
    ResultParts(cfg, s.stores, j);
    hide SystemOk, Reaches;
    var frames :| StoredAs(db, j, frames) && VerdictFor(cfg, db.jobs[j], Verdict(frames, r));
    VerdictFacts(cfg, db.jobs[j], Verdict(frames, r));
    VerdictIsPolicyOfMaxima(cfg.aggregation, j, db.jobs[j].videoId, db.jobs[j].policyVersion, frames);
    hide StoredAs, Aggregate, ValidFrames, IsNsfw;
    assert Aggregate(cfg.aggregation, j, db.jobs[j].videoId, db.jobs[j].policyVersion, frames) == Ok(r);
  }

  lemma ResultParts(cfg: Config, st: Stores, j: string)
    requires StoresOk(cfg, st) && j in st.db.results
    ensures j in st.db.jobs && st.db.jobs[j].jobId == j && Backed(cfg, st.db, j)
    ensures forall k :: k in st.db.frames && st.db.frames[k].jobId == j ==>
              exists i :: 0 <= i < st.db.results[j].totalFrameCount && k == FrameId(j, i)
    ensures st.db.results[j].moveRequired <==> HasAction(st.db.actions, j)
    ensures forall a :: a in st.db.actions && st.db.actions[a].jobId == j ==>
              ActionFits(a, st.db.actions[a], st.db.results[j])
    ensures forall a, b |
              a in st.db.actions && b in st.db.actions && st.db.actions[a].jobId == j == st.db.actions[b].jobId ::
              a == b
  {
    hide ValidQueue, ClassifiedOk, LogOk, Backed;
    forall k | k in st.db.frames && st.db.frames[k].jobId == j
      ensures exists i :: 0 <= i < st.db.results[j].totalFrameCount && k == FrameId(j, i)
    {
      assert k == FrameId(j, st.db.frames[k].frame.frameIndex);
    }
  }

  // ---------- the status endpoint ----------

  datatype StatusResponse = StatusResponse(jobId: string, status: VideoJobStatus, finalResult: Option<VideoResult>)

  /** The answer built from a queue record and, a moment later, the results table. */
  function StatusAnswer(job: VideoJob, results: map<string, VideoResult>): StatusResponse {
    StatusResponse(job.jobId, job.status,
                   if job.status == Classified && job.jobId in results then Some(results[job.jobId]) else None)
  }

  /** CLASSIFIED in either store means a committed result, so a classified answer always carries it, even if the result
      is looked up later than the queue record. */
  lemma ClassifiedAnswerHasResult(cfg: Config, workers: nat, events: seq<Event>, s: System, later: seq<Event>,
                                  j: string)
    requires Reaches(cfg, workers, events, s) && ValidRun(cfg, s, later) && j in s.stores.q.jobs
    ensures var job, results := s.stores.q.jobs[j], Run(cfg, s, later).stores.db.results;
            var answer := StatusAnswer(job, results);
            && answer.jobId == j && answer.status == job.status
            && (job.status == Classified ==> j in results && answer.finalResult == Some(results[j]))
            && (job.status != Classified ==> answer.finalResult == None)
    ensures j in s.stores.db.jobs && s.stores.db.jobs[j].status == Classified ==> j in s.stores.db.results
  {
    ReachableIsSafe(cfg, workers, events, s);
    RunKeepsSafe(cfg, s, later);
    hide RowsOk, ResultsOk, FramesOwned, ActionsOk, LogOk, LocalOk, OnePublisher, MessagesNumbered,
      IndexPointsToOwner, SameWork, Reaches;
  }

  // ---------- one worker, cut anywhere ----------

  lemma SoloReached(cfg: Config, events: seq<Event>, s: System)
    requires Reaches(cfg, 1, events, s)
    ensures SystemOk(cfg, s) && Solo(cfg, s) && Accounted(cfg, s)
  {
    InitSafe(cfg, 1);
    InitExact(cfg);
    hide SystemOk, Solo, Accounted, Exact;
    SoloRun(cfg, Init(1), events);
  }

  /** No lost job: every job that is not finished has an unacknowledged message, so it will be delivered again. */
  lemma NoLostJob(cfg: Config, events: seq<Event>, s: System, j: string)
    requires Reaches(cfg, 1, events, s) && j in s.stores.q.jobs && !IsTerminal(s.stores.q.jobs[j].status)
    ensures exists m :: m in s.stores.q.messages && m.jobId == j && m.id !in s.stores.q.acked
  {
    SoloReached(cfg, events, s);
    hide SystemOk, Accounted, Reaches, SoloStage, InFlight;
    var q := s.stores.q;
    assert Names(Pending(q), j);
    var i :| 0 <= i < |Pending(q)| && Pending(q)[i].jobId == j;
    UnackedMember(q.messages, q.acked);
    assert Pending(q)[i] in Pending(q);
  }

  /** Attempts never exceed the budget by more than the job's cut handlings, and a retryable job has attempts left. */
  lemma AttemptsBounded(cfg: Config, events: seq<Event>, s: System, j: string)
    requires Reaches(cfg, 1, events, s) && j in s.stores.q.jobs
    ensures s.stores.q.jobs[j].attempts <= (if cfg.maxAttempts < 1 then 1 else cfg.maxAttempts) + s.cuts[j]
    ensures s.stores.q.jobs[j].status == FailedRetryable ==> s.stores.q.jobs[j].attempts < cfg.maxAttempts
  {
    SoloReached(cfg, events, s);
    hide SystemOk, Solo, Reaches, CountsAgree;
    assert WithinBudget(cfg, s.stores.q.jobs[j], ActiveJob(s.workers[0]) == Some(j), s.cuts[j]);
  }

  /** Exact cross-store accounting between messages: the queue's attempts are those the Postgres row counted plus those
      it missed. So the row never leads, and agrees when no mark failed or was cut. */
  lemma StoresCountTheSameAttempts(cfg: Config, events: seq<Event>, s: System, j: string)
    requires Reaches(cfg, 1, events, s) && j in s.stores.db.jobs && |s.workers| == 1 && s.workers[0].Idle?
    ensures j in s.stores.q.jobs
    ensures s.stores.q.jobs[j].attempts == s.stores.db.jobs[j].attempts + s.missed[j]
  {
    SoloReached(cfg, events, s);
    hide SystemOk, Solo, Reaches, AttemptsOk;
    assert Balanced(s.stores.db.jobs[j].attempts, s.stores.q.jobs[j].attempts, s.missed[j],
        MarkJob(s.workers[0]) == Some(j));
  }

  /** No mark is refused, and no worker is cut while it waits for one. */
  predicate MarkPerformed(s: System, e: Event) {
    match e
    case Work(w, c) =>
      w < |s.workers| && s.workers[w].Busy? && s.workers[w].stage.MarkingProcessing? ==> !c.outcome.Raised?
    case Cut(w) => w < |s.workers| && s.workers[w].Busy? ==> !s.workers[w].stage.MarkingProcessing?
    case _ => true
  }

  predicate MarksPerformed(cfg: Config, s: System, events: seq<Event>)
    requires ValidRun(cfg, s, events)
    decreases |events|
  {
    events == [] || (MarkPerformed(s, events[0]) && MarksPerformed(cfg, Apply(cfg, s, events[0]), events[1..]))
  }

  lemma NothingMissedInStep(cfg: Config, s: System, e: Event)
    requires Enabled(cfg, s, e) && MarkPerformed(s, e)
    ensures Apply(cfg, s, e).missed == s.missed
  {
    hide Effects, AfterWork, Allows, NextMessage, Enqueue, ReadMessages;
  }

  lemma {:induction false} NothingMissed(cfg: Config, s: System, events: seq<Event>)
    requires ValidRun(cfg, s, events) && MarksPerformed(cfg, s, events)
    ensures Run(cfg, s, events).missed == s.missed
    decreases |events|
  {
    hide Apply, Enabled, MarkPerformed;
    if events != [] {
      NothingMissedInStep(cfg, s, events[0]);
      NothingMissed(cfg, Apply(cfg, s, events[0]), events[1..]);
    }
  }

  /** In a run where every mark is performed, the two stores count the same attempts between messages. */
  lemma AttemptsAgree(cfg: Config, events: seq<Event>, s: System, j: string)
    requires Reaches(cfg, 1, events, s) && MarksPerformed(cfg, Init(1), events)
    requires j in s.stores.db.jobs && |s.workers| == 1 && s.workers[0].Idle?
    ensures j in s.stores.q.jobs && s.stores.q.jobs[j].attempts == s.stores.db.jobs[j].attempts
  {
    StoresCountTheSameAttempts(cfg, events, s, j);
    NothingMissed(cfg, Init(1), events);
  }

  // ---------- one worker, no cut ----------

  /** Whatever happened before: from an idle worker on, the message at position p of the waiting list is acknowledged
      within p / count + 1 rounds without a cut. */
  lemma WaitingMessageIsHandled(cfg: Config, events: seq<Event>, s: System, later: seq<Event>, p: nat)
    requires Reaches(cfg, 1, events, s) && |s.workers| == 1 && s.workers[0].Idle? && cfg.readCount >= 1
    requires ValidRun(cfg, s, later) && NoCuts(later)
    requires p < |Pending(s.stores.q)| && Fairness.Reads(later) >= p / cfg.readCount + 1
    ensures var s' := Run(cfg, s, later);
            |s'.workers| == 1 && (s'.workers[0].Idle? ==> Pending(s.stores.q)[p].id in s'.stores.q.acked)
  {
    hide SystemOk, Solo, Accounted, Reaches, Pending, Run, ValidRun, Fairness.Reads;
    SoloReached(cfg, events, s);
    Fairness.ServedWithinRounds(cfg, s, later, p);
  }

  lemma UncutReached(cfg: Config, events: seq<Event>, s: System)
    requires Reaches(cfg, 1, events, s) && NoCuts(events)
    ensures Uncut(cfg, s) && Ledger(cfg, s)
            && ProductiveSteps(cfg, Init(1), events) <= 5 + Steps(cfg, |s.stores.q.jobs|)
    ensures AllPublished(s)
  {
    InitSafe(cfg, 1);
    InitExact(cfg);
    InitLedger(cfg);
    hide SystemOk, Solo, Accounted, Exact, Ledger, AllPublished, Steps;
    RunDrains(cfg, Init(1), events);
    NoCutsIsHarmless(cfg, Init(1), events);
    PublishedRun(cfg, Init(1), events);
  }

  lemma InitLedger(cfg: Config)
    ensures Ledger(cfg, Init(1)) && Init(1).cuts == multiset{} && AllPublished(Init(1))
    ensures Rank(cfg, Init(1)) == 5 && Steps(cfg, |Init(1).stores.q.jobs|) == 0
  {
    assert Init(1).stores.q.jobs == map[];
    assert Potential(cfg, map[]) == 0;
  }

  /** The exact partition, between messages: an unfinished job has exactly one unacknowledged message, a finished one
      none; and exactly the terminally failed jobs are dead-lettered, once each, with their recorded error code and
      message. */
  lemma ExactPartition(cfg: Config, events: seq<Event>, s: System)
    requires Reaches(cfg, 1, events, s) && NoCuts(events) && |s.workers| == 1 && s.workers[0].Idle?
    ensures var q := s.stores.q;
            && (forall j :: j in q.jobs ==> CountFor(Pending(q), j) == if IsTerminal(q.jobs[j].status) then 0 else 1)
            && (forall j :: j in q.jobs ==> (Dead(q.dlq, j) <==> q.jobs[j].status == FailedTerminal))
            && (forall i, k :: 0 <= i < k < |q.dlq| ==> q.dlq[i].jobId != q.dlq[k].jobId)
            && (forall i :: 0 <= i < |q.dlq| ==>
                  && q.dlq[i].jobId in q.jobs && q.jobs[q.dlq[i].jobId].lastErrorCode == Some(q.dlq[i].errorCode)
                  && q.jobs[q.dlq[i].jobId].lastErrorMessage == Some(q.dlq[i].errorMessage))
            && (forall i :: 0 <= i < |q.messages| ==> q.messages[i].id == i + 1)
            && |q.queue| == |q.messages| && (forall i :: 0 <= i < |q.queue| ==> q.queue[i] == q.messages[i].jobId)
  {
    UncutReached(cfg, events, s);
    NumberedIn(cfg, s);
    hide SystemOk, Solo, Accounted, Ledger, AllPublished, Reaches, CountFor, Unacked;
  }

  /** Termination: the jobs enqueued so far cost at most a full budget of handlings each, and a bounded number of worker
      steps in all; and when a read finds nothing, every job is finished. */
  lemma DrainBound(cfg: Config, events: seq<Event>, s: System)
    requires Reaches(cfg, 1, events, s) && NoCuts(events)
    ensures |s.stores.q.acked| <= Budget(cfg) * |s.stores.q.jobs|
    ensures ProductiveSteps(cfg, Init(1), events) <= STEPS_PER_ATTEMPT * (Budget(cfg) * |s.stores.q.jobs|) + 5
    ensures cfg.readCount >= 1 && ReadMessages(s.stores.q, cfg.readCount) == [] ==>
              forall j :: j in s.stores.q.jobs ==> IsTerminal(s.stores.q.jobs[j].status)
  {
    hide SystemOk, SoloOk, Accounted, Exact, AllPublished, Reaches, Pending, Potential, ReadMessages, ProductiveSteps,
      Budget;
    UncutReached(cfg, events, s);
    if cfg.readCount >= 1 && ReadMessages(s.stores.q, cfg.readCount) == [] {
      NothingLeft(cfg, s.stores.q, s.workers[0]);
    }
  }

  lemma NothingLeft(cfg: Config, q: Queue, pc: Pc)
    requires SoloOk(cfg, q, pc) && cfg.readCount >= 1 && ReadMessages(q, cfg.readCount) == []
    ensures forall j :: j in q.jobs ==> IsTerminal(q.jobs[j].status)
  {
    hide SoloStage, InFlight, Unacked;
    assert Pending(q) == [];
    forall j | j in q.jobs
      ensures IsTerminal(q.jobs[j].status)
    {
      assert !Names([], j);
    }
  }

  lemma PublishedWhenClassified(cfg: Config, events: seq<Event>, s: System, j: string)
    requires Reaches(cfg, 1, events, s) && CutsHarmless(cfg, Init(1), events)
    requires j in s.stores.q.jobs && s.stores.q.jobs[j].status == Classified
    ensures Published(s.stores, j) && j in s.stores.db.results
  {
    InitSafe(cfg, 1);
    InitExact(cfg);
    InitLedger(cfg);
    hide SystemOk, Solo, Accounted, Exact, Ledger, CutsHarmless, EffectsOf, Script;
    PublishedRun(cfg, Init(1), events);
  }

  /** CLASSIFIED in the queue means the whole script has run: committed, published, runtime key written; whatever was
      cut outside the window between a commit and the end of its publication. */
  lemma ClassifiedIsPublished(cfg: Config, events: seq<Event>, s: System, j: string)
    requires Reaches(cfg, 1, events, s) && CutsHarmless(cfg, Init(1), events)
    requires j in s.stores.q.jobs && s.stores.q.jobs[j].status == Classified
    ensures Published(s.stores, j) && j in s.stores.db.results
    ensures var log, r := s.stores.log, s.stores.db.results[j];
            && CanonicalRow(j, r) in log && LegacyRow(j, r) in log && RuntimeWrite(j, r) in log
            && (StorageActionRow(j, r) in log <==> r.moveRequired)
            && (r.moveRequired <==> exists a :: a in s.stores.db.actions && s.stores.db.actions[a].jobId == j)
  {
    hide Reaches, SystemOk, StoresOk, LogOk, Published, CutsHarmless;
    PublishedWhenClassified(cfg, events, s, j);
    ReachableIsSafe(cfg, 1, events, s);
    SafeStores(cfg, s);
    ResultParts(cfg, s.stores, j);
    LogOkOf(cfg, s);
    PublishedRows(s.stores, j);
  }
}
