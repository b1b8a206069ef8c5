/** Termination and fairness of one uncut worker: how many handlings and steps the queue can cost, and when a waiting
    message is served. */
module Drain {
  import opened Common
  import opened VideoJobs
  import opened QueueState
  import Aggregation
  import opened PostgresState
  import opened Pipeline
  import opened PipelineSafety
  import opened SingleWorker
  import opened Attempts
  import opened CutFree

  // ---------- remaining attempts ----------

  /** Attempts an unfinished job may still use. */
  function Weight(cfg: Config, x: VideoJob): nat {
    if IsTerminal(x.status) || x.attempts >= Budget(cfg) then 0 else Budget(cfg) - x.attempts
  }

  ghost function SumOver(cfg: Config, jobs: Jobs, keys: set<string>): nat
    requires keys <= jobs.Keys
  {
    if keys == {} then 0 else
    var k :| k in keys;
    Weight(cfg, jobs[k]) + SumOver(cfg, jobs, keys - {k})
  }

  /** The sum of remaining attempts over all unfinished jobs. */
  ghost function Potential(cfg: Config, jobs: Jobs): nat {
    SumOver(cfg, jobs, jobs.Keys)
  }

  lemma {:induction false} SumRemove(cfg: Config, jobs: Jobs, keys: set<string>, k: string)
    requires keys <= jobs.Keys && k in keys
    ensures SumOver(cfg, jobs, keys) == Weight(cfg, jobs[k]) + SumOver(cfg, jobs, keys - {k})
  {
    var picked :| picked in keys
                  && SumOver(cfg, jobs, keys) == Weight(cfg, jobs[picked]) + SumOver(cfg, jobs, keys - {picked});
    if picked != k {
      SumRemove(cfg, jobs, keys - {picked}, k);
      SumRemove(cfg, jobs, keys - {k}, picked);
      assert keys - {picked} - {k} == keys - {k} - {picked};
    }
  }

  lemma {:induction false} SumSame(cfg: Config, jobs: Jobs, jobs': Jobs, keys: set<string>)
    requires keys <= jobs.Keys && keys <= jobs'.Keys
    requires forall j :: j in keys ==> jobs'[j] == jobs[j]
    ensures SumOver(cfg, jobs', keys) == SumOver(cfg, jobs, keys)
  {
    if keys != {} {
      var k :| k in keys;
      SumRemove(cfg, jobs, keys, k);
      SumRemove(cfg, jobs', keys, k);
      SumSame(cfg, jobs, jobs', keys - {k});
    }
  }

  /** What the worker will give back to the job it recorded as CLASSIFIED in an update whose answer was lost. */
  function Reserve(cfg: Config, jobs: Jobs, pc: Pc): nat {
    if pc.Busy? && pc.stage.RecordingFailure? && pc.m.jobId in jobs && IsTerminal(jobs[pc.m.jobId].status)
       && jobs[pc.m.jobId].attempts < Budget(cfg)
    then Budget(cfg) - jobs[pc.m.jobId].attempts else 0
  }

  ghost function Outstanding(cfg: Config, jobs: Jobs, pc: Pc): nat {
    Potential(cfg, jobs) + Reserve(cfg, jobs, pc)
  }

  lemma PotentialOfUpdate(cfg: Config, jobs: Jobs, jobs': Jobs, k: string)
    requires k in jobs && jobs'.Keys == jobs.Keys && forall j :: j in jobs && j != k ==> jobs'[j] == jobs[j]
    ensures Potential(cfg, jobs') + Weight(cfg, jobs[k]) == Potential(cfg, jobs) + Weight(cfg, jobs'[k])
  {
    SumRemove(cfg, jobs, jobs.Keys, k);
    SumRemove(cfg, jobs', jobs'.Keys, k);
    SumSame(cfg, jobs, jobs', jobs.Keys - {k});
  }

  lemma PotentialOfInsert(cfg: Config, jobs: Jobs, k: string, x: VideoJob)
    requires k !in jobs && x.attempts == 0 && x.status == Queued
    ensures Potential(cfg, jobs[k := x]) == Potential(cfg, jobs) + Budget(cfg)
  {
    var jobs' := jobs[k := x];
    SumRemove(cfg, jobs', jobs'.Keys, k);
    assert jobs'.Keys - {k} == jobs.Keys;
    SumSame(cfg, jobs, jobs', jobs.Keys);
  }

  // ---------- one step ----------

  /** The handling has already used up an attempt of its job, or finished the job. */
  function Paid(pc: Pc): nat {
    if pc.Idle? || pc.stage.LookUpJob? || pc.stage.LookUpAgain? || pc.stage.LookUpPersisted?
        || pc.stage.AdoptClassified?
       || pc.stage.StartProcessing? then 0 else 1
  }

  /** Steps left before the worker next spends an attempt, at most. */
  function StageRank(pc: Pc): nat {
    if pc.Idle? then 5 else
    match pc.stage
    case StartProcessing(_, _) => 1
    case AdoptClassified(_) => 1
    case LookUpPersisted(_, _) => 2
    case LookUpAgain(_) => 3
    case LookUpJob => 4
    case Acking => 6
    case Requeueing(_) => 7
    case DeadLettering(_, _) => 7
    case MarkingFailed(_, _) => 8
    case RecordingFailure(_, _) => 9
    case Finishing(_) => 10
    case Publishing(_, _, todo) => 10 + |todo|
    case Committing(_, _) => 15
    case Moving(_, _) => 16
    case Computing(_) => 17
    case MarkingProcessing(_) => 18
  }

  const STEPS_PER_ATTEMPT := 18

  /** What `n` jobs may cost in handlings, and in worker steps. */
  function Handlings(cfg: Config, n: nat): nat {
    Budget(cfg) * n
  }

  function Steps(cfg: Config, n: nat): nat {
    STEPS_PER_ATTEMPT * Handlings(cfg, n)
  }

  lemma OneMoreJob(cfg: Config, n: nat)
    ensures Handlings(cfg, n + 1) == Handlings(cfg, n) + Budget(cfg)
    ensures Steps(cfg, n + 1) == Steps(cfg, n) + STEPS_PER_ATTEMPT * Budget(cfg)
  {
  }

  ghost function Rank(cfg: Config, s: System): nat {
    if s.workers == [] then 0
    else STEPS_PER_ATTEMPT * Outstanding(cfg, s.stores.q.jobs, s.workers[0]) + StageRank(s.workers[0])
  }

  /** How the remaining attempts of the message's job change in one step of a run without cuts. */
  lemma WeightStep(cfg: Config, jobs: Jobs, jobs': Jobs, pc: Pc, pc': Pc, c: Choice)
    requires pc.Busy? && pc'.Busy? && pc'.m == pc.m && StageChange(jobs, jobs', pc.m.jobId, pc.stage, c)
    requires WithinBudget(cfg, jobs[pc.m.jobId], ActiveJob(pc) == Some(pc.m.jobId), 0)
    requires pc.stage.StartProcessing? || pc.stage.AdoptClassified? ==>
               !IsTerminal(jobs[pc.m.jobId].status) && !pc'.stage.RecordingFailure?
    requires pc'.stage.RecordingFailure? ==>
               IsTerminal(jobs'[pc.m.jobId].status) ==> pc.stage.Finishing? && !IsTerminal(jobs[pc.m.jobId].status)
    ensures Outstanding(cfg, jobs', pc') <= Outstanding(cfg, jobs, pc)
    ensures pc.stage.StartProcessing? || pc.stage.AdoptClassified? ==>
              Outstanding(cfg, jobs', pc') < Outstanding(cfg, jobs, pc)
  {
    var k := pc.m.jobId;
    PotentialOfUpdate(cfg, jobs, jobs', k);
    assert jobs[k].status == Superseded ==> IsTerminal(jobs[k].status);
    hide Potential;
  }

  /** A worker turns to recording a failure of a finished job only when the answer that finished it was lost. */
  lemma FailureAfter(cfg: Config, st: Stores, pc: Pc, c: Choice)
    requires pc.Busy? && StageOk(cfg, st, pc.m, pc.stage) && SoloStage(cfg, st.q, pc.m, pc.stage)
             && Allows(cfg, st, pc.stage, c) && !pc.stage.Acking?
    requires StageChange(st.q.jobs, Effects(cfg, st, pc.m, pc.stage, c).q.jobs, pc.m.jobId, pc.stage, c)
    ensures var jobs, jobs', pc', k := st.q.jobs, Effects(cfg, st, pc.m, pc.stage, c).q.jobs,
                                       AfterWork(cfg, st, pc, c), pc.m.jobId;
            && pc'.Busy? && pc'.m == pc.m
            && (pc.stage.StartProcessing? || pc.stage.AdoptClassified? ==>
                  !IsTerminal(jobs[k].status) && !pc'.stage.RecordingFailure?)
            && (pc'.stage.RecordingFailure? ==>
                  IsTerminal(jobs'[k].status) ==> pc.stage.Finishing? && !IsTerminal(jobs[k].status))
  {
    hide Effects, Pending, VerdictFor, EffectsOf, Script, CommitOf;
  }

  lemma AttemptStep(cfg: Config, st: Stores, pc: Pc, c: Choice, cuts: multiset<string>)
    requires pc.Busy? && StageOk(cfg, st, pc.m, pc.stage) && SoloStage(cfg, st.q, pc.m, pc.stage)
             && Allows(cfg, st, pc.stage, c) && !pc.stage.Acking?
    requires AttemptsOk(cfg, st.q.jobs, ActiveJob(pc), cuts) && cuts == multiset{}
    ensures var jobs', pc' := Effects(cfg, st, pc.m, pc.stage, c).q.jobs, AfterWork(cfg, st, pc, c);
            && Outstanding(cfg, jobs', pc') <= Outstanding(cfg, st.q.jobs, pc)
            && (pc.stage.StartProcessing? || pc.stage.AdoptClassified? ==>
               Outstanding(cfg, jobs', pc') < Outstanding(cfg, st.q.jobs, pc))
            && jobs'.Keys == st.q.jobs.Keys
  {
    hide Effects, AfterWork, Outstanding, Pending, VerdictFor, EffectsOf, Script, CommitOf;
    var k := pc.m.jobId;
    StageJobs(cfg, st, pc.m, pc.stage, c);
    FailureAfter(cfg, st, pc, c);
    assert WithinBudget(cfg, st.q.jobs[k], ActiveJob(pc) == Some(k), cuts[k]);
    hide SoloStage, StageOk, WithinBudget, ActiveJob;
    KeysKept(st.q.jobs, Effects(cfg, st, pc.m, pc.stage, c).q.jobs, k, pc.stage, c);
    hide StageChange;
    WeightStep(cfg, st.q.jobs, Effects(cfg, st, pc.m, pc.stage, c).q.jobs, pc, AfterWork(cfg, st, pc, c), c);
  }

  lemma KeysKept(jobs: Jobs, jobs': Jobs, k: string, stage: Stage, c: Choice)
    requires StageChange(jobs, jobs', k, stage, c)
    ensures jobs'.Keys == jobs.Keys && k in jobs
  {
  }

  /** Each stage is followed by one of smaller rank, except where an attempt is spent; the handling is paid for by
      then. */
  lemma StageStep(cfg: Config, st: Stores, pc: Pc, c: Choice)
    requires pc.Busy? && StageOk(cfg, st, pc.m, pc.stage) && SoloStage(cfg, st.q, pc.m, pc.stage)
             && Allows(cfg, st, pc.stage, c)
    requires LookUpFresh(st.q, pc) && !pc.stage.Acking?
    ensures var pc' := AfterWork(cfg, st, pc, c);
            && (pc.stage.StartProcessing? ==> StageRank(pc') == STEPS_PER_ATTEMPT)
            && (pc.stage.AdoptClassified? ==> StageRank(pc') <= STEPS_PER_ATTEMPT)
            && (!pc.stage.StartProcessing? && !pc.stage.AdoptClassified? ==>
                  StageRank(pc') < StageRank(pc) && Paid(pc') == Paid(pc))
            && (pc.stage.StartProcessing? || pc.stage.AdoptClassified? ==> Paid(pc) == 0 && Paid(pc') == 1)
  {
    hide VerdictFor, EffectsOf, CommitOf, Pending;
    if pc.stage.Committing? {
      ScriptLength(pc.stage.job.jobId, pc.stage.verdict.result);
    }
    hide Script;
  }

  lemma ScriptLength(j: string, r: Aggregation.VideoResult)
    ensures 4 <= |Script(j, r)| <= 5
  {
  }

  lemma NextMessageRank(rest: seq<Message>)
    requires forall x :: x in rest ==> x.jobId != ""
    ensures StageRank(NextMessage(rest)) <= 5 && Paid(NextMessage(rest)) == 0
    ensures rest != [] ==> StageRank(NextMessage(rest)) == 4
  {
    if rest != [] {
      assert rest[0] in rest;
    }
  }

  /** What holds along a run of one worker without cuts. */
  ghost predicate Uncut(cfg: Config, s: System) {
    SystemOk(cfg, s) && Solo(cfg, s) && Accounted(cfg, s) && Exact(s) && s.cuts == multiset{}
  }

  /** Every handled message is paid for by an attempt or by a job finished for good. */
  ghost predicate Ledger(cfg: Config, s: System) {
    && |s.workers| == 1
    && |s.stores.q.acked| + Paid(s.workers[0]) + Outstanding(cfg, s.stores.q.jobs, s.workers[0])
       <= Handlings(cfg, |s.stores.q.jobs|)
  }

  lemma StageDrains(cfg: Config, st: Stores, pc: Pc, c: Choice, cuts: multiset<string>)
    requires pc.Busy? && StageOk(cfg, st, pc.m, pc.stage) && SoloStage(cfg, st.q, pc.m, pc.stage)
             && Allows(cfg, st, pc.stage, c)
    requires AttemptsOk(cfg, st.q.jobs, ActiveJob(pc), cuts) && cuts == multiset{} && LookUpFresh(st.q, pc)
             && !pc.stage.Acking?
    ensures var st', pc' := Effects(cfg, st, pc.m, pc.stage, c), AfterWork(cfg, st, pc, c);
            && STEPS_PER_ATTEMPT * Outstanding(cfg, st'.q.jobs, pc') + StageRank(pc')
               < STEPS_PER_ATTEMPT * Outstanding(cfg, st.q.jobs, pc) + StageRank(pc)
            && Paid(pc') + Outstanding(cfg, st'.q.jobs, pc') <= Paid(pc) + Outstanding(cfg, st.q.jobs, pc)
            && st'.q.acked == st.q.acked && st'.q.jobs.Keys == st.q.jobs.Keys
  {
    AckedStays(cfg, st, pc.m, pc.stage, c);
    AttemptStep(cfg, st, pc, c, cuts);
    StageStep(cfg, st, pc, c);
    hide Effects, AfterWork, Outstanding, StageOk, SoloStage, Allows;
  }

  lemma AckedStays(cfg: Config, st: Stores, m: Message, stage: Stage, c: Choice)
    requires !stage.Acking?
    ensures Effects(cfg, st, m, stage, c).q.acked == st.q.acked
  {
    hide EffectsOf, Script, VerdictFor, CommitOf, MarkProcessing, SetFailed, WithStatus;
  }

  lemma AckDrains(cfg: Config, q: Queue, pc: Pc)
    requires ValidQueue(q) && SoloOk(cfg, q, pc) && pc.Busy? && pc.stage.Acking?
    ensures StageRank(NextMessage(pc.rest)) < StageRank(pc) && Paid(NextMessage(pc.rest)) == 0
    ensures |Ack(q, pc.m.id).acked| == |q.acked| + 1
  {
    hide NoneLost, SoloStage;
    assert Pending(q)[0] == pc.m && pc.m in Pending(q);
    PendingFacts(q);
    forall x | x in pc.rest
      ensures x.jobId != ""
    {
      var i :| 0 <= i < |pc.rest| && pc.rest[i] == x;
      assert InFlight(pc)[i + 1] == x && Pending(q)[i + 1] == x && x in Pending(q);
      MessageNamesJob(q, x);
    }
    hide Pending, InFlight, NextMessage;
    NextMessageRank(pc.rest);
  }

  /** Each worker step lowers the rank and keeps the ledger balanced. */
  lemma WorkDrains(cfg: Config, s: System, c: Choice)
    requires Uncut(cfg, s) && Enabled(cfg, s, Work(0, c))
    ensures Rank(cfg, Apply(cfg, s, Work(0, c))) < Rank(cfg, s)
    ensures Ledger(cfg, s) ==> Ledger(cfg, Apply(cfg, s, Work(0, c)))
  {
    hide ValidQueue, RowsOk, ResultsOk, FramesOwned, ActionsOk, LogOk, ClassifiedOk, StageOk, SoloStage, NoneLost,
      OnePublisher, CountsAgree, AttemptsOk, CountsExact, DlqExact, LookUpFresh, Effects, NextStage, NextMessage,
      Allows, MissedBy, InFlight, Potential, Reserve, StageRank, Paid, ActiveJob, Pending;
    var st, pc := s.stores, s.workers[0];
    if pc.stage.Acking? {
      AckDrains(cfg, st.q, pc);
      AckEffect(cfg, st, pc, c);
    } else {
      StageDrains(cfg, st, pc, c, s.cuts);
    }
  }

  lemma AckEffect(cfg: Config, st: Stores, pc: Pc, c: Choice)
    requires pc.Busy? && pc.stage.Acking?
    ensures Effects(cfg, st, pc.m, pc.stage, c).q == Ack(st.q, pc.m.id)
    ensures AfterWork(cfg, st, pc, c) == NextMessage(pc.rest)
    ensures Ack(st.q, pc.m.id).jobs == st.q.jobs && Paid(pc) == 1
    ensures Reserve(cfg, st.q.jobs, pc) == 0 == Reserve(cfg, st.q.jobs, NextMessage(pc.rest))
  {
  }

  /** An enqueue adds nothing, or one job with a full budget. */
  lemma EnqueueDrains(cfg: Config, q: Queue, pc: Pc, r: VideoDetectRequest, now: Time)
    requires MessagesNumbered(q)
    ensures var q' := Enqueue(q, r, now);
            && q'.acked == q.acked
            && (q'.jobs == q.jobs || (|q'.jobs| == |q.jobs| + 1
               && Outstanding(cfg, q'.jobs, pc) == Outstanding(cfg, q.jobs, pc) + Budget(cfg)))
  {
    if ExistingJob(q, r).None? {
      EnqueueAdds(q, r, now);
      PotentialOfInsert(cfg, q.jobs, r.jobId, NewJob(r, now));
      hide Potential, Enqueue;
    }
  }

  lemma ReadRank(cfg: Config, q: Queue, count: nat)
    requires ValidQueue(q)
    ensures var pc := NextMessage(ReadMessages(q, count));
            && Paid(pc) == 0 && StageRank(pc) == (if ReadMessages(q, count) == [] then 5 else 4)
            && Outstanding(cfg, q.jobs, pc) == Outstanding(cfg, q.jobs, Idle)
  {
    PendingFacts(q);
    forall x | x in ReadMessages(q, count)
      ensures x.jobId != ""
    {
      assert x in Pending(q);
      MessageNamesJob(q, x);
    }
    NextMessageRank(ReadMessages(q, count));
    hide ReadMessages, ValidQueue, Potential;
  }

  /** A step that does something: anything but an enqueue or a read that finds no message. */
  predicate Productive(cfg: Config, s: System, e: Event) {
    e.Work? || (e.Read? && ReadMessages(s.stores.q, cfg.readCount) != [])
  }

  /** One step against rank, ledger and number of jobs. */
  lemma StepDrains(cfg: Config, s: System, e: Event)
    requires Uncut(cfg, s) && Enabled(cfg, s, e) && !e.Cut?
    ensures var s' := Apply(cfg, s, e);
            && Uncut(cfg, s')
            && Rank(cfg, s') + Steps(cfg, |s.stores.q.jobs|) + (if Productive(cfg, s, e) then 1 else 0)
               <= Rank(cfg, s) + Steps(cfg, |s'.stores.q.jobs|)
            && (Ledger(cfg, s) ==> Ledger(cfg, s'))
  {
    hide SystemOk, Accounted, Exact, Solo, Rank, Ledger, Steps, Apply, Enabled, ReadMessages, Grows;
    StepKeepsSafe(cfg, s, e);
    StepKeepsSolo(cfg, s, e);
    StepKeepsAccounts(cfg, s, e);
    StepKeepsExact(cfg, s, e);
    match e {
      case ApiEnqueue(r, now) => EnqueueCost(cfg, s, r, now);
      case Read(w) => ReadCost(cfg, s, w);
      case Work(w, c) => WorkCost(cfg, s, w, c);
    }
  }

  lemma EnqueueCost(cfg: Config, s: System, r: VideoDetectRequest, now: Time)
    requires Uncut(cfg, s) && Enabled(cfg, s, ApiEnqueue(r, now))
    ensures var s' := Apply(cfg, s, ApiEnqueue(r, now));
            && |s'.workers| == 1 && s'.cuts == s.cuts
            && Rank(cfg, s') + Steps(cfg, |s.stores.q.jobs|) <= Rank(cfg, s) + Steps(cfg, |s'.stores.q.jobs|)
            && (Ledger(cfg, s) ==> Ledger(cfg, s'))
  {
    NumberedIn(cfg, s);
    hide SystemOk, Accounted, Exact, Enqueue, Outstanding, Solo, Steps, Handlings, Budget, StageRank, Paid,
      MessagesNumbered, ValidQueue;
    EnqueueDrains(cfg, s.stores.q, s.workers[0], r, now);
    OneMoreJob(cfg, |s.stores.q.jobs|);
  }

  lemma NumberedIn(cfg: Config, s: System)
    requires SystemOk(cfg, s)
    ensures ValidQueue(s.stores.q) && MessagesNumbered(s.stores.q)
  {
    hide RowsOk, ResultsOk, FramesOwned, ActionsOk, LogOk, ClassifiedOk, LocalOk, OnePublisher;
  }

  lemma ReadCost(cfg: Config, s: System, w: nat)
    requires Uncut(cfg, s) && Enabled(cfg, s, Read(w))
    ensures var s' := Apply(cfg, s, Read(w));
            && |s'.workers| == 1 && s'.stores.q == s.stores.q && s'.cuts == s.cuts
            && Rank(cfg, s') + (if Productive(cfg, s, Read(w)) then 1 else 0) <= Rank(cfg, s)
            && (Ledger(cfg, s) ==> Ledger(cfg, s'))
  {
    NumberedIn(cfg, s);
    hide SystemOk, Accounted, Exact, Solo, Outstanding, ReadMessages, NextMessage, ValidQueue, Steps, Handlings;
    ReadRank(cfg, s.stores.q, cfg.readCount);
  }

  lemma WorkCost(cfg: Config, s: System, w: nat, c: Choice)
    requires Uncut(cfg, s) && Enabled(cfg, s, Work(w, c))
    ensures var s' := Apply(cfg, s, Work(w, c));
            && |s'.workers| == 1 && |s'.stores.q.jobs| == |s.stores.q.jobs| && s'.cuts == s.cuts
            && Rank(cfg, s') < Rank(cfg, s) && (Ledger(cfg, s) ==> Ledger(cfg, s'))
  {
    OneWorkerOnly(cfg, s, w, c);
    assert |s.stores.q.jobs.Keys| == |s.stores.q.jobs|;
    assert |Apply(cfg, s, Work(w, c)).stores.q.jobs.Keys| == |Apply(cfg, s, Work(w, c)).stores.q.jobs|;
    hide SystemOk, Accounted, Exact, Solo, Rank, Ledger;
    WorkDrains(cfg, s, c);
  }

  lemma OneWorkerOnly(cfg: Config, s: System, w: nat, c: Choice)
    requires Uncut(cfg, s) && Enabled(cfg, s, Work(w, c))
    ensures w == 0 && |Apply(cfg, s, Work(w, c)).workers| == 1 && Apply(cfg, s, Work(w, c)).cuts == s.cuts
    ensures Apply(cfg, s, Work(w, c)).stores.q.jobs.Keys == s.stores.q.jobs.Keys
  {
    hide StoresOk, Accounted, Exact, NoneLost, InFlight, Pending, OnePublisher;
    var pc := s.workers[0];
    StageJobs(cfg, s.stores, pc.m, pc.stage, c);
    hide StageOk, SoloStage, Effects, AfterWork, Allows;
  }

  // ---------- runs ----------

  function ProductiveSteps(cfg: Config, s: System, events: seq<Event>): nat
    requires ValidRun(cfg, s, events)
    decreases |events|
  {
    if events == [] then 0
    else (if Productive(cfg, s, events[0]) then 1 else 0) + ProductiveSteps(cfg, Apply(cfg, s, events[0]), events[1..])
  }

  lemma {:induction false} RunDrains(cfg: Config, s: System, events: seq<Event>)
    requires Uncut(cfg, s) && Ledger(cfg, s) && ValidRun(cfg, s, events) && NoCuts(events)
    ensures var s' := Run(cfg, s, events);
            && Uncut(cfg, s') && Ledger(cfg, s')
            && ProductiveSteps(cfg, s, events) + Rank(cfg, s') + Steps(cfg, |s.stores.q.jobs|)
               <= Rank(cfg, s) + Steps(cfg, |s'.stores.q.jobs|)
    decreases |events|
  {
    hide SystemOk, Solo, Accounted, Exact, Apply, Enabled, Rank, Steps, Productive, Ledger;
    if events != [] {
      var s1 := Apply(cfg, s, events[0]);
      StepDrains(cfg, s, events[0]);
      assert forall i :: 0 <= i < |events[1..]| ==> events[1..][i] == events[i + 1];
      RunDrains(cfg, s1, events[1..]);
    }
  }
}
