/** Any number of workers: exactly when an unfinished job can be stranded, with no message left to deliver and no worker
    to finish it. */
module JobDelivery {
  import opened Common
  import opened VideoJobs
  import opened Failures
  import opened QueueState
  import opened PostgresState
  import opened Pipeline
  import opened PipelineSafety
  import opened SingleWorker
  import opened Attempts
  import opened CutFree
  import opened PipelineTheorems
  import opened PublicationWindow
  import opened TerminalRecords

  /** The worker will finish this job or requeue it. */
  predicate Holder(pc: Pc, j: string) {
    && pc.Busy? && pc.m.jobId == j
    && (UnderWayStage(pc.stage) || (pc.stage.MarkingFailed? && pc.stage.failure.retryable) || pc.stage.Requeueing?)
  }

  /** The worker will only acknowledge its message. */
  predicate Leaver(pc: Pc) {
    && pc.Busy?
    && (pc.stage.Acking? || pc.stage.DeadLettering? || (pc.stage.MarkingFailed? && !pc.stage.failure.retryable))
  }

  predicate Leaves(pc: Pc, m: Message) {
    Leaver(pc) && pc.m == m
  }

  predicate SomeHolder(s: System, j: string) {
    exists w :: 0 <= w < |s.workers| && Holder(s.workers[w], j)
  }

  predicate SomeLeaver(s: System, m: Message) {
    exists w :: 0 <= w < |s.workers| && Leaves(s.workers[w], m)
  }

  /** A message of this job waits that no worker is about to acknowledge. */
  predicate Deliverable(s: System, j: string) {
    exists m :: m in s.stores.q.messages && m.id !in s.stores.q.acked && m.jobId == j && !SomeLeaver(s, m)
  }

  predicate Secured(s: System, j: string) {
    Terminal(s.stores, j) || SomeHolder(s, j) || Deliverable(s, j)
  }

  /** The job is unfinished, no message of it waits, and no worker holds it. */
  predicate Stranded(s: System, j: string) {
    && j in s.stores.q.jobs && !Terminal(s.stores, j) && !SomeHolder(s, j)
    && forall m :: m in s.stores.q.messages && m.jobId == j ==> m.id in s.stores.q.acked
  }

  // ---------- one await ----------

  /** A job that the awaiting worker does not handle. */
  lemma OtherJobUntouched(cfg: Config, st: Stores, pc: Pc, c: Choice, j: string)
    requires StoresOk(cfg, st) && pc.Busy? && LocalOk(cfg, st, pc) && j in st.q.jobs && j != pc.m.jobId
    ensures var st' := Effects(cfg, st, pc.m, pc.stage, c);
            j in st'.q.jobs && st'.q.jobs[j] == st.q.jobs[j]
    ensures !Holder(pc, j) && !Holder(AfterWork(cfg, st, pc, c), j)
  {
    MessageJobKnown(cfg, st, pc.m);
    StageJobs(cfg, st, pc.m, pc.stage, c);
    hide StoresOk, StageOk, Effects, NextStage;
    NextHoldsNothing(pc.rest, j);
    hide NextMessage;
  }

  lemma NextHoldsNothing(batch: seq<Message>, j: string)
    ensures !Holder(NextMessage(batch), j) && !Holder(Idle, j)
  {
  }

  lemma SameId(q: Queue, x: Message, m: Message)
    requires ValidQueue(q) && x in q.messages && m in q.messages
    ensures x.id == m.id ==> x == m
  {
    hide JobsKeyed, IndexPointsToOwner;
    var i :| 0 <= i < |q.messages| && q.messages[i] == x;
    var k :| 0 <= k < |q.messages| && q.messages[k] == m;
  }

  /** A status update leaves the worker's own job finished, or in its hands. */
  lemma StatusSecures(cfg: Config, st: Stores, pc: Pc, c: Choice)
    requires StoresOk(cfg, st) && pc.Busy? && LocalOk(cfg, st, pc) && Allows(cfg, st, pc.stage, c)
    requires SetsStatus(pc.stage)
    ensures var st', pc', k := Effects(cfg, st, pc.m, pc.stage, c), AfterWork(cfg, st, pc, c), pc.m.jobId;
            k in st'.q.jobs && (Terminal(st', k) || Holder(pc', k))
  {
    hide StoresOk, Effects, ClassifyProcessingError, Script, EffectsOf, VerdictFor, TripleOf, CommitOf;
    MessageJobKnown(cfg, st, pc.m);
    StageJobs(cfg, st, pc.m, pc.stage, c);
  }

  /** At the other stages before the acknowledgement the worker keeps its hold until it requeues, and turns to
      acknowledge only a finished or requeued job. */
  lemma OthersSecure(cfg: Config, st: Stores, m: Message, stage: Stage, c: Choice, rest: seq<Message>)
    requires m.jobId in st.q.jobs && StageOk(cfg, st, m, stage) && !SetsStatus(stage) && !stage.Acking?
    ensures var pc, pc', k := Busy(m, rest, stage), Busy(m, rest, NextStage(cfg, st, m, stage, c)), m.jobId;
            && (Holder(pc, k) && !stage.Requeueing? ==> Holder(pc', k))
            && (Leaver(pc') ==> Leaver(pc) || stage.Requeueing? || Terminal(st, k))
  {
    hide ClassifyProcessingError, Script, EffectsOf, VerdictFor, TripleOf, RightFailure;
  }

  /** Messages are appended by a requeue and acknowledged only at the end. */
  lemma MessagesAfter(cfg: Config, st: Stores, m: Message, stage: Stage, c: Choice)
    requires m.jobId in st.q.jobs && StageOk(cfg, st, m, stage) && JobsKeyed(st.q) && !SetsStatus(stage)
    ensures var q, q', k := st.q, Effects(cfg, st, m, stage, c).q, m.jobId;
            && q'.messages == q.messages + (if stage.Requeueing? then [Message(|q.messages| + 1, k, q.jobs[k])] else [])
            && q'.acked == q.acked + if stage.Acking? then {m.id} else {}
  {
    var q := st.q;
    assert q.messages + [] == q.messages && q.acked + {} == q.acked;
    hide CommitOf, MarkProcessing, SetFailed, Script, EffectsOf, VerdictFor, TripleOf, RightFailure;
  }

  lemma StatusKeepsMessages(cfg: Config, st: Stores, m: Message, stage: Stage, c: Choice)
    requires SetsStatus(stage)
    ensures var q, q' := st.q, Effects(cfg, st, m, stage, c).q; q'.messages == q.messages && q'.acked == q.acked
  {
  }

  lemma NextIsNoLeaver(cfg: Config, st: Stores, batch: seq<Message>)
    requires StoresOk(cfg, st) && forall x :: x in batch ==> x in st.q.messages
    ensures !Leaver(NextMessage(batch)) && !Leaver(Idle)
  {
    if batch != [] {
      assert batch[0] in batch;
      MessageJobKnown(cfg, st, batch[0]);
    }
    hide StoresOk;
  }

  /** The parts of the system after a step of worker `w`. */
  lemma WorkParts(cfg: Config, s: System, w: nat, c: Choice)
    requires SystemOk(cfg, s) && Enabled(cfg, s, Work(w, c))
    ensures var pc, s' := s.workers[w], Apply(cfg, s, Work(w, c));
            && StoresOk(cfg, s.stores) && LocalOk(cfg, s.stores, pc) && pc.m in s.stores.q.messages
            && StageOk(cfg, s.stores, pc.m, pc.stage) && JobsKeyed(s.stores.q) && ValidQueue(s.stores.q)
            && pc.m.jobId in s.stores.q.jobs
            && s'.stores == Effects(cfg, s.stores, pc.m, pc.stage, c) && |s'.workers| == |s.workers|
            && s'.workers[w] == AfterWork(cfg, s.stores, pc, c)
            && forall v :: 0 <= v < |s.workers| && v != w ==> s'.workers[v] == s.workers[v]
  {
    hide Effects, AfterWork, Allows, MissedBy, StageOk, OnePublisher, RowsOk, ResultsOk, FramesOwned, ActionsOk,
      LogOk, ClassifiedOk, MessagesNumbered, IndexPointsToOwner;
    MessageJobKnown(cfg, s.stores, s.workers[w].m);
  }

  /** The job of the worker's own message stays secured: finished, in its hands, or requeued. */
  lemma OwnJobSecured(cfg: Config, s: System, w: nat, c: Choice)
    requires SystemOk(cfg, s) && Enabled(cfg, s, Work(w, c))
    requires SetsStatus(s.workers[w].stage) || Holder(s.workers[w], s.workers[w].m.jobId)
    ensures Secured(Apply(cfg, s, Work(w, c)), s.workers[w].m.jobId)
  {
    hide StoresOk, LocalOk, StageOk, OnePublisher, Apply, Effects, AfterWork, ValidQueue, JobsKeyed, Allows, Terminal,
      Deliverable, Holder, SetsStatus;
    WorkParts(cfg, s, w, c);
    var pc := s.workers[w];
    if SetsStatus(pc.stage) {
      StatusSecures(cfg, s.stores, pc, c);
    } else if pc.stage.Requeueing? {
      Requeued(cfg, s, w, c);
    } else {
      HoldGoesOn(cfg, s.stores, pc, c);
    }
  }

  lemma HoldGoesOn(cfg: Config, st: Stores, pc: Pc, c: Choice)
    requires pc.Busy? && pc.m.jobId in st.q.jobs && StageOk(cfg, st, pc.m, pc.stage)
    requires !SetsStatus(pc.stage) && Holder(pc, pc.m.jobId) && !pc.stage.Requeueing?
    ensures Holder(AfterWork(cfg, st, pc, c), pc.m.jobId)
  {
    OthersSecure(cfg, st, pc.m, pc.stage, c, pc.rest);
    hide StageOk, NextStage;
  }

  lemma Requeued(cfg: Config, s: System, w: nat, c: Choice)
    requires SystemOk(cfg, s) && Enabled(cfg, s, Work(w, c)) && s.workers[w].stage.Requeueing?
    ensures Deliverable(Apply(cfg, s, Work(w, c)), s.workers[w].m.jobId)
  {
    hide StoresOk, StageOk, OnePublisher, Apply, Effects, AfterWork, ValidQueue, JobsKeyed, Allows;
    WorkParts(cfg, s, w, c);
    var st, pc, s' := s.stores, s.workers[w], Apply(cfg, s, Work(w, c));
    var added := Message(|st.q.messages| + 1, pc.m.jobId, st.q.jobs[pc.m.jobId]);
    RequeueAppends(cfg, st, pc, c, added);
    FreshMessage(st.q, added);
    hide Leaver;
    forall v | 0 <= v < |s'.workers|
      ensures !Leaves(s'.workers[v], added)
    {
      assert LocalOk(cfg, st, s.workers[v]);
      LeaverIsBusy(s'.workers[v]);
    }
    assert !SomeLeaver(s', added);
  }

  lemma LeaverIsBusy(pc: Pc)
    ensures Leaver(pc) ==> pc.Busy?
  {
  }

  lemma RequeueAppends(cfg: Config, st: Stores, pc: Pc, c: Choice, added: Message)
    requires pc.Busy? && pc.stage.Requeueing? && StageOk(cfg, st, pc.m, pc.stage) && JobsKeyed(st.q)
    requires pc.m.jobId in st.q.jobs && added == Message(|st.q.messages| + 1, pc.m.jobId, st.q.jobs[pc.m.jobId])
    ensures var q' := Effects(cfg, st, pc.m, pc.stage, c).q; added in q'.messages && q'.acked == st.q.acked
    ensures AfterWork(cfg, st, pc, c) == Busy(pc.m, pc.rest, Acking)
  {
    MessagesAfter(cfg, st, pc.m, pc.stage, c);
    hide Effects;
  }

  lemma FreshMessage(q: Queue, added: Message)
    requires ValidQueue(q) && added.id == |q.messages| + 1
    ensures added !in q.messages && added.id !in q.acked
  {
    hide JobsKeyed, IndexPointsToOwner;
  }

  /** A deliverable job that the step does not touch otherwise stays so. */
  lemma DeliverableStays(cfg: Config, s: System, w: nat, c: Choice, j: string)
    requires SystemOk(cfg, s) && Enabled(cfg, s, Work(w, c)) && Deliverable(s, j)
    requires !Terminal(s.stores, j) && !Holder(s.workers[w], j)
    requires j == s.workers[w].m.jobId ==> !SetsStatus(s.workers[w].stage)
    ensures Deliverable(Apply(cfg, s, Work(w, c)), j)
  {
    WorkParts(cfg, s, w, c);
    var st, pc, s' := s.stores, s.workers[w], Apply(cfg, s, Work(w, c));
    var x :| x in st.q.messages && x.id !in st.q.acked && x.jobId == j && !SomeLeaver(s, x);
    assert !Leaves(pc, x);
    StillWaiting(cfg, st, pc, c, x);
    StillUnleft(cfg, st, pc, c, x);
    hide StoresOk, StageOk, Apply, Effects, AfterWork;
    forall v | 0 <= v < |s'.workers|
      ensures !Leaves(s'.workers[v], x)
    {
      assert v != w ==> !Leaves(s.workers[v], x);
    }
  }

  lemma StillWaiting(cfg: Config, st: Stores, pc: Pc, c: Choice, x: Message)
    requires StoresOk(cfg, st) && pc.Busy? && LocalOk(cfg, st, pc) && ValidQueue(st.q)
    requires x in st.q.messages && x.id !in st.q.acked && !Leaves(pc, x)
    ensures var q' := Effects(cfg, st, pc.m, pc.stage, c).q; x in q'.messages && x.id !in q'.acked
  {
    MessageJobKnown(cfg, st, pc.m);
    hide StoresOk, StageOk, Effects;
    if SetsStatus(pc.stage) {
      StatusKeepsMessages(cfg, st, pc.m, pc.stage, c);
    } else {
      MessagesAfter(cfg, st, pc.m, pc.stage, c);
      SameId(st.q, x, pc.m);
      hide ValidQueue;
    }
  }

  lemma StillUnleft(cfg: Config, st: Stores, pc: Pc, c: Choice, x: Message)
    requires StoresOk(cfg, st) && pc.Busy? && LocalOk(cfg, st, pc) && !Leaves(pc, x)
    requires !Terminal(st, x.jobId) && !Holder(pc, x.jobId)
    requires x.jobId == pc.m.jobId ==> !SetsStatus(pc.stage)
    ensures !Leaves(AfterWork(cfg, st, pc, c), x)
  {
    MessageJobKnown(cfg, st, pc.m);
    if pc.stage.Acking? {
      NextIsNoLeaver(cfg, st, pc.rest);
    } else if !SetsStatus(pc.stage) {
      hide StoresOk;
      OthersSecure(cfg, st, pc.m, pc.stage, c, pc.rest);
      hide NextStage, StageOk;
    }
    hide StoresOk, StageOk, NextStage, NextMessage;
  }

  lemma WorkKeepsSecured(cfg: Config, s: System, w: nat, c: Choice, j: string)
    requires SystemOk(cfg, s) && Enabled(cfg, s, Work(w, c)) && j in s.stores.q.jobs && Secured(s, j)
    ensures Secured(Apply(cfg, s, Work(w, c)), j)
  {
    var st, pc, s' := s.stores, s.workers[w], Apply(cfg, s, Work(w, c));
    WorkParts(cfg, s, w, c);
    hide SystemOk, StoresOk, StageOk, Apply, Enabled, Effects, AfterWork, Holder, SetsStatus, Deliverable, Terminal;
    if j == pc.m.jobId && (SetsStatus(pc.stage) || Holder(pc, j)) {
      OwnJobSecured(cfg, s, w, c);
    } else if Terminal(st, j) {
      TerminalStays(cfg, st, pc, c, j);
    } else if SomeHolder(s, j) {
      var v :| 0 <= v < |s.workers| && Holder(s.workers[v], j);
      HoldsOwnJob(pc, j);
      assert Holder(s'.workers[v], j);
    } else {
      assert !Holder(pc, j);
      DeliverableStays(cfg, s, w, c, j);
    }
  }

  lemma HoldsOwnJob(pc: Pc, j: string)
    ensures Holder(pc, j) ==> pc.Busy? && pc.m.jobId == j
  {
  }

  lemma TerminalStays(cfg: Config, st: Stores, pc: Pc, c: Choice, j: string)
    requires StoresOk(cfg, st) && pc.Busy? && LocalOk(cfg, st, pc) && Terminal(st, j)
    requires j == pc.m.jobId ==> !SetsStatus(pc.stage)
    ensures Terminal(Effects(cfg, st, pc.m, pc.stage, c), j)
  {
    if j == pc.m.jobId {
      OtherJobs(cfg, st, pc.m, pc.stage, c);
    } else {
      OtherJobUntouched(cfg, st, pc, c, j);
    }
    hide StoresOk, StageOk, Effects;
  }

  // ---------- one event ----------

  lemma EnqueueMessages(q: Queue, r: VideoDetectRequest, now: Time)
    requires ValidQueue(q)
    ensures var q' := Enqueue(q, r, now);
            && q'.acked == q.acked && q.messages <= q'.messages
            && (forall j :: j in q.jobs ==> j in q'.jobs && q'.jobs[j] == q.jobs[j])
            && (forall j :: j in q'.jobs && j !in q.jobs ==>
                  exists m :: m in q'.messages && m.jobId == j && m !in q.messages && m.id !in q.acked)
  {
    hide JobsKeyed, IndexPointsToOwner;
    if ExistingJob(q, r).None? {
      var added := Message(|q.messages| + 1, r.jobId, NewJob(r, now));
      assert Enqueue(q, r, now).messages == q.messages + [added];
      FreshMessage(q, added);
      assert added in Enqueue(q, r, now).messages;
    }
  }

  lemma EnqueueKeepsSecured(cfg: Config, s: System, r: VideoDetectRequest, now: Time, j: string)
    requires SystemOk(cfg, s) && Enabled(cfg, s, ApiEnqueue(r, now))
    requires j in s.stores.q.jobs ==> Secured(s, j)
    ensures var s' := Apply(cfg, s, ApiEnqueue(r, now)); j in s'.stores.q.jobs ==> Secured(s', j)
  {
    QueueValid(cfg, s);
    EnqueueMessages(s.stores.q, r, now);
    var s' := Apply(cfg, s, ApiEnqueue(r, now));
    hide StoresOk, StageOk, Enqueue, ValidQueue, Holder;
    if j in s'.stores.q.jobs && j !in s.stores.q.jobs {
      var m :| m in s'.stores.q.messages && m.jobId == j && m !in s.stores.q.messages && m.id !in s.stores.q.acked;
      forall w | 0 <= w < |s'.workers|
        ensures !Leaves(s'.workers[w], m)
      {
        assert LocalOk(cfg, s.stores, s.workers[w]);
      }
      assert Deliverable(s', j);
    } else if j in s.stores.q.jobs && Deliverable(s, j) {
      var m :| m in s.stores.q.messages && m.id !in s.stores.q.acked && m.jobId == j && !SomeLeaver(s, m);
      assert !SomeLeaver(s', m);
      assert m in s'.stores.q.messages;
    } else if j in s.stores.q.jobs && SomeHolder(s, j) {
      assert SomeHolder(s', j);
    }
  }

  lemma QueueValid(cfg: Config, s: System)
    requires SystemOk(cfg, s)
    ensures ValidQueue(s.stores.q)
  {
    hide RowsOk, ResultsOk, FramesOwned, ActionsOk, LogOk, ClassifiedOk, LocalOk, OnePublisher, ValidQueue;
  }

  /** Only this worker's hold secures the unfinished job. */
  predicate LastHope(s: System, w: nat, j: string)
    requires w < |s.workers|
  {
    && Holder(s.workers[w], j) && !Terminal(s.stores, j) && !Deliverable(s, j)
    && forall v :: 0 <= v < |s.workers| && v != w ==> !Holder(s.workers[v], j)
  }

  lemma HolderIsNoLeaver(pc: Pc, j: string)
    ensures Holder(pc, j) ==> !Leaver(pc)
  {
  }

  /** A worker gives up what it holds: the job stays secured exactly when that was not its last hope. */
  lemma ReplacedSecuresExactly(s: System, s': System, w: nat, j: string)
    requires w < |s.workers| == |s'.workers| && s'.stores == s.stores
    requires forall v :: 0 <= v < |s.workers| && v != w ==> s'.workers[v] == s.workers[v]
    requires !Leaver(s'.workers[w]) && !Holder(s'.workers[w], j) && Secured(s, j)
    ensures Secured(s', j) <==> !LastHope(s, w, j)
  {
    HolderIsNoLeaver(s.workers[w], j);
    hide Holder, Leaver;
    if Deliverable(s, j) {
      var m :| m in s.stores.q.messages && m.id !in s.stores.q.acked && m.jobId == j && !SomeLeaver(s, m);
      assert forall v :: 0 <= v < |s.workers| ==> !Leaves(s.workers[v], m);
      assert !SomeLeaver(s', m);
    }
    if Holder(s.workers[w], j) && Deliverable(s', j) {
      var m :| m in s.stores.q.messages && m.id !in s.stores.q.acked && m.jobId == j && !SomeLeaver(s', m);
      assert forall v :: 0 <= v < |s.workers| ==> !Leaves(s'.workers[v], m);
      assert !SomeLeaver(s, m);
    }
    if SomeHolder(s, j) {
      var v :| 0 <= v < |s.workers| && Holder(s.workers[v], j);
      if !LastHope(s, w, j) && !Terminal(s.stores, j) && !Deliverable(s, j) {
        var u :| 0 <= u < |s.workers| && Holder(s.workers[u], j) && u != w;
        assert Holder(s'.workers[u], j);
      }
    }
  }

  /** A cut keeps a secured job secured exactly when it does not take its last hope. */
  lemma CutSecuresExactly(cfg: Config, s: System, w: nat, j: string)
    requires Enabled(cfg, s, Cut(w)) && Secured(s, j)
    ensures Secured(Apply(cfg, s, Cut(w)), j) <==> !LastHope(s, w, j)
  {
    hide Secured, LastHope, MissedBy;
    ReplacedSecuresExactly(s, Apply(cfg, s, Cut(w)), w, j);
  }

  lemma ReadKeepsSecured(cfg: Config, s: System, w: nat, j: string)
    requires SystemOk(cfg, s) && Enabled(cfg, s, Read(w)) && Secured(s, j)
    ensures Secured(Apply(cfg, s, Read(w)), j)
  {
    hide StoresOk, LocalOk, OnePublisher, Secured, ReadMessages, NextMessage;
    ReadIsKnown(s.stores.q, cfg.readCount);
    NextIsNoLeaver(cfg, s.stores, ReadMessages(s.stores.q, cfg.readCount));
    NextHoldsNothing(ReadMessages(s.stores.q, cfg.readCount), j);
    ReplacedSecuresExactly(s, Apply(cfg, s, Read(w)), w, j);
  }

  /** Every event keeps a secured job secured, unless it is a cut that takes its last hope. */
  lemma StepSecuresExactly(cfg: Config, s: System, e: Event, j: string)
    requires SystemOk(cfg, s) && Enabled(cfg, s, e) && j in s.stores.q.jobs && Secured(s, j)
    ensures Secured(Apply(cfg, s, e), j) <==> !(e.Cut? && LastHope(s, e.w, j))
  {
    hide SystemOk, Secured, LastHope, Apply, Allows;
    match e {
      case ApiEnqueue(r, now) =>
        EnqueueKeepsSecured(cfg, s, r, now, j);
        EnqueueKeepsJob(cfg, s, r, now, j);
      case Read(w) => ReadKeepsSecured(cfg, s, w, j);
      case Work(w, c) => WorkKeepsSecured(cfg, s, w, c, j);
      case Cut(w) => CutSecuresExactly(cfg, s, w, j);
    }
  }

  lemma EnqueueKeepsJob(cfg: Config, s: System, r: VideoDetectRequest, now: Time, j: string)
    requires Enabled(cfg, s, ApiEnqueue(r, now)) && j in s.stores.q.jobs
    ensures j in Apply(cfg, s, ApiEnqueue(r, now)).stores.q.jobs
  {
  }

  // ---------- runs ----------

  /** No cut takes the last hope of a job. */
  predicate CutsSpare(cfg: Config, s: System, events: seq<Event>, j: string)
    requires ValidRun(cfg, s, events)
    decreases |events|
  {
    events == [] ||
    ((events[0].Cut? ==> !LastHope(s, events[0].w, j)) && CutsSpare(cfg, Apply(cfg, s, events[0]), events[1..], j))
  }

  ghost predicate SecuredThroughout(cfg: Config, s: System, events: seq<Event>, j: string)
    requires ValidRun(cfg, s, events)
    decreases |events|
  {
    (j in s.stores.q.jobs ==> Secured(s, j)) &&
    (events == [] || SecuredThroughout(cfg, Apply(cfg, s, events[0]), events[1..], j))
  }

  lemma NotYetKnown(cfg: Config, s: System, e: Event, j: string)
    requires SystemOk(cfg, s) && Enabled(cfg, s, e) && j !in s.stores.q.jobs
    ensures j in Apply(cfg, s, e).stores.q.jobs ==> Secured(Apply(cfg, s, e), j)
    ensures e.Cut? ==> !LastHope(s, e.w, j)
  {
    hide StoresOk, OnePublisher, Secured, Enqueue, ReadMessages, NextMessage, Effects, AfterWork, Allows, MissedBy,
      StageOk, Deliverable;
    match e {
      case ApiEnqueue(r, now) => EnqueueKeepsSecured(cfg, s, r, now, j);
      case Read(w) =>
      case Work(w, c) =>
        WorkParts(cfg, s, w, c);
        StageJobs(cfg, s.stores, s.workers[w].m, s.workers[w].stage, c);
      case Cut(w) =>
        if s.workers[w].Busy? {
          assert LocalOk(cfg, s.stores, s.workers[w]);
          MessageJobKnown(cfg, s.stores, s.workers[w].m);
        }
    }
  }

  lemma {:induction false} SecuredExactly(cfg: Config, s: System, events: seq<Event>, j: string)
    requires SystemOk(cfg, s) && ValidRun(cfg, s, events) && (j in s.stores.q.jobs ==> Secured(s, j))
    ensures SecuredThroughout(cfg, s, events, j) <==> CutsSpare(cfg, s, events, j)
    decreases |events|
  {
    hide SystemOk, Secured, LastHope, Apply, Enabled, SameWork;
    if events != [] {
      var s1 := Apply(cfg, s, events[0]);
      StepKeepsSafe(cfg, s, events[0]);
      if j in s.stores.q.jobs {
        StepSecuresExactly(cfg, s, events[0], j);
        JobStays(s, s1, j);
      } else {
        NotYetKnown(cfg, s, events[0], j);
      }
      if j in s1.stores.q.jobs && !Secured(s1, j) {
        Unsecured(cfg, s1, events[1..], j);
      } else {
        SecuredExactly(cfg, s1, events[1..], j);
      }
    }
  }

  lemma JobStays(s: System, s': System, j: string)
    requires Grows(s.stores, s'.stores) && j in s.stores.q.jobs
    ensures j in s'.stores.q.jobs
  {
  }

  lemma Unsecured(cfg: Config, s: System, events: seq<Event>, j: string)
    requires ValidRun(cfg, s, events) && j in s.stores.q.jobs && !Secured(s, j)
    ensures !SecuredThroughout(cfg, s, events, j)
  {
    hide Secured, Apply, Enabled;
  }

  lemma InitKnowsNothing(workers: nat, j: string)
    ensures j !in Init(workers).stores.q.jobs
  {
  }

  /** Any number of workers, any run: a job is secured throughout, that is, finished, in the hands of a worker, or
      waiting in a message that no worker is about to acknowledge, exactly when no cut takes its last hope. */
  lemma SecuredThroughoutExactly(cfg: Config, workers: nat, events: seq<Event>, j: string)
    requires ValidRun(cfg, Init(workers), events)
    ensures SecuredThroughout(cfg, Init(workers), events, j) <==> CutsSpare(cfg, Init(workers), events, j)
  {
    InitSafe(cfg, workers);
    InitKnowsNothing(workers, j);
    hide SystemOk, Secured, SecuredThroughout, CutsSpare, ValidRun, Init;
    SecuredExactly(cfg, Init(workers), events, j);
  }

  lemma {:induction false} SecuredAtEnd(cfg: Config, s: System, events: seq<Event>, j: string)
    requires ValidRun(cfg, s, events) && SecuredThroughout(cfg, s, events, j)
    ensures j in Run(cfg, s, events).stores.q.jobs ==> Secured(Run(cfg, s, events), j)
    decreases |events|
  {
    hide Secured, Apply, Enabled;
    if events != [] {
      SecuredAtEnd(cfg, Apply(cfg, s, events[0]), events[1..], j);
    }
  }

  /** No lost job with any number of workers, as long as no cut takes its last hope: whenever all workers are between
      messages, the unfinished job has an unacknowledged message. */
  lemma NoJobLost(cfg: Config, workers: nat, events: seq<Event>, s: System, j: string)
    requires Reaches(cfg, workers, events, s) && CutsSpare(cfg, Init(workers), events, j)
    requires j in s.stores.q.jobs && !Terminal(s.stores, j)
    requires forall w :: 0 <= w < |s.workers| ==> s.workers[w].Idle?
    ensures exists m :: m in s.stores.q.messages && m.jobId == j && m.id !in s.stores.q.acked
  {
    SecuredThroughoutExactly(cfg, workers, events, j);
    SecuredAtEnd(cfg, Init(workers), events, j);
    hide CutsSpare, SecuredThroughout, SomeLeaver;
    assert !SomeHolder(s, j);
  }

  // ---------- stranding ----------

  lemma SecuredIsNotStranded(s: System, j: string)
    requires Secured(s, j)
    ensures !Stranded(s, j)
  {
    hide Holder, SomeLeaver;
  }

  lemma {:induction false} UncutStaysSecured(cfg: Config, s: System, later: seq<Event>, j: string)
    requires SystemOk(cfg, s) && ValidRun(cfg, s, later) && NoCuts(later) && j in s.stores.q.jobs && Secured(s, j)
    ensures Secured(Run(cfg, s, later), j)
    decreases |later|
  {
    hide SystemOk, Secured, LastHope, Apply, Enabled, SameWork;
    if later != [] {
      StepKeepsSafe(cfg, s, later[0]);
      StepSecuresExactly(cfg, s, later[0], j);
      JobStays(s, Apply(cfg, s, later[0]), j);
      assert forall i :: 0 <= i < |later[1..]| ==> later[1..][i] == later[i + 1];
      UncutStaysSecured(cfg, Apply(cfg, s, later[0]), later[1..], j);
    }
  }

  /** Steps until a leaver of this job has acknowledged its message. */
  function LeaveRank(pc: Pc, j: string): nat {
    if !Leaver(pc) || pc.m.jobId != j then 0
    else if pc.stage.Acking? then 1 else if pc.stage.DeadLettering? then 2 else 3
  }

  function TotalRank(workers: seq<Pc>, j: string): nat {
    if workers == [] then 0 else LeaveRank(workers[0], j) + TotalRank(workers[1..], j)
  }

  lemma {:induction false} TotalRankFalls(workers: seq<Pc>, w: nat, pc: Pc, j: string)
    requires w < |workers| && LeaveRank(pc, j) < LeaveRank(workers[w], j)
    ensures TotalRank(workers[w := pc], j) < TotalRank(workers, j)
  {
    hide LeaveRank;
    if w > 0 {
      assert workers[w := pc][1..] == workers[1..][w - 1 := pc];
      TotalRankFalls(workers[1..], w - 1, pc, j);
    } else {
      assert workers[0 := pc][1..] == workers[1..];
    }
  }

  /** A leaver goes on to acknowledge. */
  lemma LeaverNext(cfg: Config, st: Stores, pc: Pc, j: string)
    requires Leaver(pc) && pc.m.jobId == j && !pc.stage.Acking?
    ensures var c := When(cfg, 0, Done);
            var pc' := AfterWork(cfg, st, pc, c);
            && Allows(cfg, st, pc.stage, c) && Leaver(pc') && pc'.m == pc.m
            && LeaveRank(pc', j) < LeaveRank(pc, j)
  {
  }

  lemma LeaverAcks(cfg: Config, st: Stores, pc: Pc, j: string)
    requires StoresOk(cfg, st) && LocalOk(cfg, st, pc) && Leaver(pc) && pc.m.jobId == j && pc.stage.Acking?
    ensures var c := When(cfg, 0, Done);
            var pc' := AfterWork(cfg, st, pc, c);
            Allows(cfg, st, pc.stage, c) && !Holder(pc', j) && LeaveRank(pc', j) < LeaveRank(pc, j)
  {
    hide StoresOk, StageOk, NextMessage, NextStage;
    NextIsNoLeaver(cfg, st, pc.rest);
    NextHoldsNothing(pc.rest, j);
  }

  /** And it does nothing else for its job. */
  lemma LeaverQueue(cfg: Config, st: Stores, pc: Pc, c: Choice)
    requires StoresOk(cfg, st) && LocalOk(cfg, st, pc) && Leaver(pc)
    ensures var q' := Effects(cfg, st, pc.m, pc.stage, c).q;
            && q'.jobs == st.q.jobs && q'.messages == st.q.messages
            && q'.acked == st.q.acked + if pc.stage.Acking? then {pc.m.id} else {}
  {
    hide StoresOk, StageOk, Effects, JobsKeyed;
    MessageJobKnown(cfg, st, pc.m);
    OtherJobs(cfg, st, pc.m, pc.stage, c);
    QueueValidIn(cfg, st);
    MessagesAfter(cfg, st, pc.m, pc.stage, c);
    assert st.q.messages + [] == st.q.messages;
  }

  lemma QueueValidIn(cfg: Config, st: Stores)
    requires StoresOk(cfg, st)
    ensures JobsKeyed(st.q)
  {
    hide RowsOk, ResultsOk, FramesOwned, ActionsOk, LogOk, ClassifiedOk, JobsKeyed, MessagesNumbered,
      IndexPointsToOwner;
  }

  /** What a leaver's step does to the system: it secures nothing. */
  predicate LeaverMove(s: System, s': System, w: nat, j: string)
    requires w < |s.workers|
  {
    && |s'.workers| == |s.workers|
    && (forall v :: 0 <= v < |s.workers| && v != w ==> s'.workers[v] == s.workers[v])
    && !Holder(s'.workers[w], j) && LeaveRank(s'.workers[w], j) < LeaveRank(s.workers[w], j)
    && s'.stores.q.jobs == s.stores.q.jobs && s'.stores.q.messages == s.stores.q.messages
    && s.workers[w].Busy?
    && if s.workers[w].stage.Acking? then s'.stores.q.acked == s.stores.q.acked + {s.workers[w].m.id}
       else s'.stores.q.acked == s.stores.q.acked && Leaves(s'.workers[w], s.workers[w].m)
  }

  lemma StaysUnsecured(s: System, s': System, w: nat, j: string)
    requires w < |s.workers| && j in s.stores.q.jobs && !Secured(s, j) && LeaverMove(s, s', w, j)
    ensures !Secured(s', j)
  {
    hide Holder, Leaver, LeaveRank;
    assert forall v :: 0 <= v < |s.workers| ==> !Holder(s.workers[v], j);
    forall m | m in s'.stores.q.messages && m.id !in s'.stores.q.acked && m.jobId == j
      ensures SomeLeaver(s', m)
    {
      assert SomeLeaver(s, m);
      var v :| 0 <= v < |s.workers| && Leaves(s.workers[v], m);
      assert Leaves(s'.workers[v], m);
    }
  }

  lemma LeaverMoves(cfg: Config, s: System, w: nat, j: string)
    requires SystemOk(cfg, s) && w < |s.workers| && Leaver(s.workers[w]) && s.workers[w].m.jobId == j
    ensures var e := Work(w, When(cfg, 0, Done)); Enabled(cfg, s, e) && LeaverMove(s, Apply(cfg, s, e), w, j)
  {
    hide StoresOk, LocalOk, StageOk, OnePublisher, Apply, Effects, AfterWork, Allows, When, ValidQueue, JobsKeyed,
      LeaveRank, Leaver, Holder;
    var c, pc := When(cfg, 0, Done), s.workers[w];
    LeaverEnabled(cfg, s, w, j);
    WorkParts(cfg, s, w, c);
    LeaverQueue(cfg, s.stores, pc, c);
    LeaverIsNoHolder(AfterWork(cfg, s.stores, pc, c), j);
    hide SystemOk, Enabled;
  }

  lemma LeaverStep(cfg: Config, s: System, w: nat, j: string)
    requires SystemOk(cfg, s) && w < |s.workers| && Leaver(s.workers[w]) && s.workers[w].m.jobId == j
    requires j in s.stores.q.jobs && !Secured(s, j)
    ensures var e := Work(w, When(cfg, 0, Done));
            && Enabled(cfg, s, e)
            && var s' := Apply(cfg, s, e);
               j in s'.stores.q.jobs && !Secured(s', j) && TotalRank(s'.workers, j) < TotalRank(s.workers, j)
  {
    hide SystemOk, Apply, Enabled, When, Secured, Leaver, Holder, TotalRank, LeaveRank;
    LeaverMoves(cfg, s, w, j);
    var s' := Apply(cfg, s, Work(w, When(cfg, 0, Done)));
    StaysUnsecured(s, s', w, j);
    TotalRankFalls(s.workers, w, s'.workers[w], j);
    assert s'.workers == s.workers[w := s'.workers[w]];
  }

  lemma LeaverIsNoHolder(pc: Pc, j: string)
    ensures Leaver(pc) ==> !Holder(pc, j)
  {
  }

  lemma LeaverEnabled(cfg: Config, s: System, w: nat, j: string)
    requires SystemOk(cfg, s) && w < |s.workers| && Leaver(s.workers[w]) && s.workers[w].m.jobId == j
    ensures Enabled(cfg, s, Work(w, When(cfg, 0, Done)))
    ensures var pc, pc' := s.workers[w], AfterWork(cfg, s.stores, s.workers[w], When(cfg, 0, Done));
            && LeaveRank(pc', j) < LeaveRank(pc, j)
            && (if pc.stage.Acking? then !Holder(pc', j) else Leaver(pc') && pc'.m == pc.m)
  {
    hide StoresOk, StageOk, OnePublisher, AfterWork, Allows, When;
    assert LocalOk(cfg, s.stores, s.workers[w]);
    if s.workers[w].stage.Acking? {
      LeaverAcks(cfg, s.stores, s.workers[w], j);
    } else {
      LeaverNext(cfg, s.stores, s.workers[w], j);
    }
  }

  lemma StrandedUnless(s: System, j: string)
    requires j in s.stores.q.jobs && !Secured(s, j)
    ensures Stranded(s, j) || exists w :: 0 <= w < |s.workers| && Leaver(s.workers[w]) && s.workers[w].m.jobId == j
  {
    hide Holder, Leaver;
    if m :| m in s.stores.q.messages && m.jobId == j && m.id !in s.stores.q.acked {
      assert SomeLeaver(s, m);
    }
  }

  /** Once unsecured, the leavers alone can strand the job. */
  lemma {:induction false} StrandOn(cfg: Config, s: System, j: string) returns (later: seq<Event>)
    requires SystemOk(cfg, s) && j in s.stores.q.jobs && !Secured(s, j)
    ensures ValidRun(cfg, s, later) && NoCuts(later) && Stranded(Run(cfg, s, later), j)
    decreases TotalRank(s.workers, j)
  {
    StrandedUnless(s, j);
    hide SystemOk, Apply, Enabled, Secured, Stranded, When, Run, ValidRun, TotalRank, Leaver, NoCuts, Grows;
    if Stranded(s, j) {
      later := [];
      NoEvents(cfg, s);
      NoneCut();
    } else {
      var w :| 0 <= w < |s.workers| && Leaver(s.workers[w]) && s.workers[w].m.jobId == j;
      var e := Work(w, When(cfg, 0, Done));
      LeaverStep(cfg, s, w, j);
      StepKeepsSafe(cfg, s, e);
      later := StrandOn(cfg, Apply(cfg, s, e), j);
      FirstEvent(cfg, s, e, later);
      FirstUncut(e, later);
      later := [e] + later;
    }
  }

  lemma NoneCut()
    ensures NoCuts([])
  {
  }

  lemma FirstUncut(e: Event, later: seq<Event>)
    requires !e.Cut? && NoCuts(later)
    ensures NoCuts([e] + later)
  {
  }

  /** The run can follow without a cut and strands the job. */
  predicate StrandedAfter(cfg: Config, s: System, later: seq<Event>, j: string) {
    NoCuts(later) && ValidRun(cfg, s, later) && Stranded(Run(cfg, s, later), j)
  }

  /** Any number of workers: a job can end up stranded without a further cut exactly when it is not secured. */
  lemma StrandableExactly(cfg: Config, workers: nat, events: seq<Event>, s: System, j: string)
    requires Reaches(cfg, workers, events, s) && j in s.stores.q.jobs
    ensures (exists later :: StrandedAfter(cfg, s, later, j)) <==> !Secured(s, j)
  {
    ReachableIsSafe(cfg, workers, events, s);
    hide SystemOk, Reaches, Run, ValidRun, Secured, Stranded, NoCuts;
    if Secured(s, j) {
      forall later
        ensures !StrandedAfter(cfg, s, later, j)
      {
        if NoCuts(later) && ValidRun(cfg, s, later) {
          UncutStaysSecured(cfg, s, later, j);
          SecuredIsNotStranded(Run(cfg, s, later), j);
        }
      }
    } else {
      var later := StrandOn(cfg, s, j);
      assert StrandedAfter(cfg, s, later, j);
    }
  }
}
