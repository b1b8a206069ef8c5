/** Exactly when publication completes: which committed jobs can still be published, and which cuts lose a
    publication. */
module PublicationWindow {
  import opened Common
  import opened VideoJobs
  import opened Failures
  import opened QueueState
  import opened PostgresState
  import opened Pipeline
  import opened PipelineSafety
  import opened SingleWorker
  import opened Attempts
  import opened CutFree
  import opened Publication
  import opened PipelineTheorems

  // ---------- any number of workers ----------

  predicate SomePublisher(s: System, j: string) {
    exists w :: 0 <= w < |s.workers| && Publisher(s.workers[w], j)
  }

  /** A worker that is not publishing a committed job does not begin to. */
  lemma NoNewPublisher(cfg: Config, st: Stores, pc: Pc, c: Choice, j: string)
    requires StoresOk(cfg, st) && pc.Busy? && LocalOk(cfg, st, pc) && Allows(cfg, st, pc.stage, c)
    requires j in st.db.results && !Publisher(pc, j)
    ensures EffectsOf(Effects(cfg, st, pc.m, pc.stage, c).log, j) == EffectsOf(st.log, j)
    ensures !Publisher(AfterWork(cfg, st, pc, c), j)
  {
    hide StoresOk, EffectsOf, Effects, Allows, NextStage, StageOk, Grows;
    OthersUndisturbed(cfg, st, pc, c, j);
    OwnStep(cfg, st, pc, c);
    OwnStageAfter(cfg, st, pc, c);
    if pc.stage.Acking? {
      StartOnOk(cfg, st, pc.rest);
    }
  }

  lemma NoPublisherStep(cfg: Config, s: System, e: Event, j: string)
    requires SystemOk(cfg, s) && Enabled(cfg, s, e) && j in s.stores.db.results && !SomePublisher(s, j)
    ensures EffectsOf(Apply(cfg, s, e).stores.log, j) == EffectsOf(s.stores.log, j)
    ensures !SomePublisher(Apply(cfg, s, e), j)
  {
    hide StoresOk, EffectsOf, Effects, Allows, AfterWork, LocalOk, OnePublisher, Enqueue, ReadMessages, NextMessage,
      MissedBy, Publisher;
    match e {
      case ApiEnqueue(r, now) =>
      case Read(w) =>
        ReadIsKnown(s.stores.q, cfg.readCount);
        NextIsNoPublisher(ReadMessages(s.stores.q, cfg.readCount), j);
      case Work(w, c) => NoNewPublisher(cfg, s.stores, s.workers[w], c, j);
      case Cut(w) => NextIsNoPublisher([], j);
    }
  }

  lemma NextIsNoPublisher(batch: seq<Message>, j: string)
    ensures !Publisher(NextMessage(batch), j) && !Publisher(Idle, j)
  {
  }

  /** Once a committed job has no publisher its effects never change again, whatever follows. */
  lemma {:induction false} NoPublisherForever(cfg: Config, s: System, later: seq<Event>, j: string)
    requires SystemOk(cfg, s) && ValidRun(cfg, s, later) && j in s.stores.db.results && !SomePublisher(s, j)
    ensures var s' := Run(cfg, s, later);
            && EffectsOf(s'.stores.log, j) == EffectsOf(s.stores.log, j)
            && j in s'.stores.db.results && s'.stores.db.results[j] == s.stores.db.results[j]
            && (Published(s'.stores, j) <==> Published(s.stores, j))
    decreases |later|
  {
    hide SystemOk, Script, Apply, Enabled, EffectsOf, SomePublisher, SameWork;
    if later != [] {
      StepKeepsSafe(cfg, s, later[0]);
      NoPublisherStep(cfg, s, later[0], j);
      NoPublisherForever(cfg, Apply(cfg, s, later[0]), later[1..], j);
    }
  }

  lemma FirstEvent(cfg: Config, s: System, e: Event, rest: seq<Event>)
    requires Enabled(cfg, s, e) && ValidRun(cfg, Apply(cfg, s, e), rest)
    ensures ValidRun(cfg, s, [e] + rest) && Run(cfg, s, [e] + rest) == Run(cfg, Apply(cfg, s, e), rest)
  {
    hide Apply, Enabled;
    assert ([e] + rest)[0] == e && ([e] + rest)[1..] == rest;
  }

  lemma NoEvents(cfg: Config, s: System)
    ensures ValidRun(cfg, s, []) && Run(cfg, s, []) == s
  {
  }

  /** One successful push. */
  lemma PushNext(cfg: Config, s: System, w: nat, j: string)
    requires SystemOk(cfg, s) && w < |s.workers| && Publisher(s.workers[w], j)
    ensures var e, todo := Work(w, When(cfg, 0, Done)), s.workers[w].stage.todo;
            && todo != [] && Enabled(cfg, s, e)
            && var s' := Apply(cfg, s, e);
               |s'.workers| == |s.workers| && if |todo| == 1 then Published(s'.stores, j)
               else Publisher(s'.workers[w], j) && |s'.workers[w].stage.todo| == |todo| - 1
  {
    hide StoresOk, OnePublisher, Script, EffectsOf, VerdictFor, Published;
    var pc := s.workers[w];
    assert LocalOk(cfg, s.stores, pc);
    if |pc.stage.todo| == 1 {
      assert pc.stage.todo == [pc.stage.todo[0]];
      LastStepPublishes(s.stores, Apply(cfg, s, Work(w, When(cfg, 0, Done))).stores, j, pc.stage.todo);
    }
  }

  /** A worker that is publishing a job can finish doing so. */
  lemma {:induction false} PublishOn(cfg: Config, s: System, w: nat, j: string) returns (later: seq<Event>)
    requires SystemOk(cfg, s) && w < |s.workers| && Publisher(s.workers[w], j)
    ensures ValidRun(cfg, s, later) && Published(Run(cfg, s, later).stores, j)
    decreases |s.workers[w].stage.todo|
  {
    var e := Work(w, When(cfg, 0, Done));
    PushNext(cfg, s, w, j);
    StepKeepsSafe(cfg, s, e);
    hide SystemOk, Apply, Enabled, Published, When, Run, ValidRun;
    if |s.workers[w].stage.todo| == 1 {
      later := [];
      NoEvents(cfg, Apply(cfg, s, e));
    } else {
      later := PublishOn(cfg, Apply(cfg, s, e), w, j);
    }
    FirstEvent(cfg, s, e, later);
    later := [e] + later;
  }

  /** The run can follow and leaves the job published. */
  predicate PublishedAfter(cfg: Config, s: System, later: seq<Event>, j: string) {
    ValidRun(cfg, s, later) && Published(Run(cfg, s, later).stores, j)
  }

  /** Any number of workers: a committed job is published in some continuation exactly when it already is, or some
      worker is publishing it. */
  lemma PublishableExactly(cfg: Config, workers: nat, events: seq<Event>, s: System, j: string)
    requires Reaches(cfg, workers, events, s) && j in s.stores.db.results
    ensures (exists later :: PublishedAfter(cfg, s, later, j)) <==> Published(s.stores, j) || SomePublisher(s, j)
  {
    ReachableIsSafe(cfg, workers, events, s);
    hide SystemOk, Reaches, Published, Run, ValidRun, SomePublisher;
    NoEvents(cfg, s);
    if Published(s.stores, j) {
      assert PublishedAfter(cfg, s, [], j);
    } else if SomePublisher(s, j) {
      var later := Publishable(cfg, s, j);
      assert PublishedAfter(cfg, s, later, j);
    } else {
      forall later
        ensures !PublishedAfter(cfg, s, later, j)
      {
        if ValidRun(cfg, s, later) {
          NoPublisherForever(cfg, s, later, j);
        }
      }
    }
  }

  lemma Publishable(cfg: Config, s: System, j: string) returns (later: seq<Event>)
    requires SystemOk(cfg, s) && SomePublisher(s, j)
    ensures ValidRun(cfg, s, later) && Published(Run(cfg, s, later).stores, j)
  {
    hide SystemOk, Published, Run, ValidRun;
    var w :| 0 <= w < |s.workers| && Publisher(s.workers[w], j);
    later := PublishOn(cfg, s, w, j);
  }

  // ---------- one worker, cut anywhere ----------

  /** Between messages, a job that is CLASSIFIED in either store has been published in full. */
  ghost predicate SettledPublished(s: System) {
    |s.workers| == 1 && (s.workers[0].Idle? ==>
      forall j {:trigger Published(s.stores, j)} ::
        (j in s.stores.q.jobs && s.stores.q.jobs[j].status == Classified)
        || (j in s.stores.db.jobs && s.stores.db.jobs[j].status == Classified) ==>
          Published(s.stores, j))
  }

  ghost predicate SettledThroughout(cfg: Config, s: System, events: seq<Event>)
    requires ValidRun(cfg, s, events)
    decreases |events|
  {
    SettledPublished(s) && (events == [] || SettledThroughout(cfg, Apply(cfg, s, events[0]), events[1..]))
  }

  lemma InvariantSettles(s: System)
    requires AllPublished(s)
    ensures SettledPublished(s)
  {
    hide Published;
    if s.workers[0].Idle? {
      forall j | j in s.stores.db.jobs && s.stores.db.jobs[j].status == Classified
        ensures Published(s.stores, j)
      {
        assert Published(s.stores, j) || Unsettled(s.workers[0], j);
      }
    }
  }

  lemma HarmfulCutUnsettles(cfg: Config, s: System, e: Event)
    requires |s.workers| == 1 && Enabled(cfg, s, e) && e.Cut? && InWindow(s.stores, s.workers[0])
    ensures !SettledPublished(Apply(cfg, s, e))
  {
    var s', j := Apply(cfg, s, e), s.workers[0].m.jobId;
    assert s'.workers[0].Idle? && s'.stores == s.stores;
    hide EffectsOf, Script;
    assert !Published(s'.stores, j);
  }

  lemma {:induction false} SettledExactly(cfg: Config, s: System, events: seq<Event>)
    requires SystemOk(cfg, s) && Solo(cfg, s) && AllPublished(s) && ValidRun(cfg, s, events)
    ensures SettledThroughout(cfg, s, events) <==> CutsHarmless(cfg, s, events)
    decreases |events|
  {
    hide SystemOk, SoloOk, PublishedOk, SettledPublished, InWindow, Apply, Enabled, Grows;
    InvariantSettles(s);
    if events != [] {
      var e := events[0];
      if e.Cut? && InWindow(s.stores, s.workers[0]) {
        HarmfulCutUnsettles(cfg, s, e);
        NotSettledThroughout(cfg, Apply(cfg, s, e), events[1..]);
        OnlyWorker(cfg, s, e);
      } else {
        StepKeepsSafe(cfg, s, e);
        StepKeepsSolo(cfg, s, e);
        StepKeepsPublished(cfg, s, e);
        SettledExactly(cfg, Apply(cfg, s, e), events[1..]);
        OnlyWorker(cfg, s, e);
      }
    }
  }

  lemma NotSettledThroughout(cfg: Config, s: System, events: seq<Event>)
    requires ValidRun(cfg, s, events) && !SettledPublished(s)
    ensures !SettledThroughout(cfg, s, events)
  {
    hide SettledPublished, Apply, Enabled;
  }

  lemma OnlyWorker(cfg: Config, s: System, e: Event)
    requires |s.workers| == 1 && Enabled(cfg, s, e)
    ensures e.Cut? ==> e.w == 0
  {
    hide Allows;
  }

  /** One worker, any run: between messages every CLASSIFIED job is published, throughout the run, exactly when no cut
      strikes between the commit of a job and the end of its publication. */
  lemma PublishedThroughoutExactly(cfg: Config, events: seq<Event>)
    requires ValidRun(cfg, Init(1), events)
    ensures SettledThroughout(cfg, Init(1), events) <==> CutsHarmless(cfg, Init(1), events)
  {
    InitSafe(cfg, 1);
    InitExact(cfg);
    InitLedger(cfg);
    hide SystemOk, Solo, Accounted, Exact, AllPublished, SettledThroughout, CutsHarmless;
    SettledExactly(cfg, Init(1), events);
  }
}
