/** Exactly which terminally failed jobs reach the dead letters. */
module DeadLetterWindow {
  import opened Common
  import opened VideoJobs
  import opened Failures
  import opened QueueState
  import opened PostgresState
  import opened Pipeline
  import opened PipelineSafety
  import opened SingleWorker
  import opened Attempts
  import opened CutFree
  import opened PipelineTheorems
  import opened Records

  /** The job whose recorded terminal failure a cut keeps from its dead letter. */
  function Struck(s: System, e: Event): set<string> {
    if e.Cut? && e.w < |s.workers| && AwaitingDlq(s.stores.q, s.workers[e.w]).Some?
    then {AwaitingDlq(s.stores.q, s.workers[e.w]).value} else {}
  }

  /** All such jobs of a run. */
  function Orphans(cfg: Config, s: System, events: seq<Event>): set<string>
    requires ValidRun(cfg, s, events)
    decreases |events|
  {
    if events == [] then {} else Struck(s, events[0]) + Orphans(cfg, Apply(cfg, s, events[0]), events[1..])
  }

  /** Orphans are FAILED_TERMINAL and out of the worker's hands; for all other jobs the dead letters are exact. */
  predicate LettersOk(q: Queue, awaiting: Option<string>, orphans: set<string>) {
    && DlqExact(q.jobs - orphans, q.dlq, awaiting)
    && forall j :: j in orphans ==> j in q.jobs && q.jobs[j].status == FailedTerminal && awaiting != Some(j)
  }

  // ---------- one await ----------

  /** What an await does to the dead letters and to the record of its message's job. */
  lemma StageLetters(cfg: Config, st: Stores, pc: Pc, c: Choice)
    requires ValidQueue(st.q) && pc.Busy? && StageOk(cfg, st, pc.m, pc.stage) && SoloStage(cfg, st.q, pc.m, pc.stage)
    requires Allows(cfg, st, pc.stage, c) && !pc.stage.DeadLettering? && !pc.stage.Acking?
    ensures var q, q', pc', k := st.q, Effects(cfg, st, pc.m, pc.stage, c).q, AfterWork(cfg, st, pc, c), pc.m.jobId;
            && q'.dlq == q.dlq && k in q.jobs && k in q'.jobs
            && AwaitingDlq(q, pc) in {None, Some(k)} && AwaitingDlq(q', pc') in {None, Some(k)}
            && (q.jobs[k].status == FailedTerminal ==>
                  q'.jobs[k] == q.jobs[k] && AwaitingDlq(q', pc') == AwaitingDlq(q, pc))
            && (q.jobs[k].status != FailedTerminal ==>
                  (AwaitingDlq(q', pc') == Some(k) <==> q'.jobs[k].status == FailedTerminal))
  {
    hide Pending, VerdictFor, EffectsOf, Script, CommitOf, ClassifyProcessingError, MarkProcessing, SetFailed,
      TripleOf, WithStatus, JobsKeyed, IndexPointsToOwner;
    StageJobs(cfg, st, pc.m, pc.stage, c);
  }

  lemma StatusLetters(cfg: Config, st: Stores, pc: Pc, c: Choice, orphans: set<string>)
    requires ValidQueue(st.q) && pc.Busy? && StageOk(cfg, st, pc.m, pc.stage) && SoloStage(cfg, st.q, pc.m, pc.stage)
    requires Allows(cfg, st, pc.stage, c) && !pc.stage.DeadLettering? && !pc.stage.Acking?
    requires LettersOk(st.q, AwaitingDlq(st.q, pc), orphans)
    ensures var q', pc' := Effects(cfg, st, pc.m, pc.stage, c).q, AfterWork(cfg, st, pc, c);
            LettersOk(q', AwaitingDlq(q', pc'), orphans)
  {
    StageLetters(cfg, st, pc, c);
    StageJobs(cfg, st, pc.m, pc.stage, c);
    hide ValidQueue, StageOk, SoloStage, Allows, Effects, AfterWork, AwaitingDlq, LettersOk;
    var q, q', pc', k := st.q, Effects(cfg, st, pc.m, pc.stage, c).q, AfterWork(cfg, st, pc, c), pc.m.jobId;
    StageJobsKept(q.jobs, q'.jobs, k, pc.stage, c);
    hide StageChange;
    if q.jobs[k].status == FailedTerminal {
      assert q'.jobs == q.jobs;
      SameLetters(q, q', AwaitingDlq(q, pc), orphans);
    } else {
      RecordChanged(q, q', k, AwaitingDlq(q, pc), AwaitingDlq(q', pc'), orphans);
    }
  }

  lemma SameLetters(q: Queue, q': Queue, awaiting: Option<string>, orphans: set<string>)
    requires LettersOk(q, awaiting, orphans) && q'.jobs == q.jobs && q'.dlq == q.dlq
    ensures LettersOk(q', awaiting, orphans)
  {
  }

  lemma RecordChanged(q: Queue, q': Queue, k: string, awaiting: Option<string>, awaiting': Option<string>,
                      orphans: set<string>)
    requires LettersOk(q, awaiting, orphans) && k in q.jobs && q.jobs[k].status != FailedTerminal
    requires q'.dlq == q.dlq && q'.jobs.Keys == q.jobs.Keys
    requires forall j :: j in q.jobs && j != k ==> q'.jobs[j] == q.jobs[j]
    requires awaiting in {None, Some(k)} && awaiting' in {None, Some(k)}
    requires awaiting' == Some(k) <==> q'.jobs[k].status == FailedTerminal
    ensures LettersOk(q', awaiting', orphans)
  {
    hide DlqExact;
    assert k !in orphans;
    StatusDlq(q.jobs - orphans, q'.jobs - orphans, q.dlq, awaiting, awaiting', k);
  }

  lemma LetterAppended(cfg: Config, q: Queue, pc: Pc, orphans: set<string>)
    requires pc.Busy? && pc.stage.DeadLettering? && SoloStage(cfg, q, pc.m, pc.stage)
    requires LettersOk(q, AwaitingDlq(q, pc), orphans)
    ensures LettersOk(AppendDeadLetter(q, pc.m, pc.stage.code, pc.stage.text), None, orphans)
  {
    hide DlqExact;
    var k := pc.m.jobId;
    assert AwaitingDlq(q, pc) == Some(k);
    DeadLetterDlq(q.jobs - orphans, q.dlq, DeadLetter(pc.m.id, k, pc.stage.code, pc.stage.text, pc.m.payload), k);
  }

  lemma NothingAwaited(q: Queue, batch: seq<Message>)
    requires JobsKeyed(q)
    ensures AwaitingDlq(q, NextMessage(batch)) == None && AwaitingDlq(q, Idle) == None
  {
  }

  lemma WorkLetters(cfg: Config, st: Stores, pc: Pc, c: Choice, orphans: set<string>)
    requires StoresOk(cfg, st) && pc.Busy? && StageOk(cfg, st, pc.m, pc.stage) && SoloStage(cfg, st.q, pc.m, pc.stage)
    requires Allows(cfg, st, pc.stage, c) && LettersOk(st.q, AwaitingDlq(st.q, pc), orphans)
    ensures var q', pc' := Effects(cfg, st, pc.m, pc.stage, c).q, AfterWork(cfg, st, pc, c);
            LettersOk(q', AwaitingDlq(q', pc'), orphans)
  {
    hide RowsOk, ResultsOk, FramesOwned, ActionsOk, ClassifiedOk, LogOk, StageOk, SoloStage, LettersOk, NextMessage,
      MessagesNumbered, JobsKeyed, IndexPointsToOwner;
    if pc.stage.DeadLettering? {
      LetterAppended(cfg, st.q, pc, orphans);
    } else if pc.stage.Acking? {
      NothingAwaited(st.q, pc.rest);
      AckLetters(st.q, pc.m.id, orphans);
    } else {
      hide ValidQueue, AwaitingDlq;
      StatusLetters(cfg, st, pc, c, orphans);
    }
  }

  lemma AckLetters(q: Queue, id: nat, orphans: set<string>)
    requires LettersOk(q, None, orphans)
    ensures LettersOk(Ack(q, id), None, orphans)
  {
  }

  // ---------- one event ----------

  lemma EnqueueLetters(q: Queue, pc: Pc, r: VideoDetectRequest, now: Time, orphans: set<string>)
    requires LettersOk(q, AwaitingDlq(q, pc), orphans) && (pc.Busy? ==> pc.m.jobId in q.jobs)
    ensures LettersOk(Enqueue(q, r, now), AwaitingDlq(Enqueue(q, r, now), pc), orphans)
  {
    hide DlqExact;
    if ExistingJob(q, r).None? {
      var job := NewJob(r, now);
      assert job.jobId !in orphans;
      EnqueueDlq(q.jobs - orphans, q.dlq, AwaitingDlq(q, pc), job);
      assert q.jobs[job.jobId := job] - orphans == (q.jobs - orphans)[job.jobId := job];
    }
  }

  lemma CutLetters(q: Queue, pc: Pc, orphans: set<string>)
    requires LettersOk(q, AwaitingDlq(q, pc), orphans)
    ensures LettersOk(q, None, orphans + match AwaitingDlq(q, pc) case None => {} case Some(j) => {j})
  {
    match AwaitingDlq(q, pc) {
      case None => assert orphans + {} == orphans;
      case Some(j) =>
        OrphanRemoved(q.jobs - orphans, q.dlq, j);
        assert q.jobs - orphans - {j} == q.jobs - (orphans + {j});
    }
  }

  lemma OrphanRemoved(jobs: Jobs, dlq: seq<DeadLetter>, j: string)
    requires DlqExact(jobs, dlq, Some(j))
    ensures DlqExact(jobs - {j}, dlq, None)
  {
    if j in jobs {
      assert !Dead(dlq, j);
    }
    forall i | 0 <= i < |dlq|
      ensures dlq[i].jobId != j
    {
      assert Dead(dlq, dlq[i].jobId);
    }
  }

  lemma StepLetters(cfg: Config, s: System, e: Event, orphans: set<string>)
    requires SystemOk(cfg, s) && Solo(cfg, s) && Enabled(cfg, s, e)
    requires LettersOk(s.stores.q, AwaitingDlq(s.stores.q, s.workers[0]), orphans)
    ensures var s' := Apply(cfg, s, e);
            |s'.workers| == 1 && LettersOk(s'.stores.q, AwaitingDlq(s'.stores.q, s'.workers[0]), orphans + Struck(s, e))
  {
    hide RowsOk, ResultsOk, FramesOwned, ActionsOk, ClassifiedOk, LogOk, StageOk, SoloStage, OnePublisher, NoneLost,
      Effects, AfterWork, Allows, MissedBy, Enqueue, ReadMessages, NextMessage, LettersOk, AwaitingDlq,
      MessagesNumbered, IndexPointsToOwner, JobsKeyed;
    var st, pc := s.stores, s.workers[0];
    assert orphans + {} == orphans;
    match e {
      case Work(w, c) => WorkLetters(cfg, st, pc, c, orphans);
      case ApiEnqueue(r, now) =>
        OwnJobKnown(cfg, st.q, pc);
        EnqueueLetters(st.q, pc, r, now, orphans);
      case Read(w) =>
        NothingAwaited(st.q, ReadMessages(st.q, cfg.readCount));
      case Cut(w) =>
        NothingAwaited(st.q, []);
        CutLetters(st.q, pc, orphans);
    }
  }

  lemma {:induction false} RunLetters(cfg: Config, s: System, events: seq<Event>, orphans: set<string>)
    requires SystemOk(cfg, s) && Solo(cfg, s) && ValidRun(cfg, s, events)
    requires LettersOk(s.stores.q, AwaitingDlq(s.stores.q, s.workers[0]), orphans)
    ensures var s' := Run(cfg, s, events);
            |s'.workers| == 1
            && LettersOk(s'.stores.q, AwaitingDlq(s'.stores.q, s'.workers[0]), orphans + Orphans(cfg, s, events))
    decreases |events|
  {
    hide SystemOk, SoloOk, LettersOk, AwaitingDlq, Struck, Apply, Enabled, Grows;
    if events == [] {
      assert orphans + {} == orphans;
    } else {
      var s1 := Apply(cfg, s, events[0]);
      StepKeepsSafe(cfg, s, events[0]);
      StepKeepsSolo(cfg, s, events[0]);
      StepLetters(cfg, s, events[0], orphans);
      RunLetters(cfg, s1, events[1..], orphans + Struck(s, events[0]));
      assert orphans + Struck(s, events[0]) + Orphans(cfg, s1, events[1..]) == orphans + Orphans(cfg, s, events);
    }
  }

  /** One worker, cut anywhere: a FAILED_TERMINAL job that is not just being dead-lettered has its dead letter
      exactly when no cut struck while the worker was about to write it; each job has at most one, with its recorded
      error code and message. */
  lemma DeadLettersExactly(cfg: Config, events: seq<Event>, s: System)
    requires Reaches(cfg, 1, events, s) && |s.workers| == 1
    ensures var q, orphans := s.stores.q, Orphans(cfg, Init(1), events);
            var awaiting := AwaitingDlq(q, s.workers[0]);
            && (forall j :: j in q.jobs && awaiting != Some(j) ==>
                  (Dead(q.dlq, j) <==> q.jobs[j].status == FailedTerminal && j !in orphans))
            && (forall j :: j in orphans ==> j in q.jobs && q.jobs[j].status == FailedTerminal && !Dead(q.dlq, j))
            && (forall i, k :: 0 <= i < k < |q.dlq| ==> q.dlq[i].jobId != q.dlq[k].jobId)
            && (forall i :: 0 <= i < |q.dlq| ==>
                  && q.dlq[i].jobId in q.jobs && q.jobs[q.dlq[i].jobId].lastErrorCode == Some(q.dlq[i].errorCode)
                  && q.jobs[q.dlq[i].jobId].lastErrorMessage == Some(q.dlq[i].errorMessage))
  {
    hide Reaches, LettersOk, AwaitingDlq, Orphans, Dead;
    ReachedLetters(cfg, events, s);
    LettersMean(s.stores.q, AwaitingDlq(s.stores.q, s.workers[0]), Orphans(cfg, Init(1), events));
  }

  lemma ReachedLetters(cfg: Config, events: seq<Event>, s: System)
    requires Reaches(cfg, 1, events, s) && |s.workers| == 1
    ensures ValidRun(cfg, Init(1), events)
    ensures LettersOk(s.stores.q, AwaitingDlq(s.stores.q, s.workers[0]), Orphans(cfg, Init(1), events))
  {
    InitLetters();
    hide SystemOk, SoloOk, Accounted, Exact, LettersOk, AwaitingDlq, Orphans, Run, ValidRun, Init;
    InitSafe(cfg, 1);
    InitExact(cfg);
    RunLetters(cfg, Init(1), events, {});
    assert {} + Orphans(cfg, Init(1), events) == Orphans(cfg, Init(1), events);
  }

  lemma InitLetters()
    ensures LettersOk(Init(1).stores.q, AwaitingDlq(Init(1).stores.q, Init(1).workers[0]), {})
  {
    assert Init(1).stores.q.jobs == map[];
  }

  lemma LettersMean(q: Queue, awaiting: Option<string>, orphans: set<string>)
    requires LettersOk(q, awaiting, orphans)
    ensures forall j :: j in q.jobs && awaiting != Some(j) ==>
              (Dead(q.dlq, j) <==> q.jobs[j].status == FailedTerminal && j !in orphans)
    ensures forall j :: j in orphans ==> j in q.jobs && q.jobs[j].status == FailedTerminal && !Dead(q.dlq, j)
    ensures forall i, k :: 0 <= i < k < |q.dlq| ==> q.dlq[i].jobId != q.dlq[k].jobId
    ensures forall i :: 0 <= i < |q.dlq| ==>
              && q.dlq[i].jobId in q.jobs && q.jobs[q.dlq[i].jobId].lastErrorCode == Some(q.dlq[i].errorCode)
              && q.jobs[q.dlq[i].jobId].lastErrorMessage == Some(q.dlq[i].errorMessage)
  {
    forall j | j in orphans
      ensures !Dead(q.dlq, j)
    {
      assert j !in q.jobs - orphans;
    }
  }

  lemma {:induction false} OrphansAppend(cfg: Config, s: System, xs: seq<Event>, ys: seq<Event>)
    requires ValidRun(cfg, s, xs) && ValidRun(cfg, Run(cfg, s, xs), ys)
    ensures ValidRun(cfg, s, xs + ys)
    ensures Orphans(cfg, s, xs + ys) == Orphans(cfg, s, xs) + Orphans(cfg, Run(cfg, s, xs), ys)
    decreases |xs|
  {
    hide Apply, Enabled, Struck;
    RunAppend(cfg, s, xs, ys);
    if xs == [] {
      assert xs + ys == ys;
    } else {
      assert (xs + ys)[1..] == xs[1..] + ys && (xs + ys)[0] == xs[0];
      OrphansAppend(cfg, Apply(cfg, s, xs[0]), xs[1..], ys);
    }
  }

  /** And once struck, a job stays FAILED_TERMINAL without a dead letter in every continuation. */
  lemma OrphansForever(cfg: Config, events: seq<Event>, s: System, later: seq<Event>, j: string)
    requires Reaches(cfg, 1, events, s) && ValidRun(cfg, s, later) && j in Orphans(cfg, Init(1), events)
    ensures var q := Run(cfg, s, later).stores.q;
            j in q.jobs && q.jobs[j].status == FailedTerminal && !Dead(q.dlq, j)
  {
    RunAppend(cfg, Init(1), events, later);
    OrphansAppend(cfg, Init(1), events, later);
    SoloReached(cfg, events + later, Run(cfg, s, later));
    hide Run, ValidRun, Orphans, AwaitingDlq, SystemOk, SoloOk, Accounted;
    DeadLettersExactly(cfg, events + later, Run(cfg, s, later));
  }
}
