/** The exact bookkeeping of runs with one worker and no cut: one message per unfinished job, one dead letter per
    terminally failed one. */
module CutFree {
  import opened Common
  import opened VideoJobs
  import opened Failures
  import opened QueueState
  import opened PostgresState
  import opened Pipeline
  import opened PipelineSafety
  import opened SingleWorker
  import opened Attempts

  function CountFor(messages: seq<Message>, jobId: string): nat {
    if messages == [] then 0 else (if messages[0].jobId == jobId then 1 else 0) + CountFor(messages[1..], jobId)
  }

  /** How many pending messages name job `j`, given its record and what the worker is doing. */
  function Expected(x: VideoJob, j: string, pc: Pc): nat {
    var own := if IsTerminal(x.status) then 0 else 1;
    if pc.Idle? || pc.m.jobId != j then own
    else if pc.stage.Acking? then own + 1
    else 1
  }

  predicate CountsExact(q: Queue, pc: Pc) {
    forall j {:trigger CountFor(Pending(q), j)} :: j in q.jobs ==> CountFor(Pending(q), j) == Expected(q.jobs[j], j, pc)
  }

  /** The two first lookups find an unfinished job, so the early return on a terminal status is never taken. */
  predicate LookUpFresh(q: Queue, pc: Pc) {
    pc.Busy? && (pc.stage.LookUpJob? || pc.stage.LookUpAgain?) && pc.m.jobId in q.jobs ==>
      !IsTerminal(q.jobs[pc.m.jobId].status)
  }

  /** The job whose terminal failure is recorded but not yet dead-lettered. */
  function AwaitingDlq(q: Queue, pc: Pc): Option<string> {
    if pc.Busy? && (pc.stage.MarkingFailed? || pc.stage.DeadLettering?) && pc.m.jobId in q.jobs
       && q.jobs[pc.m.jobId].status == FailedTerminal
    then Some(pc.m.jobId) else None
  }

  predicate Dead(dlq: seq<DeadLetter>, j: string) {
    exists i :: 0 <= i < |dlq| && dlq[i].jobId == j
  }

  predicate DlqExact(jobs: map<string, VideoJob>, dlq: seq<DeadLetter>, awaiting: Option<string>) {
    && (forall i, k :: 0 <= i < k < |dlq| ==> dlq[i].jobId != dlq[k].jobId)
    && (forall i :: 0 <= i < |dlq| ==>
          dlq[i].jobId in jobs && jobs[dlq[i].jobId].status == FailedTerminal
          && jobs[dlq[i].jobId].lastErrorCode == Some(dlq[i].errorCode)
          && jobs[dlq[i].jobId].lastErrorMessage == Some(dlq[i].errorMessage))
    && (forall j {:trigger Dead(dlq, j)} :: j in jobs ==>
          (Dead(dlq, j) <==> jobs[j].status == FailedTerminal && awaiting != Some(j)))
  }

  predicate ExactOk(q: Queue, pc: Pc) {
    CountsExact(q, pc) && LookUpFresh(q, pc) && DlqExact(q.jobs, q.dlq, AwaitingDlq(q, pc))
  }

  // ---------- counting ----------

  lemma {:induction false} CountAppend(a: seq<Message>, b: seq<Message>, j: string)
    ensures CountFor(a + b, j) == CountFor(a, j) + CountFor(b, j)
  {
    if a == [] {
      assert a + b == b;
    } else {
      assert (a + b)[1..] == a[1..] + b;
      CountAppend(a[1..], b, j);
    }
  }

  lemma {:induction false} CountZero(messages: seq<Message>, j: string)
    ensures CountFor(messages, j) == 0 <==> !Names(messages, j)
  {
    if messages != [] {
      CountZero(messages[1..], j);
      if Names(messages[1..], j) {
        var i :| 0 <= i < |messages[1..]| && messages[1..][i].jobId == j;
        assert messages[i + 1].jobId == j;
      }
      if Names(messages, j) && messages[0].jobId != j {
        var i :| 0 <= i < |messages| && messages[i].jobId == j;
        assert messages[1..][i - 1].jobId == j;
      }
    }
  }

  lemma CountOne(m: Message, j: string)
    ensures CountFor([m], j) == if m.jobId == j then 1 else 0
  {
    assert [m][1..] == [];
  }

  // ---------- one step ----------

  /** A worker taking a message from the queue finds its job unfinished. */
  lemma ExactStart(q: Queue, batch: seq<Message>)
    requires ValidQueue(q) && batch <= Pending(q) && CountsExact(q, Idle)
    ensures CountsExact(q, NextMessage(batch)) && LookUpFresh(q, NextMessage(batch))
    ensures AwaitingDlq(q, NextMessage(batch)) == None
  {
    if batch != [] {
      var m := batch[0];
      assert m == Pending(q)[0] && m in Pending(q);
      PendingFacts(q);
      MessageNamesJob(q, m);
      assert Names(Pending(q), m.jobId);
      CountZero(Pending(q), m.jobId);
      hide Pending, CountFor;
      assert CountFor(Pending(q), m.jobId) == Expected(q.jobs[m.jobId], m.jobId, Idle);
    }
  }

  /** Stages that leave messages and dead letters alone. */
  lemma StatusExact(cfg: Config, st: Stores, pc: Pc, c: Choice)
    requires pc.Busy? && StageOk(cfg, st, pc.m, pc.stage) && SoloStage(cfg, st.q, pc.m, pc.stage)
             && Allows(cfg, st, pc.stage, c)
    requires !pc.stage.Acking? && !pc.stage.Requeueing? && !pc.stage.DeadLettering?
    requires ExactOk(st.q, pc)
    ensures ExactOk(Effects(cfg, st, pc.m, pc.stage, c).q, AfterWork(cfg, st, pc, c))
  {
    hide IsRetryable, ErrorCode, ErrorMessage, VerdictFor, EffectsOf, Script, CommitOf, MarkProcessing, SetFailed,
      CountFor, Unacked, TripleOf;
    var q', pc' := Effects(cfg, st, pc.m, pc.stage, c).q, AfterWork(cfg, st, pc, c);
    StageQueue(cfg, st, pc, c);
    var k := pc.m.jobId;
    assert Pending(q') == Pending(st.q);
    assert forall j :: j in st.q.jobs && j != k ==> q'.jobs[j] == st.q.jobs[j];
    assert CountFor(Pending(st.q), k) == 1;
    hide Effects, NextStage, Pending, StageOk, SoloStage, Allows;
    assert CountsExact(q', pc');
    StatusDlq(st.q.jobs, q'.jobs, st.q.dlq, AwaitingDlq(st.q, pc), AwaitingDlq(q', pc'), k);
  }

  lemma StatusDlq(jobs: map<string, VideoJob>, jobs': map<string, VideoJob>, dlq: seq<DeadLetter>,
                  awaiting: Option<string>, awaiting': Option<string>, k: string)
    requires DlqExact(jobs, dlq, awaiting) && k in jobs && jobs'.Keys == jobs.Keys
    requires forall j :: j in jobs && j != k ==> jobs'[j] == jobs[j]
    requires awaiting in {None, Some(k)} && awaiting' in {None, Some(k)}
    requires jobs[k].status == FailedTerminal ==> awaiting == Some(k)
    requires awaiting' == Some(k) <==> jobs'[k].status == FailedTerminal
    ensures DlqExact(jobs', dlq, awaiting')
  {
    assert !Dead(dlq, k);
    forall j | j in jobs'
      ensures Dead(dlq, j) <==> jobs'[j].status == FailedTerminal && awaiting' != Some(j)
    {
      assert Dead(dlq, j) <==> jobs[j].status == FailedTerminal && awaiting != Some(j);
    }
    forall i | 0 <= i < |dlq|
      ensures dlq[i].jobId != k
    {
      assert Dead(dlq, dlq[i].jobId);
    }
  }

  /** What such a stage does to the message's record and where it leads. */
  lemma StageQueue(cfg: Config, st: Stores, pc: Pc, c: Choice)
    requires pc.Busy? && StageOk(cfg, st, pc.m, pc.stage) && SoloStage(cfg, st.q, pc.m, pc.stage)
             && Allows(cfg, st, pc.stage, c)
    requires !pc.stage.Acking? && !pc.stage.Requeueing? && !pc.stage.DeadLettering?
    requires LookUpFresh(st.q, pc) && pc.m.jobId in st.q.jobs
    ensures var q, q', pc', k := st.q, Effects(cfg, st, pc.m, pc.stage, c).q, AfterWork(cfg, st, pc, c), pc.m.jobId;
            && q' == q.(jobs := q'.jobs) && q'.jobs.Keys == q.jobs.Keys
            && (forall j :: j in q.jobs && j != k ==> q'.jobs[j] == q.jobs[j])
            && pc'.Busy? && pc'.m == pc.m
            && (pc'.stage.Acking? ==> IsTerminal(q'.jobs[k].status))
            && LookUpFresh(q', pc')
            && (q.jobs[k].status == FailedTerminal ==> AwaitingDlq(q, pc) == Some(k))
            && (AwaitingDlq(q', pc') == Some(k) <==> q'.jobs[k].status == FailedTerminal)
  {
    QueueOnlyJobs(cfg, st, pc.m, pc.stage, c);
    StageJobs(cfg, st, pc.m, pc.stage, c);
    hide Effects, Pending, VerdictFor, EffectsOf, Script, CommitOf, IsRetryable, ErrorCode, ErrorMessage;
    var record, record' := st.q.jobs[pc.m.jobId], Effects(cfg, st, pc.m, pc.stage, c).q.jobs[pc.m.jobId];
    NextStatus(cfg, st, pc, c, record'.status);
  }

  lemma QueueOnlyJobs(cfg: Config, st: Stores, m: Message, stage: Stage, c: Choice)
    requires !stage.Acking? && !stage.Requeueing? && !stage.DeadLettering?
    ensures var q' := Effects(cfg, st, m, stage, c).q; q' == st.q.(jobs := q'.jobs)
  {
    hide EffectsOf, Script, VerdictFor, CommitOf, MarkProcessing, SetFailed, WithStatus;
  }

  /** The stage after each stage, against the record's new status. */
  lemma NextStatus(cfg: Config, st: Stores, pc: Pc, c: Choice, status: VideoJobStatus)
    requires pc.Busy? && StageOk(cfg, st, pc.m, pc.stage) && SoloStage(cfg, st.q, pc.m, pc.stage)
             && Allows(cfg, st, pc.stage, c)
    requires !pc.stage.Acking? && !pc.stage.Requeueing? && !pc.stage.DeadLettering?
    requires LookUpFresh(st.q, pc) && pc.m.jobId in st.q.jobs
    requires status ==
             match pc.stage
             case AdoptClassified(_) => Classified
             case StartProcessing(_, _) => Processing
             case Finishing(_) => if c.outcome.Raised? then st.q.jobs[pc.m.jobId].status else Classified
             case RecordingFailure(_, f) => f.status
             case _ => st.q.jobs[pc.m.jobId].status
    ensures var stage' := NextStage(cfg, st, pc.m, pc.stage, c);
            && (stage'.Acking? ==> IsTerminal(status))
            && (stage'.LookUpAgain? ==> !IsTerminal(status)) && !stage'.LookUpJob?
            && (st.q.jobs[pc.m.jobId].status == FailedTerminal ==> pc.stage.MarkingFailed?)
            && (status == FailedTerminal ==> stage'.MarkingFailed? || stage'.DeadLettering?)
  {
    hide Pending, VerdictFor, EffectsOf, Script, CommitOf, IsRetryable, ErrorCode, ErrorMessage, Unacked;
  }

  lemma AckExact(cfg: Config, q: Queue, pc: Pc)
    requires ValidQueue(q) && SoloOk(cfg, q, pc) && pc.Busy? && pc.stage.Acking? && ExactOk(q, pc)
    ensures ExactOk(Ack(q, pc.m.id), NextMessage(pc.rest))
  {
    hide NoneLost;
    var q', m := Ack(q, pc.m.id), pc.m;
    assert Pending(q)[0] == m && Pending(q) == [m] + Pending(q)[1..];
    PendingAfterAckHead(q);
    AckKeepsKnown(q, m);
    hide ValidQueue, Pending;
    assert Pending(q')[..|pc.rest|] == pc.rest;
    forall j | j in q'.jobs
      ensures CountFor(Pending(q'), j) == Expected(q'.jobs[j], j, Idle)
    {
      CountAppend([m], Pending(q'), j);
      CountOne(m, j);
      assert CountFor(Pending(q), j) == Expected(q.jobs[j], j, pc);
    }
    hide CountFor;
    ExactStart(q', pc.rest);
  }

  lemma AppendExact(q: Queue, q': Queue, added: Message, pc: Pc, pc': Pc)
    requires CountsExact(q, pc) && Pending(q') == Pending(q) + [added]
    requires forall j :: j in q'.jobs && j in q.jobs ==>
               Expected(q'.jobs[j], j, pc') == Expected(q.jobs[j], j, pc) + if j == added.jobId then 1 else 0
    requires forall j :: j in q'.jobs && j !in q.jobs ==> j == added.jobId && Expected(q'.jobs[j], j, pc') == 1
    requires forall j :: j !in q.jobs ==> CountFor(Pending(q), j) == 0
    ensures CountsExact(q', pc')
  {
    hide Pending, CountFor, Expected;
    forall j | j in q'.jobs
      ensures CountFor(Pending(q'), j) == Expected(q'.jobs[j], j, pc')
    {
      CountAppend(Pending(q), [added], j);
      CountOne(added, j);
      if j in q.jobs {
        assert CountFor(Pending(q), j) == Expected(q.jobs[j], j, pc);
      }
    }
  }

  lemma UnknownJobsUnnamed(q: Queue)
    requires ValidQueue(q)
    ensures forall j :: j !in q.jobs ==> CountFor(Pending(q), j) == 0
  {
    PendingFacts(q);
    forall i | 0 <= i < |Pending(q)|
      ensures Pending(q)[i].jobId in q.jobs
    {
      assert Pending(q)[i] in Pending(q);
    }
    forall j | j !in q.jobs
      ensures CountFor(Pending(q), j) == 0
    {
      CountZero(Pending(q), j);
    }
  }

  lemma RequeueExact(cfg: Config, q: Queue, pc: Pc)
    requires ValidQueue(q) && SoloOk(cfg, q, pc) && pc.Busy? && pc.stage.Requeueing? && pc.stage.jobId == pc.m.jobId
    requires ExactOk(q, pc)
    ensures ExactOk(Requeue(q, pc.stage.jobId), Busy(pc.m, pc.rest, Acking))
  {
    var j, pc' := pc.m.jobId, Busy(pc.m, pc.rest, Acking);
    RequeuePending(q, j);
    UnknownJobsUnnamed(q);
    hide ValidQueue, Pending, CountFor;
    AppendExact(q, Requeue(q, j), Message(|q.messages| + 1, j, q.jobs[j]), pc, pc');
  }

  lemma EnqueueExact(q: Queue, pc: Pc, r: VideoDetectRequest, now: Time)
    requires ValidQueue(q) && ExactOk(q, pc) && (pc.Busy? ==> pc.m.jobId in q.jobs)
    ensures ExactOk(Enqueue(q, r, now), pc)
  {
    if ExistingJob(q, r).None? {
      var job := NewJob(r, now);
      EnqueueAdds(q, r, now);
      UnknownJobsUnnamed(q);
      hide ValidQueue, Pending, CountFor, DlqExact, Enqueue;
      AppendExact(q, Enqueue(q, r, now), Message(|q.messages| + 1, job.jobId, job), pc, pc);
      EnqueueDlq(q.jobs, q.dlq, AwaitingDlq(q, pc), job);
    }
  }

  lemma EnqueueDlq(jobs: map<string, VideoJob>, dlq: seq<DeadLetter>, awaiting: Option<string>, job: VideoJob)
    requires DlqExact(jobs, dlq, awaiting) && job.jobId !in jobs && job.status == Queued
    ensures DlqExact(jobs[job.jobId := job], dlq, awaiting)
  {
    forall j | j in jobs[job.jobId := job]
      ensures Dead(dlq, j) <==> jobs[job.jobId := job][j].status == FailedTerminal && awaiting != Some(j)
    {
      if j in jobs {
        assert Dead(dlq, j) <==> jobs[j].status == FailedTerminal && awaiting != Some(j);
      }
    }
  }

  lemma DeadLetterExact(cfg: Config, q: Queue, pc: Pc)
    requires ValidQueue(q) && SoloOk(cfg, q, pc) && pc.Busy? && pc.stage.DeadLettering? && ExactOk(q, pc)
    ensures ExactOk(AppendDeadLetter(q, pc.m, pc.stage.code, pc.stage.text), Busy(pc.m, pc.rest, Acking))
  {
    var q', pc', k := AppendDeadLetter(q, pc.m, pc.stage.code, pc.stage.text), Busy(pc.m, pc.rest, Acking), pc.m.jobId;
    assert Pending(q') == Pending(q);
    assert CountFor(Pending(q), k) == 1 by {
      hide CountFor;
      assert CountFor(Pending(q), k) == Expected(q.jobs[k], k, pc);
    }
    hide ValidQueue, Pending, CountFor, NoneLost;
    assert CountsExact(q', pc');
    DeadLetterDlq(q.jobs, q.dlq, q'.dlq[|q.dlq|], k);
  }

  lemma DeadLetterDlq(jobs: map<string, VideoJob>, dlq: seq<DeadLetter>, d: DeadLetter, k: string)
    requires DlqExact(jobs, dlq, Some(k)) && k in jobs && d.jobId == k
    requires jobs[k].status == FailedTerminal
    requires jobs[k].lastErrorCode == Some(d.errorCode) && jobs[k].lastErrorMessage == Some(d.errorMessage)
    ensures DlqExact(jobs, dlq + [d], None)
  {
    var dlq' := dlq + [d];
    assert !Dead(dlq, k);
    forall i | 0 <= i < |dlq|
      ensures dlq[i].jobId != k
    {
      assert Dead(dlq, dlq[i].jobId);
    }
    forall j | j in jobs
      ensures Dead(dlq', j) <==> jobs[j].status == FailedTerminal
    {
      assert Dead(dlq, j) <==> jobs[j].status == FailedTerminal && j != k;
      if Dead(dlq, j) {
        var i :| 0 <= i < |dlq| && dlq[i].jobId == j;
        assert dlq'[i].jobId == j;
      }
      if j == k {
        assert dlq'[|dlq|].jobId == j;
      }
    }
  }

  lemma WorkExact(cfg: Config, st: Stores, pc: Pc, c: Choice)
    requires StoresOk(cfg, st) && pc.Busy? && LocalOk(cfg, st, pc) && SoloOk(cfg, st.q, pc)
             && Allows(cfg, st, pc.stage, c)
    requires ExactOk(st.q, pc)
    ensures ExactOk(Effects(cfg, st, pc.m, pc.stage, c).q, AfterWork(cfg, st, pc, c))
  {
    hide ValidQueue, RowsOk, ResultsOk, FramesOwned, ActionsOk, LogOk, ClassifiedOk, ExactOk, SoloStage, NoneLost,
      InFlight;
    if pc.stage.Acking? {
      AckExact(cfg, st.q, pc);
    } else if pc.stage.Requeueing? {
      RequeueExact(cfg, st.q, pc);
    } else if pc.stage.DeadLettering? {
      DeadLetterExact(cfg, st.q, pc);
    } else {
      StatusExact(cfg, st, pc, c);
    }
  }

  predicate Exact(s: System) {
    |s.workers| == 1 && ExactOk(s.stores.q, s.workers[0])
  }

  lemma ReadExact(q: Queue, count: nat)
    requires ValidQueue(q) && ExactOk(q, Idle)
    ensures ExactOk(q, NextMessage(ReadMessages(q, count)))
  {
    ExactStart(q, ReadMessages(q, count));
    hide NextMessage, ReadMessages, ValidQueue;
  }

  lemma StepKeepsExact(cfg: Config, s: System, e: Event)
    requires SystemOk(cfg, s) && Solo(cfg, s) && Exact(s) && Enabled(cfg, s, e) && !e.Cut?
    ensures Exact(Apply(cfg, s, e))
  {
    hide RowsOk, ResultsOk, FramesOwned, ActionsOk, LogOk, ClassifiedOk, StageOk, SoloStage, NoneLost, OnePublisher,
      ExactOk, Effects, AfterWork, Enqueue, ReadMessages, NextMessage, Allows, MissedBy, ValidQueue, InFlight;
    var st, pc := s.stores, s.workers[0];
    match e {
      case ApiEnqueue(r, now) =>
        OwnJobKnown(cfg, st.q, pc);
        EnqueueExact(st.q, pc, r, now);
      case Read(w) => ReadExact(st.q, cfg.readCount);
      case Work(w, c) => WorkExact(cfg, st, pc, c);
    }
  }

  lemma OwnJobKnown(cfg: Config, q: Queue, pc: Pc)
    requires SoloOk(cfg, q, pc)
    ensures pc.Busy? ==> pc.m.jobId in q.jobs
  {
    hide NoneLost;
  }

  // ---------- runs ----------

  predicate NoCuts(events: seq<Event>) {
    forall i :: 0 <= i < |events| ==> !events[i].Cut?
  }

  lemma InitExact(cfg: Config)
    ensures Solo(cfg, Init(1)) && Accounted(cfg, Init(1)) && Exact(Init(1))
  {
    var q := EmptyQueue();
    assert Pending(q) == [];
    assert !exists j :: Dead([], j);
  }

  lemma {:induction false} SoloRun(cfg: Config, s: System, events: seq<Event>)
    requires SystemOk(cfg, s) && Solo(cfg, s) && Accounted(cfg, s) && ValidRun(cfg, s, events)
    ensures var s' := Run(cfg, s, events); SystemOk(cfg, s') && Solo(cfg, s') && Accounted(cfg, s')
    decreases |events|
  {
    hide SystemOk, Solo, Accounted, Apply, Enabled;
    if events != [] {
      StepKeepsSafe(cfg, s, events[0]);
      StepKeepsSolo(cfg, s, events[0]);
      StepKeepsAccounts(cfg, s, events[0]);
      SoloRun(cfg, Apply(cfg, s, events[0]), events[1..]);
    }
  }
}
