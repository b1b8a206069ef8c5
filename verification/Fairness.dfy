/** Service order of one uncut worker, and the absence of deadlock for any number of workers. */
module Fairness {
  import opened Common
  import opened VideoJobs
  import opened Failures
  import opened QueueState
  import opened Pipeline
  import opened PipelineSafety
  import opened SingleWorker
  import opened CutFree
  import opened Drain
  import Aggregation
  import ModerationPolicy

  /** The first `served` of the messages waiting at the start are handled or in hand; the others still come first. */
  predicate InOrder(q: Queue, pc: Pc, waiting: seq<Message>, served: nat) {
    && served <= |waiting| && |InFlight(pc)| <= |Pending(q)|
    && waiting[served..] <= Pending(q)[|InFlight(pc)|..]
    && forall p :: 0 <= p < served ==> waiting[p].id in q.acked || waiting[p] in InFlight(pc)
  }

  function Served(rounds: nat, count: nat, waiting: nat): nat {
    if rounds * count < waiting then rounds * count else waiting
  }

  lemma {:induction false} UnackedPrefix(messages: seq<Message>, messages': seq<Message>, acked: set<nat>)
    requires messages <= messages'
    ensures Unacked(messages, acked) <= Unacked(messages', acked)
  {
    if |messages| == |messages'| {
      assert messages == messages';
    } else {
      UnackedPrefix(messages, messages'[..|messages'| - 1], acked);
    }
  }

  lemma PrefixSlice(a: seq<Message>, b: seq<Message>, n: nat)
    requires a <= b && n <= |a|
    ensures a[n..] <= b[n..]
  {
  }

  /** New messages queue up behind, and nothing else moves. */
  lemma AppendInOrder(q: Queue, q': Queue, pc: Pc, pc': Pc, waiting: seq<Message>, served: nat)
    requires InOrder(q, pc, waiting, served)
    requires q.messages <= q'.messages && q'.acked == q.acked && InFlight(pc') == InFlight(pc)
    ensures InOrder(q', pc', waiting, served)
  {
    UnackedPrefix(q.messages, q'.messages, q.acked);
    PrefixSlice(Pending(q), Pending(q'), |InFlight(pc)|);
    hide Unacked, Pending, InFlight;
    assert waiting[served..] <= Pending(q)[|InFlight(pc)|..] <= Pending(q')[|InFlight(pc)|..];
  }

  lemma AckInOrder(cfg: Config, q: Queue, pc: Pc, waiting: seq<Message>, served: nat)
    requires ValidQueue(q) && SoloOk(cfg, q, pc) && pc.Busy? && InOrder(q, pc, waiting, served)
    ensures InOrder(Ack(q, pc.m.id), NextMessage(pc.rest), waiting, served)
  {
    hide NoneLost, SoloStage;
    assert Pending(q)[0] == pc.m;
    PendingAfterAckHead(q);
    hide ValidQueue, Pending;
    var q', pc' := Ack(q, pc.m.id), NextMessage(pc.rest);
    assert InFlight(pc') == pc.rest;
    assert Pending(q)[1..][|pc.rest|..] == Pending(q)[|InFlight(pc)|..];
    forall p | 0 <= p < served
      ensures waiting[p].id in q'.acked || waiting[p] in InFlight(pc')
    {
      if waiting[p] in InFlight(pc) && waiting[p] != pc.m {
        assert waiting[p] in pc.rest;
      }
    }
  }

  lemma ReadInOrder(q: Queue, count: nat, waiting: seq<Message>, rounds: nat)
    requires InOrder(q, Idle, waiting, Served(rounds, count, |waiting|))
    ensures InOrder(q, NextMessage(ReadMessages(q, count)), waiting, Served(rounds + 1, count, |waiting|))
  {
    var batch, pending := ReadMessages(q, count), Pending(q);
    var d, d' := Served(rounds, count, |waiting|), Served(rounds + 1, count, |waiting|);
    assert (rounds + 1) * count == rounds * count + count;
    assert InFlight(NextMessage(batch)) == batch;
    assert waiting[d..] <= pending[0..] == pending;
    hide Pending, Served, NextMessage, InFlight;
    assert d <= d' <= d + count && (d' < d + count ==> d' == |waiting|);
    BatchCovers(pending, batch, waiting, d, d', count);
  }

  /** A batch taken from the front reaches the waiting messages from `d` up to `d'`. */
  lemma BatchCovers(pending: seq<Message>, batch: seq<Message>, waiting: seq<Message>, d: nat, d': nat, count: nat)
    requires d <= d' <= |waiting| && d' <= d + count && (d' < d + count ==> d' == |waiting|)
    requires waiting[d..] <= pending && batch == if |pending| <= count then pending else pending[..count]
    ensures waiting[d'..] <= pending[|batch|..]
    ensures forall p :: d <= p < d' ==> waiting[p] in batch
  {
    forall p | d <= p < d'
      ensures waiting[p] in batch
    {
      assert waiting[p] == waiting[d..][p - d] == pending[p - d] == batch[p - d];
    }
    if d' < |waiting| {
      assert |batch| == count && waiting[d'..] == waiting[d..][count..];
      PrefixSlice(waiting[d..], pending, count);
    } else {
      assert waiting[d'..] == [];
    }
  }

  function Reads(events: seq<Event>): nat {
    if events == [] then 0 else (if events[0].Read? then 1 else 0) + Reads(events[1..])
  }

  lemma StepInOrder(cfg: Config, s: System, e: Event, waiting: seq<Message>, rounds: nat)
    requires SystemOk(cfg, s) && Solo(cfg, s) && Enabled(cfg, s, e) && !e.Cut?
    requires InOrder(s.stores.q, s.workers[0], waiting, Served(rounds, cfg.readCount, |waiting|))
    ensures var s' := Apply(cfg, s, e);
            && |s'.workers| == 1
            && InOrder(s'.stores.q, s'.workers[0], waiting,
                       Served(rounds + (if e.Read? then 1 else 0), cfg.readCount, |waiting|))
  {
    hide ValidQueue, RowsOk, ResultsOk, FramesOwned, ActionsOk, LogOk, ClassifiedOk, StageOk, SoloOk, OnePublisher,
      InOrder, Served, Effects, NextStage, NextMessage, Allows, MissedBy, Enqueue, ReadMessages, SameWork, Kept;
    var st, pc := s.stores, s.workers[0];
    match e {
      case ApiEnqueue(r, now) =>
        EnqueueAcks(st.q, r, now);
        AppendInOrder(st.q, Enqueue(st.q, r, now), pc, pc, waiting, Served(rounds, cfg.readCount, |waiting|));
      case Read(w) => ReadInOrder(st.q, cfg.readCount, waiting, rounds);
      case Work(w, c) => WorkInOrder(cfg, st, pc, c, waiting, Served(rounds, cfg.readCount, |waiting|));
    }
  }

  lemma WorkInOrder(cfg: Config, st: Stores, pc: Pc, c: Choice, waiting: seq<Message>, served: nat)
    requires StoresOk(cfg, st) && pc.Busy? && LocalOk(cfg, st, pc) && SoloOk(cfg, st.q, pc)
             && Allows(cfg, st, pc.stage, c)
    requires InOrder(st.q, pc, waiting, served)
    ensures InOrder(Effects(cfg, st, pc.m, pc.stage, c).q, AfterWork(cfg, st, pc, c), waiting, served)
  {
    hide ValidQueue, RowsOk, ResultsOk, FramesOwned, ActionsOk, LogOk, ClassifiedOk, StageOk, SoloOk, InOrder,
      Effects, NextStage, NextMessage, Allows, SameWork, Kept;
    if pc.stage.Acking? {
      AckEffect(cfg, st, pc, c);
      AckInOrder(cfg, st.q, pc, waiting, served);
    } else {
      OwnStep(cfg, st, pc, c);
      AckedStays(cfg, st, pc.m, pc.stage, c);
      AppendInOrder(st.q, Effects(cfg, st, pc.m, pc.stage, c).q, pc, AfterWork(cfg, st, pc, c), waiting, served);
    }
  }

  lemma EnqueueAcks(q: Queue, r: VideoDetectRequest, now: Time)
    ensures q.messages <= Enqueue(q, r, now).messages && Enqueue(q, r, now).acked == q.acked
  {
  }

  lemma {:induction false} RunInOrder(cfg: Config, s: System, events: seq<Event>, waiting: seq<Message>, rounds: nat)
    requires SystemOk(cfg, s) && Solo(cfg, s) && ValidRun(cfg, s, events) && NoCuts(events)
    requires InOrder(s.stores.q, s.workers[0], waiting, Served(rounds, cfg.readCount, |waiting|))
    ensures var s' := Run(cfg, s, events);
            && |s'.workers| == 1
            && InOrder(s'.stores.q, s'.workers[0], waiting, Served(rounds + Reads(events), cfg.readCount, |waiting|))
    decreases |events|
  {
    hide SystemOk, SoloOk, Apply, Enabled, InOrder, Served, Grows;
    if events != [] {
      StepKeepsSafe(cfg, s, events[0]);
      StepKeepsSolo(cfg, s, events[0]);
      StepInOrder(cfg, s, events[0], waiting, rounds);
      assert forall i :: 0 <= i < |events[1..]| ==> events[1..][i] == events[i + 1];
      RunInOrder(cfg, Apply(cfg, s, events[0]), events[1..], waiting, rounds + if events[0].Read? then 1 else 0);
    }
  }

  /** The message at position `p` of the queue is handled within `p / count + 1` rounds, whatever is enqueued or
      requeued meanwhile and however long the run. */
  lemma ServedWithinRounds(cfg: Config, s: System, events: seq<Event>, p: nat)
    requires SystemOk(cfg, s) && Solo(cfg, s) && s.workers[0].Idle? && cfg.readCount >= 1
    requires ValidRun(cfg, s, events) && NoCuts(events)
    requires p < |Pending(s.stores.q)| && Reads(events) >= p / cfg.readCount + 1
    ensures var s' := Run(cfg, s, events);
            |s'.workers| == 1 && (s'.workers[0].Idle? ==> Pending(s.stores.q)[p].id in s'.stores.q.acked)
  {
    hide SystemOk, SoloOk, Pending, InOrder, Reads, Enabled, Apply;
    var waiting, count, rounds := Pending(s.stores.q), cfg.readCount, Reads(events);
    BeginsInOrder(s.stores.q);
    RunInOrder(cfg, s, events, waiting, 0);
    PositionCovered(p, count, rounds);
    assert p < Served(rounds, count, |waiting|);
    var s' := Run(cfg, s, events);
    hide Solo, ValidRun, Run, Served;
    if s'.workers[0].Idle? {
      ServedIsAcked(s'.stores.q, waiting, Served(rounds, count, |waiting|), p);
    }
  }

  lemma BeginsInOrder(q: Queue)
    ensures InOrder(q, Idle, Pending(q), 0)
  {
    hide Pending;
  }

  lemma ServedIsAcked(q: Queue, waiting: seq<Message>, served: nat, p: nat)
    requires InOrder(q, Idle, waiting, served) && p < served
    ensures waiting[p].id in q.acked
  {
    hide Pending;
  }

  lemma PositionCovered(p: nat, count: nat, rounds: nat)
    requires count >= 1 && rounds >= p / count + 1
    ensures p < rounds * count
  {
    assert (p / count + 1) * count > p;
    assert rounds * count >= (p / count + 1) * count;
  }

  /** No worker is ever stuck: at every stage some outcome is possible, and an idle worker may always read. */
  lemma NeverStuck(cfg: Config, s: System, w: nat) returns (e: Event)
    requires SystemOk(cfg, s) && w < |s.workers|
    ensures Enabled(cfg, s, e) && !e.Cut? && !e.ApiEnqueue? && e.w == w
  {
    hide StoresOk, OnePublisher, StageOk, Allows;
    var pc := s.workers[w];
    if pc.Idle? {
      e := Read(w);
    } else {
      e := Work(w, SomeChoice(pc.stage));
      SomeChoiceAllowed(cfg, s.stores, pc);
    }
  }

  /** Fail where success needs a verdict or an uncontested commit, succeed elsewhere. */
  function SomeChoice(stage: Stage): Choice {
    var nothing := Aggregation.VideoResult(
      "", "", "", "", "", false, 0.0, ModerationPolicy.Safe, 0, 0, 0, false, 0.0, map[],
      Aggregation.Neutral, Aggregation.VeryUnlikely);
    var outcome := if stage.Computing? || stage.Committing? then Raised(OtherError("TimeoutError", "")) else Done;
    Choice(0, outcome, Verdict([], nothing), "")
  }

  lemma SomeChoiceAllowed(cfg: Config, st: Stores, pc: Pc)
    requires pc.Busy? && LocalOk(cfg, st, pc)
    ensures Allows(cfg, st, pc.stage, SomeChoice(pc.stage))
  {
    hide EffectsOf, Script, CommitOf, VerdictFor;
  }
}
