/** Several flushers on one buffer: exactly when a trim removes a row that was never inserted. */
module FlusherPool {
  import opened ReplacingTable
  import opened ClickHouseBuffer
  import Flusher

  /** A flusher between its reads and trims; `base` is the position in the history of pushes where its batch begins. */
  datatype Holding = Free | Carrying(base: nat, rows: seq<Row>) | Delivered(count: nat)

  /** `sent` is the end of the furthest batch inserted so far, `inserted` the positions of all rows inserted. */
  datatype Pool = Pool(
    buffer: seq<Row>,
    holdings: seq<Holding>,
    pushed: seq<Row>,
    trimmed: nat,
    sent: nat,
    inserted: set<nat>
  )

  datatype Step =
    | Push(row: Row)
    | Read(f: nat)
    | Insert(f: nat, outcome: Flusher.InsertOutcome)
    | Trim(f: nat)
    | Cut(f: nat)

  function EmptyPool(flushers: nat): Pool {
    Pool([], seq(flushers, _ => Free), [], 0, 0, {})
  }

  predicate Possible(p: Pool, e: Step) {
    match e
    case Push(_) => true
    case Read(f) => f < |p.holdings| && p.holdings[f].Free?
    case Insert(f, _) => f < |p.holdings| && p.holdings[f].Carrying?
    case Trim(f) => f < |p.holdings| && p.holdings[f].Delivered?
    case Cut(f) => f < |p.holdings|
  }

  function Max(a: nat, b: nat): nat {
    if a < b then b else a
  }

  /** Where the buffer begins after this flusher's trim. */
  function TrimEnd(p: Pool, f: nat): nat
    requires f < |p.holdings| && p.holdings[f].Delivered?
  {
    p.trimmed + |Take(p.buffer, p.holdings[f].count)|
  }

  /** The positions of `n` rows from `base` on. */
  function Span(base: nat, n: nat): (positions: set<nat>)
    ensures forall i :: i in positions <==> base <= i < base + n
  {
    if n == 0 then {} else Span(base, n - 1) + {base + n - 1}
  }

  /** Each flusher has its own batch size. */
  function After(limits: seq<nat>, p: Pool, e: Step): Pool
    requires |limits| == |p.holdings| && Possible(p, e)
  {
    match e
    case Push(row) => p.(buffer := p.buffer + [row], pushed := p.pushed + [row])
    case Read(f) =>
      var rows := Take(p.buffer, limits[f]);
      if rows == [] then p else p.(holdings := p.holdings[f := Carrying(p.trimmed, rows)])
    case Insert(f, outcome) =>
      var h := p.holdings[f];
      if outcome.Refused? then p.(holdings := p.holdings[f := Free]) else
      p.(sent := Max(p.sent, h.base + |h.rows|),
        inserted := p.inserted + Span(h.base, |h.rows|),
        holdings := p.holdings[f := if outcome.Stored? then Delivered(|h.rows|) else Free])
    case Trim(f) =>
      p.(buffer := Drop(p.buffer, p.holdings[f].count), trimmed := TrimEnd(p, f), holdings := p.holdings[f := Free])
    case Cut(f) => p.(holdings := p.holdings[f := Free])
  }

  predicate ValidSteps(limits: seq<nat>, p: Pool, steps: seq<Step>)
    requires |limits| == |p.holdings|
    decreases |steps|
  {
    steps == [] || (Possible(p, steps[0]) && ValidSteps(limits, After(limits, p, steps[0]), steps[1..]))
  }

  /** Every trimmed row was inserted. */
  predicate Intact(p: Pool) {
    forall i :: 0 <= i < p.trimmed ==> i in p.inserted
  }

  predicate IntactThroughout(limits: seq<nat>, p: Pool, steps: seq<Step>)
    requires |limits| == |p.holdings| && ValidSteps(limits, p, steps)
    decreases |steps|
  {
    Intact(p) && (steps == [] || IntactThroughout(limits, After(limits, p, steps[0]), steps[1..]))
  }

  // ---------- the exact condition ----------

  predicate CarriedOk(p: Pool, h: Holding) {
    h.Carrying? ==> h.base <= p.trimmed && 0 < |h.rows| && h.base + |h.rows| <= |p.pushed|
  }

  /** What holds as long as nothing was lost: the rows inserted are a prefix of the pushes that reaches the buffer. */
  ghost predicate PoolOk(p: Pool) {
    && p.trimmed <= p.sent <= |p.pushed| && p.trimmed + |p.buffer| == |p.pushed|
    && (forall i :: i in p.inserted <==> 0 <= i < p.sent)
    && (forall f :: 0 <= f < |p.holdings| ==> CarriedOk(p, p.holdings[f]))
  }

  /** A trim stays within what has been inserted; everything else is harmless. */
  predicate Within(p: Pool, e: Step)
    requires Possible(p, e)
  {
    e.Trim? ==> TrimEnd(p, e.f) <= p.sent
  }

  predicate AllWithin(limits: seq<nat>, p: Pool, steps: seq<Step>)
    requires |limits| == |p.holdings| && ValidSteps(limits, p, steps)
    decreases |steps|
  {
    steps == [] || (Within(p, steps[0]) && AllWithin(limits, After(limits, p, steps[0]), steps[1..]))
  }

  /** One step from a state that has lost nothing: it loses a row exactly if it is a trim that reaches past the furthest
      row inserted. */
  lemma StepLosesExactly(limits: seq<nat>, p: Pool, e: Step)
    requires |limits| == |p.holdings| && PoolOk(p) && Possible(p, e)
    ensures Intact(After(limits, p, e)) <==> Within(p, e)
    ensures Within(p, e) ==> PoolOk(After(limits, p, e))
  {
    var p' := After(limits, p, e);
    if e.Trim? && TrimEnd(p, e.f) > p.sent {
      assert p.sent !in p'.inserted;
    }
    forall f | 0 <= f < |p'.holdings| && Within(p, e)
      ensures CarriedOk(p', p'.holdings[f])
    {
      assert CarriedOk(p, p.holdings[f]);
    }
    if e.Insert? && !e.outcome.Refused? {
      assert CarriedOk(p, p.holdings[e.f]);
    }
  }

  lemma {:induction false} StepsLoseExactly(limits: seq<nat>, p: Pool, steps: seq<Step>)
    requires |limits| == |p.holdings| && PoolOk(p) && ValidSteps(limits, p, steps)
    ensures IntactThroughout(limits, p, steps) <==> AllWithin(limits, p, steps)
    decreases |steps|
  {
    if steps != [] {
      StepLosesExactly(limits, p, steps[0]);
      hide PoolOk, Within;
      if Within(p, steps[0]) {
        StepsLoseExactly(limits, After(limits, p, steps[0]), steps[1..]);
      }
    }
  }

  /** Any number of flushers, any run: no trimmed row is ever missing from the table exactly when every trim stays
      within what has been inserted. */
  lemma NothingLostExactly(limits: seq<nat>, steps: seq<Step>)
    requires ValidSteps(limits, EmptyPool(|limits|), steps)
    ensures IntactThroughout(limits, EmptyPool(|limits|), steps) <==> AllWithin(limits, EmptyPool(|limits|), steps)
  {
    StepsLoseExactly(limits, EmptyPool(|limits|), steps);
  }

  // ---------- rounds that do not overlap ----------

  predicate AllFree(p: Pool) {
    forall f :: 0 <= f < |p.holdings| ==> p.holdings[f].Free?
  }

  /** A flusher reads only while no other one is in a round. */
  predicate OneAtATime(limits: seq<nat>, p: Pool, steps: seq<Step>)
    requires |limits| == |p.holdings| && ValidSteps(limits, p, steps)
    decreases |steps|
  {
    steps == [] || ((steps[0].Read? ==> AllFree(p)) && OneAtATime(limits, After(limits, p, steps[0]), steps[1..]))
  }

  /** At most one flusher is in a round, and its batch begins where the buffer does. */
  predicate Orderly(p: Pool) {
    && (forall f, g :: 0 <= f < g < |p.holdings| ==> p.holdings[f].Free? || p.holdings[g].Free?)
    && (forall f :: 0 <= f < |p.holdings| && p.holdings[f].Carrying? ==> p.holdings[f].base == p.trimmed)
    && (forall f :: 0 <= f < |p.holdings| && p.holdings[f].Delivered? ==> p.trimmed + p.holdings[f].count <= p.sent)
  }

  lemma {:induction false} OrderlyIsWithin(limits: seq<nat>, p: Pool, steps: seq<Step>)
    requires |limits| == |p.holdings| && PoolOk(p) && Orderly(p)
    requires ValidSteps(limits, p, steps) && OneAtATime(limits, p, steps)
    ensures AllWithin(limits, p, steps)
    decreases |steps|
  {
    if steps != [] {
      var e := steps[0];
      StepLosesExactly(limits, p, e);
      hide PoolOk;
      assert Orderly(After(limits, p, e));
      OrderlyIsWithin(limits, After(limits, p, e), steps[1..]);
    }
  }

  /** Rounds that do not overlap lose nothing, however many flushers take turns and whatever is cut or refused. */
  lemma TurnsLoseNothing(limits: seq<nat>, steps: seq<Step>)
    requires ValidSteps(limits, EmptyPool(|limits|), steps) && OneAtATime(limits, EmptyPool(|limits|), steps)
    ensures IntactThroughout(limits, EmptyPool(|limits|), steps)
  {
    OrderlyIsWithin(limits, EmptyPool(|limits|), steps);
    NothingLostExactly(limits, steps);
  }

  // ---------- two overlapping rounds ----------

  function Min(a: nat, b: nat): nat {
    if a < b then a else b
  }

  /** How far a flusher is in the one round considered. */
  datatype Progress = ToRead | ToInsert | ToTrim | Finished

  function Next(x: Progress): Progress {
    match x
    case ToRead => ToInsert
    case ToInsert => ToTrim
    case ToTrim => Finished
    case Finished => Finished
  }

  /** The flusher at `x` may go on like this while the other one is at `other`: both read before either trims, and both
      inserts are stored. */
  predicate Fits(e: Step, x: Progress, other: Progress) {
    match e
    case Read(_) => x.ToRead? && !other.Finished?
    case Insert(_, outcome) => x.ToInsert? && outcome.Stored?
    case Trim(_) => x.ToTrim? && !other.ToRead?
    case _ => false
  }

  /** The steps finish one round of each flusher, interleaved in any way that fits, with pushes anywhere in between. */
  predicate Overlapping(steps: seq<Step>, a: nat, b: nat, x: Progress, y: Progress)
    decreases |steps|
  {
    if steps == [] then x.Finished? && y.Finished?
    else if steps[0].Push? then Overlapping(steps[1..], a, b, x, y)
    else if steps[0].f == a then Fits(steps[0], x, y) && Overlapping(steps[1..], a, b, Next(x), y)
    else steps[0].f == b && Fits(steps[0], y, x) && Overlapping(steps[1..], a, b, x, Next(y))
  }

  function Pushes(e: Step): nat {
    if e.Push? then 1 else 0
  }

  /** The length of the batch this flusher reads next, from a buffer of `buffered` rows. */
  function BatchLength(limit: nat, buffered: nat, steps: seq<Step>, f: nat): nat
    decreases |steps|
  {
    if steps == [] then 0
    else if steps[0] == Read(f) then Min(limit, buffered)
    else BatchLength(limit, buffered + Pushes(steps[0]), steps[1..], f)
  }

  predicate Trims(steps: seq<Step>) {
    exists k :: 0 <= k < |steps| && steps[k].Trim?
  }

  /** The rows that arrive before the last trim. */
  function Arrivals(steps: seq<Step>): nat
    decreases |steps|
  {
    if Trims(steps) then Pushes(steps[0]) + Arrivals(steps[1..]) else 0
  }

  /** Where a flusher's round stands: its batch of `n` rows begins at position `base` of the pushes. */
  predicate Stands(limit: nat, p: Pool, steps: seq<Step>, f: nat, x: Progress, base: nat, n: nat)
    requires f < |p.holdings|
  {
    match x
    case ToRead => p.holdings[f].Free? && p.trimmed == base && n == BatchLength(limit, |p.buffer|, steps, f)
    case ToInsert => p.holdings[f].Carrying? && p.holdings[f].base == base && |p.holdings[f].rows| == n
    case ToTrim => p.holdings[f] == Delivered(n) && base + n <= p.sent
    case Finished => p.holdings[f].Free? && base + n <= p.sent
  }

  /** Both rounds of an overlap before its last trim; what has been trimmed since `base` is the batch of the finished
      one. */
  predicate Midway(limits: seq<nat>, p: Pool, steps: seq<Step>, a: nat, b: nat, x: Progress, y: Progress, base: nat,
                   first: nat, second: nat)
    requires |limits| == |p.holdings| && a < |limits| && b < |limits|
  {
    && Stands(limits[a], p, steps, a, x, base, first) && Stands(limits[b], p, steps, b, y, base, second)
    && !(x.Finished? && y.Finished?) && (x.Finished? ==> !y.ToRead?) && (y.Finished? ==> !x.ToRead?)
    && p.trimmed == base + (if x.Finished? then first else 0) + (if y.Finished? then second else 0)
  }

  /** The rows of the buffer that were inserted already, by a round that did not trim. */
  function Known(p: Pool): nat {
    if p.trimmed <= p.sent then p.sent - p.trimmed else 0
  }

  /** The last trim ends within what has been inserted by then. */
  predicate LastTrimWithin(p: Pool, steps: seq<Step>, base: nat, first: nat, second: nat) {
    Min(base + first + second, |p.pushed| + Arrivals(steps)) <= Max(p.sent, base + Max(first, second))
  }

  lemma TrimsRest(steps: seq<Step>)
    requires steps != []
    ensures Trims(steps) <==> steps[0].Trim? || Trims(steps[1..])
  {
    if Trims(steps[1..]) {
      var k :| 0 <= k < |steps[1..]| && steps[1..][k].Trim?;
      assert steps[k + 1].Trim?;
    }
  }

  lemma {:induction false} UnfinishedTrims(steps: seq<Step>, a: nat, b: nat, x: Progress, y: Progress)
    requires Overlapping(steps, a, b, x, y)
    ensures Trims(steps) <==> !(x.Finished? && y.Finished?)
    decreases |steps|
  {
    if steps != [] {
      TrimsRest(steps);
      hide Trims;
      if steps[0].Push? {
        UnfinishedTrims(steps[1..], a, b, x, y);
      } else if steps[0].f == a {
        UnfinishedTrims(steps[1..], a, b, Next(x), y);
      } else {
        UnfinishedTrims(steps[1..], a, b, x, Next(y));
      }
    }
  }

  lemma {:induction false} Mirrored(steps: seq<Step>, a: nat, b: nat, x: Progress, y: Progress)
    requires a != b && Overlapping(steps, a, b, x, y)
    ensures Overlapping(steps, b, a, y, x)
    decreases |steps|
  {
    if steps != [] {
      if steps[0].Push? {
        Mirrored(steps[1..], a, b, x, y);
      } else if steps[0].f == a {
        Mirrored(steps[1..], a, b, Next(x), y);
      } else {
        Mirrored(steps[1..], a, b, x, Next(y));
      }
    }
  }

  /** Both flushers have trimmed: the remaining pushes are harmless. */
  lemma {:induction false} PushesAreWithin(limits: seq<nat>, p: Pool, steps: seq<Step>, a: nat, b: nat)
    requires |limits| == |p.holdings| && ValidSteps(limits, p, steps) && Overlapping(steps, a, b, Finished, Finished)
    ensures AllWithin(limits, p, steps)
    decreases |steps|
  {
    if steps != [] {
      PushesAreWithin(limits, After(limits, p, steps[0]), steps[1..], a, b);
    }
  }

  /** A flusher that read nothing has no batch to insert. */
  lemma {:induction false} NothingToInsert(limits: seq<nat>, p: Pool, steps: seq<Step>, a: nat, b: nat, y: Progress)
    requires |limits| == |p.holdings| && a < |limits| && a != b && p.holdings[a].Free?
    requires ValidSteps(limits, p, steps)
    ensures !Overlapping(steps, a, b, ToInsert, y)
    decreases |steps|
  {
    if steps != [] {
      var p' := After(limits, p, steps[0]);
      if Overlapping(steps, a, b, ToInsert, y) {
        NothingToInsert(limits, p', steps[1..], a, b, if steps[0].Push? then y else Next(y));
      }
    }
  }

  lemma {:induction false} ReadsSomething(limits: seq<nat>, p: Pool, steps: seq<Step>, a: nat, b: nat, y: Progress)
    requires |limits| == |p.holdings| && a < |limits| && a != b && p.holdings[a].Free?
    requires ValidSteps(limits, p, steps) && Overlapping(steps, a, b, ToRead, y) && !y.Finished?
    ensures BatchLength(limits[a], |p.buffer|, steps, a) > 0
    decreases |steps|
  {
    var e, rest := steps[0], steps[1..];
    var p' := After(limits, p, e);
    if e.Push? {
      ReadsSomething(limits, p', rest, a, b, y);
    } else if e.f == a {
      if Min(limits[a], |p.buffer|) == 0 {
        NothingToInsert(limits, p', rest, a, b, y);
      }
    } else if !Next(y).Finished? {
      ReadsSomething(limits, p', rest, a, b, Next(y));
    }
  }

  /** Where the flusher that does not move stands. */
  lemma OtherStands(limits: seq<nat>, p: Pool, steps: seq<Step>, f: nat, x: Progress, base: nat, n: nat)
    requires |limits| == |p.holdings| && f < |limits| && steps != [] && Possible(p, steps[0])
    requires !steps[0].Push? && !steps[0].Cut? && steps[0].f != f && (steps[0].Trim? ==> !x.ToRead?)
    requires Stands(limits[f], p, steps, f, x, base, n)
    ensures Stands(limits[f], After(limits, p, steps[0]), steps[1..], f, x, base, n)
  {
  }

  /** Where the flusher that moves stands then. */
  lemma OwnStands(limits: seq<nat>, p: Pool, steps: seq<Step>, f: nat, x: Progress, other: Progress, base: nat, n: nat)
    requires |limits| == |p.holdings| && f < |limits| && steps != [] && Possible(p, steps[0]) && PoolOk(p)
    requires !steps[0].Push? && !steps[0].Cut? && steps[0].f == f && Fits(steps[0], x, other)
    requires Stands(limits[f], p, steps, f, x, base, n)
    requires x.ToRead? ==> !After(limits, p, steps[0]).holdings[f].Free?
    ensures Stands(limits[f], After(limits, p, steps[0]), steps[1..], f, Next(x), base, n)
  {
    assert CarriedOk(p, p.holdings[f]);
  }

  /** Only inserts move the end of what has been inserted, and only trims the beginning of the buffer. */
  lemma OwnEnds(limits: seq<nat>, p: Pool, steps: seq<Step>, f: nat, x: Progress, other: Progress, base: nat, n: nat)
    requires |limits| == |p.holdings| && f < |limits| && steps != [] && Possible(p, steps[0]) && PoolOk(p)
    requires !steps[0].Push? && !steps[0].Cut? && steps[0].f == f && Fits(steps[0], x, other)
    requires Stands(limits[f], p, steps, f, x, base, n)
    ensures var p' := After(limits, p, steps[0]);
            && p'.pushed == p.pushed
            && p'.sent == (if x.ToInsert? then Max(p.sent, base + n) else p.sent)
            && p'.trimmed == (if x.ToTrim? then Min(p.trimmed + n, |p.pushed|) else p.trimmed)
    ensures x.ToTrim? ==> TrimEnd(p, f) == Min(p.trimmed + n, |p.pushed|)
  {
    assert CarriedOk(p, p.holdings[f]);
  }

  /** A batch that was read lies within the pushes, one that was inserted within what has been inserted. */
  lemma StoodWithin(limit: nat, p: Pool, steps: seq<Step>, f: nat, x: Progress, base: nat, n: nat)
    requires PoolOk(p) && f < |p.holdings| && Stands(limit, p, steps, f, x, base, n)
    ensures p.trimmed <= p.sent <= |p.pushed|
    ensures !x.ToRead? ==> base + n <= |p.pushed|
    ensures x.ToTrim? || x.Finished? ==> base + n <= p.sent
  {
    assert CarriedOk(p, p.holdings[f]);
  }

  /** After a step of the first flusher that is not the last trim. */
  lemma MidwayNext(limits: seq<nat>, p: Pool, steps: seq<Step>, a: nat, b: nat, x: Progress, y: Progress, base: nat,
                   first: nat, second: nat)
    requires |limits| == |p.holdings| && a < |limits| && b < |limits| && a != b && PoolOk(p)
    requires steps != [] && !steps[0].Push? && !steps[0].Cut? && steps[0].f == a && Possible(p, steps[0])
    requires Fits(steps[0], x, y) && Midway(limits, p, steps, a, b, x, y, base, first, second)
    requires x.ToRead? ==> !After(limits, p, steps[0]).holdings[a].Free?
    requires !(x.ToTrim? && y.Finished?)
    ensures Midway(limits, After(limits, p, steps[0]), steps[1..], a, b, Next(x), y, base, first, second)
  {
    OwnStands(limits, p, steps, a, x, y, base, first);
    OwnEnds(limits, p, steps, a, x, y, base, first);
    OtherStands(limits, p, steps, b, y, base, second);
    StoodWithin(limits[a], p, steps, a, x, base, first);
    hide After, Stands, PoolOk, TrimEnd, Possible;
  }

  lemma LastTrimNext(limits: seq<nat>, p: Pool, steps: seq<Step>, a: nat, b: nat, x: Progress, y: Progress, base: nat,
                     first: nat, second: nat)
    requires |limits| == |p.holdings| && a < |limits| && b < |limits| && a != b && PoolOk(p)
    requires steps != [] && !steps[0].Push? && !steps[0].Cut? && steps[0].f == a && Possible(p, steps[0])
    requires Fits(steps[0], x, y) && Midway(limits, p, steps, a, b, x, y, base, first, second)
    requires Trims(steps[1..])
    ensures LastTrimWithin(After(limits, p, steps[0]), steps[1..], base, first, second) <==>
            LastTrimWithin(p, steps, base, first, second)
  {
    TrimsRest(steps);
    OwnEnds(limits, p, steps, a, x, y, base, first);
    hide Trims, After, Stands, PoolOk, TrimEnd, Possible, Midway;
    assert Arrivals(steps[1..]) == Arrivals(steps);
  }

  /** A trim before the last one is harmless. */
  lemma WithinExactly(limits: seq<nat>, p: Pool, steps: seq<Step>, a: nat, b: nat, x: Progress, y: Progress, base: nat,
                      first: nat, second: nat)
    requires |limits| == |p.holdings| && a < |limits| && b < |limits| && a != b && PoolOk(p)
    requires steps != [] && !steps[0].Push? && !steps[0].Cut? && steps[0].f == a && Possible(p, steps[0])
    requires Fits(steps[0], x, y) && Midway(limits, p, steps, a, b, x, y, base, first, second)
    requires x.ToTrim? && y.Finished? ==> !Trims(steps[1..])
    ensures Within(p, steps[0]) <==> (x.ToTrim? && y.Finished? ==> LastTrimWithin(p, steps, base, first, second))
  {
    OwnEnds(limits, p, steps, a, x, y, base, first);
    StoodWithin(limits[a], p, steps, a, x, base, first);
    StoodWithin(limits[b], p, steps, b, y, base, second);
    hide Trims, After, Stands, PoolOk, TrimEnd, Possible;
    assert x.ToTrim? && y.Finished? ==> Arrivals(steps) == 0;
  }

  lemma MidwayPush(limits: seq<nat>, p: Pool, steps: seq<Step>, a: nat, b: nat, x: Progress, y: Progress, base: nat,
                   first: nat, second: nat)
    requires |limits| == |p.holdings| && a < |limits| && b < |limits|
    requires steps != [] && steps[0].Push? && Trims(steps)
    requires Midway(limits, p, steps, a, b, x, y, base, first, second)
    ensures var p' := After(limits, p, steps[0]);
            && Midway(limits, p', steps[1..], a, b, x, y, base, first, second)
            && (LastTrimWithin(p', steps[1..], base, first, second) <==>
                LastTrimWithin(p, steps, base, first, second))
  {
    hide Trims;
  }

  lemma MirroredMidway(limits: seq<nat>, p: Pool, steps: seq<Step>, a: nat, b: nat, x: Progress, y: Progress,
                       base: nat, first: nat, second: nat)
    requires |limits| == |p.holdings| && a < |limits| && b < |limits|
    ensures Midway(limits, p, steps, a, b, x, y, base, first, second) <==>
            Midway(limits, p, steps, b, a, y, x, base, second, first)
    ensures LastTrimWithin(p, steps, base, first, second) <==> LastTrimWithin(p, steps, base, second, first)
  {
    hide Stands, Arrivals;
  }

  /** The suffix of an overlap, from the next step of either flusher on. */
  lemma {:induction false} MidwayLosesExactly(limits: seq<nat>, p: Pool, steps: seq<Step>, a: nat, b: nat,
                                              x: Progress, y: Progress, base: nat, first: nat, second: nat)
    requires |limits| == |p.holdings| && a < |limits| && b < |limits| && a != b && PoolOk(p)
    requires ValidSteps(limits, p, steps) && Overlapping(steps, a, b, x, y)
    requires Midway(limits, p, steps, a, b, x, y, base, first, second)
    ensures AllWithin(limits, p, steps) <==> LastTrimWithin(p, steps, base, first, second)
    decreases |steps|, if steps != [] && !steps[0].Push? && steps[0].f != a then 1 else 0
  {
    UnfinishedTrims(steps, a, b, x, y);
    hide Trims, BatchLength, Arrivals, PoolOk, LastTrimWithin, After, Midway;
    var e, rest := steps[0], steps[1..];
    var p' := After(limits, p, e);
    StepLosesExactly(limits, p, e);
    if e.Push? {
      MidwayPush(limits, p, steps, a, b, x, y, base, first, second);
      MidwayLosesExactly(limits, p', rest, a, b, x, y, base, first, second);
    } else if e.f != a {
      Mirrored(steps, a, b, x, y);
      MirroredMidway(limits, p, steps, a, b, x, y, base, first, second);
      MidwayLosesExactly(limits, p, steps, b, a, y, x, base, second, first);
    } else {
      UnfinishedTrims(rest, a, b, Next(x), y);
      if x.ToRead? && p'.holdings[a].Free? {
        NothingToInsert(limits, p', rest, a, b, y);
      }
      WithinExactly(limits, p, steps, a, b, x, y, base, first, second);
      hide Within;
      if x.ToTrim? && y.Finished? {
        if Within(p, e) {
          PushesAreWithin(limits, p', rest, a, b);
        }
      } else {
        MidwayNext(limits, p, steps, a, b, x, y, base, first, second);
        LastTrimNext(limits, p, steps, a, b, x, y, base, first, second);
        MidwayLosesExactly(limits, p', rest, a, b, Next(x), y, base, first, second);
      }
    }
  }

  lemma OverlapBegins(limits: seq<nat>, p: Pool, steps: seq<Step>, a: nat, b: nat)
    requires |limits| == |p.holdings| && AllFree(p) && a < |limits| && b < |limits|
    ensures Midway(limits, p, steps, a, b, ToRead, ToRead, p.trimmed, BatchLength(limits[a], |p.buffer|, steps, a),
                   BatchLength(limits[b], |p.buffer|, steps, b))
  {
    hide BatchLength;
  }

  lemma FromTheBuffer(p: Pool, steps: seq<Step>, first: nat, second: nat)
    requires PoolOk(p)
    ensures LastTrimWithin(p, steps, p.trimmed, first, second) <==>
            Min(first + second, |p.buffer| + Arrivals(steps)) <= Max(Known(p), Max(first, second))
  {
    hide Arrivals;
  }

  lemma OverlapWithin(limits: seq<nat>, p: Pool, steps: seq<Step>, a: nat, b: nat, first: nat, second: nat)
    requires |limits| == |p.holdings| && PoolOk(p) && AllFree(p) && a < |limits| && b < |limits| && a != b
    requires ValidSteps(limits, p, steps) && Overlapping(steps, a, b, ToRead, ToRead)
    requires first == BatchLength(limits[a], |p.buffer|, steps, a)
    requires second == BatchLength(limits[b], |p.buffer|, steps, b)
    ensures IntactThroughout(limits, p, steps) <==> LastTrimWithin(p, steps, p.trimmed, first, second)
  {
    hide *;
    StepsLoseExactly(limits, p, steps);
    OverlapBegins(limits, p, steps, a, b);
    MidwayLosesExactly(limits, p, steps, a, b, ToRead, ToRead, p.trimmed, first, second);
  }

  /** Two rounds that both read before either trims, in every interleaving, with rows arriving at any time, from any
      state without open rounds, of whose buffer `Known` rows were inserted earlier: with batches of `first` and
      `second` rows, a row is lost exactly when both trims together reach past the longer batch and past those rows. */
  lemma OverlapLosesExactly(limits: seq<nat>, p: Pool, steps: seq<Step>, a: nat, b: nat, first: nat, second: nat)
    requires |limits| == |p.holdings| && PoolOk(p) && AllFree(p) && a < |limits| && b < |limits| && a != b
    requires ValidSteps(limits, p, steps) && Overlapping(steps, a, b, ToRead, ToRead)
    requires first == BatchLength(limits[a], |p.buffer|, steps, a)
    requires second == BatchLength(limits[b], |p.buffer|, steps, b)
    ensures IntactThroughout(limits, p, steps) <==>
            Min(first + second, |p.buffer| + Arrivals(steps)) <= Max(Known(p), Max(first, second))
  {
    FromTheBuffer(p, steps, first, second);
    hide *;
    OverlapWithin(limits, p, steps, a, b, first, second);
  }

  lemma DoubledBuffer(n: nat, arrivals: nat, known: nat)
    requires n > 0 && known <= n
    ensures Min(n + n, n + arrivals) <= Max(known, Max(n, n)) <==> arrivals == 0
  {
  }

  /** When both flushers read the whole buffer, every row that arrives before the second trim is at stake: nothing is
      lost exactly when none arrives. */
  lemma WholeBufferTwice(limits: seq<nat>, p: Pool, steps: seq<Step>, a: nat, b: nat)
    requires |limits| == |p.holdings| && PoolOk(p) && AllFree(p) && a < |limits| && b < |limits| && a != b
    requires ValidSteps(limits, p, steps) && Overlapping(steps, a, b, ToRead, ToRead)
    requires BatchLength(limits[a], |p.buffer|, steps, a) == |p.buffer| == BatchLength(limits[b], |p.buffer|, steps, b)
    ensures IntactThroughout(limits, p, steps) <==> Arrivals(steps) == 0
  {
    assert p.holdings[a].Free?;
    assert Known(p) <= |p.buffer|;
    hide *;
    ReadsSomething(limits, p, steps, a, b, ToRead);
    OverlapLosesExactly(limits, p, steps, a, b, |p.buffer|, |p.buffer|);
    DoubledBuffer(|p.buffer|, Arrivals(steps), Known(p));
  }
}
