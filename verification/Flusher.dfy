/** The flusher of one buffer as a transition system: pushes in between, inserts that fail before or after taking
    effect, and a cut at any step. */
module Flusher {
  import opened ReplacingTable
  import opened ClickHouseBuffer

  datatype InsertOutcome = Stored | Refused | StoredUnanswered

  datatype Stage = Resting | Loaded(rows: seq<Row>) | Written(count: nat)

  /** `pushed` is the history of pushes, `trimmed` counts the trimmed rows, `sent` the rows of the history inserted at
      least once. */
  datatype Channel = Channel(
    buffer: seq<Row>,
    table: seq<Row>,
    stage: Stage,
    pushed: seq<Row>,
    trimmed: nat,
    sent: nat
  )

  datatype Event = Push(row: Row) | Read | Insert(outcome: InsertOutcome) | Trim | Cut

  function Empty(): Channel {
    Channel([], [], Resting, [], 0, 0)
  }

  predicate Enabled(ch: Channel, e: Event) {
    match e
    case Push(_) => true
    case Read => ch.stage.Resting?
    case Insert(_) => ch.stage.Loaded?
    case Trim => ch.stage.Written?
    case Cut => true
  }

  function Apply(limit: nat, ch: Channel, e: Event): Channel
    requires Enabled(ch, e)
  {
    match e
    case Push(row) => ch.(buffer := ch.buffer + [row], pushed := ch.pushed + [row])
    case Read => if Take(ch.buffer, limit) == [] then ch else ch.(stage := Loaded(Take(ch.buffer, limit)))
    case Insert(outcome) =>
      if outcome.Refused? then ch.(stage := Resting) else
      ch.(table := ch.table + ch.stage.rows, sent := ch.trimmed + |ch.stage.rows|,
        stage := if outcome.Stored? then Written(|ch.stage.rows|) else Resting)
    case Trim =>
      ch.(buffer := Drop(ch.buffer, ch.stage.count), trimmed := ch.trimmed + ch.stage.count, stage := Resting)
    case Cut => ch.(stage := Resting)
  }

  predicate ValidRun(limit: nat, ch: Channel, events: seq<Event>)
    decreases |events|, 0
  {
    events == [] ||
    (ValidRun(limit, ch, events[..|events| - 1])
     && Enabled(Run(limit, ch, events[..|events| - 1]), events[|events| - 1]))
  }

  function Run(limit: nat, ch: Channel, events: seq<Event>): Channel
    requires ValidRun(limit, ch, events)
    decreases |events|, 1
  {
    if events == [] then ch
    else Apply(limit, Run(limit, ch, events[..|events| - 1]), events[|events| - 1])
  }

  // ---------- the invariant ----------

  predicate Conserved(ch: Channel) {
    ch.trimmed + |ch.buffer| == |ch.pushed| && ch.pushed == ch.pushed[..ch.trimmed] + ch.buffer
  }

  /** What was inserted beyond the trimmed prefix fits in every later read. */
  predicate InFlight(limit: nat, ch: Channel) {
    && ch.trimmed <= ch.sent <= ch.trimmed + |Take(ch.buffer, limit)|
    && (ch.stage.Loaded? ==> ch.stage.rows != [] && ch.stage.rows <= ch.buffer && |ch.stage.rows| <= limit
                             && ch.sent <= ch.trimmed + |ch.stage.rows|)
    && (ch.stage.Written? ==> ch.stage.count == ch.sent - ch.trimmed)
  }

  predicate Faithful(ch: Channel) {
    && ch.sent <= |ch.pushed|
    && Shown(ch.table) == Shown(ch.pushed[..ch.sent])
    && forall i :: 0 <= i < ch.sent ==> ch.pushed[i] in ch.table
  }

  predicate FlushOk(limit: nat, ch: Channel) {
    Conserved(ch) && InFlight(limit, ch) && Faithful(ch)
  }

  lemma PushKeepsOk(limit: nat, ch: Channel, row: Row)
    requires FlushOk(limit, ch)
    ensures FlushOk(limit, Apply(limit, ch, Push(row)))
  {
    hide Shown;
    var ch' := Apply(limit, ch, Push(row));
    assert ch'.pushed[..ch.trimmed] == ch.pushed[..ch.trimmed];
    assert ch'.pushed[..ch.sent] == ch.pushed[..ch.sent];
  }

  lemma InsertKeepsOk(limit: nat, ch: Channel, outcome: InsertOutcome)
    requires FlushOk(limit, ch) && ch.stage.Loaded? && !outcome.Refused?
    ensures FlushOk(limit, Apply(limit, ch, Insert(outcome)))
  {
    hide Shown, Take;
    var rows, t, p := ch.stage.rows, ch.trimmed, ch.pushed;
    var again := ch.sent - t;
    LoadedPrefix(p, t, ch.buffer, rows, again);
    ReplayedView(ch.table, p[..t], rows[..again], rows[again..]);
    InsertedMember(p, ch.sent, ch.table, rows, t);
    assert |Take(ch.buffer, limit)| >= |rows|;
  }

  lemma LoadedPrefix(p: seq<Row>, t: nat, buffer: seq<Row>, rows: seq<Row>, again: nat)
    requires t + |buffer| == |p| && p == p[..t] + buffer && rows <= buffer && again <= |rows|
    ensures rows == rows[..again] + rows[again..]
    ensures p[..t + again] == p[..t] + rows[..again]
    ensures p[..t + |rows|] == p[..t] + rows
  {
    assert rows == buffer[..|rows|];
  }

  lemma InsertedMember(p: seq<Row>, sent: nat, table: seq<Row>, rows: seq<Row>, t: nat)
    requires t <= sent <= t + |rows| <= |p| && p[..t + |rows|] == p[..t] + rows
    requires forall i :: 0 <= i < sent ==> p[i] in table
    ensures forall i :: 0 <= i < t + |rows| ==> p[i] in table + rows
  {
    forall i | 0 <= i < t + |rows|
      ensures p[i] in table + rows
    {
      if i >= t {
        assert p[i] == p[..t + |rows|][i] == rows[i - t];
      }
    }
  }

  /** A batch that begins with the rows inserted before a cut. */
  lemma ReplayedView(table: seq<Row>, done: seq<Row>, again: seq<Row>, more: seq<Row>)
    requires Shown(table) == Shown(done + again)
    ensures Shown(table + (again + more)) == Shown(done + (again + more))
  {
    MergeAppend(map[], table, again + more);
    MergeAppend(map[], done, again);
    AbsorbPrefix(Shown(done), again, more);
    MergeAppend(map[], done, again + more);
  }

  lemma StepKeepsOk(limit: nat, ch: Channel, e: Event)
    requires FlushOk(limit, ch) && Enabled(ch, e)
    ensures FlushOk(limit, Apply(limit, ch, e))
  {
    match e {
      case Push(row) => PushKeepsOk(limit, ch, row);
      case Insert(outcome) =>
        if !outcome.Refused? {
          InsertKeepsOk(limit, ch, outcome);
        }
      case Trim =>
        TrimKeepsOk(limit, ch);
      case Read => hide Shown;
      case Cut => hide Shown;
    }
  }

  lemma TrimKeepsOk(limit: nat, ch: Channel)
    requires FlushOk(limit, ch) && ch.stage.Written?
    ensures FlushOk(limit, Apply(limit, ch, Trim))
  {
    hide Shown, Take;
    var n := ch.stage.count;
    var rest := Drop(ch.buffer, n);
    assert n <= |ch.buffer|;
    assert ch.buffer == ch.buffer[..n] + rest by {
      hide Faithful, Conserved;
    }
    SplitAt(ch.pushed, ch.trimmed, ch.buffer, n, rest);
  }

  lemma SplitAt(all: seq<Row>, t: nat, buffer: seq<Row>, n: nat, rest: seq<Row>)
    requires t + |buffer| == |all| && all == all[..t] + buffer && n <= |buffer| && buffer == buffer[..n] + rest
    ensures all == all[..t + n] + rest
  {
  }

  lemma {:induction false} RunKeepsOk(limit: nat, events: seq<Event>)
    requires ValidRun(limit, Empty(), events)
    ensures FlushOk(limit, Run(limit, Empty(), events))
    decreases |events|
  {
    hide FlushOk, Apply;
    if events == [] {
      EmptyIsOk(limit);
    } else {
      RunKeepsOk(limit, events[..|events| - 1]);
      StepKeepsOk(limit, Run(limit, Empty(), events[..|events| - 1]), events[|events| - 1]);
    }
  }

  lemma EmptyIsOk(limit: nat)
    ensures FlushOk(limit, Empty())
  {
  }

  // ---------- what every run keeps ----------

  /** Nothing is lost: the trimmed prefix and the buffer are everything pushed, and every trimmed row was inserted. */
  lemma NothingLost(limit: nat, events: seq<Event>)
    requires ValidRun(limit, Empty(), events)
    ensures var ch := Run(limit, Empty(), events);
            && ch.trimmed <= |ch.pushed|
            && ch.pushed[..ch.trimmed] + ch.buffer == ch.pushed
            && forall i :: 0 <= i < ch.trimmed ==> ch.pushed[i] in ch.table
  {
    RunKeepsOk(limit, events);
    hide Shown, Run;
  }

  /** Whatever was cut, refused or replayed, the table shows what inserting a prefix of the pushes once would show;
      after a completed flush it is the trimmed prefix, and once the buffer is empty it is everything. */
  lemma ViewIsExactlyOnce(limit: nat, events: seq<Event>)
    requires ValidRun(limit, Empty(), events)
    ensures var ch := Run(limit, Empty(), events);
            && ch.trimmed <= ch.sent <= |ch.pushed|
            && Shown(ch.table) == Shown(ch.pushed[..ch.sent])
            && (events != [] && events[|events| - 1] == Trim ==> Shown(ch.table) == Shown(ch.pushed[..ch.trimmed]))
            && (ch.buffer == [] ==> Shown(ch.table) == Shown(ch.pushed))
  {
    RunKeepsOk(limit, events);
    var ch := Run(limit, Empty(), events);
    if events != [] && events[|events| - 1] == Trim {
      RunKeepsOk(limit, events[..|events| - 1]);
      assert ch.sent == ch.trimmed;
    }
    if ch.buffer == [] {
      assert ch.pushed[..ch.sent] == ch.pushed;
    }
    hide Shown, Run;
  }

  predicate Undisturbed(events: seq<Event>) {
    forall e :: e in events ==> e != Cut && e != Insert(StoredUnanswered)
  }

  /** The table holds a prefix of the pushes, each row once. */
  predicate Exact(ch: Channel) {
    && ch.sent <= |ch.pushed| && ch.table == ch.pushed[..ch.sent]
    && (!ch.stage.Written? ==> ch.sent == ch.trimmed)
  }

  lemma StepKeepsExact(limit: nat, ch: Channel, e: Event)
    requires Conserved(ch) && InFlight(limit, ch) && Exact(ch)
    requires Enabled(ch, e) && e != Cut && e != Insert(StoredUnanswered)
    ensures Exact(Apply(limit, ch, e))
  {
    match e {
      case Push(row) => assert (ch.pushed + [row])[..ch.sent] == ch.pushed[..ch.sent];
      case Insert(outcome) =>
        if outcome.Stored? {
          var rows := ch.stage.rows;
          assert ch.pushed[..ch.trimmed + |rows|] == ch.pushed[..ch.trimmed] + rows;
        }
      case Trim =>
      case Read =>
    }
  }

  lemma {:induction false} RunKeepsExact(limit: nat, events: seq<Event>)
    requires ValidRun(limit, Empty(), events) && Undisturbed(events)
    ensures Exact(Run(limit, Empty(), events))
    decreases |events|
  {
    hide Conserved, InFlight, Faithful, Exact, Apply;
    if events == [] {
      EmptyIsExact();
    } else {
      var before, e := events[..|events| - 1], events[|events| - 1];
      assert e in events && forall b :: b in before ==> b in events;
      RunKeepsExact(limit, before);
      RunKeepsOk(limit, before);
      StepKeepsExact(limit, Run(limit, Empty(), before), e);
    }
  }

  lemma EmptyIsExact()
    ensures Exact(Empty())
  {
  }

  /** Without a cut or an unanswered insert every row is inserted once: the table holds the pushes in order, and between
      flushes table and buffer are exactly everything pushed. */
  lemma ExactlyOnce(limit: nat, events: seq<Event>)
    requires ValidRun(limit, Empty(), events) && Undisturbed(events)
    ensures var ch := Run(limit, Empty(), events);
            && ch.table <= ch.pushed
            && (!ch.stage.Written? ==> ch.table + ch.buffer == ch.pushed)
  {
    RunKeepsExact(limit, events);
    RunKeepsOk(limit, events);
    hide Run, InFlight, Faithful;
  }

  // ---------- rounds ----------

  /** One pass of a flush method over its buffer. */
  function Round(limit: nat, ch: Channel, outcome: InsertOutcome): (ch': Channel)
    requires ch.stage.Resting?
    ensures ch'.stage.Resting?
  {
    var loaded := Apply(limit, ch, Read);
    if loaded.stage.Resting? then loaded else
    var written := Apply(limit, loaded, Insert(outcome));
    if written.stage.Resting? then written else Apply(limit, written, Trim)
  }

  function Rounds(limit: nat, ch: Channel, n: nat): Channel
    requires ch.stage.Resting?
    decreases n
  {
    if n == 0 then ch else Rounds(limit, Round(limit, ch, Stored), n - 1)
  }

  /** A buffer of at most n batches is empty after n undisturbed rounds. */
  lemma {:induction false} RoundsDrain(limit: nat, ch: Channel, n: nat)
    requires ch.stage.Resting? && |ch.buffer| <= n * limit
    ensures Rounds(limit, ch, n).buffer == []
    decreases n
  {
    if n > 0 {
      var next := Round(limit, ch, Stored);
      assert |next.buffer| <= |ch.buffer| - limit || next.buffer == [];
      assert n * limit == (n - 1) * limit + limit;
      assert (n - 1) * limit >= 0 by {
        ProductNonNegative(n - 1, limit);
      }
      RoundsDrain(limit, next, n - 1);
    }
  }

  lemma ProductNonNegative(a: nat, b: nat)
    ensures a * b >= 0
  {
  }
}
