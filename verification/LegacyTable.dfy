/** The legacy table stamps its rows when they are inserted: exactly when a replayed row shows once. */
module LegacyTable {
  import opened ReplacingTable
  import opened Flusher

  /** One insert of a batch, with the clock's month and time. */
  datatype Insertion = Insertion(rows: seq<Row>, month: nat, now: nat)

  function Stamped(r: Row, month: nat, now: nat): Row {
    r.(month := month, version := now)
  }

  function StampedRows(i: Insertion): seq<Row> {
    seq(|i.rows|, k requires 0 <= k < |i.rows| => Stamped(i.rows[k], i.month, i.now))
  }

  function TableOf(insertions: seq<Insertion>): seq<Row> {
    if insertions == [] then [] else TableOf(insertions[..|insertions| - 1]) + StampedRows(insertions[|insertions| - 1])
  }

  /** The batch has a row of this sorting key. */
  predicate Holds(i: Insertion, key: seq<string>) {
    exists k :: 0 <= k < |i.rows| && i.rows[k].sortingKey == key
  }

  predicate HeldIn(insertions: seq<Insertion>, key: seq<string>, month: nat, now: nat) {
    exists n :: 0 <= n < |insertions| && Holds(insertions[n], key)
                && insertions[n].month == month && insertions[n].now == now
  }

  predicate HasStamp(rows: seq<Row>, s: Slot, version: nat) {
    exists k :: 0 <= k < |rows| && SlotOf(rows[k]) == s && rows[k].version == version
  }

  lemma StampAppend(a: seq<Row>, b: seq<Row>, s: Slot, version: nat)
    ensures HasStamp(a + b, s, version) <==> HasStamp(a, s, version) || HasStamp(b, s, version)
  {
    if HasStamp(a, s, version) {
      var k :| 0 <= k < |a| && SlotOf(a[k]) == s && a[k].version == version;
      assert (a + b)[k] == a[k];
    }
    if HasStamp(b, s, version) {
      var k :| 0 <= k < |b| && SlotOf(b[k]) == s && b[k].version == version;
      assert (a + b)[|a| + k] == b[k];
    }
  }

  lemma HeldAppend(before: seq<Insertion>, last: Insertion, key: seq<string>, month: nat, now: nat)
    ensures HeldIn(before + [last], key, month, now) <==>
            HeldIn(before, key, month, now) || (Holds(last, key) && last.month == month && last.now == now)
  {
    if HeldIn(before, key, month, now) {
      var n :| 0 <= n < |before| && Holds(before[n], key) && before[n].month == month && before[n].now == now;
      assert (before + [last])[n] == before[n];
    }
    assert (before + [last])[|before|] == last;
  }

  lemma StampsOfOne(i: Insertion, key: seq<string>, month: nat, now: nat)
    ensures HasStamp(StampedRows(i), Slot(month, key), now) <==> Holds(i, key) && i.month == month && i.now == now
  {
    var rows := StampedRows(i);
    assert forall k :: 0 <= k < |rows| ==> rows[k] == Stamped(i.rows[k], i.month, i.now);
    if Holds(i, key) && i.month == month && i.now == now {
      var k :| 0 <= k < |i.rows| && i.rows[k].sortingKey == key;
      assert SlotOf(rows[k]) == Slot(month, key) && rows[k].version == now;
    }
  }

  lemma {:induction false} StampsOfTable(insertions: seq<Insertion>, key: seq<string>, month: nat, now: nat)
    ensures HasStamp(TableOf(insertions), Slot(month, key), now) <==> HeldIn(insertions, key, month, now)
  {
    if insertions != [] {
      var before, last := insertions[..|insertions| - 1], insertions[|insertions| - 1];
      assert insertions == before + [last];
      StampsOfTable(before, key, month, now);
      HeldAppend(before, last, key, month, now);
      StampAppend(TableOf(before), StampedRows(last), Slot(month, key), now);
      StampsOfOne(last, key, month, now);
      hide HasStamp, HeldIn, Holds, StampedRows;
    }
  }

  /** What wins a slot carries its greatest stamp. */
  lemma {:induction false} BestIsGreatest(rows: seq<Row>, s: Slot)
    ensures Best(rows, s).Some? ==> HasStamp(rows, s, Best(rows, s).value.version)
    ensures forall v: nat :: HasStamp(rows, s, v) ==> Best(rows, s).Some? && v <= Best(rows, s).value.version
  {
    if rows != [] {
      var before, last := rows[..|rows| - 1], rows[|rows| - 1];
      assert rows == before + [last];
      BestIsGreatest(before, s);
      forall v: nat
        ensures HasStamp(rows, s, v) <==> HasStamp(before, s, v) || (SlotOf(last) == s && last.version == v)
      {
        StampAppend(before, [last], s, v);
        LastStamp(last, s, v);
      }
      hide HasStamp;
    }
  }

  lemma LastStamp(last: Row, s: Slot, v: nat)
    ensures HasStamp([last], s, v) <==> SlotOf(last) == s && last.version == v
  {
    assert [last][0] == last;
  }

  /** Whatever was inserted, replayed and stamped: a key shows in exactly the months of the inserts that held it, and in
      each with the greatest stamp of that month. */
  lemma ShownMonths(insertions: seq<Insertion>, key: seq<string>, month: nat)
    ensures var view := Shown(TableOf(insertions));
            && (Slot(month, key) in view <==> exists now: nat :: HeldIn(insertions, key, month, now))
            && (Slot(month, key) in view ==> HeldIn(insertions, key, month, view[Slot(month, key)].version))
            && (Slot(month, key) in view ==>
                  forall now: nat :: HeldIn(insertions, key, month, now) ==> now <= view[Slot(month, key)].version)
  {
    var table, s := TableOf(insertions), Slot(month, key);
    MergeAt(map[], table, s);
    BestIsGreatest(table, s);
    forall now: nat
      ensures HasStamp(table, s, now) <==> HeldIn(insertions, key, month, now)
    {
      StampsOfTable(insertions, key, month, now);
    }
    hide TableOf, HasStamp, HeldIn, Merge, Best;
  }

  /** The view has one row of this key. */
  ghost predicate ShowsOnce(view: View, key: seq<string>) {
    exists month :: Slot(month, key) in view && forall other :: Slot(other, key) in view ==> other == month
  }

  /** All the inserts that held the key fall in one month. */
  predicate OneMonth(insertions: seq<Insertion>, key: seq<string>) {
    forall m, n :: 0 <= m < n < |insertions| && Holds(insertions[m], key) && Holds(insertions[n], key) ==>
                     insertions[m].month == insertions[n].month
  }

  lemma MonthShown(insertions: seq<Insertion>, key: seq<string>, n: nat)
    requires n < |insertions| && Holds(insertions[n], key)
    ensures Slot(insertions[n].month, key) in Shown(TableOf(insertions))
  {
    ShownMonths(insertions, key, insertions[n].month);
    assert HeldIn(insertions, key, insertions[n].month, insertions[n].now);
  }

  /** A key that was inserted shows once exactly when all the inserts that held it fall in one month. */
  lemma ShowsOnceExactly(insertions: seq<Insertion>, key: seq<string>)
    requires exists n :: 0 <= n < |insertions| && Holds(insertions[n], key)
    ensures ShowsOnce(Shown(TableOf(insertions)), key) <==> OneMonth(insertions, key)
  {
    hide Shown, TableOf, Holds, HeldIn;
    var view := Shown(TableOf(insertions));
    var first :| 0 <= first < |insertions| && Holds(insertions[first], key);
    MonthShown(insertions, key, first);
    if ShowsOnce(view, key) {
      forall n | 0 <= n < |insertions| && Holds(insertions[n], key)
        ensures insertions[n].month == insertions[first].month
      {
        MonthShown(insertions, key, n);
      }
    }
    if OneMonth(insertions, key) {
      forall other | Slot(other, key) in view
        ensures other == insertions[first].month
      {
        ShownMonths(insertions, key, other);
        MonthsHeld(insertions, key, other);
      }
    }
  }

  lemma MonthsHeld(insertions: seq<Insertion>, key: seq<string>, month: nat)
    ensures (exists now: nat :: HeldIn(insertions, key, month, now)) <==>
            exists n :: 0 <= n < |insertions| && Holds(insertions[n], key) && insertions[n].month == month
  {
    if n :| 0 <= n < |insertions| && Holds(insertions[n], key) && insertions[n].month == month {
      assert HeldIn(insertions, key, month, insertions[n].now);
    }
  }

  // ---------- the inserts of a flusher ----------

  /** The batches a run inserts, in order, replays included. */
  function Batches(limit: nat, ch: Channel, events: seq<Event>): seq<seq<Row>>
    requires ValidRun(limit, ch, events)
    decreases |events|
  {
    if events == [] then [] else
    var before, e := events[..|events| - 1], events[|events| - 1];
    Batches(limit, ch, before) + if e.Insert? && !e.outcome.Refused? then [Run(limit, ch, before).stage.rows] else []
  }

  /** The inserts of a run with the clock at each of them. */
  function Clocked(batches: seq<seq<Row>>, clock: nat -> (nat, nat)): (insertions: seq<Insertion>)
    ensures |insertions| == |batches|
  {
    seq(|batches|, n requires 0 <= n < |batches| => Insertion(batches[n], clock(n).0, clock(n).1))
  }

  /** In every run of the legacy buffer's flusher, with cuts and replays and for every clock: a video that was inserted
      shows once exactly when all the inserts that carried it fall in one month. */
  lemma ReplayedShowsOnceExactly(limit: nat, events: seq<Event>, clock: nat -> (nat, nat), key: seq<string>)
    requires ValidRun(limit, Empty(), events)
    requires exists n :: 0 <= n < |Batches(limit, Empty(), events)|
                         && Holds(Clocked(Batches(limit, Empty(), events), clock)[n], key)
    ensures var insertions := Clocked(Batches(limit, Empty(), events), clock);
            ShowsOnce(Shown(TableOf(insertions)), key) <==> OneMonth(insertions, key)
  {
    hide Holds, Shown, TableOf, Batches, ShowsOnce, OneMonth;
    ShowsOnceExactly(Clocked(Batches(limit, Empty(), events), clock), key);
  }

  lemma TableStep(limit: nat, ch: Channel, e: Event)
    requires Enabled(ch, e)
    ensures Apply(limit, ch, e).table == ch.table + if e.Insert? && !e.outcome.Refused? then ch.stage.rows else []
  {
    assert ch.table + [] == ch.table;
  }

  /** The unstamped rows of those inserts are the flusher's table. */
  lemma {:induction false} BatchesFillTheTable(limit: nat, events: seq<Event>)
    requires ValidRun(limit, Empty(), events)
    ensures Run(limit, Empty(), events).table == Concat(Batches(limit, Empty(), events))
    decreases |events|
  {
    if events != [] {
      var before, e := events[..|events| - 1], events[|events| - 1];
      BatchesFillTheTable(limit, before);
      var batches := Batches(limit, Empty(), before);
      TableStep(limit, Run(limit, Empty(), before), e);
      hide Apply;
      if e.Insert? && !e.outcome.Refused? {
        ConcatLast(batches, Run(limit, Empty(), before).stage.rows);
      } else {
        assert batches + [] == batches;
      }
    }
  }

  function Concat(batches: seq<seq<Row>>): seq<Row> {
    if batches == [] then [] else Concat(batches[..|batches| - 1]) + batches[|batches| - 1]
  }

  lemma ConcatLast(batches: seq<seq<Row>>, last: seq<Row>)
    ensures Concat(batches + [last]) == Concat(batches) + last
  {
    assert (batches + [last])[..|batches|] == batches;
  }
}
