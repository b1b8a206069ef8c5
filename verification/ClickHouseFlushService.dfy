/** The flush service: three buffers into three tables, one after another. */
module ClickHouseFlushService {
  import opened ReplacingTable
  import opened ClickHouseBuffer
  import opened Flusher

  datatype Target = Target(key: string, table: string)

  /** All buffers and all tables, by name. */
  datatype Stocks = Stocks(buffers: map<string, seq<Row>>, tables: map<string, seq<Row>>)

  /** A missing list and an empty one are the same. */
  ghost predicate Same(a: Stocks, b: Stocks) {
    && (forall k {:trigger Items(a.buffers, k)} :: Items(a.buffers, k) == Items(b.buffers, k))
    && (forall k {:trigger Items(a.tables, k)} :: Items(a.tables, k) == Items(b.tables, k))
  }

  function ChannelOf(s: Stocks, t: Target): Channel {
    var pending := Items(s.buffers, t.key);
    Channel(pending, Items(s.tables, t.table), Resting, pending, 0, 0)
  }

  /** One round of a target: its buffer and its table become what the transition system makes of them. */
  function Flushed(s: Stocks, t: Target, limit: nat, outcome: InsertOutcome): Stocks {
    var ch := Round(limit, ChannelOf(s, t), outcome);
    Stocks(s.buffers[t.key := ch.buffer], s.tables[t.table := ch.table])
  }

  /** The insert of a non-empty batch raises. */
  predicate Fails(s: Stocks, t: Target, limit: nat, outcome: InsertOutcome) {
    !outcome.Stored? && Take(Items(s.buffers, t.key), limit) != []
  }

  /** The targets in order up to the first that raises, and whether one does. */
  function FlushedAll(s: Stocks, targets: seq<Target>, limit: nat, outcomes: seq<InsertOutcome>): (Stocks, bool)
    requires |outcomes| == |targets|
    decreases |targets|
  {
    if targets == [] then (s, false)
    else if Fails(s, targets[0], limit, outcomes[0]) then (Flushed(s, targets[0], limit, outcomes[0]), true)
    else FlushedAll(Flushed(s, targets[0], limit, outcomes[0]), targets[1..], limit, outcomes[1..])
  }

  lemma SameFlushed(a: Stocks, b: Stocks, t: Target, limit: nat, outcome: InsertOutcome)
    requires Same(a, b)
    ensures Same(Flushed(a, t, limit, outcome), Flushed(b, t, limit, outcome))
    ensures Fails(a, t, limit, outcome) == Fails(b, t, limit, outcome)
  {
    assert ChannelOf(a, t) == ChannelOf(b, t);
    hide Round;
    var a', b' := Flushed(a, t, limit, outcome), Flushed(b, t, limit, outcome);
    forall k
      ensures Items(a'.buffers, k) == Items(b'.buffers, k) && Items(a'.tables, k) == Items(b'.tables, k)
    {
      assert Items(a.buffers, k) == Items(b.buffers, k) && Items(a.tables, k) == Items(b.tables, k);
    }
  }

  lemma SameTransitive(a: Stocks, b: Stocks, c: Stocks)
    requires Same(a, b) && Same(b, c)
    ensures Same(a, c)
  {
  }

  lemma FlushedThree(s: Stocks, a: Target, b: Target, c: Target, limit: nat, x: InsertOutcome, y: InsertOutcome,
                     z: InsertOutcome)
    ensures var s1 := Flushed(s, a, limit, x);
            var s2 := Flushed(s1, b, limit, y);
            var s3 := Flushed(s2, c, limit, z);
            FlushedAll(s, [a, b, c], limit, [x, y, z]) ==
            if Fails(s, a, limit, x) then (s1, true)
            else if Fails(s1, b, limit, y) then (s2, true)
            else (s3, Fails(s2, c, limit, z))
  {
    hide Flushed, Fails;
    assert [a, b, c][1..] == [b, c] && [x, y, z][1..] == [y, z];
    assert [b, c][1..] == [c] && [y, z][1..] == [z];
    FlushedOne(Flushed(Flushed(s, a, limit, x), b, limit, y), c, limit, z);
  }

  lemma FlushedOne(s: Stocks, t: Target, limit: nat, outcome: InsertOutcome)
    ensures FlushedAll(s, [t], limit, [outcome]) == (Flushed(s, t, limit, outcome), Fails(s, t, limit, outcome))
  {
    hide Flushed, Fails;
    assert [t][1..] == [] && [outcome][1..] == [];
  }

  /** No earlier target raises. */
  predicate Reached(s: Stocks, targets: seq<Target>, limit: nat, outcomes: seq<InsertOutcome>, n: nat)
    requires n < |targets| == |outcomes|
  {
    forall i :: 0 <= i < n ==> !Fails(s, targets[i], limit, outcomes[i])
  }

  /** The list of a buffer and of a table. */
  function Lists(s: Stocks, t: Target): (seq<Row>, seq<Row>) {
    (Items(s.buffers, t.key), Items(s.tables, t.table))
  }

  predicate Apart(targets: seq<Target>) {
    forall i, k :: 0 <= i < k < |targets| ==> targets[i].key != targets[k].key && targets[i].table != targets[k].table
  }

  lemma OtherLists(s: Stocks, a: Target, t: Target, limit: nat, outcome: InsertOutcome)
    requires a.key != t.key && a.table != t.table
    ensures Lists(Flushed(s, a, limit, outcome), t) == Lists(s, t)
  {
    hide Round;
  }

  lemma SameLists(a: Stocks, b: Stocks, t: Target, limit: nat, outcome: InsertOutcome)
    requires Lists(a, t) == Lists(b, t)
    ensures Lists(Flushed(a, t, limit, outcome), t) == Lists(Flushed(b, t, limit, outcome), t)
    ensures Fails(a, t, limit, outcome) == Fails(b, t, limit, outcome)
  {
    assert ChannelOf(a, t) == ChannelOf(b, t);
    hide Round;
  }

  lemma {:induction false} OthersLeaveAlone(s: Stocks, targets: seq<Target>, limit: nat, outcomes: seq<InsertOutcome>,
                                            t: Target)
    requires |outcomes| == |targets|
    requires forall i :: 0 <= i < |targets| ==> targets[i].key != t.key && targets[i].table != t.table
    ensures Lists(FlushedAll(s, targets, limit, outcomes).0, t) == Lists(s, t)
    decreases |targets|
  {
    hide Flushed, Fails, Lists;
    if targets != [] {
      OtherLists(s, targets[0], t, limit, outcomes[0]);
      OthersLeaveAlone(Flushed(s, targets[0], limit, outcomes[0]), targets[1..], limit, outcomes[1..], t);
    }
  }

  /** Targets that share neither buffer nor table are flushed as if alone, up to the first that raises. */
  lemma {:induction false} ApartAsIfAlone(s: Stocks, targets: seq<Target>, limit: nat, outcomes: seq<InsertOutcome>,
                                          n: nat)
    requires n < |targets| == |outcomes| && Apart(targets)
    ensures Lists(FlushedAll(s, targets, limit, outcomes).0, targets[n]) ==
            Lists(if Reached(s, targets, limit, outcomes, n) then Flushed(s, targets[n], limit, outcomes[n]) else s,
                  targets[n])
    decreases |targets|
  {
    hide Flushed, Fails, Lists;
    var s1, t := Flushed(s, targets[0], limit, outcomes[0]), targets[n];
    if n == 0 {
      OthersLeaveAlone(s1, targets[1..], limit, outcomes[1..], t);
    } else {
      OtherLists(s, targets[0], t, limit, outcomes[0]);
      if !Fails(s, targets[0], limit, outcomes[0]) {
        ApartAsIfAlone(s1, targets[1..], limit, outcomes[1..], n - 1);
        ReachedLater(s, targets, limit, outcomes, n);
        SameLists(s1, s, t, limit, outcomes[n]);
      }
    }
  }

  lemma ReachedLater(s: Stocks, targets: seq<Target>, limit: nat, outcomes: seq<InsertOutcome>, n: nat)
    requires 0 < n < |targets| == |outcomes| && Apart(targets) && !Fails(s, targets[0], limit, outcomes[0])
    ensures var s1 := Flushed(s, targets[0], limit, outcomes[0]);
            Reached(s1, targets[1..], limit, outcomes[1..], n - 1) <==> Reached(s, targets, limit, outcomes, n)
  {
    hide Flushed, Fails, Lists;
    var s1 := Flushed(s, targets[0], limit, outcomes[0]);
    forall i | 1 <= i < n
      ensures Fails(s1, targets[i], limit, outcomes[i]) == Fails(s, targets[i], limit, outcomes[i])
    {
      OtherLists(s, targets[0], targets[i], limit, outcomes[0]);
      SameLists(s1, s, targets[i], limit, outcomes[i]);
    }
    assert forall i :: 1 <= i < n ==> targets[i] == targets[1..][i - 1] && outcomes[i] == outcomes[1..][i - 1];
    if Reached(s1, targets[1..], limit, outcomes[1..], n - 1) {
      forall i | 0 <= i < n
        ensures !Fails(s, targets[i], limit, outcomes[i])
      {
        if i > 0 {
          assert !Fails(s1, targets[1..][i - 1], limit, outcomes[1..][i - 1]);
        }
      }
    }
  }

  /** What a round of one target changes. */
  lemma FlushedLists(s: Stocks, s': Stocks, t: Target, limit: nat, outcome: InsertOutcome)
    requires var pending := Items(s.buffers, t.key);
             var n := if |pending| < limit then |pending| else limit;
             && Items(s'.tables, t.table) ==
                Items(s.tables, t.table) + (if outcome == Refused then [] else pending[..n])
             && Items(s'.buffers, t.key) == (if outcome == Stored then pending[n..] else pending)
             && (forall k :: k != t.table ==> Items(s'.tables, k) == Items(s.tables, k))
             && (forall k :: k != t.key ==> Items(s'.buffers, k) == Items(s.buffers, k))
    ensures Same(s', Flushed(s, t, limit, outcome))
  {
    var f := Flushed(s, t, limit, outcome);
    forall k
      ensures Items(s'.buffers, k) == Items(f.buffers, k) && Items(s'.tables, k) == Items(f.tables, k)
    {
    }
  }

  class FlushService {
    const buffers: InMemoryClickHouseBufferRepository
    const videoResults: Target
    const legacy: Target
    const storageActions: Target
    const batchSize: nat
    var tables: map<string, seq<Row>>

    constructor (buffers: InMemoryClickHouseBufferRepository, videoResults: Target, legacy: Target,
                 storageActions: Target, batchSize: nat)
      ensures this.buffers == buffers && this.batchSize == batchSize && tables == map[]
      ensures this.videoResults == videoResults && this.legacy == legacy && this.storageActions == storageActions
    {
      this.buffers, this.videoResults, this.legacy := buffers, videoResults, legacy;
      this.storageActions, this.batchSize, tables := storageActions, batchSize, map[];
    }

    ghost function State(): Stocks
      reads this, buffers
    {
      Stocks(buffers.items, tables)
    }

    method InsertRows(t: Target, rows: seq<Row>, outcome: InsertOutcome) returns (raised: bool)
      modifies this`tables
      ensures Items(tables, t.table) == Items(old(tables), t.table) + if outcome.Refused? then [] else rows
      ensures forall k :: k != t.table ==> Items(tables, k) == Items(old(tables), k)
      ensures raised <==> !outcome.Stored?
    {
      if !outcome.Refused? {
        tables := tables[t.table := (if t.table in tables then tables[t.table] else []) + rows];
      }
      raised := !outcome.Stored?;
    }

    /** The common body of the three flush methods. */
    method Flush(t: Target, outcome: InsertOutcome) returns (raised: bool)
      modifies this`tables, buffers
      ensures Same(State(), Flushed(old(State()), t, batchSize, outcome))
      ensures raised <==> Fails(old(State()), t, batchSize, outcome)
      ensures var pending := Items(old(buffers.items), t.key);
              var n := if |pending| < batchSize then |pending| else batchSize;
              && (raised <==> n > 0 && outcome in {Refused, StoredUnanswered})
              && Items(tables, t.table) ==
                 Items(old(tables), t.table) + (if outcome == Refused then [] else pending[..n])
              && Items(buffers.items, t.key) == (if outcome == Stored then pending[n..] else pending)
              && (forall k :: k != t.table ==> Items(tables, k) == Items(old(tables), k))
              && (forall k :: k != t.key ==> Items(buffers.items, k) == Items(old(buffers.items), k))
    {
      hide Flushed, Same;
      ghost var before := State();
      var rows := buffers.ReadBatch(t.key, batchSize);
      if rows == [] {
        FlushedLists(before, State(), t, batchSize, outcome);
        return false;
      }
      raised := InsertRows(t, rows, outcome);
      if !raised {
        buffers.TrimBatch(t.key, |rows|);
      }
      FlushedLists(before, State(), t, batchSize, outcome);
    }

    /** The buffers are flushed in this order; a raise leaves the later ones as they were. */
    method FlushOnce(first: InsertOutcome, second: InsertOutcome, third: InsertOutcome) returns (raised: bool)
      modifies this`tables, buffers
      ensures var after := FlushedAll(old(State()), [videoResults, legacy, storageActions], batchSize,
                                      [first, second, third]);
              Same(State(), after.0) && raised == after.1
    {
      hide Flushed, Fails, Same, FlushedAll;
      FlushedThree(State(), videoResults, legacy, storageActions, batchSize, first, second, third);
      ghost var s0 := State();
      raised := Flush(videoResults, first);
      if raised {
        return;
      }
      ghost var s1 := Flushed(s0, videoResults, batchSize, first);
      SameFlushed(State(), s1, legacy, batchSize, second);
      ghost var now1 := State();
      raised := Flush(legacy, second);
      SameTransitive(State(), Flushed(now1, legacy, batchSize, second), Flushed(s1, legacy, batchSize, second));
      if raised {
        return;
      }
      ghost var s2 := Flushed(s1, legacy, batchSize, second);
      SameFlushed(State(), s2, storageActions, batchSize, third);
      ghost var now2 := State();
      raised := Flush(storageActions, third);
      SameTransitive(State(), Flushed(now2, storageActions, batchSize, third),
                     Flushed(s2, storageActions, batchSize, third));
    }
  }
}
