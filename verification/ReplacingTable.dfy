/** A ReplacingMergeTree table: of the rows of one partition and sorting key, the one of the greatest version is seen,
    and of equal versions the one inserted last. */
module ReplacingTable {
  import opened Common

  datatype Row = Row(month: nat, sortingKey: seq<string>, version: nat, body: string)

  datatype Slot = Slot(month: nat, sortingKey: seq<string>)

  type View = map<Slot, Row>

  function SlotOf(r: Row): Slot {
    Slot(r.month, r.sortingKey)
  }

  function Add(v: View, r: Row): View {
    if SlotOf(r) in v && v[SlotOf(r)].version > r.version then v else v[SlotOf(r) := r]
  }

  /** The view after inserting `rows` in order into a table that shows `v`. */
  function Merge(v: View, rows: seq<Row>): View {
    if rows == [] then v else Add(Merge(v, rows[..|rows| - 1]), rows[|rows| - 1])
  }

  function Shown(table: seq<Row>): View {
    Merge(map[], table)
  }

  // ---------- one slot at a time ----------

  function Look(v: View, s: Slot): Option<Row> {
    if s in v then Some(v[s]) else None
  }

  /** The winner of an earlier and a later candidate. */
  function Pick(before: Option<Row>, after: Option<Row>): Option<Row> {
    if after.None? then before
    else if before.Some? && before.value.version > after.value.version then before
    else after
  }

  function Best(rows: seq<Row>, s: Slot): Option<Row> {
    if rows == [] then None
    else Pick(Best(rows[..|rows| - 1], s), if SlotOf(rows[|rows| - 1]) == s then Some(rows[|rows| - 1]) else None)
  }

  lemma PickAssociative(a: Option<Row>, b: Option<Row>, c: Option<Row>)
    ensures Pick(Pick(a, b), c) == Pick(a, Pick(b, c))
  {
  }

  lemma {:induction false} MergeAt(v: View, rows: seq<Row>, s: Slot)
    ensures Look(Merge(v, rows), s) == Pick(Look(v, s), Best(rows, s))
  {
    if rows != [] {
      var before, r := rows[..|rows| - 1], rows[|rows| - 1];
      MergeAt(v, before, s);
      var last := if SlotOf(r) == s then Some(r) else None;
      AddAt(Merge(v, before), r, s);
      hide Pick, Merge, Look, Add;
      PickAssociative(Look(v, s), Best(before, s), last);
      MergeUnfold(v, rows);
    }
  }

  lemma MergeUnfold(v: View, rows: seq<Row>)
    requires rows != []
    ensures Merge(v, rows) == Add(Merge(v, rows[..|rows| - 1]), rows[|rows| - 1])
  {
  }

  lemma AddAt(v: View, r: Row, s: Slot)
    ensures Look(Add(v, r), s) == Pick(Look(v, s), if SlotOf(r) == s then Some(r) else None)
  {
  }

  predicate InSlot(r: Row, month: nat, key: seq<string>) {
    r.month == month && r.sortingKey == key
  }

  /** Row `k` is the last of the greatest version among the rows of this month and sorting key. */
  predicate Wins(rows: seq<Row>, month: nat, key: seq<string>, k: nat) {
    && k < |rows| && InSlot(rows[k], month, key)
    && forall i :: 0 <= i < |rows| && InSlot(rows[i], month, key) ==>
         rows[i].version < rows[k].version || (rows[i].version == rows[k].version && i <= k)
  }

  lemma {:induction false} BestWins(rows: seq<Row>, month: nat, key: seq<string>)
    ensures var best := Best(rows, Slot(month, key));
            && (best.None? <==> forall i :: 0 <= i < |rows| ==> !InSlot(rows[i], month, key))
            && (best.Some? ==> exists k: nat :: Wins(rows, month, key, k) && rows[k] == best.value)
  {
    if rows != [] {
      var n, before := |rows| - 1, rows[..|rows| - 1];
      BestWins(before, month, key);
      assert forall i :: 0 <= i < n ==> before[i] == rows[i];
      var best := Best(before, Slot(month, key));
      if best.Some? {
        var k: nat :| Wins(before, month, key, k) && before[k] == best.value;
        if InSlot(rows[n], month, key) && best.value.version <= rows[n].version {
          assert Wins(rows, month, key, n);
        } else {
          assert Wins(rows, month, key, k);
        }
      } else if InSlot(rows[n], month, key) {
        assert Wins(rows, month, key, n);
      }
    }
  }

  /** A table shows one row for each month and sorting key it holds: the last inserted of the greatest version. */
  lemma ShownExactly(table: seq<Row>, month: nat, key: seq<string>)
    ensures var s := Slot(month, key);
            && (s in Shown(table) <==> exists i :: 0 <= i < |table| && InSlot(table[i], month, key))
            && (s in Shown(table) ==> exists k: nat :: Wins(table, month, key, k) && table[k] == Shown(table)[s])
  {
    MergeAt(map[], table, Slot(month, key));
    BestWins(table, month, key);
    hide Merge, Best;
  }

  lemma SameView(v: View, w: View)
    requires forall s :: Look(v, s) == Look(w, s)
    ensures v == w
  {
    forall s
      ensures s in v <==> s in w
      ensures s in v ==> v[s] == w[s]
    {
      assert Look(v, s) == Look(w, s);
    }
  }

  lemma {:induction false} MergeAppend(v: View, a: seq<Row>, b: seq<Row>)
    ensures Merge(v, a + b) == Merge(Merge(v, a), b)
  {
    if b == [] {
      assert a + b == a;
    } else {
      var n := |b| - 1;
      MergeAppend(v, a, b[..n]);
      assert (a + b)[..|a + b| - 1] == a + b[..n];
    }
  }

  /** Inserting rows again, right after they were inserted, changes nothing. */
  lemma Absorb(v: View, rows: seq<Row>)
    ensures Merge(Merge(v, rows), rows) == Merge(v, rows)
  {
    forall s
      ensures Look(Merge(Merge(v, rows), rows), s) == Look(Merge(v, rows), s)
    {
      MergeAt(Merge(v, rows), rows, s);
      MergeAt(v, rows, s);
      PickAssociative(Look(v, s), Best(rows, s), Best(rows, s));
      hide Merge, Best, Look;
    }
    SameView(Merge(Merge(v, rows), rows), Merge(v, rows));
  }

  /** Nor does replaying them as the beginning of a longer batch. */
  lemma AbsorbPrefix(v: View, rows: seq<Row>, more: seq<Row>)
    ensures Merge(Merge(v, rows), rows + more) == Merge(v, rows + more)
  {
    MergeAppend(Merge(v, rows), rows, more);
    Absorb(v, rows);
    MergeAppend(v, rows, more);
  }
}
