/** The publish buffers: one list per key, appended to and cut from the front. */
module ClickHouseBuffer {
  import opened ReplacingTable

  function Items(items: map<string, seq<Row>>, key: string): seq<Row> {
    if key in items then items[key] else []
  }

  function Take(rows: seq<Row>, limit: nat): (batch: seq<Row>)
    ensures batch <= rows && |batch| == if |rows| < limit then |rows| else limit
  {
    if |rows| <= limit then rows else rows[..limit]
  }

  function Drop(rows: seq<Row>, count: nat): (rest: seq<Row>)
    ensures Take(rows, count) + rest == rows
  {
    if |rows| <= count then [] else rows[count..]
  }

  class InMemoryClickHouseBufferRepository {
    var items: map<string, seq<Row>>

    constructor ()
      ensures items == map[]
    {
      items := map[];
    }

    method PushJson(key: string, payload: Row)
      modifies this
      ensures Items(items, key) == Items(old(items), key) + [payload]
      ensures forall k :: k != key ==> Items(items, k) == Items(old(items), k)
    {
      var list := if key in items then items[key] else [];
      items := items[key := list + [payload]];
    }

    method ReadBatch(key: string, limit: nat) returns (rows: seq<Row>)
      ensures rows == Take(Items(items, key), limit)
    {
      var list := if key in items then items[key] else [];
      rows := if |list| <= limit then list else list[..limit];
    }

    /** `del items[:count]`. */
    method TrimBatch(key: string, count: nat)
      modifies this
      ensures Items(items, key) == Drop(Items(old(items), key), count)
      ensures forall k :: k != key ==> Items(items, k) == Items(old(items), k)
    {
      var list := if key in items then items[key] else [];
      items := items[key := if |list| <= count then [] else list[count..]];
    }
  }
}
