/** batch_event_sql: the transactions that the query of a batch selects. */
module BatchQuery {
  import opened Snapshots

  /** The query selects one range of transactions, filtered by both snapshots, and
      one list of transactions, without a filter. */
  datatype Query = Query(txStart: nat, txEnd: nat, arr: seq<nat>)

  predicate InRange(q: Query, last: Snapshot, cur: Snapshot, x: nat) {
    q.txStart <= x <= q.txEnd && cur.Sees(x) && !last.Sees(x)
  }

  predicate Selects(q: Query, last: Snapshot, cur: Snapshot, x: nat) {
    InRange(q, last, cur, x) || x in q.arr
  }

  /** The query that the comment of batch_event_sql calls the simplest solution. */
  predicate SimpleSelects(last: Snapshot, cur: Snapshot, x: nat) {
    last.xmin <= x <= cur.xmax && !last.Sees(x) && cur.Sees(x)
  }

  lemma {:induction false} MaximumExists(s: set<nat>)
    requires s != {}
    ensures exists m :: m in s && forall y :: y in s ==> y <= m
  {
    var m :| m in s;
    if s != {m} {
      MaximumExists(s - {m});
      var n :| n in s - {m} && forall y :: y in s - {m} ==> y <= n;
      var top := if m < n then n else m;
      assert top in s;
      forall y | y in s ensures y <= top {
        if y != m { assert y in s - {m}; }
      }
    }
  }

  ghost predicate StrictlyDescending(ids: seq<nat>) {
    forall i, j :: 0 <= i < j < |ids| ==> ids[i] > ids[j]
  }

  /** `order by 1 desc` over a set of transaction ids. */
  function Descending(s: set<nat>): (ids: seq<nat>)
    ensures StrictlyDescending(ids)
    ensures forall x :: x in ids <==> x in s
  {
    if s == {} then
      []
    else
      MaximumExists(s);
      var m :| m in s && forall y :: y in s ==> y <= m;
      [m] + Descending(s - {m})
  }

  /** The loop of batch_event_sql over the older transactions: an id close below the
      range lowers the range, any other id goes to the list. */
  function Lower(ids: seq<nat>, txStart: nat, arr: seq<nat>): (nat, seq<nat>) {
    if ids == [] then
      (txStart, arr)
    else if txStart <= ids[0] + 100 then
      Lower(ids[1..], ids[0], arr)
    else
      Lower(ids[1..], txStart, arr + [ids[0]])
  }

  function QueryOf(last: Snapshot, cur: Snapshot): Query {
    var (txStart, arr) := Lower(Descending(last.xip - cur.xip), last.xmax, []);
    Query(txStart, cur.xmax, arr)
  }

  /** The source's loop computes QueryOf. */
  method BatchEventQuery(last: Snapshot, cur: Snapshot) returns (q: Query)
    ensures q == QueryOf(last, cur)
  {
    var older := Descending(last.xip - cur.xip);
    var txStart := last.xmax;
    var arr: seq<nat> := [];
    for i := 0 to |older|
      invariant Lower(older[i..], txStart, arr) == Lower(older, last.xmax, [])
    {
      var id := older[i];
      assert older[i..][0] == id && older[i..][1..] == older[i + 1..];
      if txStart <= id + 100 {
        txStart := id;
      } else {
        arr := arr + [id];
      }
    }
    q := Query(txStart, cur.xmax, arr);
  }

  ghost predicate Distinct(ids: seq<nat>) {
    forall i, j :: 0 <= i < j < |ids| ==> ids[i] != ids[j]
  }

  /** Every older id ends up in the lowered range or in the list, never in both. */
  lemma {:induction false} LowerSplits(ids: seq<nat>, txStart: nat, arr: seq<nat>)
    requires StrictlyDescending(ids) && Distinct(arr)
    requires forall x :: x in ids ==> x < txStart
    requires forall x :: x in arr ==> x < txStart && x !in ids
    requires arr != [] ==> forall x :: x in ids ==> x + 100 < txStart
    ensures var (low, list) := Lower(ids, txStart, arr);
            && low <= txStart
            && Distinct(list)
            && (forall x :: x in list ==> x < low)
            && (forall x :: x in list ==> x in arr || x in ids)
            && (forall x :: x in arr ==> x in list)
            && (forall x :: x in ids ==> low <= x || x in list)
    decreases |ids|
  {
    if ids != [] {
      var id, rest := ids[0], ids[1..];
      assert id in ids && forall x :: x in rest ==> x in ids && x < id;
      if txStart <= id + 100 {
        LowerSplits(rest, id, arr);
      } else {
        LowerSplits(rest, txStart, arr + [id]);
        assert id in arr + [id];
      }
    }
  }

  lemma QueryShape(last: Snapshot, cur: Snapshot)
    requires last.Valid()
    ensures var q := QueryOf(last, cur);
            && q.txStart <= last.xmax
            && q.txEnd == cur.xmax
            && Distinct(q.arr)
            && (forall x :: x in q.arr ==> x < q.txStart && x in last.xip && x !in cur.xip)
            && (forall x :: x in last.xip && x !in cur.xip ==> q.txStart <= x || x in q.arr)
  {
    LowerSplits(Descending(last.xip - cur.xip), last.xmax, []);
  }

  /** The optimised query selects what the simple one selects, and no transaction
      comes from both halves. */
  lemma QueryIsExact(last: Snapshot, cur: Snapshot, x: nat)
    requires last.Valid() && cur.Valid() && last.xmax <= cur.xmax
    ensures Selects(QueryOf(last, cur), last, cur, x) <==> SimpleSelects(last, cur, x)
    ensures SimpleSelects(last, cur, x) <==> Between(last, cur, x)
    ensures !(InRange(QueryOf(last, cur), last, cur, x) && x in QueryOf(last, cur).arr)
    ensures Distinct(QueryOf(last, cur).arr)
  {
    QueryShape(last, cur);
  }
}
