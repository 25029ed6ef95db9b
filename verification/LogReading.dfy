/** Reading a batch: what get_batch_events returns from the tables is the batch. */
module LogReading {
  import opened Wrappers
  import opened Snapshots
  import opened BatchQuery
  import opened EventLog
  import opened LogStore

  /** The query of an open batch meets the condition under which it is exact. */
  lemma OpenBatchOrdered(st: State, s: nat)
    requires StoreInv(st) && HasBatch(st, s)
    ensures LastSnapshot(st, s).Valid() && NextSnapshot(st, s).Valid()
    ensures Precedes(LastSnapshot(st, s), NextSnapshot(st, s))
  {
  }

  /** Table choice is complete, and the two tests drop only tables that cannot hold a row: each
      row between the two ticks of an open batch is in one of the chosen tables. */
  lemma RowIsChosen(st: State, s: nat, e: Event)
    requires StoreInv(st) && HasBatch(st, s) && e in st.history.written && e.txid in st.tx.committed
    requires Between(LastSnapshot(st, s), NextSnapshot(st, s), e.txid)
    ensures var tables := BatchTables(st.store, LastSnapshot(st, s), NextSnapshot(st, s));
            exists k :: k in tables && k < |st.store.tables| && e in st.store.tables[k]
  {
    var last, cur := LastSnapshot(st, s), NextSnapshot(st, s);
    assert e in st.store.tables[st.store.cur] || e in st.store.tables[Previous(st.store)];
    var tables := BatchTables(st.store, last, cur);
    if cur.xmax < st.store.step1 {
      assert e !in st.store.tables[st.store.cur];
      assert Previous(st.store) in tables;
    } else if st.store.step2.Some? && last.xmin > st.store.step2.value {
      assert last.xmin <= e.txid;
      assert st.store.cur in tables;
    } else {
      assert st.store.cur in tables && Previous(st.store) in tables;
    }
  }

  lemma TableChoiceIsComplete(st: State, s: nat, e: Event)
    requires StoreInv(st) && HasBatch(st, s) && e in Batch(st, s)
    ensures var tables := BatchTables(st.store, LastSnapshot(st, s), NextSnapshot(st, s));
            exists k :: k in tables && k < |st.store.tables| && e in st.store.tables[k]
  {
    RowIsChosen(st, s, e);
  }

  /** The physical read equals the definition of the batch, row for row: a row comes back
      from some chosen table exactly when it is in the batch ... */
  lemma ReadIsExact(st: State, s: nat, e: Event)
    requires StoreInv(st) && HasBatch(st, s)
    ensures var tables := BatchTables(st.store, LastSnapshot(st, s), NextSnapshot(st, s));
            e in Batch(st, s) <==> exists k :: k in tables && k < |st.store.tables| && Returned(st, s, k, e)
  {
    var last, cur := LastSnapshot(st, s), NextSnapshot(st, s);
    OpenBatchOrdered(st, s);
    QueryIsExact(last, cur, e.txid);
    var tables := BatchTables(st.store, last, cur);
    if e in Batch(st, s) {
      TableChoiceIsComplete(st, s, e);
      var k :| k in tables && k < |st.store.tables| && e in st.store.tables[k];
      assert Returned(st, s, k, e);
    }
  }

  /** ... and it comes back once: from one table, and from one half of the query. */
  lemma ReadHasNoDuplicates(st: State, s: nat, j: nat, k: nat, e: Event)
    requires StoreInv(st) && HasBatch(st, s)
    requires j < |st.store.tables| && k < |st.store.tables| && Returned(st, s, j, e) && Returned(st, s, k, e)
    ensures j == k
    ensures var last, cur := LastSnapshot(st, s), NextSnapshot(st, s);
            !(InRange(QueryOf(last, cur), last, cur, e.txid) && e.txid in QueryOf(last, cur).arr)
    ensures var tables := BatchTables(st.store, LastSnapshot(st, s), NextSnapshot(st, s));
            forall a, b :: 0 <= a < b < |tables| ==> tables[a] != tables[b]
  {
    OpenBatchOrdered(st, s);
    QueryIsExact(LastSnapshot(st, s), NextSnapshot(st, s), e.txid);
  }
}
