/** get_batch_events builds the text of its query and then runs it. Other sessions may act in
    between, and a rotation may truncate a table. */
module LateReads {
  import opened Wrappers
  import opened Snapshots
  import opened BatchQuery
  import opened EventLog
  import opened LogStore
  import opened LogReading
  import opened LogMessages
  import opened LogRuns
  import opened LogTheorems

  /** A row of table k that the query built in state st returns when it runs in state now. */
  ghost predicate ReturnedLate(st: State, now: State, s: nat, k: nat, e: Event)
    requires Pointed(st.feed) && HasBatch(st, s) && k < |now.store.tables|
  {
    var last, end := LastSnapshot(st, s), NextSnapshot(st, s);
    && e in now.store.tables[k]
    && e.txid in now.tx.committed
    && Selects(QueryOf(last, end), last, end, e.txid)
    && Mine(e, s)
  }

  /** No step moves a row that a subscription still needs, or removes it: a rotation truncates
      another table. */
  lemma NeededRowStays(st: State, step: Step, s: nat, e: Event, k: nat)
    requires StoreInv(st) && Enabled(st, step) && s in st.feed.subs && !LastSnapshot(st, s).Sees(e.txid)
    requires k < |st.store.tables| && e in st.store.tables[k]
    ensures |Take(st, step).store.tables| == |st.store.tables| && e in Take(st, step).store.tables[k]
  {
    if step.CommitRotation? {
      assert e in st.history.written;
      UnreadIsCurrent(st, s, e);
      assert k == st.store.cur;
    }
  }

  lemma NextKeepsRow(start: State, st: State, now: State, s: nat, e: Event, k: nat)
    requires Inv(start, st) && Next(st, now) && s in st.feed.subs && !LastSnapshot(st, s).Sees(e.txid)
    requires k < |st.store.tables| && e in st.store.tables[k]
    ensures |now.store.tables| == |st.store.tables| && e in now.store.tables[k]
  {
    var step :| Enabled(st, step) && now == Take(st, step);
    NeededRowStays(st, step, s, e, k);
  }

  /** A row of an open batch stays in its table for as long as the batch is open. */
  lemma {:induction false} BatchRowStays(states: seq<State>, i: nat, j: nat, s: nat, b: nat, e: Event, k: nat)
    requires Run(states) && i <= j < |states| && OpenAs(states[i], s, b) && OpenAs(states[j], s, b)
    requires Pointed(states[i].feed) && e in Batch(states[i], s)
    requires k < |states[i].store.tables| && e in states[i].store.tables[k]
    ensures k < |states[j].store.tables| && e in states[j].store.tables[k]
    decreases j
  {
    if i < j {
      RunOpenIsOld(states, i, s, b);
      RunBatchIdsGrow(states, i, j - 1);
      RunStillOpen(states, j, s, b);
      BatchRowStays(states, i, j - 1, s, b, e, k);
      SameBatchSameMessages(states, i, j - 1, s, b);
      RunKeepsInv(states, j - 1);
      assert StepAt(states, j);
      NextKeepsRow(states[0], states[j - 1], states[j], s, e, k);
    }
  }

  lemma NextKeepsEnded(start: State, st: State, now: State, e: Event)
    requires Inv(start, st) && Next(st, now) && Ended(st.tx, e.txid)
    ensures Ended(now.tx, e.txid)
    ensures e in now.history.written <==> e in st.history.written
    ensures e.txid in now.tx.committed <==> e.txid in st.tx.committed
  {
    var step :| Enabled(st, step) && now == Take(st, step);
    EndedIsFixed(st, step, e);
  }

  lemma {:induction false} EndedForever(states: seq<State>, i: nat, j: nat, e: Event)
    requires Run(states) && i <= j < |states| && Ended(states[i].tx, e.txid)
    ensures Ended(states[j].tx, e.txid)
    ensures e in states[j].history.written <==> e in states[i].history.written
    ensures e.txid in states[j].tx.committed <==> e.txid in states[i].tx.committed
    decreases j
  {
    if i < j {
      EndedForever(states, i, j - 1, e);
      RunKeepsInv(states, j - 1);
      assert StepAt(states, j);
      NextKeepsEnded(states[0], states[j - 1], states[j], e);
    }
  }

  /** What the query is about has ended when the query is built. */
  lemma SelectedHasEnded(st: State, s: nat, e: Event)
    requires StoreInv(st) && HasBatch(st, s)
    ensures Selects(QueryOf(LastSnapshot(st, s), NextSnapshot(st, s)), LastSnapshot(st, s), NextSnapshot(st, s), e.txid) <==>
            Between(LastSnapshot(st, s), NextSnapshot(st, s), e.txid)
    ensures Between(LastSnapshot(st, s), NextSnapshot(st, s), e.txid) ==> Ended(st.tx, e.txid)
  {
    OpenBatchOrdered(st, s);
    QueryIsExact(LastSnapshot(st, s), NextSnapshot(st, s), e.txid);
    assert Past(st.tx, NextSnapshot(st, s));
  }

  lemma RowsAreWritten(st: State, k: nat, e: Event)
    requires StoreInv(st) && k < |st.store.tables| && e in st.store.tables[k]
    ensures e in st.history.written
  {
  }

  /** A query that was built while the batch was open, over the tables that were chosen then,
      returns exactly the batch whenever it runs while the batch is still open, whatever
      other sessions did in between, rotations included; and it returns no row twice. */
  lemma LateReadIsExact(states: seq<State>, i: nat, j: nat, s: nat, b: nat, e: Event)
    requires Run(states) && i <= j < |states| && OpenAs(states[i], s, b) && OpenAs(states[j], s, b)
    ensures Pointed(states[i].feed) && |states[i].store.tables| > 0
    ensures var st, now := states[i], states[j];
            var tables := BatchTables(st.store, LastSnapshot(st, s), NextSnapshot(st, s));
            && (e in Batch(st, s) <==> exists k :: k in tables && k < |now.store.tables| && ReturnedLate(st, now, s, k, e))
            && forall k: nat, m: nat | k < |now.store.tables| && m < |now.store.tables| ::
                 ReturnedLate(st, now, s, k, e) && ReturnedLate(st, now, s, m, e) ==> k == m
  {
    var st, now := states[i], states[j];
    RunKeepsInv(states, i);
    RunKeepsInv(states, j);
    SelectedHasEnded(st, s, e);
    var tables := BatchTables(st.store, LastSnapshot(st, s), NextSnapshot(st, s));
    if Ended(st.tx, e.txid) {
      EndedForever(states, i, j, e);
    }
    if e in Batch(st, s) {
      TableChoiceIsComplete(st, s, e);
      var k :| k in tables && k < |st.store.tables| && e in st.store.tables[k];
      BatchRowStays(states, i, j, s, b, e, k);
      assert ReturnedLate(st, now, s, k, e);
    }
    if k :| k in tables && k < |now.store.tables| && ReturnedLate(st, now, s, k, e) {
      RowsAreWritten(now, k, e);
    }
  }
}
