/** What holds in every run of the log. */
module LogTheorems {
  import opened Wrappers
  import opened Snapshots
  import opened BatchQuery
  import opened EventLog
  import opened LogStore
  import opened LogReading
  import opened Places
  import opened LogMessages
  import opened LogRuns

  /** Rotation loses nothing: in every reachable state, a committed row that some
      subscription has not passed, in an open batch or not, is in the current or in the
      previous table, and the ticks that the subscriptions point to exist. */
  lemma RotationLosesNothing(states: seq<State>, i: nat, s: nat, e: Event)
    requires Run(states) && i < |states| && s in states[i].feed.subs
    ensures Pointed(states[i].feed)
    ensures |states[i].store.tables| >= 2 && states[i].store.cur < |states[i].store.tables|
    ensures Unread(states[i], s, e) ==>
      e in states[i].store.tables[states[i].store.cur] || e in states[i].store.tables[Previous(states[i].store)]
  {
    RunKeepsInv(states, i);
  }

  lemma TruncatedRowIsPassed(st: State, s: nat, e: Event)
    requires StoreInv(st) && st.store.rotation.Some? && s in st.feed.subs
    requires Following(st.store) < |st.store.tables| && e in st.store.tables[Following(st.store)]
    ensures LastSnapshot(st, s).Sees(e.txid)
  {
  }

  /** The TRUNCATE of step 1 removes no row that a subscription still needs, committed or
      not, and the tick cleanup removes no tick that one still points to. */
  lemma TruncateRemovesOnlyPassedRows(states: seq<State>, i: nat, s: nat, e: Event)
    requires Run(states) && i < |states| && Enabled(states[i], CommitRotation) && s in states[i].feed.subs
    requires Following(states[i].store) < |states[i].store.tables|
    requires e in states[i].store.tables[Following(states[i].store)]
    ensures LastSnapshot(states[i], s).Sees(e.txid)
    ensures states[i].feed.subs[s].last in Take(states[i], CommitRotation).feed.ticks
    ensures HasBatch(states[i], s) ==>
      states[i].feed.subs[s].batch.value.next in Take(states[i], CommitRotation).feed.ticks
  {
    RunKeepsInv(states, i);
    TicksStay(states[i], s);
    TruncatedRowIsPassed(states[i], s, e);
  }

  /** get_batch_events returns the batch, in every reachable state with an open batch. */
  lemma ReachableReadIsExact(states: seq<State>, i: nat, s: nat, e: Event)
    requires Run(states) && i < |states| && HasBatch(states[i], s)
    ensures Pointed(states[i].feed) && |states[i].store.tables| > 0
    ensures var st := states[i];
            var tables := BatchTables(st.store, LastSnapshot(st, s), NextSnapshot(st, s));
            e in Batch(st, s) <==> exists k :: k in tables && k < |st.store.tables| && Returned(st, s, k, e)
  {
    RunKeepsInv(states, i);
    ReadIsExact(states[i], s, e);
  }

  lemma OnePlaceHere(st: State, s: nat, id: nat)
    requires Pointed(st.feed) && Conserved(ViewOf(st)) && s in st.feed.subs
    ensures PlaceCount(ViewOf(st), Key(s, id)) == if SentAndCommitted(st, id) then 1 else 0
    ensures forall e, f :: Unread(st, s, e) && Unread(st, s, f) && e.id == f.id ==> e == f
  {
    ExactlyOnePlace(ViewOf(st), Key(s, id));
    forall e, f | Unread(st, s, e) && Unread(st, s, f) && e.id == f.id ensures e == f {
      assert Entry(s, e) in Log(st) && Entry(s, f) in Log(st);
    }
  }

  /** Every committed message is in exactly one of log, retry queue, dead letters, done, and
      purged, for each subscription; a message that is not committed is in none. */
  lemma EveryMessageHasOnePlace(states: seq<State>, i: nat, s: nat, id: nat)
    requires Run(states) && i < |states| && s in states[i].feed.subs
    ensures Pointed(states[i].feed)
    ensures PlaceCount(ViewOf(states[i]), Key(s, id)) == if SentAndCommitted(states[i], id) then 1 else 0
    ensures forall e, f :: Unread(states[i], s, e) && Unread(states[i], s, f) && e.id == f.id ==> e == f
  {
    RunKeepsInv(states, i);
    OnePlaceHere(states[i], s, id);
  }

  /** What waits, retries, or is dead is what was sent. */
  lemma NoMessageChanges(states: seq<State>, i: nat, k: Key, e: Event)
    requires Run(states) && i < |states|
    ensures var st := states[i];
            && (e in st.history.written ==>
              && e.id in st.history.sent
              && e.body == st.history.sent[e.id].body
              && e.retry <= st.maxRetries)
            && (k in st.parked.retries ==>
              && k.id in st.history.sent
              && st.parked.retries[k].body == st.history.sent[k.id].body
              && st.parked.retries[k].retry <= st.maxRetries)
            && (k in st.parked.dead ==>
              && k.id in st.history.sent
              && st.parked.dead[k].body == st.history.sent[k.id].body
              && st.parked.dead[k].retry <= st.maxRetries)
  {
    RunKeepsInv(states, i);
    if e in states[i].history.written {
      assert Genuine(states[i], e);
    }
  }

  // ---- batches over time

  /** Once a tick can see a transaction, its rows and its outcome stay as they are. */
  lemma EndedIsFixed(st: State, step: Step, e: Event)
    requires StoreInv(st) && RowInv(st) && Enabled(st, step) && Ended(st.tx, e.txid)
    ensures Ended(Take(st, step).tx, e.txid)
    ensures e in Take(st, step).history.written <==> e in st.history.written
    ensures e.txid in Take(st, step).tx.committed <==> e.txid in st.tx.committed
  {
  }

  ghost predicate OpenAs(st: State, s: nat, b: nat) {
    HasBatch(st, s) && st.feed.subs[s].batch.value.id == b
  }

  lemma OpenStays(st: State, step: Step, s: nat)
    requires StoreInv(st) && Enabled(st, step) && HasBatch(st, s)
    requires !(step.Finish? && step.sub == s)
    ensures HasBatch(Take(st, step), s) && Take(st, step).feed.subs[s] == st.feed.subs[s]
  {
  }

  /** An open batch holds the same messages until its own finish. */
  lemma BatchStays(st: State, step: Step, s: nat)
    requires StoreInv(st) && RowInv(st) && Enabled(st, step) && HasBatch(st, s)
    requires !(step.Finish? && step.sub == s) && Pointed(Take(st, step).feed)
    ensures HasBatch(Take(st, step), s)
    ensures Batch(Take(st, step), s) == Batch(st, s)
  {
    OpenStays(st, step, s);
    OnlyFinishMoves(st, step, s);
    NextStays(st, step, s);
    forall e: Event | NextSnapshot(st, s).Sees(e.txid)
      ensures e in Take(st, step).history.written <==> e in st.history.written
      ensures e.txid in Take(st, step).tx.committed <==> e.txid in st.tx.committed
    {
      assert Ended(st.tx, e.txid);
      EndedIsFixed(st, step, e);
    }
    SameWindowSameBatch(st, Take(st, step), s);
  }

  lemma NextStays(st: State, step: Step, s: nat)
    requires Ordered(st.tx, st.feed) && Enabled(st, step) && HasBatch(st, s)
    requires HasBatch(Take(st, step), s) && Take(st, step).feed.subs[s] == st.feed.subs[s]
    requires Pointed(Take(st, step).feed)
    ensures NextSnapshot(Take(st, step), s) == NextSnapshot(st, s)
  {
  }

  lemma SameWindowSameBatch(st: State, st': State, s: nat)
    requires Pointed(st.feed) && Pointed(st'.feed) && HasBatch(st, s) && HasBatch(st', s)
    requires LastSnapshot(st', s) == LastSnapshot(st, s) && NextSnapshot(st', s) == NextSnapshot(st, s)
    requires forall e: Event :: NextSnapshot(st, s).Sees(e.txid) ==>
      && (e in st'.history.written <==> e in st.history.written)
      && (e.txid in st'.tx.committed <==> e.txid in st.tx.committed)
    ensures Batch(st', s) == Batch(st, s)
  {
  }

  lemma BatchIdsGrow(st: State, step: Step, s: nat, b: nat)
    requires BatchIdsFresh(st) && Enabled(st, step)
    ensures st.feed.nextBatch <= Take(st, step).feed.nextBatch
    ensures OpenAs(Take(st, step), s, b) && !OpenAs(st, s, b) ==> b == st.feed.nextBatch
  {
  }

  lemma {:induction false} RunBatchIdsGrow(states: seq<State>, i: nat, j: nat)
    requires Run(states) && i <= j < |states|
    ensures states[i].feed.nextBatch <= states[j].feed.nextBatch
  {
    if i < j {
      RunBatchIdsGrow(states, i, j - 1);
      RunKeepsInv(states, j - 1);
      assert StepAt(states, j);
      var step :| Enabled(states[j - 1], step) && states[j] == Take(states[j - 1], step);
      BatchIdsGrow(states[j - 1], step, 0, 0);
    }
  }

  /** A batch that is open before a step and after it was not finished by the step. */
  lemma StillOpen(start: State, st: State, step: Step, s: nat, b: nat)
    requires Inv(start, st) && Enabled(st, step) && OpenAs(Take(st, step), s, b) && b < st.feed.nextBatch
    ensures OpenAs(st, s, b)
    ensures Pointed(Take(st, step).feed) && Batch(Take(st, step), s) == Batch(st, s)
  {
    BatchIdsGrow(st, step, s, b);
    StepKeepsStore(st, step);
    BatchStays(st, step, s);
  }

  lemma RunStillOpen(states: seq<State>, j: nat, s: nat, b: nat)
    requires Run(states) && 0 < j < |states| && OpenAs(states[j], s, b) && b < states[j - 1].feed.nextBatch
    ensures OpenAs(states[j - 1], s, b)
    ensures Pointed(states[j - 1].feed) && Pointed(states[j].feed)
    ensures Batch(states[j], s) == Batch(states[j - 1], s)
  {
    RunKeepsInv(states, j - 1);
    assert StepAt(states, j);
    var step :| Enabled(states[j - 1], step) && states[j] == Take(states[j - 1], step);
    StillOpen(states[0], states[j - 1], step, s, b);
  }

  lemma RunOpenIsOld(states: seq<State>, i: nat, s: nat, b: nat)
    requires Run(states) && i < |states| && OpenAs(states[i], s, b)
    ensures Pointed(states[i].feed) && b < states[i].feed.nextBatch
  {
    RunKeepsInv(states, i);
  }

  /** A batch that comes back comes back whole: whenever the same batch is open again,
      after any crash or takeover, it holds the same messages. */
  lemma {:induction false} SameBatchSameMessages(states: seq<State>, i: nat, j: nat, s: nat, b: nat)
    requires Run(states) && i <= j < |states|
    requires OpenAs(states[i], s, b) && OpenAs(states[j], s, b)
    ensures Pointed(states[i].feed) && Pointed(states[j].feed)
    ensures Batch(states[i], s) == Batch(states[j], s)
  {
    RunOpenIsOld(states, i, s, b);
    if i < j {
      RunBatchIdsGrow(states, i, j - 1);
      RunStillOpen(states, j, s, b);
      SameBatchSameMessages(states, i, j - 1, s, b);
    }
  }

  // ---- results are stored at most once

  ghost predicate PassedAs(st: State, s: nat, b: nat) {
    exists k :: 0 <= k < |PassedBy(st, s)| && PassedBy(st, s)[k].batch == b
  }

  lemma PassedStays(st: State, step: Step, s: nat, b: nat)
    requires Enabled(st, step) && PassedAs(st, s, b)
    ensures PassedAs(Take(st, step), s, b)
  {
    var k :| 0 <= k < |PassedBy(st, s)| && PassedBy(st, s)[k].batch == b;
    assert PassedBy(st, s) <= PassedBy(Take(st, step), s);
    assert PassedBy(Take(st, step), s)[k].batch == b;
  }

  lemma {:induction false} RunPassedStays(states: seq<State>, i: nat, j: nat, s: nat, b: nat)
    requires Run(states) && i <= j < |states| && PassedAs(states[i], s, b)
    ensures PassedAs(states[j], s, b)
  {
    if i < j {
      RunPassedStays(states, i, j - 1, s, b);
      assert StepAt(states, j);
      var step :| Enabled(states[j - 1], step) && states[j] == Take(states[j - 1], step);
      PassedStays(states[j - 1], step, s, b);
    }
  }

  /** Only the first finish of a batch takes effect: after it, no finish of that batch is
      possible, by any worker, with any results. */
  lemma BatchFinishesOnce(states: seq<State>, i: nat, j: nat, s: nat, b: nat, t: nat,
                          first: map<Event, Verdict>, second: map<Event, Verdict>)
    requires Run(states) && i < j < |states|
    requires Enabled(states[i], Finish(s, b, first)) && states[i + 1] == Take(states[i], Finish(s, b, first))
    ensures !Enabled(states[j], Finish(t, b, second))
  {
    RunKeepsInv(states, j);
    var before := PassedBy(states[i], s);
    assert PassedBy(states[i + 1], s)[|before|].batch == b;
    assert PassedAs(states[i + 1], s, b);
    RunPassedStays(states, i + 1, j, s, b);
    var k :| 0 <= k < |PassedBy(states[j], s)| && PassedBy(states[j], s)[k].batch == b;
  }

  // ---- batches partition the log

  /** A row was in the batch of a passed window. */
  ghost predicate WasIn(st: State, s: nat, k: nat, e: Event) {
    && k < |PassedBy(st, s)|
    && e in st.history.written && e.txid in st.tx.committed && Mine(e, s)
    && Between(PassedBy(st, s)[k].first, PassedBy(st, s)[k].end, e.txid)
  }

  /** Consecutive batches partition the log: each committed row that a subscription may
      read is unread, or was in exactly one batch that the subscription passed, whatever
      ticks its transaction spans. */
  lemma EveryRowInOneBatch(states: seq<State>, i: nat, s: nat, e: Event)
    requires Run(states) && i < |states| && s in states[i].feed.subs
    requires e in states[i].history.written && e.txid in states[i].tx.committed && Mine(e, s)
    ensures Pointed(states[i].feed)
    ensures Unread(states[i], s, e) <==> !exists k :: WasIn(states[i], s, k, e)
    ensures forall j, k :: WasIn(states[i], s, j, e) && WasIn(states[i], s, k, e) ==> j == k
  {
    RunKeepsInv(states, i);
    var start, st := states[0], states[i];
    var ws := PassedBy(st, s);
    ChainCovers(ws, LastSnapshot(start, s), LastSnapshot(st, s), e.txid);
    if k :| 0 <= k < |ws| && Between(ws[k].first, ws[k].end, e.txid) {
      assert WasIn(st, s, k, e);
    }
    forall j: nat, k: nat | WasIn(st, s, j, e) && WasIn(st, s, k, e) ensures j == k {
      ChainDisjoint(ws, LastSnapshot(start, s), LastSnapshot(st, s), j, k, e.txid);
    }
  }

  /** A batch is the window it will leave behind. */
  lemma BatchIsItsWindow(states: seq<State>, i: nat, s: nat, b: nat, verdicts: map<Event, Verdict>, e: Event)
    requires Run(states) && i < |states| && Enabled(states[i], Finish(s, b, verdicts))
    ensures Pointed(states[i].feed)
    ensures e in Batch(states[i], s) <==> WasIn(Take(states[i], Finish(s, b, verdicts)), s, |PassedBy(states[i], s)|, e)
  {
  }

  /** A retried copy is for its owner only: no subscription but the owner reads it from any table
      that batch_event_tables chooses, and no other has it in any batch that it passed, while
      the owner has it, once committed, as unread or in a batch that it passed. */
  lemma CopyIsForItsOwner(states: seq<State>, i: nat, s: nat, e: Event)
    requires Run(states) && i < |states| && s in states[i].feed.subs && e in states[i].history.written && e.owner.Some?
    ensures var st := states[i];
            && Pointed(st.feed) && |st.store.tables| > 0
            && (HasBatch(st, s) && e.owner.value != s ==>
                 forall k :: k in BatchTables(st.store, LastSnapshot(st, s), NextSnapshot(st, s)) && k < |st.store.tables| ==>
                   !Returned(st, s, k, e))
            && (forall k :: WasIn(st, s, k, e) ==> e.owner.value == s)
            && (e.owner.value == s && e.txid in st.tx.committed ==>
                 Unread(st, s, e) || exists k :: WasIn(st, s, k, e))
  {
    RunKeepsInv(states, i);
    if e.owner.value == s && e.txid in states[i].tx.committed {
      EveryRowInOneBatch(states, i, s, e);
    }
  }
}
