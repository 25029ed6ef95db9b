/** Conservation over the log: each step moves messages between their places and loses
    none, copies none. */
module LogMessages {
  import opened Wrappers
  import opened Snapshots
  import opened BatchQuery
  import opened EventLog
  import opened LogStore
  import opened Places

  ghost predicate SentAndCommitted(st: State, id: nat) {
    id in st.history.sent && st.history.sent[id].txid in st.tx.committed
  }

  /** The first row of a message. */
  function Original(st: State, id: nat): Event
    requires id in st.history.sent
  {
    Event(id, st.history.sent[id].txid, None, 0, st.history.sent[id].body)
  }

  ghost function Log(st: State): set<Entry>
    requires Pointed(st.feed)
  {
    set s, e | s in st.feed.subs && e in st.history.written && Unread(st, s, e) :: Entry(s, e)
  }

  ghost function Sent(st: State): set<nat> {
    set id | id in st.history.sent && st.history.sent[id].txid in st.tx.committed
  }

  ghost function ViewOf(st: State): View
    requires Pointed(st.feed)
  {
    View(st.feed.subs.Keys, Sent(st), Log(st), st.parked.retries.Keys, st.parked.dead.Keys, st.history.done, st.history.purged)
  }

  /** Every message has its first row. */
  ghost predicate SentRows(st: State) {
    forall id :: id in st.history.sent ==>
      id < st.nextId && st.history.sent[id].txid < st.tx.next && Original(st, id) in st.history.written
  }

  /** A row is the first row of its message or a copy for a subscription; it carries the
      body that was sent, and no more retries than the limit. */
  ghost predicate Genuine(st: State, e: Event) {
    && e.id in st.history.sent
    && e.body == st.history.sent[e.id].body
    && e.retry <= st.maxRetries
    && (e.owner == None ==> e == Original(st, e.id))
    && (e.owner.Some? ==> SentAndCommitted(st, e.id) && e.txid < st.tx.next)
  }

  ghost predicate GenuineRows(st: State) {
    forall e :: e in st.history.written ==> Genuine(st, e)
  }

  ghost predicate GenuineParked(st: State, k: Key, row: Row) {
    && SentAndCommitted(st, k.id)
    && row.body == st.history.sent[k.id].body
    && row.retry <= st.maxRetries
  }

  ghost predicate ParkedRows(st: State) {
    && (forall k :: k in st.parked.retries ==> GenuineParked(st, k, st.parked.retries[k]))
    && (forall k :: k in st.parked.dead ==> GenuineParked(st, k, st.parked.dead[k]))
  }

  /** A copy whose transaction still runs belongs to the one running mover, which holds
      the retry row it came from. */
  ghost predicate Moving(st: State) {
    && (st.parked.mover == None ==> st.parked.moving == {})
    && st.parked.moving <= st.parked.retries.Keys
    && (st.parked.mover.Some? ==>
      && st.parked.mover.value in st.tx.running
      && (forall k :: k in st.parked.moving ==>
        Copy(st.parked.mover.value, k, st.parked.retries[k]) in st.history.written)
      && (forall e :: e in st.history.written && e.txid == st.parked.mover.value ==>
        && e.owner.Some?
        && Key(e.owner.value, e.id) in st.parked.moving
        && e == Copy(e.txid, Key(e.owner.value, e.id), st.parked.retries[Key(e.owner.value, e.id)])))
    && (forall e :: e in st.history.written && e.owner.Some? && e.txid in st.tx.running ==>
      st.parked.mover == Some(e.txid))
  }

  /** A rotation writes no event and moves no retry. */
  ghost predicate QuietRotation(st: State) {
    st.store.rotation.Some? ==>
      && (forall e :: e in st.history.written ==> e.txid != st.store.rotation.value.xid)
      && st.parked.mover != Some(st.store.rotation.value.xid)
  }

  ghost predicate RowInv(st: State) {
    SentRows(st) && GenuineRows(st) && ParkedRows(st) && Moving(st) && QuietRotation(st)
  }

  ghost predicate MessageInv(st: State)
    requires Pointed(st.feed)
  {
    RowInv(st) && Conserved(ViewOf(st))
  }

  /** What the messages need to know about transactions and ticks. */
  ghost predicate FeedInv(st: State) {
    Transactions(st.tx) && Ordered(st.tx, st.feed) && Pointed(st.feed)
  }

  // ---- steps that touch no message

  /** No new row, and no transaction with rows ends. */
  ghost predicate Quiet(st: State, st': State) {
    && st'.parked == st.parked
    && st'.history.written == st.history.written && st'.history.sent == st.history.sent
    && st'.history.done == st.history.done && st'.history.purged == st.history.purged
    && st'.nextId == st.nextId && st'.maxRetries == st.maxRetries
    && st.tx.next <= st'.tx.next
    && (forall x :: x in st'.tx.running ==> x in st.tx.running || st.tx.next <= x)
    && (st.parked.mover.Some? ==> st.parked.mover.value in st'.tx.running)
    && st.tx.committed <= st'.tx.committed
    && (forall e :: e in st.history.written && e.txid in st'.tx.committed ==> e.txid in st.tx.committed)
  }

  lemma QuietKeepsRows(st: State, st': State)
    requires RowInv(st) && Quiet(st, st') && QuietRotation(st')
    requires forall e :: e in st.history.written ==> e.txid < st.tx.next
    ensures RowInv(st')
  {
  }

  lemma QuietKeepsView(st: State, st': State)
    requires FeedInv(st) && SentRows(st) && Quiet(st, st') && Pointed(st'.feed)
    requires st'.feed.subs.Keys == st.feed.subs.Keys
    requires forall s :: s in st.feed.subs ==> LastSnapshot(st', s) == LastSnapshot(st, s)
    ensures ViewOf(st') == ViewOf(st)
  {
  }

  // ---- producers

  lemma InsertKeepsRows(st: State, x: nat, body: string)
    requires FeedInv(st) && RowInv(st) && Enabled(st, Insert(x, body))
    ensures RowInv(Take(st, Insert(x, body)))
  {
    InsertKeepsGenuine(st, x, body);
    InsertKeepsMoving(st, x, body);
  }

  lemma InsertKeepsGenuine(st: State, x: nat, body: string)
    requires FeedInv(st) && SentRows(st) && GenuineRows(st) && ParkedRows(st) && Enabled(st, Insert(x, body))
    ensures var st' := Take(st, Insert(x, body)); SentRows(st') && GenuineRows(st') && ParkedRows(st')
  {
  }

  lemma InsertKeepsMoving(st: State, x: nat, body: string)
    requires Moving(st) && QuietRotation(st) && Enabled(st, Insert(x, body))
    ensures var st' := Take(st, Insert(x, body)); Moving(st') && QuietRotation(st')
  {
  }

  lemma InsertKeepsView(st: State, x: nat, body: string)
    requires FeedInv(st) && SentRows(st) && Enabled(st, Insert(x, body))
    ensures ViewOf(Take(st, Insert(x, body))) == ViewOf(st)
  {
  }

  /** The messages of a producer. */
  ghost function MessagesOf(st: State, x: nat): set<Event> {
    set e | e in st.history.written && e.txid == x
  }

  lemma CommitKeepsRows(st: State, x: nat)
    requires FeedInv(st) && RowInv(st) && Enabled(st, Commit(x))
    ensures RowInv(Take(st, Commit(x)))
  {
  }

  /** When a producer commits, its messages enter the log of every subscription. */
  lemma CommitSends(st: State, x: nat)
    requires FeedInv(st) && RowInv(st) && Enabled(st, Commit(x))
    ensures var rows := MessagesOf(st, x);
            && ViewOf(Take(st, Commit(x))) == Send(ViewOf(st), rows)
            && (forall e :: e in rows ==> e.id !in Sent(st))
            && (forall e, f :: e in rows && f in rows && e.id == f.id ==> e == f)
  {
  }

  lemma AbortKeepsRows(st: State, x: nat)
    requires FeedInv(st) && RowInv(st) && Enabled(st, Abort(x))
    ensures RowInv(Take(st, Abort(x)))
  {
  }

  /** An abort removes nothing that anyone could read. */
  lemma AbortKeepsView(st: State, x: nat)
    requires FeedInv(st) && Enabled(st, Abort(x))
    ensures ViewOf(Take(st, Abort(x))) == ViewOf(st)
  {
  }

  // ---- retries

  lemma CopyIsNew(st: State, x: nat, key: Key)
    requires FeedInv(st) && RowInv(st) && Enabled(st, MoveRetry(x, key))
    ensures Copy(x, key, st.parked.retries[key]) !in st.history.written
    ensures x in st.tx.running
  {
  }

  lemma MoveKeepsRows(st: State, x: nat, key: Key)
    requires FeedInv(st) && RowInv(st) && Enabled(st, MoveRetry(x, key))
    ensures RowInv(Take(st, MoveRetry(x, key)))
  {
    MoveKeepsGenuine(st, x, key);
    MoveKeepsMoving(st, x, key);
  }

  lemma MoveKeepsGenuine(st: State, x: nat, key: Key)
    requires FeedInv(st) && SentRows(st) && GenuineRows(st) && ParkedRows(st) && Enabled(st, MoveRetry(x, key))
    requires x in st.tx.running
    ensures var st' := Take(st, MoveRetry(x, key)); SentRows(st') && GenuineRows(st') && ParkedRows(st')
  {
    assert GenuineParked(st, key, st.parked.retries[key]);
  }

  lemma MoveKeepsMoving(st: State, x: nat, key: Key)
    requires FeedInv(st) && Moving(st) && QuietRotation(st) && Enabled(st, MoveRetry(x, key))
    ensures var st' := Take(st, MoveRetry(x, key)); Moving(st') && QuietRotation(st')
  {
  }

  lemma MoveKeepsView(st: State, x: nat, key: Key)
    requires FeedInv(st) && RowInv(st) && Enabled(st, MoveRetry(x, key))
    ensures ViewOf(Take(st, MoveRetry(x, key))) == ViewOf(st)
  {
  }

  lemma CommitMoveKeepsRows(st: State)
    requires FeedInv(st) && RowInv(st) && Enabled(st, CommitMove)
    ensures RowInv(Take(st, CommitMove))
  {
  }

  ghost function Copies(st: State): set<Entry>
    requires st.parked.mover.Some? && st.parked.moving <= st.parked.retries.Keys
  {
    set k | k in st.parked.moving :: Entry(k.sub, Copy(st.parked.mover.value, k, st.parked.retries[k]))
  }

  /** When the mover commits, each moved message leaves the retry queue and enters the
      log of its own subscription. */
  lemma CommitMoveMovesBack(st: State)
    requires FeedInv(st) && RowInv(st) && Enabled(st, CommitMove)
    requires forall k :: k in st.parked.retries ==> k.sub in st.feed.subs
    ensures ViewOf(Take(st, CommitMove)) == MoveBack(ViewOf(st), Copies(st))
    ensures KeysOf(Copies(st)) == st.parked.moving
    ensures forall a, b :: a in Copies(st) && b in Copies(st) && KeyOf(a) == KeyOf(b) ==> a == b
  {
    var st', x := Take(st, CommitMove), st.parked.mover.value;
    forall k | k in st.parked.moving ensures k in KeysOf(Copies(st)) {
      assert KeyOf(Entry(k.sub, Copy(x, k, st.parked.retries[k]))) == k;
    }
    assert Sent(st') == Sent(st) by {
      forall id | id in Sent(st') ensures id in Sent(st) {
        assert Original(st, id) in st.history.written;
      }
    }
    CommitMoveLog(st);
  }

  lemma CommitMoveLog(st: State)
    requires FeedInv(st) && Moving(st) && Enabled(st, CommitMove)
    requires forall k :: k in st.parked.retries ==> k.sub in st.feed.subs
    ensures Log(Take(st, CommitMove)) == Log(st) + Copies(st)
  {
  }

  // ---- finishing

  /** A batch holds no message twice. */
  lemma BatchHasDistinctIds(st: State, sub: nat, e: Event, f: Event)
    requires Pointed(st.feed) && Apart(ViewOf(st)) && HasBatch(st, sub)
    requires e in Batch(st, sub) && f in Batch(st, sub) && e.id == f.id
    ensures e == f
  {
    assert Entry(sub, e) in Log(st) && Entry(sub, f) in Log(st);
  }

  /** Storing the failures of a batch meets no earlier row: the insert into the retry
      queue breaks no key, and no dead letter is skipped. */
  lemma FailuresAreNew(st: State, sub: nat, e: Event)
    requires Pointed(st.feed) && Apart(ViewOf(st)) && HasBatch(st, sub) && e in Batch(st, sub)
    ensures Key(sub, e.id) !in st.parked.retries && Key(sub, e.id) !in st.parked.dead
    ensures Key(sub, e.id) !in st.history.done && Key(sub, e.id) !in st.history.purged
  {
    assert Entry(sub, e) in Log(st);
    assert KeyOf(Entry(sub, e)) == Key(sub, e.id);
  }

  ghost predicate DistinctIds(es: set<Event>) {
    forall e, f :: e in es && f in es && e.id == f.id ==> e == f
  }

  lemma RowsOf(sub: nat, es: set<Event>, more: nat, e: Event)
    requires e in es && DistinctIds(es)
    ensures Key(sub, e.id) in Rows(sub, es, more)
    ensures Rows(sub, es, more)[Key(sub, e.id)] == Row(e.retry + more, e.body)
  {
  }

  lemma StoredRowsAreGenuine(st: State, sub: nat, es: set<Event>, more: nat, k: Key)
    requires FeedInv(st) && GenuineRows(st) && DistinctIds(es) && k in Rows(sub, es, more)
    requires forall e :: e in es ==>
      e in st.history.written && SentAndCommitted(st, e.id) && e.retry + more <= st.maxRetries
    ensures GenuineParked(st, k, Rows(sub, es, more)[k])
  {
  }

  lemma FinishKeepsRows(st: State, s: nat, b: nat, verdicts: map<Event, Verdict>)
    requires FeedInv(st) && MessageInv(st) && Enabled(st, Finish(s, b, verdicts))
    ensures RowInv(Take(st, Finish(s, b, verdicts)))
  {
    var st' := Take(st, Finish(s, b, verdicts));
    var retry, dead := With(verdicts, Retry), With(verdicts, Dead);
    forall e | e in retry || e in dead ensures e in Batch(st, s) && SentAndCommitted(st, e.id) && e.retry <= st.maxRetries {
      assert e in verdicts.Keys;
      assert Entry(s, e) in Log(st);
      assert Genuine(st, e);
    }
    forall e, f | ((e in retry && f in retry) || (e in dead && f in dead)) && e.id == f.id ensures e == f {
      BatchHasDistinctIds(st, s, e, f);
    }
    forall k | k in Rows(s, retry, 1) ensures GenuineParked(st, k, Rows(s, retry, 1)[k]) {
      StoredRowsAreGenuine(st, s, retry, 1, k);
    }
    forall k | k in Rows(s, dead, 0) ensures GenuineParked(st, k, Rows(s, dead, 0)[k]) {
      StoredRowsAreGenuine(st, s, dead, 0, k);
    }
    forall k | k in Keys(s, retry) ensures k !in st.parked.retries {
      var e :| e in retry && k == Key(s, e.id);
      FailuresAreNew(st, s, e);
    }
    FinishRows(st, st');
  }

  lemma FinishRows(st: State, st': State)
    requires RowInv(st)
    requires st'.tx == st.tx && st'.store == st.store && st'.nextId == st.nextId && st'.maxRetries == st.maxRetries
    requires st'.history.written == st.history.written && st'.history.sent == st.history.sent
    requires st'.parked.mover == st.parked.mover && st'.parked.moving == st.parked.moving
    requires forall k :: k in st.parked.retries ==> k in st'.parked.retries && st'.parked.retries[k] == st.parked.retries[k]
    requires forall k :: k in st'.parked.retries ==> k in st.parked.retries || GenuineParked(st, k, st'.parked.retries[k])
    requires forall k :: k in st'.parked.dead ==> GenuineParked(st, k, st'.parked.dead[k])
    ensures RowInv(st')
  {
    FinishMoving(st, st');
  }

  lemma FinishMoving(st: State, st': State)
    requires Moving(st) && st'.tx == st.tx && st'.history.written == st.history.written
    requires st'.parked.mover == st.parked.mover && st'.parked.moving == st.parked.moving
    requires forall k :: k in st.parked.retries ==> k in st'.parked.retries && st'.parked.retries[k] == st.parked.retries[k]
    ensures Moving(st')
  {
  }

  ghost function BatchEntries(st: State, s: nat): set<Entry>
    requires Pointed(st.feed) && HasBatch(st, s)
  {
    set e | e in Batch(st, s) :: Entry(s, e)
  }

  lemma VerdictsSplit(s: nat, batch: set<Event>, verdicts: map<Event, Verdict>)
    requires verdicts.Keys == batch && DistinctIds(batch)
    ensures var done, retry, dead := Keys(s, With(verdicts, Done)), Keys(s, With(verdicts, Retry)), Keys(s, With(verdicts, Dead));
            done !! retry && done !! dead && retry !! dead && done + retry + dead == Keys(s, batch)
  {
  }

  /** Finishing takes exactly the batch out of the log. */
  lemma FinishLog(st: State, s: nat, b: nat, verdicts: map<Event, Verdict>)
    requires FeedInv(st) && Enabled(st, Finish(s, b, verdicts))
    ensures Pointed(Take(st, Finish(s, b, verdicts)).feed)
    ensures Log(Take(st, Finish(s, b, verdicts))) == Log(st) - BatchEntries(st, s)
  {
  }

  lemma EntryKeys(s: nat, es: set<Event>)
    ensures KeysOf(set e | e in es :: Entry(s, e)) == Keys(s, es)
  {
    var entries := set e | e in es :: Entry(s, e);
    forall e | e in es ensures Key(s, e.id) in KeysOf(entries) {
      assert KeyOf(Entry(s, e)) == Key(s, e.id);
    }
    forall k | k in KeysOf(entries) ensures k in Keys(s, es) {
      var a :| a in entries && KeyOf(a) == k;
    }
  }

  lemma BatchIdsDistinct(st: State, s: nat)
    requires Pointed(st.feed) && Apart(ViewOf(st)) && HasBatch(st, s)
    ensures DistinctIds(Batch(st, s))
  {
    forall e, f | e in Batch(st, s) && f in Batch(st, s) && e.id == f.id ensures e == f {
      BatchHasDistinctIds(st, s, e, f);
    }
  }

  /** Each message of the batch goes to exactly one of done, retry, and dead. */
  lemma FinishSettles(st: State, s: nat, b: nat, verdicts: map<Event, Verdict>)
    requires FeedInv(st) && Apart(ViewOf(st)) && Enabled(st, Finish(s, b, verdicts))
    ensures var st' := Take(st, Finish(s, b, verdicts));
            var done, retry, dead := Keys(s, With(verdicts, Done)), Keys(s, With(verdicts, Retry)), Keys(s, With(verdicts, Dead));
            && Pointed(st'.feed)
            && ViewOf(st') == Settle(ViewOf(st), BatchEntries(st, s), done, retry, dead)
            && BatchEntries(st, s) <= Log(st)
            && done !! retry && done !! dead && retry !! dead
            && done + retry + dead == KeysOf(BatchEntries(st, s))
  {
    BatchIdsDistinct(st, s);
    VerdictsSplit(s, Batch(st, s), verdicts);
    EntryKeys(s, Batch(st, s));
    FinishView(st, s, b, verdicts);
  }

  lemma FinishView(st: State, s: nat, b: nat, verdicts: map<Event, Verdict>)
    requires FeedInv(st) && Enabled(st, Finish(s, b, verdicts))
    ensures var st' := Take(st, Finish(s, b, verdicts));
            && Pointed(st'.feed)
            && ViewOf(st') == Settle(ViewOf(st), BatchEntries(st, s), Keys(s, With(verdicts, Done)),
              Keys(s, With(verdicts, Retry)), Keys(s, With(verdicts, Dead)))
            && BatchEntries(st, s) <= Log(st)
  {
    var st' := Take(st, Finish(s, b, verdicts));
    FinishLog(st, s, b, verdicts);
    assert Sent(st') == Sent(st);
    assert Rows(s, With(verdicts, Retry), 1).Keys == Keys(s, With(verdicts, Retry));
    assert Rows(s, With(verdicts, Dead), 0).Keys == Keys(s, With(verdicts, Dead));
  }

  /** These keys have a stored row for this message, and no other place. */
  ghost predicate LeavesDone(now: State, k: Key) {
    k in now.history.done && k !in now.parked.retries && k !in now.parked.dead
  }

  ghost predicate LeavesRetry(now: State, k: Key, row: Row) {
    k in now.parked.retries && now.parked.retries[k] == row && k !in now.parked.dead && k !in now.history.done
  }

  ghost predicate LeavesDead(now: State, k: Key, row: Row) {
    k in now.parked.dead && now.parked.dead[k] == row && k !in now.parked.retries && k !in now.history.done
  }

  lemma WithKeys(sub: nat, verdicts: map<Event, Verdict>, e: Event, v: Verdict)
    requires e in verdicts && DistinctIds(verdicts.Keys)
    ensures Key(sub, e.id) in Keys(sub, With(verdicts, v)) <==> verdicts[e] == v
    ensures Key(sub, e.id) in Rows(sub, With(verdicts, v), if v == Dead then 0 else 1) <==> verdicts[e] == v
  {
    if Key(sub, e.id) in Keys(sub, With(verdicts, v)) {
      var f :| f in With(verdicts, v) && Key(sub, e.id) == Key(sub, f.id);
      assert f in verdicts.Keys && e in verdicts.Keys;
    }
  }

  /** Where a finish leaves a message of its batch. */
  lemma FinishLeaves(st: State, sub: nat, verdicts: map<Event, Verdict>, e: Event)
    requires Pointed(st.feed) && Apart(ViewOf(st)) && HasBatch(st, sub) && verdicts.Keys == Batch(st, sub) && e in verdicts
    ensures var k, now := Key(sub, e.id), Finished(st, sub, verdicts);
            match verdicts[e]
            case Done => LeavesDone(now, k)
            case Retry => LeavesRetry(now, k, Row(e.retry + 1, e.body))
            case Dead => LeavesDead(now, k, Row(e.retry, e.body))
  {
    BatchIdsDistinct(st, sub);
    assert e in Batch(st, sub);
    FailuresAreNew(st, sub, e);
    WithKeys(sub, verdicts, e, Done);
    WithKeys(sub, verdicts, e, Retry);
    WithKeys(sub, verdicts, e, Dead);
    if verdicts[e] == Retry {
      RowsOf(sub, With(verdicts, Retry), 1, e);
    } else if verdicts[e] == Dead {
      RowsOf(sub, With(verdicts, Dead), 0, e);
    }
  }

  // ---- purging

  lemma PurgeKeepsRows(st: State, keys: set<Key>)
    requires RowInv(st) && Enabled(st, PurgeDead(keys))
    ensures RowInv(Take(st, PurgeDead(keys)))
  {
    FinishRows(st, Take(st, PurgeDead(keys)));
  }

  /** A purge takes dead letters away and touches no other place. */
  lemma PurgeTakesDead(st: State, keys: set<Key>)
    requires Pointed(st.feed) && Enabled(st, PurgeDead(keys))
    ensures ViewOf(Take(st, PurgeDead(keys))) == Purge(ViewOf(st), keys)
  {
    var st' := Take(st, PurgeDead(keys));
    assert forall s, e :: s in st.feed.subs ==> (Unread(st', s, e) <==> Unread(st, s, e));
    assert Log(st') == Log(st);
  }
}
