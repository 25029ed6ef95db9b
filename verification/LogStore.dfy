/** Rotation: the event tables keep every row that a subscription still needs. */
module LogStore {
  import opened Wrappers
  import opened Snapshots
  import opened BatchQuery
  import opened EventLog

  ghost predicate Live(tx: Tx, x: nat) {
    x in tx.running || x in tx.committed
  }

  /** The rows and the columns that choose a table agree. */
  ghost predicate Placed(st: State) {
    && |st.store.tables| >= 2
    && st.store.cur < |st.store.tables|
    && (forall k, e :: 0 <= k < |st.store.tables| && e in st.store.tables[k] ==> e in st.history.written)
    && (forall j, k, e :: 0 <= j < k < |st.store.tables| && e in st.store.tables[j] ==> e !in st.store.tables[k])
    && (forall e :: e in st.history.written ==> e.txid < st.tx.next)
    && Ended(st.tx, st.store.step1)
    && (st.store.step2.Some? ==> Ended(st.tx, st.store.step2.value) && st.history.rotatedAt <= st.store.step2.value)
  }

  /** A transaction from after the last rotation wrote to the current table, and a tick
      from before it sees nothing there. */
  ghost predicate Switched(st: State)
    requires st.store.cur < |st.store.tables|
  {
    && (forall e :: e in st.history.written && st.history.rotatedAt <= e.txid ==> e in st.store.tables[st.store.cur])
    && (forall t, e ::
      t in st.feed.ticks && e in st.store.tables[st.store.cur] && st.feed.ticks[t].xmax <= st.store.step1 ==>
        !st.feed.ticks[t].Sees(e.txid))
  }

  /** A rotation under way still has the right to commit. */
  ghost predicate Rotating(st: State)
    requires Pointed(st.feed)
  {
    st.store.rotation.Some? ==>
      && st.store.rotation.value.xid in st.tx.running
      && st.store.step2 == Some(st.store.rotation.value.passed)
      && (forall s :: s in st.feed.subs ==> st.store.rotation.value.passed < LastSnapshot(st, s).xmin)
  }

  /** Rotation loses nothing: a row that is or may become unread is in the current or in
      the previous table. */
  ghost predicate Kept(st: State)
    requires Pointed(st.feed) && st.store.cur < |st.store.tables|
  {
    forall s, e :: s in st.feed.subs && e in st.history.written && Live(st.tx, e.txid) && !LastSnapshot(st, s).Sees(e.txid) ==>
      e in st.store.tables[st.store.cur] || e in st.store.tables[Previous(st.store)]
  }

  ghost predicate StoreInv(st: State) {
    && Transactions(st.tx)
    && Ordered(st.tx, st.feed)
    && Pointed(st.feed)
    && Placed(st)
    && Switched(st)
    && Rotating(st)
    && Kept(st)
  }

  // ---- transactions and ticks

  lemma EndKeeps(tx: Tx, x: nat, commit: bool)
    requires Transactions(tx) && x in tx.running
    ensures Transactions(End(tx, x, commit))
    ensures forall y :: Ended(tx, y) ==> Ended(End(tx, x, commit), y)
    ensures forall s :: Past(tx, s) ==> Past(End(tx, x, commit), s)
  {
  }

  /** A new snapshot saw everything that an earlier one saw. */
  lemma SnapshotIsLatest(tx: Tx, own: nat, s: Snapshot)
    requires Transactions(tx) && own in tx.running && Past(tx, s)
    ensures Precedes(s, TakeSnapshot(tx, own))
  {
    var t := TakeSnapshot(tx, own);
    assert s.xmin <= t.xmin by {
      if t.xmin != tx.horizon {
        assert !s.Sees(t.xmin);
      }
    }
    forall x: nat | s.Sees(x) ensures t.Sees(x) {
      assert x < tx.horizon;
    }
  }

  /** A snapshot sees exactly the transactions below the horizon that have ended, and its own. */
  lemma SnapshotSees(tx: Tx, own: nat, x: nat)
    requires Transactions(tx)
    ensures TakeSnapshot(tx, own).Sees(x) <==> x < tx.horizon && (x !in tx.running || x == own)
    ensures x < TakeSnapshot(tx, own).xmin <==> x < tx.horizon && forall y :: y in tx.running ==> x < y
  {
  }

  lemma SnapshotIsPast(tx: Tx, own: nat)
    requires Transactions(tx) && own in tx.running
    ensures Past(End(tx, own, true), TakeSnapshot(tx, own))
  {
  }

  /** The new tick is the latest one. */
  lemma TickIsLatest(st: State, own: nat)
    requires Transactions(st.tx) && Ordered(st.tx, st.feed) && Pointed(st.feed) && Enabled(st, MakeTick(own))
    ensures var st' := Take(st, MakeTick(own));
            && Transactions(st'.tx) && Ordered(st'.tx, st'.feed) && Pointed(st'.feed)
            && (forall s :: s in st.feed.subs ==> LastSnapshot(st', s) == LastSnapshot(st, s))
  {
    EndKeeps(st.tx, own, true);
    SnapshotIsPast(st.tx, own);
    forall t | t in st.feed.ticks ensures Precedes(st.feed.ticks[t], TakeSnapshot(st.tx, own)) {
      SnapshotIsLatest(st.tx, own, st.feed.ticks[t]);
    }
  }

  lemma TickKeeps(st: State, own: nat)
    requires StoreInv(st) && Enabled(st, MakeTick(own))
    ensures StoreInv(Take(st, MakeTick(own)))
  {
    TickIsLatest(st, own);
    EndKeeps(st.tx, own, true);
    TickKeepsSwitched(st, own);
    TickKeepsKept(st, Take(st, MakeTick(own)));
  }

  /** The new tick is from after the last rotation. */
  lemma TickKeepsSwitched(st: State, own: nat)
    requires Transactions(st.tx) && Placed(st) && Switched(st) && Enabled(st, MakeTick(own))
    ensures Switched(Take(st, MakeTick(own)))
  {
    assert TakeSnapshot(st.tx, own).xmax > st.store.step1;
  }

  lemma TickKeepsKept(st: State, st': State)
    requires Pointed(st.feed) && Pointed(st'.feed) && st.store.cur < |st.store.tables| && Kept(st)
    requires st'.store == st.store && st'.history == st.history && st'.feed.subs == st.feed.subs
    requires forall s :: s in st.feed.subs ==> LastSnapshot(st', s) == LastSnapshot(st, s)
    requires forall y :: Live(st'.tx, y) ==> Live(st.tx, y)
    ensures Kept(st')
  {
  }

  // ---- transactions that begin and end

  lemma BeginKeepsStore(st: State)
    requires StoreInv(st)
    ensures Enabled(st, Begin) && StoreInv(Take(st, Begin))
  {
  }

  /** Ending a transaction, in whatever role, loses nothing. */
  lemma EndKeepsStore(st: State, st': State, x: nat, commit: bool)
    requires StoreInv(st) && x in st.tx.running
    requires st'.tx == End(st.tx, x, commit)
    requires st'.feed == st.feed && st'.history == st.history
    requires st'.store == st.store || st'.store == st.store.(rotation := None)
    requires st'.store.rotation.Some? ==> st'.store.rotation.value.xid != x
    ensures StoreInv(st')
  {
    EndKeeps(st.tx, x, commit);
    EndedKeepsKept(st, st');
  }

  // ---- rows

  lemma WriteKeepsStore(st: State, e: Event, st': State)
    requires StoreInv(st) && e.txid in st.tx.running && e !in st.history.written
    requires st'.tx == st.tx && st'.feed == st.feed
    requires st'.store == Write(st, e).store
    requires st'.history.written == Write(st, e).history.written && st'.history.rotatedAt == st.history.rotatedAt
    ensures StoreInv(st')
  {
    WriteKeepsPlaced(st, e, st');
    WriteKeepsSwitched(st, e, st');
    WriteKeepsKept(st, e, st');
  }

  lemma WriteKeepsPlaced(st: State, e: Event, st': State)
    requires Transactions(st.tx) && Placed(st) && e.txid in st.tx.running && e !in st.history.written
    requires st'.tx == st.tx && st'.store == Write(st, e).store
    requires st'.history.written == st.history.written + {e} && st'.history.rotatedAt == st.history.rotatedAt
    ensures Placed(st')
  {
    var cur, tables := st.store.cur, st.store.tables;
    assert st'.store.tables[cur] == tables[cur] + {e};
    assert forall k :: 0 <= k < |tables| && k != cur ==> st'.store.tables[k] == tables[k];
  }

  /** A tick from before the last rotation does not see a running transaction. */
  lemma WriteKeepsSwitched(st: State, e: Event, st': State)
    requires Ordered(st.tx, st.feed) && Placed(st) && Switched(st) && e.txid in st.tx.running
    requires st'.feed == st.feed && st'.store == Write(st, e).store
    requires st'.history.written == st.history.written + {e} && st'.history.rotatedAt == st.history.rotatedAt
    ensures Switched(st')
  {
    assert st'.store.tables[st.store.cur] == st.store.tables[st.store.cur] + {e};
  }

  lemma WriteKeepsKept(st: State, e: Event, st': State)
    requires Pointed(st.feed) && Placed(st) && Kept(st)
    requires st'.tx == st.tx && st'.feed == st.feed && st'.store == Write(st, e).store
    requires st'.history.written == st.history.written + {e}
    ensures Kept(st')
  {
    forall k, f | 0 <= k < |st.store.tables| && f in st.store.tables[k] ensures f in st'.store.tables[k] {
    }
    forall s, f | s in st.feed.subs && f in st.history.written && Live(st.tx, f.txid) && !LastSnapshot(st', s).Sees(f.txid)
      ensures f in st'.store.tables[st'.store.cur] || f in st'.store.tables[Previous(st'.store)]
    {
      assert LastSnapshot(st', s) == LastSnapshot(st, s);
    }
    assert e in st'.store.tables[st'.store.cur];
  }

  // ---- subscriptions

  /** When each row of pgque.subscription starts no earlier than some row did before, no row of
      the event tables is needed that was not needed before. */
  lemma RepointKeepsStore(st: State, st': State)
    requires StoreInv(st) && Pointed(st'.feed)
    requires st'.tx == st.tx && st'.store == st.store
    requires st'.history.written == st.history.written && st'.history.rotatedAt == st.history.rotatedAt
    requires st'.feed.ticks == st.feed.ticks && st'.feed.nextTick == st.feed.nextTick
    requires forall s :: s in st'.feed.subs ==> StartsNoEarlier(st.feed, st'.feed, s)
    ensures StoreInv(st')
  {
    forall s | s in st'.feed.subs ensures NeedsNoMore(st, st', s) {
      StartNeedsNoMore(st, st', s);
    }
    RepointKeeps(st, st');
  }

  lemma StartNeedsNoMore(st: State, st': State, s: nat)
    requires Pointed(st.feed) && Pointed(st'.feed) && Ordered(st.tx, st.feed) && st'.feed.ticks == st.feed.ticks
    requires s in st'.feed.subs && StartsNoEarlier(st.feed, st'.feed, s)
    ensures NeedsNoMore(st, st', s)
  {
    var u :| u in st.feed.subs && st.feed.subs[u].last <= st'.feed.subs[s].last;
    assert Precedes(LastSnapshot(st, u), LastSnapshot(st', s));
  }

  ghost predicate StartsNoEarlier(feed: Feed, feed': Feed, s: nat)
    requires s in feed'.subs
  {
    exists u :: u in feed.subs && feed.subs[u].last <= feed'.subs[s].last
  }

  ghost predicate NeedsNoMore(st: State, st': State, s: nat)
    requires Pointed(st.feed) && Pointed(st'.feed) && s in st'.feed.subs
  {
    exists u :: u in st.feed.subs && Precedes(LastSnapshot(st, u), LastSnapshot(st', s))
  }

  lemma RepointKeeps(st: State, st': State)
    requires Pointed(st.feed) && Pointed(st'.feed) && st.store.cur < |st.store.tables| && Rotating(st) && Kept(st)
    requires st'.tx == st.tx && st'.store == st.store && st'.history.written == st.history.written
    requires forall s :: s in st'.feed.subs ==> NeedsNoMore(st, st', s)
    ensures Rotating(st') && Kept(st')
  {
    forall s, e | s in st'.feed.subs && e in st'.history.written && Live(st'.tx, e.txid) && !LastSnapshot(st', s).Sees(e.txid)
      ensures e in st'.store.tables[st'.store.cur] || e in st'.store.tables[Previous(st'.store)]
    {
      assert NeedsNoMore(st, st', s);
      var u :| u in st.feed.subs && Precedes(LastSnapshot(st, u), LastSnapshot(st', s));
      assert !LastSnapshot(st, u).Sees(e.txid);
    }
    forall s | s in st'.feed.subs && st'.store.rotation.Some?
      ensures st'.store.rotation.value.passed < LastSnapshot(st', s).xmin
    {
      assert NeedsNoMore(st, st', s);
    }
  }

  // ---- batches

  lemma OpenKeepsStore(st: State, s: nat, next: nat)
    requires StoreInv(st) && Enabled(st, Open(s, next))
    ensures StoreInv(Take(st, Open(s, next)))
  {
    var st' := Take(st, Open(s, next));
    forall t | t in st'.feed.subs ensures StartsNoEarlier(st.feed, st'.feed, t) {
      assert st.feed.subs[t].last <= st'.feed.subs[t].last;
    }
    RepointKeepsStore(st, st');
  }

  lemma FinishKeepsStore(st: State, s: nat, b: nat, verdicts: map<Event, Verdict>)
    requires StoreInv(st) && Enabled(st, Finish(s, b, verdicts))
    ensures StoreInv(Take(st, Finish(s, b, verdicts)))
  {
    var st' := Take(st, Finish(s, b, verdicts));
    forall t | t in st'.feed.subs ensures StartsNoEarlier(st.feed, st'.feed, t) {
      assert st.feed.subs[t].last <= st'.feed.subs[t].last;
    }
    RepointKeepsStore(st, st');
  }

  // ---- rotation

  /** The check of step 1 looks at the slowest subscription only; the order of the ticks
      makes it hold for all. */
  lemma {:induction false} SlowestIsEnough(st: State)
    requires StoreInv(st) && MayRotate(st)
    ensures forall s :: s in st.feed.subs ==> st.store.step2.value < LastSnapshot(st, s).xmin
  {
    forall s | s in st.feed.subs ensures st.store.step2.value < LastSnapshot(st, s).xmin {
      var m := Slowest(st.feed, st.feed.subs.Keys, s);
      assert IsSlowest(st.feed, m);
      assert st.feed.subs[m].last <= st.feed.subs[s].last;
    }
  }

  /** When a rotation must go on: exactly when each subscription has passed every transaction up to
      the last rotation. */
  lemma MayRotateIs(st: State)
    requires StoreInv(st) && st.store.rotation == None && st.store.step2.Some?
    ensures MayRotate(st) <==> forall s :: s in st.feed.subs ==> st.feed.ticks[st.feed.subs[s].last].xmin > st.store.step2.value
  {
    if MayRotate(st) {
      SlowestIsEnough(st);
    }
    assert forall s :: s in st.feed.subs ==> LastSnapshot(st, s) == st.feed.ticks[st.feed.subs[s].last];
  }

  /** What a rotation leaves: the next table is empty and becomes current, the other tables stay,
      and exactly the ticks from before the last rotation go away. */
  lemma RotatedIs(st: State, r: Rotation)
    requires st.store.cur < |st.store.tables|
    ensures var now, n := Rotated(st, r), |st.store.tables|;
            && now.store.cur == (st.store.cur + 1) % n && |now.store.tables| == n
            && now.store.tables[now.store.cur] == {}
            && (forall k :: 0 <= k < n && k != now.store.cur ==> now.store.tables[k] == st.store.tables[k])
            && now.store.step1 == r.xid && now.store.step2 == None && now.store.rotation == None
            && (forall t :: t in now.feed.ticks <==> t in st.feed.ticks && !(st.feed.ticks[t].xmin < r.passed))
            && (forall t :: t in now.feed.ticks ==> now.feed.ticks[t] == st.feed.ticks[t])
            && now.feed.subs == st.feed.subs && now.parked == st.parked
  {
    assert Following(st.store) == (st.store.cur + 1) % |st.store.tables| by {
      if st.store.cur + 1 == |st.store.tables| {
        assert (st.store.cur + 1) % |st.store.tables| == 0;
      }
    }
  }

  lemma {:induction false} Slowest(feed: Feed, among: set<nat>, s: nat) returns (m: nat)
    requires among <= feed.subs.Keys && s in among
    ensures m in among && forall t :: t in among ==> feed.subs[m].last <= feed.subs[t].last
  {
    m := s;
    if among != {s} {
      assert among == (among - {s}) + {s};
      var u :| u in among - {s};
      var n := Slowest(feed, among - {s}, u);
      m := if feed.subs[n].last < feed.subs[s].last then n else s;
      forall t | t in among ensures feed.subs[m].last <= feed.subs[t].last {
        if t != s { assert t in among - {s}; }
      }
    }
  }

  lemma BeginRotationKeepsStore(st: State, x: nat)
    requires StoreInv(st) && Enabled(st, BeginRotation(x))
    ensures StoreInv(Take(st, BeginRotation(x)))
  {
    var st' := Take(st, BeginRotation(x));
    SlowestIsEnough(st);
    assert forall s :: s in st.feed.subs ==> LastSnapshot(st', s) == LastSnapshot(st, s);
  }

  /** The heart of the rotation: when step 1 may commit, every row that a subscription
      still needs is in the table that is about to become the previous one. */
  lemma UnreadIsCurrent(st: State, s: nat, e: Event)
    requires StoreInv(st) && st.store.rotation.Some?
    requires s in st.feed.subs && e in st.history.written && !LastSnapshot(st, s).Sees(e.txid)
    ensures e in st.store.tables[st.store.cur]
  {
    assert LastSnapshot(st, s).xmin <= e.txid;
    assert st.history.rotatedAt <= e.txid;
  }

  /** The cleanup of step 1 keeps every tick that a subscription points to. */
  lemma TicksStay(st: State, s: nat)
    requires StoreInv(st) && st.store.rotation.Some? && s in st.feed.subs
    ensures var ticks := Take(st, CommitRotation).feed.ticks;
            && st.feed.subs[s].last in ticks
            && (st.feed.subs[s].batch.Some? ==> st.feed.subs[s].batch.value.next in ticks)
  {
  }

  lemma CommitRotationKeepsStore(st: State)
    requires StoreInv(st) && Enabled(st, CommitRotation)
    ensures StoreInv(Take(st, CommitRotation))
  {
    var st' := Take(st, CommitRotation);
    EndKeeps(st.tx, st.store.rotation.value.xid, true);
    forall s | s in st.feed.subs
      ensures st.feed.subs[s].last in st'.feed.ticks
      ensures st.feed.subs[s].batch.Some? ==> st.feed.subs[s].batch.value.next in st'.feed.ticks
    {
      TicksStay(st, s);
    }
    assert Pointed(st'.feed);
    assert Previous(st'.store) == st.store.cur;
    forall s, e | s in st'.feed.subs && e in st'.history.written && Live(st'.tx, e.txid) && !LastSnapshot(st', s).Sees(e.txid)
      ensures e in st'.store.tables[Previous(st'.store)]
    {
      assert LastSnapshot(st', s) == LastSnapshot(st, s);
      UnreadIsCurrent(st, s, e);
    }
  }

  lemma CommitStep2KeepsStore(st: State, x: nat)
    requires StoreInv(st) && Enabled(st, CommitStep2(x))
    ensures StoreInv(Take(st, CommitStep2(x)))
  {
    var st' := Take(st, CommitStep2(x));
    EndKeeps(st.tx, x, true);
    assert st.store.rotation == None;
    EndedKeepsKept(st, st');
  }

  lemma EndedKeepsKept(st: State, st': State)
    requires Pointed(st.feed) && st.store.cur < |st.store.tables| && Kept(st)
    requires st'.feed == st.feed && st'.history.written == st.history.written
    requires st'.store.tables == st.store.tables && st'.store.cur == st.store.cur
    requires forall y :: Live(st'.tx, y) ==> Live(st.tx, y)
    ensures Kept(st')
  {
  }

  // ---- dead letters

  lemma PurgeKeepsStore(st: State, keys: set<Key>)
    requires StoreInv(st) && Enabled(st, PurgeDead(keys))
    ensures StoreInv(Take(st, PurgeDead(keys)))
  {
    var st' := Take(st, PurgeDead(keys));
    forall s | s in st'.feed.subs ensures StartsNoEarlier(st.feed, st'.feed, s) {
      assert st.feed.subs[s].last <= st'.feed.subs[s].last;
    }
    RepointKeepsStore(st, st');
  }
}
