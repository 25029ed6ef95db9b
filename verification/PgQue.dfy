/** The SQL functions of PgQue, statement by statement, over the tables of one queue.
    Each method is proved to take the step of EventLog that it stands for. */
module PgQue {
  import opened Wrappers
  import opened Snapshots
  import opened BatchQuery
  import opened EventLog
  import opened LogStore
  import opened LogReading
  import opened Places
  import opened LogMessages
  import opened Failures

  datatype SqlError = NotSubscribed | Corrupt | BatchNotFound | DuplicateKey | MissingMessage | NotOpen

  /** maint_retry_events moves this many rows in one call. */
  const MOVE_LIMIT := 10

  /** The moves of one maint_retry_events, in order. */
  ghost predicate CanMove(st: State, x: nat, keys: seq<Key>)
    decreases |keys|
  {
    keys != [] ==> Enabled(st, MoveRetry(x, keys[0])) && CanMove(Take(st, MoveRetry(x, keys[0])), x, keys[1..])
  }

  /** Each due row becomes one copy in the current table, with the retry count and the body of the
      row, and waits for the commit. */
  lemma {:induction false} MovesEach(st: State, x: nat, keys: seq<Key>)
    requires CanMove(st, x, keys)
    ensures forall k :: k in keys ==> k in st.parked.retries
    ensures var now, copies := MoveAll(st, x, keys), CopiesOf(st, x, keys);
            && now.parked.moving == st.parked.moving + (set k | k in keys)
            && now.parked.retries == st.parked.retries
            && now.store.cur == st.store.cur
            && (st.store.cur < |st.store.tables| ==>
                 now.store.tables == st.store.tables[st.store.cur := st.store.tables[st.store.cur] + copies])
    decreases |keys|
  {
    if keys == [] {
      assert CopiesOf(st, x, keys) == {};
      assert st.store.cur < |st.store.tables| ==> st.store.tables[st.store.cur] + {} == st.store.tables[st.store.cur];
    } else {
      var mid := Take(st, MoveRetry(x, keys[0]));
      MovesEach(mid, x, keys[1..]);
      assert (set k | k in keys) == {keys[0]} + set k | k in keys[1..];
      var first, rest := {Copy(x, keys[0], st.parked.retries[keys[0]])}, CopiesOf(mid, x, keys[1..]);
      assert CopiesOf(st, x, keys) == first + rest;
      var cur, tables := st.store.cur, st.store.tables;
      assert mid.store.tables == tables[cur := tables[cur] + first];
      assert tables[cur] + first + rest == tables[cur] + (first + rest);
    }
  }

  ghost function CopiesOf(st: State, x: nat, keys: seq<Key>): set<Event> {
    set k | k in keys && k in st.parked.retries ::
      Event(k.id, x, Some(k.sub), st.parked.retries[k].retry, st.parked.retries[k].body)
  }

  ghost function MoveAll(st: State, x: nat, keys: seq<Key>): State
    requires CanMove(st, x, keys)
    decreases |keys|
  {
    if keys == [] then st else MoveAll(Take(st, MoveRetry(x, keys[0])), x, keys[1..])
  }

  class Queue {
    // PostgreSQL
    var next: nat
    var running: set<nat>
    var committed: set<nat>
    var horizon: nat

    // pgque.queue and the event tables
    var tables: seq<set<Event>>
    var cur: nat
    var step1: nat
    var step2: Option<nat>
    var nextId: nat
    var maxRetries: nat

    // pgque.tick and pgque.subscription
    var ticks: map<nat, Snapshot>
    var nextTick: nat
    var subs: map<nat, Sub>
    var nextBatch: nat

    // pgque.retry_queue and pgque.dead_letter
    var retries: map<Key, Row>
    var dead: map<Key, Row>

    // queue_batch_runs
    var runs: map<nat, int>

    // transactions under way, and the history
    ghost var rotation: Option<Rotation>
    ghost var mover: Option<nat>
    ghost var moving: set<Key>
    ghost var history: History

    ghost function Contents(): State
      reads this
    {
      State(Tx(next, running, committed, horizon), Store(tables, cur, step1, step2, rotation),
            Feed(ticks, nextTick, subs, nextBatch), Parked(retries, dead, mover, moving), history, nextId, maxRetries)
    }

    // ---- writing

    /** insert_event_raw: every call takes an event id from the sequence, also when the
        caller brings its own. */
    method InsertEventRaw(x: nat, evId: Option<nat>, owner: Option<nat>, retry: nat, body: string) returns (id: nat)
      requires cur < |tables|
      modifies this`tables, this`nextId, this`history
      ensures id == if evId.Some? then evId.value else old(nextId)
      ensures Contents() == Write(old(Contents()), Event(id, x, owner, retry, body))
    {
      id := nextId;
      nextId := nextId + 1;
      if evId.Some? {
        id := evId.value;
      }
      var row := Event(id, x, owner, retry, body);
      tables := tables[cur := tables[cur] + {row}];
      history := history.(written := history.written + {row});
    }

    /** pgque.send in transaction x */
    method Send(x: nat, body: string) returns (id: nat)
      requires Enabled(Contents(), Insert(x, body))
      modifies this`tables, this`nextId, this`history
      ensures id == old(nextId)
      ensures Contents() == Take(old(Contents()), Insert(x, body))
      ensures tables == old(tables)[cur := old(tables)[cur] + {Event(id, x, None, 0, body)}]
    {
      id := InsertEventRaw(x, None, None, 0, body);
      history := history.(sent := history.sent[id := Origin(x, body)]);
    }

    /** One row of maint_retry_events: the copy goes into the current table, and the retry
        row goes away with the commit. */
    method MoveRow(x: nat, key: Key)
      requires Enabled(Contents(), MoveRetry(x, key))
      modifies this`tables, this`nextId, this`history, this`mover, this`moving
      ensures Contents() == Take(old(Contents()), MoveRetry(x, key))
      ensures var row := old(retries)[key];
              tables == old(tables)[cur := old(tables)[cur] + {Event(key.id, x, Some(key.sub), row.retry, row.body)}]
      ensures mover == Some(x) && moving == old(moving) + {key} && retries == old(retries)
    {
      var row := retries[key];
      var _ := InsertEventRaw(x, Some(key.id), Some(key.sub), row.retry, row.body);
      mover, moving := Some(x), moving + {key};
    }

    /** maint_retry_events in transaction x, over the due rows that its query returned. */
    method MaintRetryEvents(x: nat, due: seq<Key>) returns (cnt: nat)
      requires |due| <= MOVE_LIMIT && CanMove(Contents(), x, due)
      modifies this`tables, this`nextId, this`history, this`mover, this`moving
      ensures cnt == |due|
      ensures Contents() == MoveAll(old(Contents()), x, due)
      ensures moving == old(moving) + set k | k in due
      ensures cur < |old(tables)| ==> tables == old(tables)[cur := old(tables)[cur] + CopiesOf(old(Contents()), x, due)]
    {
      MovesEach(Contents(), x, due);
      cnt := 0;
      ghost var st := Contents();
      for i := 0 to |due|
        invariant cnt == i
        invariant CanMove(Contents(), x, due[i..]) && MoveAll(Contents(), x, due[i..]) == MoveAll(st, x, due)
      {
        assert due[i..][0] == due[i] && due[i..][1..] == due[i + 1..];
        cnt := cnt + 1;
        MoveRow(x, due[i]);
      }
    }

    // ---- ticks and batches

    /** The running transactions that a new snapshot lists, and the least of them. */
    method CurrentSnapshot(own: nat) returns (s: Snapshot)
      ensures s == TakeSnapshot(Contents().tx, own)
    {
      var xmin := horizon;
      var rest := running;
      while rest != {}
        invariant rest <= running && xmin <= horizon
        invariant forall x :: x in running && x !in rest ==> xmin <= x
        invariant xmin == horizon || xmin in running
        decreases rest
      {
        var x :| x in rest;
        if x < xmin {
          xmin := x;
        }
        rest := rest - {x};
      }
      s := Snapshot(xmin, horizon, set x | x in running && x < horizon && x != own);
    }

    /** ticker in transaction own, which commits. */
    method Ticker(own: nat) returns (tick: nat)
      requires Enabled(Contents(), MakeTick(own))
      modifies this`ticks, this`nextTick, this`running, this`committed, this`horizon
      ensures tick == old(nextTick)
      ensures Contents() == Take(old(Contents()), MakeTick(own))
      ensures ticks.Keys == old(ticks).Keys + {tick} && ticks[tick].xmax == old(horizon)
    {
      var snapshot := CurrentSnapshot(own);
      tick := nextTick;
      ticks := ticks[tick := snapshot];
      nextTick := nextTick + 1;
      EndTransaction(own);
    }

    method EndTransaction(x: nat)
      modifies this`running, this`committed, this`horizon
      ensures Contents() == old(Contents()).(tx := End(old(Contents()).tx, x, true))
    {
      running := running - {x};
      committed := committed + {x};
      if horizon <= x {
        horizon := x + 1;
      }
    }

    /** The first tick after the last one of the subscription. */
    method FindNextTick(last: nat) returns (found: Option<nat>)
      ensures found == None ==> forall t :: t in ticks ==> t <= last
      ensures found.Some? ==> found.value in ticks && last < found.value
      ensures found.Some? ==> forall t :: t in ticks && last < t ==> found.value <= t
    {
      found := None;
      var rest := ticks.Keys;
      while rest != {}
        invariant rest <= ticks.Keys
        invariant found == None ==> forall t :: t in ticks && t !in rest ==> t <= last
        invariant found.Some? ==> found.value in ticks && last < found.value
        invariant found.Some? ==> forall t :: t in ticks && t !in rest && last < t ==> found.value <= t
        decreases rest
      {
        var t :| t in rest;
        if last < t && (found == None || t < found.value) {
          found := Some(t);
        }
        rest := rest - {t};
      }
    }

    /** next_batch_custom without limits. An open batch comes back as it is; a new one
        ends at the next tick; without a next tick there is none. */
    method NextBatch(sub: nat) returns (r: Result<Option<nat>, SqlError>)
      modifies this`subs, this`nextBatch
      ensures r == Err(NotSubscribed) <==> sub !in old(subs)
      ensures r == Err(Corrupt) <==> sub in old(subs) && old(subs)[sub].last !in ticks
      ensures r.Ok? || r == Err(NotSubscribed) || r == Err(Corrupt)
      ensures r.Ok? ==> sub in old(subs)
      ensures r.Ok? && old(subs)[sub].batch.Some? ==> r.value == Some(old(subs)[sub].batch.value.id)
      ensures r.Ok? && old(subs)[sub].batch == None ==>
        if r.value == None then forall t :: t in ticks ==> t <= old(subs)[sub].last
        else
          exists t ::
            && t in ticks && old(subs)[sub].last < t
            && (forall u :: u in ticks && old(subs)[sub].last < u ==> t <= u)
            && r.value == Some(old(nextBatch))
            && Contents() == old(Contents()).(feed := old(Contents()).feed.(
                 subs := old(subs)[sub := Sub(old(subs)[sub].last, Some(OpenBatch(old(nextBatch), t)))],
                 nextBatch := old(nextBatch) + 1))
      ensures (r.Err? || r.value == None || old(subs)[sub].batch.Some?) ==> Contents() == old(Contents())
    {
      if sub !in subs {
        return Err(NotSubscribed);
      }
      var row := subs[sub];
      if row.last !in ticks {
        return Err(Corrupt);
      }
      if row.batch.Some? {
        return Ok(Some(row.batch.value.id));
      }
      var next := FindNextTick(row.last);
      if next == None {
        return Ok(None);
      }
      var id := nextBatch;
      nextBatch := nextBatch + 1;
      subs := subs[sub := Sub(row.last, Some(OpenBatch(id, next.value)))];
      r := Ok(Some(id));
    }

    /** A new batch is the step Open, up to the first later tick. */
    method OpenNext(sub: nat) returns (started: bool, ghost next: nat)
      requires StoreInv(Contents()) && sub in subs && subs[sub].batch == None
      modifies this`subs, this`nextBatch
      ensures started ==> Enabled(old(Contents()), Open(sub, next)) && Contents() == Take(old(Contents()), Open(sub, next))
      ensures started ==> forall t :: t in ticks && old(subs)[sub].last < t ==> next <= t
      ensures !started ==> Contents() == old(Contents()) && forall t :: t in ticks ==> t <= subs[sub].last
    {
      next := 0;
      var r := NextBatch(sub);
      started := r.value.Some?;
      if started {
        next := subs[sub].batch.value.next;
      }
    }

    // ---- reading a batch

    /** The generated SQL: the rows of each chosen table whose transaction the query
        selects. */
    method RunQuery(chosen: seq<nat>, query: Query, last: Snapshot, end: Snapshot, sub: nat) returns (found: set<Event>)
      requires forall a :: 0 <= a < |chosen| ==> chosen[a] < |tables|
      ensures forall e :: e in found <==>
        && e.txid in committed && Selects(query, last, end, e.txid) && Mine(e, sub)
        && exists a :: 0 <= a < |chosen| && e in tables[chosen[a]]
    {
      found := {};
      for i := 0 to |chosen|
        invariant forall e :: e in found <==>
          && e.txid in committed && Selects(query, last, end, e.txid) && Mine(e, sub)
          && exists a :: 0 <= a < i && e in tables[chosen[a]]
      {
        var part := set e | e in tables[chosen[i]] && e.txid in committed && Selects(query, last, end, e.txid) && Mine(e, sub);
        found := found + part;
      }
    }

    /** batch_event_tables and batch_event_sql, and then the query they make, ordered by
        id. */
    method GetBatchEvents(sub: nat) returns (rows: seq<Event>)
      requires StoreInv(Contents()) && Apart(ViewOf(Contents())) && HasBatch(Contents(), sub)
      ensures |rows| == |Batch(Contents(), sub)| && forall e :: e in rows <==> e in Batch(Contents(), sub)
      ensures Ascending(rows) && forall i, j :: 0 <= i < j < |rows| ==> rows[i].id < rows[j].id
    {
      var last, end := ticks[subs[sub].last], ticks[subs[sub].batch.value.next];
      var query := BatchEventQuery(last, end);
      var chosen := BatchTables(Store(tables, cur, step1, step2, None), last, end);
      assert chosen == BatchTables(Contents().store, last, end);
      var found := RunQuery(chosen, query, last, end, sub);
      QueryResultIsTheBatch(Contents(), sub, found);
      rows := OrderById(found);
    }

    // ---- rotation

    /** min(sub_last_tick) */
    method LowestTick() returns (lowest: Option<nat>)
      ensures lowest == None <==> subs == map[]
      ensures lowest.Some? ==>
        && (exists s :: s in subs && subs[s].last == lowest.value)
        && forall s :: s in subs ==> lowest.value <= subs[s].last
    {
      lowest := None;
      var rest := subs.Keys;
      while rest != {}
        invariant rest <= subs.Keys
        invariant lowest == None <==> rest == subs.Keys
        invariant lowest.Some? ==> exists s :: s in subs && subs[s].last == lowest.value
        invariant lowest.Some? ==> forall s :: s in subs && s !in rest ==> lowest.value <= subs[s].last
        decreases rest
      {
        var s :| s in rest;
        if lowest == None || subs[s].last < lowest.value {
          lowest := Some(subs[s].last);
        }
        rest := rest - {s};
      }
    }

    /** The check of step 1: no subscription is still on the table before the last
        rotation. */
    method SlowestHasPassed() returns (ok: bool)
      requires Pointed(Contents().feed) && step2.Some? && rotation == None
      ensures ok <==> MayRotate(Contents())
    {
      var lowest := LowestTick();
      ok := lowest == None || ticks[lowest.value].xmin > step2.value;
      if lowest.Some? {
        ghost var s :| s in subs && subs[s].last == lowest.value;
        assert IsSlowest(Contents().feed, s);
      }
    }

    /** The statements of step 1 that change tables. */
    method SwitchTables(x: nat, ghost st: State)
      requires st == Contents() && cur < |tables| && step2.Some?
      modifies this`tables, this`cur, this`step1, this`step2, this`ticks, this`rotation, this`history
      ensures cur == Following(st.store) && tables == st.store.tables[cur := {}]
      ensures step1 == x && step2 == None && rotation == None
      ensures ticks == RecentTicks(st.feed.ticks, st.store.step2.value)
      ensures history == st.history.(rotatedAt := next)
    {
      var nr := cur + 1;
      if nr == |tables| {
        nr := 0;
      }
      var passed := step2.value;
      tables := tables[nr := {}];
      cur, step1, step2 := nr, x, None;
      ticks := RecentTicks(ticks, passed);
      rotation, history := None, history.(rotatedAt := next);
    }

    /** maint_rotate_tables_step1 in transaction x, which commits. due: the rotation period
        has passed. locked: nobody else holds a lock on the table to empty. */
    method RotateTablesStep1(x: nat, due: bool, locked: bool, ghost st: State) returns (r: Result<bool, SqlError>)
      requires st == Contents() && Pointed(st.feed) && cur < |tables| && rotation == None
      modifies this`tables, this`cur, this`step1, this`step2, this`ticks, this`running, this`committed, this`horizon,
        this`rotation, this`history
      ensures r == if due && st.store.step2.Some? && x < st.store.step1 then Err(Corrupt)
                   else Ok(due && locked && MayRotate(st))
      ensures StoreInv(st) && st.store.step2.Some? && due && locked && st.store.step1 <= x ==>
        (r == Ok(true) <==> forall s :: s in st.feed.subs ==> st.feed.ticks[st.feed.subs[s].last].xmin > st.store.step2.value)
      ensures Contents() == if r == Ok(true) then Rotated(st, Rotation(x, st.store.step2.value)) else st
    {
      if StoreInv(st) && st.store.step2.Some? {
        MayRotateIs(st);
      }
      if step2 == None || !due {
        return Ok(false);
      }
      if x < step1 {
        return Err(Corrupt);
      }
      var passed := SlowestHasPassed();
      if !passed || !locked {
        return Ok(false);
      }
      SwitchTables(x, st);
      SwitchIsWhole(st, Contents(), Rotation(x, st.store.step2.value));
      EndTransaction(x);
      r := Ok(true);
    }

    /** maint_rotate_tables_step2 in transaction x, which commits. */
    method RotateTablesStep2(x: nat)
      requires step2 == None ==> Enabled(Contents(), CommitStep2(x))
      modifies this`step2, this`running, this`committed, this`horizon
      ensures old(step2) == None ==> Contents() == Take(old(Contents()), CommitStep2(x))
      ensures old(step2).Some? ==> Contents() == old(Contents())
    {
      if step2 == None {
        step2 := Some(x);
        EndTransaction(x);
      }
    }

    // ---- run counts

    /** currentBatch. A read that fails for any reason but a missing row also reports no
        open batch, and no error: the code tests the unset id before the error. */
    method CurrentBatch(sub: nat, readFails: bool) returns (open: Option<nat>)
      ensures open == if !readFails && sub in subs && subs[sub].batch.Some? then Some(subs[sub].batch.value.id) else None
    {
      open := None;
      if !readFails && sub in subs && subs[sub].batch.Some? {
        open := Some(subs[sub].batch.value.id);
      }
    }

    /** countRun */
    method CountRun(batch: nat) returns (n: int)
      modifies this`runs
      ensures n == (if batch in old(runs) then old(runs)[batch] else 0) + 1
      ensures runs == old(runs)[batch := n] && Contents() == old(Contents())
    {
      n := 1;
      if batch in runs {
        n := runs[batch] + 1;
      }
      runs := runs[batch := n];
    }

    /** uncountRun */
    method UncountRun(batch: nat)
      modifies this`runs
      ensures runs == old(runs)[batch := (if batch in old(runs) then old(runs)[batch] else 0) - 1]
      ensures Contents() == old(Contents())
    {
      runs := runs[batch := if batch in runs then runs[batch] - 1 else -1];
    }

    // ---- finishing a batch

    ghost predicate OpenFor(sub: nat, batch: nat)
      reads this`subs
    {
      sub in subs && subs[sub].batch.Some? && subs[sub].batch.value.id == batch
    }

    /** event_dead: a dead letter that is there already stays. */
    method EventDead(sub: nat, e: Event)
      modifies this`dead
      ensures dead == if Key(sub, e.id) in old(dead) then old(dead) else old(dead)[Key(sub, e.id) := Row(e.retry, e.body)]
    {
      if Key(sub, e.id) !in dead {
        dead := dead[Key(sub, e.id) := Row(e.retry, e.body)];
      }
    }

    /** dlq_purge: the step PurgeDead with the dead letters that are old, and their number. */
    method DlqPurge(aged: set<Key>) returns (n: nat)
      modifies this`dead, this`history
      ensures var keys := old(dead).Keys * aged; n == |keys| && Contents() == Purged(old(Contents()), keys)
    {
      var keys := dead.Keys * aged;
      n := |keys|;
      dead := dead - keys;
      history := history.(purged := history.purged + keys);
    }

    /** event_retry_raw: the primary key of the retry queue allows one row. */
    method EventRetryRaw(sub: nat, id: nat, retry: nat, body: string) returns (ok: bool)
      modifies this`retries
      ensures ok <==> Key(sub, id) !in old(retries)
      ensures retries == if ok then old(retries)[Key(sub, id) := Row(retry, body)] else old(retries)
    {
      ok := Key(sub, id) !in retries;
      if ok {
        retries := retries[Key(sub, id) := Row(retry, body)];
      }
    }

    /** The statement of storeFailures over the rows of the batch. */
    method StoreStatement(sub: nat, rows: seq<Event>, fs: seq<Failed>) returns (r: Result<nat, SqlError>)
      modifies this`retries, this`dead
      ensures var p := Statement(Progress(Stored(old(retries), old(dead)), 0), sub, rows, fs);
              if p == Broken then r == Err(DuplicateKey)
              else r == Ok(p.count) && retries == p.stored.retries && dead == p.stored.dead
    {
      var count := 0;
      ghost var start := Progress(Stored(retries, dead), 0);
      for i := 0 to |fs|
        invariant Statement(Progress(Stored(retries, dead), count), sub, rows, fs[i..]) == Statement(start, sub, rows, fs)
      {
        var f := fs[i];
        assert fs[i..][0] == f && fs[i..][1..] == fs[i + 1..];
        ghost var before := Progress(Stored(retries, dead), count);
        for j := 0 to |rows|
          invariant StoreMatches(Progress(Stored(retries, dead), count), sub, rows[j..], f) == StoreMatches(before, sub, rows, f)
        {
          var e := rows[j];
          assert rows[j..][0] == e && rows[j..][1..] == rows[j + 1..];
          if e.id == f.id {
            if f.dead {
              EventDead(sub, e);
            } else {
              var ok := EventRetryRaw(sub, e.id, e.retry + 1, e.body);
              if !ok {
                BrokenMatches(sub, rows[j + 1..], f);
                BrokenStays(sub, rows, fs[i + 1..]);
                return Err(DuplicateKey);
              }
            }
            count := count + 1;
          }
        }
      }
      r := Ok(count);
    }

    /** storeFailures. rows is the batch as its statement reads it. */
    method StoreFailures(sub: nat, batch: nat, results: array<Outcome>) returns (r: Result<(), SqlError>, ghost rows: seq<Event>)
      requires StoreInv(Contents()) && Apart(ViewOf(Contents()))
      modifies this`retries, this`dead, results
      ensures r.Ok? ==> results[..] == Marked(old(results[..]), maxRetries)
      ensures var fs := FailedOf(old(results[..]), maxRetries);
              if fs == [] then
                r == Ok(()) && retries == old(retries) && dead == old(dead)
              else if !OpenFor(sub, batch) then
                r == Err(BatchNotFound)
              else
                && Ascending(rows) && |rows| == |Batch(old(Contents()), sub)|
                && (forall e :: e in rows <==> e in Batch(old(Contents()), sub))
                && match StoreAll(Stored(old(retries), old(dead)), sub, rows, fs)
                   case None => r.Err?
                   case Some(t) => r == Ok(()) && retries == t.retries && dead == t.dead
    {
      rows := [];
      var some := false;
      for i := 0 to results.Length
        invariant some <==> exists k :: 0 <= k < i && results[k].err != None
      {
        some := some || results[i].err != None;
      }
      FailedOfNone(results[..], maxRetries);
      if !some {
        return Ok(()), rows;
      }
      var f := CollectFailures(results, maxRetries);
      if sub !in subs || subs[sub].batch == None || subs[sub].batch.value.id != batch {
        return Err(BatchNotFound), rows;
      }
      assert Contents() == old(Contents());
      var read := GetBatchEvents(sub);
      rows := read;
      var count := StoreStatement(sub, read, f);
      if count.Err? {
        return Err(count.error), rows;
      }
      if count.value != |f| {
        return Err(MissingMessage), rows;
      }
      r := Ok(());
    }

    /** ack, through finish_batch: the cursor moves to the end of the batch. */
    method FinishOpenBatch(batch: nat, sub: nat) returns (finished: nat)
      modifies this`subs
      ensures finished == if old(OpenFor(sub, batch)) then 1 else 0
      ensures subs == if finished == 0 then old(subs) else old(subs)[sub := Sub(old(subs)[sub].batch.value.next, None)]
    {
      if sub !in subs || subs[sub].batch == None || subs[sub].batch.value.id != batch {
        return 0;
      }
      subs := subs[sub := Sub(subs[sub].batch.value.next, None)];
      finished := 1;
    }

    /** The statements of finishBatch, before the commit or the rollback. st and os are the
        state and the results at the start. */
    method FinishStatements(sub: nat, batch: nat, results: array<Outcome>, ghost read: seq<Event>,
                            ghost st: State, ghost os: seq<Outcome>) returns (r: Result<(), SqlError>)
      requires st == Contents() && StoreInv(st) && Apart(ViewOf(st)) && os == results[..]
      requires OpenFor(sub, batch) ==> IsRead(st, sub, read, os)
      modifies this`retries, this`dead, this`runs, this`subs, results
      ensures r.Ok? <==> OpenIn(st, sub, batch)
      ensures r.Err? ==> subs == old(subs)
      ensures r.Ok? ==> results[..] == Marked(os, st.maxRetries) && runs == old(runs) - {batch}
      ensures r.Ok? ==> IsRead(st, sub, read, os) && Settles(st, sub, Verdicts(read, os, st.maxRetries), subs, retries, dead)
    {
      if OpenIn(st, sub, batch) {
        FinishStores(st, sub, read, os);
      }
      ghost var rows;
      r, rows := StoreFailures(sub, batch, results);
      if OpenIn(st, sub, batch) && FailedOf(os, maxRetries) != [] {
        SameRows(rows, read);
      }
      if r.Err? {
        return;
      }
      runs := runs - {batch};
      var finished := FinishOpenBatch(batch, sub);
      if finished != 1 {
        r := Err(NotOpen);
      }
    }

    ghost method RecordFinish(sub: nat, verdicts: map<Event, Verdict>, st: State)
      requires Pointed(st.feed) && HasBatch(st, sub) && Settles(st, sub, verdicts, subs, retries, dead)
      requires Contents() == st.(feed := st.feed.(subs := subs), parked := st.parked.(retries := retries, dead := dead))
      modifies this`history
      ensures Contents() == Finished(st, sub, verdicts)
    {
      history := Finished(st, sub, verdicts).history;
    }

    /** An error rolls a transaction back to the tables at its start. */
    method RollBack(savedRetries: map<Key, Row>, savedDead: map<Key, Row>, savedRuns: map<nat, int>, ghost st: State)
      requires st == Contents().(parked := Contents().parked.(retries := savedRetries, dead := savedDead))
      modifies this`retries, this`dead, this`runs
      ensures Contents() == st && runs == savedRuns
    {
      retries, dead, runs := savedRetries, savedDead, savedRuns;
    }

    /** finishBatch: one transaction. An error rolls everything back; without one, the
        transaction is the step Finish with the verdicts of the results. read is the batch
        as the worker read it; st and os are the state and the results at the start. */
    method FinishBatch(sub: nat, batch: nat, results: array<Outcome>, ghost read: seq<Event>,
                       ghost st: State, ghost os: seq<Outcome>) returns (r: Result<(), SqlError>)
      requires st == Contents() && StoreInv(st) && Apart(ViewOf(st)) && os == results[..]
      requires OpenIn(st, sub, batch) ==> IsRead(st, sub, read, os)
      modifies this`retries, this`dead, this`runs, this`subs, this`history, results
      ensures r.Ok? <==> OpenIn(st, sub, batch)
      ensures r.Err? ==> Contents() == st && runs == old(runs)
      ensures r.Ok? ==> Contents() == Finished(st, sub, Verdicts(read, os, st.maxRetries))
      ensures r.Ok? ==> runs == old(runs) - {batch} && results[..] == Marked(os, st.maxRetries)
    {
      var savedRetries, savedDead, savedRuns := retries, dead, runs;
      r := FinishStatements(sub, batch, results, read, st, os);
      if r.Err? {
        RollBack(savedRetries, savedDead, savedRuns, st);
        return;
      }
      RecordFinish(sub, Verdicts(read, os, st.maxRetries), st);
    }
  }

  lemma SwitchIsWhole(st: State, now: State, r: Rotation)
    requires st.store.cur < |st.store.tables|
    requires now.tx == st.tx && now.parked == st.parked && now.nextId == st.nextId && now.maxRetries == st.maxRetries
    requires now.store.cur == Following(st.store)
    requires now.store.tables == st.store.tables[now.store.cur := {}]
    requires now.store.step1 == r.xid && now.store.step2 == None && now.store.rotation == None
    requires now.feed.ticks == RecentTicks(st.feed.ticks, r.passed)
    requires now.feed.nextTick == st.feed.nextTick && now.feed.subs == st.feed.subs && now.feed.nextBatch == st.feed.nextBatch
    requires now.history == st.history.(rotatedAt := st.tx.next)
    ensures now == SwitchOver(st, r)
  {
  }

  /** Run without a break, step 1 is its beginning and its commit. */
  lemma RotationIsTwoSteps(st: State, x: nat)
    requires Enabled(st, BeginRotation(x))
    ensures var begun := Take(st, BeginRotation(x));
            && Enabled(begun, CommitRotation)
            && Take(begun, CommitRotation) == Rotated(st, Rotation(x, st.store.step2.value))
  {
  }

  ghost predicate OpenIn(st: State, sub: nat, batch: nat) {
    HasBatch(st, sub) && st.feed.subs[sub].batch.value.id == batch
  }

  /** These results belong to the messages of the open batch, in the order of their ids. */
  ghost predicate IsRead(st: State, sub: nat, read: seq<Event>, os: seq<Outcome>)
    requires Pointed(st.feed)
  {
    && HasBatch(st, sub)
    && |os| == |read| == |Batch(st, sub)|
    && Ascending(read)
    && (forall e :: e in read <==> e in Batch(st, sub))
    && (forall i :: 0 <= i < |read| ==> os[i].msg == MessageOf(read[i]))
  }

  /** The three tables that finishing changes. */
  ghost predicate Settles(st: State, sub: nat, verdicts: map<Event, Verdict>,
                          subs: map<nat, Sub>, retries: map<Key, Row>, dead: map<Key, Row>)
    requires Pointed(st.feed) && HasBatch(st, sub)
  {
    && subs == st.feed.subs[sub := Sub(st.feed.subs[sub].batch.value.next, None)]
    && retries == st.parked.retries + Rows(sub, With(verdicts, Retry), 1)
    && dead == st.parked.dead + Rows(sub, With(verdicts, Dead), 0)
  }

  lemma ReadIsClear(st: State, sub: nat, read: seq<Event>)
    requires Pointed(st.feed) && Apart(ViewOf(st)) && HasBatch(st, sub)
    requires forall e :: e in read ==> e in Batch(st, sub)
    ensures Clear(Stored(st.parked.retries, st.parked.dead), sub, read, 0)
  {
    forall i | 0 <= i < |read|
      ensures Key(sub, read[i].id) !in st.parked.retries && Key(sub, read[i].id) !in st.parked.dead
    {
      assert read[i] in read;
      FailuresAreNew(st, sub, read[i]);
    }
  }

  /** On an open batch, storing the results always succeeds: no key breaks, and each
      failed message is in the batch. */
  lemma FinishStores(st: State, sub: nat, read: seq<Event>, os: seq<Outcome>)
    requires Pointed(st.feed) && Apart(ViewOf(st)) && IsRead(st, sub, read, os)
    ensures var verdicts := Verdicts(read, os, st.maxRetries);
            StoreAll(Stored(st.parked.retries, st.parked.dead), sub, read, FailedOf(os, st.maxRetries)) ==
            Some(Stored(st.parked.retries + Rows(sub, With(verdicts, Retry), 1),
                        st.parked.dead + Rows(sub, With(verdicts, Dead), 0)))
  {
    ReadIsClear(st, sub, read);
    StoreIsFinish(Stored(st.parked.retries, st.parked.dead), sub, read, os, st.maxRetries);
  }

  /** Where a message is after its handler gave this result. */
  ghost predicate HandledAs(now: State, sub: nat, e: Event, err: Option<Failure>) {
    var k := Key(sub, e.id);
    if err == None then LeavesDone(now, k)
    else if err == Some(Permanent) || e.retry >= now.maxRetries then LeavesDead(now, k, Row(e.retry, e.body))
    else LeavesRetry(now, k, Row(e.retry + 1, e.body))
  }

  /** What finishBatch leaves of each message, by its result: without an error it is done; with a
      permanent error, or without retries left, it is a dead letter as it was; with any other
      error it retries with one retry more. */
  lemma ResultDecides(st: State, sub: nat, read: seq<Event>, os: seq<Outcome>, i: nat)
    requires Pointed(st.feed) && Apart(ViewOf(st)) && IsRead(st, sub, read, os) && i < |read|
    ensures HandledAs(Finished(st, sub, Verdicts(read, os, st.maxRetries)), sub, read[i], os[i].err)
  {
    VerdictsAt(read, os, st.maxRetries);
    assert Verdicts(read, os, st.maxRetries).Keys == Batch(st, sub);
    VerdictDecides(st, sub, Verdicts(read, os, st.maxRetries), read[i], os[i]);
  }

  lemma VerdictDecides(st: State, sub: nat, verdicts: map<Event, Verdict>, e: Event, o: Outcome)
    requires Pointed(st.feed) && Apart(ViewOf(st)) && HasBatch(st, sub) && verdicts.Keys == Batch(st, sub) && e in verdicts
    requires o.msg == MessageOf(e) && verdicts[e] == VerdictOf(o, st.maxRetries)
    ensures HandledAs(Finished(st, sub, verdicts), sub, e, o.err)
  {
    VerdictIs(o, st.maxRetries);
    FinishLeaves(st, sub, verdicts, e);
  }

  lemma ResultsMayFinish(st: State, sub: nat, batch: nat, read: seq<Event>, os: seq<Outcome>)
    requires Pointed(st.feed) && OpenIn(st, sub, batch) && IsRead(st, sub, read, os)
    ensures CanFinish(st, sub, batch, Verdicts(read, os, st.maxRetries))
  {
  }

  lemma QueryResultIsTheBatch(st: State, sub: nat, found: set<Event>)
    requires StoreInv(st) && Apart(ViewOf(st)) && HasBatch(st, sub)
    requires var last, end := LastSnapshot(st, sub), NextSnapshot(st, sub);
             var chosen := BatchTables(st.store, last, end);
             forall e :: e in found <==>
               && e.txid in st.tx.committed && Selects(QueryOf(last, end), last, end, e.txid) && Mine(e, sub)
               && exists a :: 0 <= a < |chosen| && e in st.store.tables[chosen[a]]
    ensures found == Batch(st, sub)
    ensures DistinctIds(found)
  {
    var last, end := LastSnapshot(st, sub), NextSnapshot(st, sub);
    var chosen := BatchTables(st.store, last, end);
    forall e ensures e in found <==> e in Batch(st, sub) {
      ReadIsExact(st, sub, e);
      if k :| k in chosen && k < |st.store.tables| && Returned(st, sub, k, e) {
        var a :| 0 <= a < |chosen| && chosen[a] == k;
        assert e in st.store.tables[chosen[a]];
      }
      if e in found {
        var a :| 0 <= a < |chosen| && e in st.store.tables[chosen[a]];
        assert chosen[a] in chosen && Returned(st, sub, chosen[a], e);
      }
    }
    BatchIdsDistinct(st, sub);
  }
}
