/** The PgQue log of one queue as a state machine. A step is one database action that
    other sessions can see; any interleaving of steps is a run. The functions of the
    SQL file appear as steps, and the class in PgQue.dfy runs their statements. */
module EventLog {
  import opened Wrappers
  import opened Snapshots
  import opened BatchQuery

  /** A row of an event table. owner is the subscription that asked for a retry; a new
      message has none. A NULL ev_retry is 0, as every reader of the column takes it. */
  datatype Event = Event(id: nat, txid: nat, owner: Option<nat>, retry: nat, body: string)

  /** A message of a subscription: the key of the retry queue and of the dead letters. */
  datatype Key = Key(sub: nat, id: nat)

  /** A row of the retry queue or of the dead letter queue. */
  datatype Row = Row(retry: nat, body: string)

  datatype OpenBatch = OpenBatch(id: nat, next: nat)

  /** A row of pgque.subscription. sub_batch and sub_next_tick are set together. */
  datatype Sub = Sub(last: nat, batch: Option<OpenBatch>)

  /** A rotation step 1 that has not ended: its transaction, and the step2 it passed. */
  datatype Rotation = Rotation(xid: nat, passed: nat)

  /** Transactions. horizon is one more than the latest transaction that has ended. */
  datatype Tx = Tx(next: nat, running: set<nat>, committed: set<nat>, horizon: nat)

  /** The event tables and the columns of pgque.queue that choose among them. */
  datatype Store = Store(
    tables: seq<set<Event>>, cur: nat, step1: nat, step2: Option<nat>, rotation: Option<Rotation>)

  datatype Feed = Feed(ticks: map<nat, Snapshot>, nextTick: nat, subs: map<nat, Sub>, nextBatch: nat)

  /** The retry queue, the dead letters, and the retry rows that the running
      maint_retry_events has copied but not yet committed. */
  datatype Parked = Parked(
    retries: map<Key, Row>, dead: map<Key, Row>, mover: Option<nat>, moving: set<Key>)

  datatype Origin = Origin(txid: nat, body: string)

  /** What the database forgets: every row ever written, the first insert of each
      message, the transaction counter at the last rotation, the messages that each
      subscription finished, the dead letters that were purged, and the batches that each
      subscription passed. */
  datatype History = History(
    written: set<Event>, sent: map<nat, Origin>, rotatedAt: nat, done: set<Key>, purged: set<Key>, passed: map<nat, seq<Window>>)

  datatype State = State(
    tx: Tx, store: Store, feed: Feed, parked: Parked, history: History, nextId: nat, maxRetries: nat)

  // ---- transactions and snapshots

  ghost predicate Ended(tx: Tx, x: nat) {
    x < tx.next && x !in tx.running
  }

  function End(tx: Tx, x: nat, commit: bool): Tx {
    tx.(running := tx.running - {x},
        committed := if commit then tx.committed + {x} else tx.committed,
        horizon := if tx.horizon <= x then x + 1 else tx.horizon)
  }

  ghost function Least(s: set<nat>, bound: nat): (m: nat)
    ensures m <= bound && (forall x :: x in s ==> m <= x) && (m == bound || m in s)
  {
    if s == {} then
      bound
    else
      var x :| x in s;
      var m := Least(s - {x}, bound);
      assert s == (s - {x}) + {x};
      if x < m then x else m
  }

  /** pg_current_snapshot() in transaction own: own is not listed as running, but it
      holds xmin back. */
  ghost function TakeSnapshot(tx: Tx, own: nat): Snapshot {
    Snapshot(Least(tx.running, tx.horizon), tx.horizon, set x | x in tx.running && x < tx.horizon && x != own)
  }

  // ---- the messages of a subscription

  predicate Mine(e: Event, sub: nat) {
    e.owner == None || e.owner == Some(sub)
  }

  ghost function LastSnapshot(st: State, sub: nat): Snapshot
    requires sub in st.feed.subs && st.feed.subs[sub].last in st.feed.ticks
  {
    st.feed.ticks[st.feed.subs[sub].last]
  }

  /** The subscriptions point to ticks that exist, and an open batch ends later than
      it starts. */
  ghost predicate Pointed(feed: Feed) {
    forall s :: s in feed.subs ==>
      && feed.subs[s].last in feed.ticks
      && (feed.subs[s].batch.Some? ==>
        feed.subs[s].batch.value.next in feed.ticks && feed.subs[s].last < feed.subs[s].batch.value.next)
  }

  /** A committed row that the subscription has not passed. */
  ghost predicate Unread(st: State, sub: nat, e: Event)
    requires Pointed(st.feed) && sub in st.feed.subs
  {
    && e in st.history.written
    && e.txid in st.tx.committed
    && Mine(e, sub)
    && !LastSnapshot(st, sub).Sees(e.txid)
  }

  ghost predicate HasBatch(st: State, sub: nat) {
    sub in st.feed.subs && st.feed.subs[sub].batch.Some?
  }

  ghost function NextSnapshot(st: State, sub: nat): Snapshot
    requires Pointed(st.feed) && HasBatch(st, sub)
  {
    st.feed.ticks[st.feed.subs[sub].batch.value.next]
  }

  /** The batch as its definition says: the unread rows that the end tick sees. */
  ghost function Batch(st: State, sub: nat): set<Event>
    requires Pointed(st.feed) && HasBatch(st, sub)
  {
    set e | e in st.history.written && Unread(st, sub, e) && NextSnapshot(st, sub).Sees(e.txid)
  }

  // ---- what get_batch_events reads

  function Previous(store: Store): nat
    requires |store.tables| > 0
  {
    if store.cur == 0 then |store.tables| - 1 else store.cur - 1
  }

  function Following(store: Store): nat {
    if store.cur + 1 == |store.tables| then 0 else store.cur + 1
  }

  /** batch_event_tables */
  function BatchTables(store: Store, last: Snapshot, cur: Snapshot): seq<nat>
    requires |store.tables| > 0
  {
    if cur.xmax < store.step1 then
      [Previous(store)]
    else if store.step2.Some? && last.xmin > store.step2.value then
      [store.cur]
    else
      [Previous(store), store.cur]
  }

  /** A row of table k that the generated SQL returns: the query selects its
      transaction, the reader sees it, and retry_expr lets it pass. */
  ghost predicate Returned(st: State, sub: nat, k: nat, e: Event)
    requires Pointed(st.feed) && HasBatch(st, sub) && k < |st.store.tables|
  {
    var last, cur := LastSnapshot(st, sub), NextSnapshot(st, sub);
    && e in st.store.tables[k]
    && e.txid in st.tx.committed
    && Selects(QueryOf(last, cur), last, cur, e.txid)
    && Mine(e, sub)
  }

  // ---- steps

  datatype Verdict = Done | Retry | Dead

  datatype Step =
    | Begin
    | Insert(x: nat, body: string)
    | Commit(x: nat)
    | Abort(x: nat)
    | MakeTick(own: nat)
    | Open(sub: nat, next: nat)
    | Finish(sub: nat, batch: nat, verdicts: map<Event, Verdict>)
    | MoveRetry(x: nat, key: Key)
    | CommitMove
    | BeginRotation(x: nat)
    | CommitRotation
    | CommitStep2(x: nat)
    | PurgeDead(keys: set<Key>)

  /** A running transaction that wrote no event and runs no maintenance. */
  ghost predicate Idle(st: State, x: nat) {
    && x in st.tx.running
    && (forall e :: e in st.history.written ==> e.txid != x)
    && st.parked.mover != Some(x)
    && (st.store.rotation.Some? ==> st.store.rotation.value.xid != x)
  }

  ghost predicate Producer(st: State, x: nat) {
    && x in st.tx.running
    && st.parked.mover != Some(x)
    && (st.store.rotation.Some? ==> st.store.rotation.value.xid != x)
  }

  /** insert_event_raw: the row goes to the table that is current now. */
  ghost function Write(st: State, e: Event): State
    requires st.store.cur < |st.store.tables|
  {
    st.(store := st.store.(tables := st.store.tables[st.store.cur := st.store.tables[st.store.cur] + {e}]),
        history := st.history.(written := st.history.written + {e}),
        nextId := st.nextId + 1)
  }

  /** The copy that maint_retry_events inserts for a retry row. */
  function Copy(x: nat, key: Key, row: Row): Event {
    Event(key.id, x, Some(key.sub), row.retry, row.body)
  }

  /** The message with this id, when the rows have one. */
  ghost function Pick(es: set<Event>, id: nat): Event
    requires exists e :: e in es && e.id == id
  {
    var e :| e in es && e.id == id; e
  }

  ghost function Ids(es: set<Event>): set<nat> {
    set e | e in es :: e.id
  }

  ghost function Keys(sub: nat, es: set<Event>): set<Key> {
    set e | e in es :: Key(sub, e.id)
  }

  /** The rows that storing these failures adds: a retry counts one more, a dead
      letter keeps the count. */
  ghost function Rows(sub: nat, es: set<Event>, more: nat): map<Key, Row> {
    map k | k in Keys(sub, es) :: Row(Pick(es, k.id).retry + more, Pick(es, k.id).body)
  }

  ghost function With(verdicts: map<Event, Verdict>, v: Verdict): set<Event> {
    set e | e in verdicts && verdicts[e] == v
  }

  /** finishBatch commits only on the open batch, with a result for each message, and
      a message without retries left does not retry. */
  ghost predicate CanFinish(st: State, sub: nat, batch: nat, verdicts: map<Event, Verdict>)
    requires Pointed(st.feed)
  {
    && HasBatch(st, sub)
    && st.feed.subs[sub].batch.value.id == batch
    && verdicts.Keys == Batch(st, sub)
    && (forall e :: e in verdicts && verdicts[e] == Retry ==> e.retry < st.maxRetries)
  }

  /** storeFailures and then ack, in one transaction. */
  ghost function Finished(st: State, sub: nat, verdicts: map<Event, Verdict>): State
    requires Pointed(st.feed) && HasBatch(st, sub)
  {
    var open := st.feed.subs[sub].batch.value;
    var window := Window(open.id, LastSnapshot(st, sub), NextSnapshot(st, sub));
    var before := if sub in st.history.passed then st.history.passed[sub] else [];
    st.(feed := st.feed.(subs := st.feed.subs[sub := Sub(open.next, None)]),
        parked := st.parked.(
          retries := st.parked.retries + Rows(sub, With(verdicts, Retry), 1),
          dead := st.parked.dead + Rows(sub, With(verdicts, Dead), 0)),
        history := st.history.(
          done := st.history.done + Keys(sub, With(verdicts, Done)),
          passed := st.history.passed[sub := before + [window]]))
  }

  ghost predicate IsSlowest(feed: Feed, s: nat) {
    s in feed.subs && forall t :: t in feed.subs ==> feed.subs[s].last <= feed.subs[t].last
  }

  /** The check of maint_rotate_tables_step1 passes: no subscription is still on the
      table before the last rotation. */
  ghost predicate MayRotate(st: State)
    requires Pointed(st.feed)
  {
    && st.store.rotation == None
    && st.store.step2.Some?
    && (forall s :: IsSlowest(st.feed, s) ==> LastSnapshot(st, s).xmin > st.store.step2.value)
  }

  function RecentTicks(ticks: map<nat, Snapshot>, passed: nat): map<nat, Snapshot> {
    map t | t in ticks && ticks[t].xmin >= passed :: ticks[t]
  }

  /** The changes of step 1: the following table is emptied and becomes current, and the
      ticks that began before the last rotation go away. */
  ghost function SwitchOver(st: State, r: Rotation): State
    requires st.store.cur < |st.store.tables|
  {
    var nr := Following(st.store);
    st.(store := Store(st.store.tables[nr := {}], nr, r.xid, None, None),
        feed := st.feed.(ticks := RecentTicks(st.feed.ticks, r.passed)),
        history := st.history.(rotatedAt := st.tx.next))
  }

  /** Step 1 commits. */
  ghost function Rotated(st: State, r: Rotation): State
    requires st.store.cur < |st.store.tables|
  {
    SwitchOver(st, r).(tx := End(st.tx, r.xid, true))
  }

  /** dlq_purge: these dead letters are deleted. */
  function Purged(st: State, keys: set<Key>): State {
    st.(parked := st.parked.(dead := st.parked.dead - keys), history := st.history.(purged := st.history.purged + keys))
  }

  ghost predicate Enabled(st: State, step: Step) {
    && Pointed(st.feed)
    && st.store.cur < |st.store.tables|
    && match step
       case Begin => true
       case Insert(x, _) => Producer(st, x)
       case Commit(x) => Producer(st, x)
       case Abort(x) => x in st.tx.running
       case MakeTick(own) => Idle(st, own)
       case Open(s, next) =>
         s in st.feed.subs && st.feed.subs[s].batch == None && next in st.feed.ticks && st.feed.subs[s].last < next
       case Finish(s, b, verdicts) => CanFinish(st, s, b, verdicts)
       case MoveRetry(x, key) =>
         && key in st.parked.retries && key !in st.parked.moving
         && (st.parked.mover == Some(x) || (st.parked.mover == None && Idle(st, x)))
       case CommitMove => st.parked.mover.Some?
       case BeginRotation(x) => Idle(st, x) && st.store.step1 <= x && MayRotate(st)
       case CommitRotation => st.store.rotation.Some?
       case CommitStep2(x) => Idle(st, x) && st.store.step2 == None && st.history.rotatedAt <= x
       case PurgeDead(keys) => keys <= st.parked.dead.Keys
  }

  ghost function Take(st: State, step: Step): State
    requires Enabled(st, step)
  {
    match step
    case Begin =>
      st.(tx := st.tx.(next := st.tx.next + 1, running := st.tx.running + {st.tx.next}))
    case Insert(x, body) =>
      var w := Write(st, Event(st.nextId, x, None, 0, body));
      w.(history := w.history.(sent := st.history.sent[st.nextId := Origin(x, body)]))
    case Commit(x) =>
      st.(tx := End(st.tx, x, true))
    case Abort(x) =>
      var mine := st.parked.mover == Some(x);
      var rotating := st.store.rotation.Some? && st.store.rotation.value.xid == x;
      st.(tx := End(st.tx, x, false),
          parked := if mine then st.parked.(mover := None, moving := {}) else st.parked,
          store := if rotating then st.store.(rotation := None) else st.store)
    case MakeTick(own) =>
      st.(tx := End(st.tx, own, true),
          feed := st.feed.(
            ticks := st.feed.ticks[st.feed.nextTick := TakeSnapshot(st.tx, own)],
            nextTick := st.feed.nextTick + 1))
    case Open(s, next) =>
      st.(feed := st.feed.(
            subs := st.feed.subs[s := st.feed.subs[s].(batch := Some(OpenBatch(st.feed.nextBatch, next)))],
            nextBatch := st.feed.nextBatch + 1))
    case Finish(s, _, verdicts) =>
      Finished(st, s, verdicts)
    case MoveRetry(x, key) =>
      Write(st, Copy(x, key, st.parked.retries[key])).(
        parked := st.parked.(mover := Some(x), moving := st.parked.moving + {key}))
    case CommitMove =>
      st.(tx := End(st.tx, st.parked.mover.value, true),
          parked := st.parked.(retries := st.parked.retries - st.parked.moving, mover := None, moving := {}))
    case BeginRotation(x) =>
      st.(store := st.store.(rotation := Some(Rotation(x, st.store.step2.value))))
    case CommitRotation =>
      Rotated(st, st.store.rotation.value)
    case CommitStep2(x) =>
      st.(tx := End(st.tx, x, true), store := st.store.(step2 := Some(x)))
    case PurgeDead(keys) =>
      Purged(st, keys)
  }

  /** create_queue, some ticks, and the subscriptions, before the first message. Other
      transactions may already run. */
  ghost predicate Init(st: State) {
    && Transactions(st.tx)
    && |st.store.tables| >= 2
    && (forall k :: 0 <= k < |st.store.tables| ==> st.store.tables[k] == {})
    && st.store.cur == 0
    && Ended(st.tx, st.store.step1)
    && st.store.step2 == Some(st.store.step1)
    && st.store.rotation == None
    && Ordered(st.tx, st.feed)
    && Pointed(st.feed)
    && (forall s :: s in st.feed.subs ==> st.feed.subs[s].batch == None)
    && st.parked == Parked(map[], map[], None, {})
    && st.history == History({}, map[], 0, {}, {}, map[])
  }

  /** The transaction counters agree. */
  ghost predicate Transactions(tx: Tx) {
    && tx.running !! tx.committed
    && (forall x :: x in tx.running || x in tx.committed ==> x < tx.next)
    && tx.horizon <= tx.next
    && (forall x :: tx.horizon <= x < tx.next ==> x in tx.running)
  }

  /** A snapshot that was taken earlier: what it sees has ended. */
  ghost predicate Past(tx: Tx, s: Snapshot) {
    && s.Valid()
    && s.xmax <= tx.horizon
    && forall x: nat :: s.Sees(x) ==> Ended(tx, x)
  }

  /** Ticks are past snapshots, and a later tick saw more. */
  ghost predicate Ordered(tx: Tx, feed: Feed) {
    && (forall t :: t in feed.ticks ==> t < feed.nextTick && Past(tx, feed.ticks[t]))
    && (forall t, u :: t in feed.ticks && u in feed.ticks && t < u ==> Precedes(feed.ticks[t], feed.ticks[u]))
  }

  ghost predicate Next(a: State, b: State) {
    exists step :: Enabled(a, step) && b == Take(a, step)
  }

  ghost predicate StepAt(states: seq<State>, i: nat) {
    0 < i < |states| && Next(states[i - 1], states[i])
  }

  /** A run: any interleaving of the steps, from a new queue. */
  ghost predicate Run(states: seq<State>) {
    && states != []
    && Init(states[0])
    && forall i :: 0 < i < |states| ==> StepAt(states, i)
  }
}
