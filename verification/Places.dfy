/** The places of a message, seen apart from the tables: for each subscription a
    message waits in the log, waits in the retry queue, is dead, is done, or was purged. */
module Places {
  import opened EventLog

  /** A row that a subscription has not passed. */
  datatype Entry = Entry(sub: nat, row: Event)

  function KeyOf(a: Entry): Key {
    Key(a.sub, a.row.id)
  }

  datatype View = View(
    subs: set<nat>, sent: set<nat>, log: set<Entry>, retries: set<Key>, dead: set<Key>, done: set<Key>, purged: set<Key>)

  ghost predicate Logged(v: View, k: Key) {
    exists a :: a in v.log && KeyOf(a) == k
  }

  ghost function KeysOf(log: set<Entry>): set<Key> {
    set a | a in log :: KeyOf(a)
  }

  /** At most one live copy, and no two places at once. */
  ghost predicate Apart(v: View) {
    && (forall a, b :: a in v.log && b in v.log && KeyOf(a) == KeyOf(b) ==> a == b)
    && v.retries !! v.dead
    && v.retries !! v.done
    && v.dead !! v.done
    && v.purged !! v.retries + v.dead + v.done
    && (forall a :: a in v.log ==>
      KeyOf(a) !in v.retries && KeyOf(a) !in v.dead && KeyOf(a) !in v.done && KeyOf(a) !in v.purged)
  }

  /** Every message that was sent is somewhere, for every subscription. */
  ghost predicate Somewhere(v: View) {
    forall s, id :: s in v.subs && id in v.sent ==>
      Logged(v, Key(s, id)) || Key(s, id) in v.retries || Key(s, id) in v.dead || Key(s, id) in v.done || Key(s, id) in v.purged
  }

  /** Only messages that were sent have a place. */
  ghost predicate Grounded(v: View) {
    && (forall a :: a in v.log ==> a.sub in v.subs && a.row.id in v.sent)
    && (forall k :: k in v.retries || k in v.dead || k in v.done || k in v.purged ==> k.sub in v.subs && k.id in v.sent)
  }

  ghost predicate Conserved(v: View) {
    Apart(v) && Somewhere(v) && Grounded(v)
  }

  function Count(b: bool): nat {
    if b then 1 else 0
  }

  ghost function PlaceCount(v: View, k: Key): nat {
    Count(Logged(v, k)) + Count(k in v.retries) + Count(k in v.dead) + Count(k in v.done) + Count(k in v.purged)
  }

  /** Conservation, counted: one place for a sent message, none for anything else. */
  lemma ExactlyOnePlace(v: View, k: Key)
    requires Conserved(v)
    ensures PlaceCount(v, k) == if k.sub in v.subs && k.id in v.sent then 1 else 0
  {
  }

  /** New messages enter the log of every subscription. */
  ghost function Send(v: View, rows: set<Event>): View {
    v.(sent := v.sent + Ids(rows), log := v.log + set s, e | s in v.subs && e in rows :: Entry(s, e))
  }

  lemma SendConserves(v: View, rows: set<Event>)
    requires Conserved(v)
    requires forall e :: e in rows ==> e.id !in v.sent
    requires forall e, f :: e in rows && f in rows && e.id == f.id ==> e == f
    ensures Conserved(Send(v, rows))
  {
  }

  /** Copies leave the retry queue and enter the log. */
  ghost function MoveBack(v: View, copies: set<Entry>): View {
    v.(log := v.log + copies, retries := v.retries - KeysOf(copies))
  }

  lemma MoveBackConserves(v: View, copies: set<Entry>)
    requires Conserved(v) && KeysOf(copies) <= v.retries
    requires forall a, b :: a in copies && b in copies && KeyOf(a) == KeyOf(b) ==> a == b
    ensures Conserved(MoveBack(v, copies))
  {
  }

  /** A batch leaves the log; its messages divide among done, retry, and dead. */
  ghost function Settle(v: View, batch: set<Entry>, done: set<Key>, retry: set<Key>, dead: set<Key>): View {
    v.(log := v.log - batch, retries := v.retries + retry, dead := v.dead + dead, done := v.done + done)
  }

  lemma SettleConserves(v: View, batch: set<Entry>, done: set<Key>, retry: set<Key>, dead: set<Key>)
    requires Conserved(v) && batch <= v.log
    requires done !! retry && done !! dead && retry !! dead && done + retry + dead == KeysOf(batch)
    ensures Conserved(Settle(v, batch, done, retry, dead))
  {
  }

  /** Old dead letters are deleted. */
  ghost function Purge(v: View, keys: set<Key>): View {
    v.(dead := v.dead - keys, purged := v.purged + keys)
  }

  lemma PurgeConserves(v: View, keys: set<Key>)
    requires Conserved(v) && keys <= v.dead
    ensures Conserved(Purge(v, keys))
  {
  }
}
