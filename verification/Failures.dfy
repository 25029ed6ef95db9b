/** Storing the failed messages of a batch: the one statement of storeFailures against
    one pgque.nack after another. */
module Failures {
  import opened Wrappers
  import opened EventLog
  import opened LogMessages

  lemma {:induction false} LeastIdExists(es: set<Event>)
    requires es != {}
    ensures exists e :: e in es && forall f :: f in es ==> e.id <= f.id
  {
    var e :| e in es;
    if es != {e} {
      LeastIdExists(es - {e});
      var f :| f in es - {e} && forall g :: g in es - {e} ==> f.id <= g.id;
      var least := if e.id < f.id then e else f;
      assert least in es;
      forall g | g in es ensures least.id <= g.id {
        if g != e { assert g in es - {e}; }
      }
    }
  }

  /** `order by 1` over rows with different ids */
  method OrderById(es: set<Event>) returns (rows: seq<Event>)
    requires DistinctIds(es)
    ensures |rows| == |es| && forall e :: e in rows <==> e in es
    ensures forall i, j :: 0 <= i < j < |rows| ==> rows[i].id < rows[j].id
  {
    rows := [];
    var rest := es;
    while rest != {}
      invariant rest <= es && |rows| == |es| - |rest|
      invariant forall e :: e in rows <==> e in es - rest
      invariant forall i, j :: 0 <= i < j < |rows| ==> rows[i].id < rows[j].id
      invariant forall e, f :: e in rows && f in rest ==> e.id < f.id
      decreases rest
    {
      LeastIdExists(rest);
      var e :| e in rest && forall f :: f in rest ==> e.id <= f.id;
      rows := rows + [e];
      rest := rest - {e};
    }
  }

  // ---- results of a batch

  /** A handler error. A permanent one is final. */
  datatype Failure = Temporary | Permanent

  datatype Message = Message(id: nat, retries: nat, body: string)

  /** The result of one message. stopped marks a message that the worker stopped or
      skipped; dead, one that went to the dead letters. */
  datatype Outcome = Outcome(msg: Message, err: Option<Failure>, stopped: bool, dead: bool)

  /** One row of the arrays that storeFailures sends. */
  datatype Failed = Failed(id: nat, dead: bool)

  function MessageOf(e: Event): Message {
    Message(e.id, e.retry, e.body)
  }

  function VerdictOf(o: Outcome, maxRetries: nat): Verdict {
    if o.err == None then Done
    else if o.err == Some(Permanent) || o.msg.retries >= maxRetries then Dead
    else Retry
  }

  /** A permanent error is final, and so is an error without retries left. */
  lemma VerdictIs(o: Outcome, maxRetries: nat)
    ensures VerdictOf(o, maxRetries) == Done <==> o.err == None
    ensures VerdictOf(o, maxRetries) == Dead <==> o.err.Some? && (o.err.value.Permanent? || o.msg.retries >= maxRetries)
    ensures VerdictOf(o, maxRetries) == Retry <==> o.err.Some? && o.err.value.Temporary? && o.msg.retries < maxRetries
  {
  }

  function FailedAt(o: Outcome, maxRetries: nat): seq<Failed> {
    var v := VerdictOf(o, maxRetries);
    if v == Done then [] else [Failed(o.msg.id, v == Dead)]
  }

  function FailedOf(os: seq<Outcome>, maxRetries: nat): seq<Failed> {
    if os == [] then [] else FailedAt(os[0], maxRetries) + FailedOf(os[1..], maxRetries)
  }

  function Mark(o: Outcome, maxRetries: nat): Outcome {
    if o.err == None then o else o.(dead := VerdictOf(o, maxRetries) == Dead)
  }

  function Marked(os: seq<Outcome>, maxRetries: nat): seq<Outcome> {
    seq(|os|, i requires 0 <= i < |os| => Mark(os[i], maxRetries))
  }

  /** collectFailures: the failed messages, and the dead field of each set in place. A failed
      message is dead when its error is permanent, or when it has no retries left. */
  method CollectFailures(results: array<Outcome>, maxRetries: nat) returns (f: seq<Failed>)
    modifies results
    ensures results[..] == Marked(old(results[..]), maxRetries)
    ensures f == FailedOf(old(results[..]), maxRetries)
    ensures forall i :: 0 <= i < results.Length ==>
      results[i] == var o := old(results[i]);
                    if o.err == None then o else o.(dead := o.err == Some(Permanent) || o.msg.retries >= maxRetries)
    ensures forall x :: x in f <==>
      exists i :: 0 <= i < results.Length && results[i].err != None && x == Failed(results[i].msg.id, results[i].dead)
  {
    f := [];
    ghost var was := results[..];
    for i := 0 to results.Length
      invariant forall k :: 0 <= k < i ==> results[k] == Mark(was[k], maxRetries)
      invariant forall k :: i <= k < results.Length ==> results[k] == was[k]
      invariant FailedOf(was, maxRetries) == f + FailedOf(was[i..], maxRetries)
    {
      FailedSoFar(was, maxRetries, i, f);
      var r := results[i];
      if r.err != None {
        var dead := r.err == Some(Permanent) || r.msg.retries >= maxRetries;
        results[i] := r.(dead := dead);
        f := f + [Failed(r.msg.id, dead)];
      } else {
        assert f + FailedAt(r, maxRetries) == f;
      }
    }
    MarkedAll(was, results[..], maxRetries);
    forall x ensures x in f <==> exists i :: 0 <= i < results.Length && results[i].err != None && x == Failed(results[i].msg.id, results[i].dead) {
      FailedAre(was, maxRetries, x);
    }
  }

  /** The failed messages: those with an error, dead or not. */
  lemma {:induction false} FailedAre(os: seq<Outcome>, maxRetries: nat, x: Failed)
    ensures x in FailedOf(os, maxRetries) <==>
            exists i :: 0 <= i < |os| && os[i].err != None
              && x == Failed(os[i].msg.id, os[i].err == Some(Permanent) || os[i].msg.retries >= maxRetries)
  {
    if os != [] {
      FailedAre(os[1..], maxRetries, x);
      assert forall i :: 0 < i < |os| ==> os[i] == os[1..][i - 1];
    }
  }

  lemma MarkedAll(was: seq<Outcome>, now: seq<Outcome>, maxRetries: nat)
    requires |now| == |was| && forall k :: 0 <= k < |was| ==> now[k] == Mark(was[k], maxRetries)
    ensures now == Marked(was, maxRetries)
  {
  }

  lemma FailedNext(os: seq<Outcome>, maxRetries: nat, n: nat)
    requires n < |os|
    ensures var v := VerdictOf(os[n], maxRetries);
            FailedOf(os[n..], maxRetries) ==
            (if v == Done then [] else [Failed(os[n].msg.id, v == Dead)]) + FailedOf(os[n + 1..], maxRetries)
  {
  }

  lemma FailedSoFar(os: seq<Outcome>, maxRetries: nat, n: nat, f: seq<Failed>)
    requires n < |os| && FailedOf(os, maxRetries) == f + FailedOf(os[n..], maxRetries)
    ensures FailedOf(os, maxRetries) == f + FailedAt(os[n], maxRetries) + FailedOf(os[n + 1..], maxRetries)
  {
  }

  lemma {:induction false} FailedOfNone(os: seq<Outcome>, maxRetries: nat)
    ensures FailedOf(os, maxRetries) == [] <==> forall i :: 0 <= i < |os| ==> os[i].err == None
    ensures FailedOf(os, maxRetries) == [] ==> Marked(os, maxRetries) == os
  {
    if os != [] {
      FailedOfNone(os[1..], maxRetries);
      if FailedOf(os, maxRetries) == [] {
        forall i | 0 <= i < |os| ensures os[i].err == None {
          if i > 0 { assert os[i] == os[1..][i - 1]; }
        }
      }
      if forall i :: 0 <= i < |os| ==> os[i].err == None {
        assert forall i :: 0 <= i < |os[1..]| ==> os[1..][i] == os[i + 1];
      }
    }
  }

  // ---- the statement

  datatype Stored = Stored(retries: map<Key, Row>, dead: map<Key, Row>)

  /** A statement under way: its rows so far, or an exception. */
  datatype Progress = Broken | Progress(stored: Stored, count: nat)

  /** event_dead skips a dead letter that is there; event_retry_raw breaks on a retry
      row that is there. */
  function StoreRow(p: Progress, sub: nat, e: Event, dead: bool): Progress {
    var k := Key(sub, e.id);
    if p == Broken then
      p
    else if dead then
      var t := p.stored;
      Progress(if k in t.dead then t else t.(dead := t.dead[k := Row(e.retry, e.body)]), p.count + 1)
    else if k in p.stored.retries then
      Broken
    else
      Progress(p.stored.(retries := p.stored.retries[k := Row(e.retry + 1, e.body)]), p.count + 1)
  }

  /** The rows of the batch that join with one failed message. */
  function StoreMatches(p: Progress, sub: nat, rows: seq<Event>, f: Failed): Progress
    decreases rows
  {
    if rows == [] then p
    else
      StoreMatches(if rows[0].id == f.id then StoreRow(p, sub, rows[0], f.dead) else p, sub, rows[1..], f)
  }

  function Statement(p: Progress, sub: nat, rows: seq<Event>, fs: seq<Failed>): Progress
    decreases fs
  {
    if fs == [] then p else Statement(StoreMatches(p, sub, rows, fs[0]), sub, rows, fs[1..])
  }

  /** storeFailures: the statement must store one row for each failed message. */
  function StoreAll(t: Stored, sub: nat, rows: seq<Event>, fs: seq<Failed>): Option<Stored> {
    var p := Statement(Progress(t, 0), sub, rows, fs);
    if p == Broken || p.count != |fs| then None else Some(p.stored)
  }

  ghost predicate Ascending(rows: seq<Event>) {
    forall i, j :: 0 <= i < j < |rows| ==> rows[i].id < rows[j].id
  }

  lemma {:induction false} NoMatch(p: Progress, sub: nat, rows: seq<Event>, f: Failed)
    requires forall e :: e in rows ==> e.id != f.id
    ensures StoreMatches(p, sub, rows, f) == p
  {
    if rows != [] {
      assert rows[0] in rows;
      NoMatch(p, sub, rows[1..], f);
    }
  }

  /** With different ids in the batch, a failed message joins with its own row only. */
  lemma {:induction false} OneMatch(p: Progress, sub: nat, rows: seq<Event>, f: Failed, i: nat)
    requires Ascending(rows) && i < |rows| && rows[i].id == f.id
    ensures StoreMatches(p, sub, rows, f) == StoreRow(p, sub, rows[i], f.dead)
  {
    if i == 0 {
      NoMatch(StoreRow(p, sub, rows[0], f.dead), sub, rows[1..], f);
    } else {
      OneMatch(p, sub, rows[1..], f, i - 1);
    }
  }

  // ---- pgque.nack, one message after another

  /** nack reads the stored message again. It gives no error for a retry row or a dead
      letter that is there already. */
  function Nack(t: Stored, sub: nat, rows: seq<Event>, id: nat, maxRetries: nat): Option<Stored> {
    if rows == [] then
      None
    else if rows[0].id != id then
      Nack(t, sub, rows[1..], id, maxRetries)
    else
      var e, k := rows[0], Key(sub, id);
      if e.retry >= maxRetries then
        Some(if k in t.dead then t else t.(dead := t.dead[k := Row(e.retry, e.body)]))
      else
        Some(if k in t.retries then t else t.(retries := t.retries[k := Row(e.retry + 1, e.body)]))
  }

  function NackAll(t: Stored, sub: nat, rows: seq<Event>, fs: seq<Failed>, maxRetries: nat): Option<Stored>
    decreases fs
  {
    if fs == [] then
      Some(t)
    else
      match Nack(t, sub, rows, fs[0].id, maxRetries)
      case None => None
      case Some(u) => NackAll(u, sub, rows, fs[1..], maxRetries)
  }

  lemma {:induction false} NackFinds(t: Stored, sub: nat, rows: seq<Event>, i: nat, maxRetries: nat)
    requires Ascending(rows) && i < |rows|
    ensures var e, k := rows[i], Key(sub, rows[i].id);
            Nack(t, sub, rows, e.id, maxRetries) ==
            Some(if e.retry >= maxRetries then
                   if k in t.dead then t else t.(dead := t.dead[k := Row(e.retry, e.body)])
                 else if k in t.retries then t
                 else t.(retries := t.retries[k := Row(e.retry + 1, e.body)]))
  {
    if i > 0 {
      assert rows[0].id < rows[i].id;
      NackFinds(t, sub, rows[1..], i - 1, maxRetries);
    }
  }

  /** The failed messages are rows of the batch, each once, and each is dead exactly when
      nack would make it so: no error was permanent. */
  ghost predicate Matches(rows: seq<Event>, fs: seq<Failed>, maxRetries: nat) {
    && Ascending(rows)
    && (forall i, j :: 0 <= i < j < |fs| ==> fs[i].id != fs[j].id)
    && (forall f :: f in fs ==>
      exists i :: 0 <= i < |rows| && rows[i].id == f.id && f.dead == (rows[i].retry >= maxRetries))
  }

  /** A failed message that retries has a retry row already. */
  ghost predicate Collides(t: Stored, sub: nat, fs: seq<Failed>) {
    exists f :: f in fs && !f.dead && Key(sub, f.id) in t.retries
  }

  lemma {:induction false} StatementIsNack(p: Progress, sub: nat, rows: seq<Event>, fs: seq<Failed>, maxRetries: nat)
    requires p.Progress? && Matches(rows, fs, maxRetries) && !Collides(p.stored, sub, fs)
    ensures var q := Statement(p, sub, rows, fs);
            q.Progress? && q.count == p.count + |fs| && NackAll(p.stored, sub, rows, fs, maxRetries) == Some(q.stored)
    decreases |fs|
  {
    if fs != [] {
      var f, rest := fs[0], fs[1..];
      assert f in fs;
      var i :| 0 <= i < |rows| && rows[i].id == f.id && f.dead == (rows[i].retry >= maxRetries);
      OneMatch(p, sub, rows, f, i);
      NackFinds(p.stored, sub, rows, i, maxRetries);
      assert forall g :: g in rest ==> g in fs && g.id != f.id;
      StatementIsNack(StoreRow(p, sub, rows[i], f.dead), sub, rows, rest, maxRetries);
    }
  }

  lemma {:induction false} BrokenStays(sub: nat, rows: seq<Event>, fs: seq<Failed>)
    ensures Statement(Broken, sub, rows, fs) == Broken
  {
    if fs != [] {
      BrokenMatches(sub, rows, fs[0]);
      BrokenStays(sub, rows, fs[1..]);
    }
  }

  lemma {:induction false} BrokenMatches(sub: nat, rows: seq<Event>, f: Failed)
    ensures StoreMatches(Broken, sub, rows, f) == Broken
  {
    if rows != [] {
      BrokenMatches(sub, rows[1..], f);
    }
  }

  lemma {:induction false} CollisionBreaks(p: Progress, sub: nat, rows: seq<Event>, fs: seq<Failed>, maxRetries: nat)
    requires p.Progress? && Matches(rows, fs, maxRetries) && Collides(p.stored, sub, fs)
    ensures Statement(p, sub, rows, fs) == Broken
    decreases |fs|
  {
    var f, rest := fs[0], fs[1..];
    assert f in fs;
    var i :| 0 <= i < |rows| && rows[i].id == f.id && f.dead == (rows[i].retry >= maxRetries);
    OneMatch(p, sub, rows, f, i);
    var q := StoreRow(p, sub, rows[i], f.dead);
    if q == Broken {
      BrokenStays(sub, rows, rest);
    } else {
      var g :| g in fs && !g.dead && Key(sub, g.id) in p.stored.retries;
      assert g in rest;
      assert forall h :: h in rest ==> h in fs;
      CollisionBreaks(q, sub, rows, rest, maxRetries);
    }
  }

  /** The bulk statement refines the simple one: without permanent errors it leaves what
      one nack per failed message leaves ... */
  lemma BulkIsNackAll(t: Stored, sub: nat, rows: seq<Event>, fs: seq<Failed>, maxRetries: nat)
    requires Matches(rows, fs, maxRetries)
    ensures StoreAll(t, sub, rows, fs) == NackAll(t, sub, rows, fs, maxRetries) <==> !Collides(t, sub, fs)
    ensures StoreAll(t, sub, rows, fs) == None <==> Collides(t, sub, fs)
  {
    if Collides(t, sub, fs) {
      CollisionBreaks(Progress(t, 0), sub, rows, fs, maxRetries);
      NackAllSucceeds(t, sub, rows, fs, maxRetries);
    } else {
      StatementIsNack(Progress(t, 0), sub, rows, fs, maxRetries);
    }
  }

  lemma {:induction false} NackAllSucceeds(t: Stored, sub: nat, rows: seq<Event>, fs: seq<Failed>, maxRetries: nat)
    requires Matches(rows, fs, maxRetries)
    ensures NackAll(t, sub, rows, fs, maxRetries).Some?
    decreases |fs|
  {
    if fs != [] {
      var f := fs[0];
      assert f in fs;
      var i :| 0 <= i < |rows| && rows[i].id == f.id && f.dead == (rows[i].retry >= maxRetries);
      NackFinds(t, sub, rows, i, maxRetries);
      assert forall h :: h in fs[1..] ==> h in fs;
      NackAllSucceeds(Nack(t, sub, rows, f.id, maxRetries).value, sub, rows, fs[1..], maxRetries);
    }
  }

  // ---- what the statement leaves

  /** The rows of the messages with one verdict, from position n on. */
  ghost function Chosen(rows: seq<Event>, os: seq<Outcome>, maxRetries: nat, v: Verdict, n: nat): set<Event>
    requires |rows| == |os|
  {
    set i | n <= i < |rows| && VerdictOf(os[i], maxRetries) == v :: rows[i]
  }

  lemma RowsAdd(sub: nat, es: set<Event>, all: set<Event>, more: nat, e: Event)
    requires e !in es && all == es + {e} && DistinctIds(all)
    ensures Rows(sub, all, more) == Rows(sub, es, more)[Key(sub, e.id) := Row(e.retry + more, e.body)]
  {
  }

  /** Neither table has a row for a message from position n on. */
  ghost predicate Clear(t: Stored, sub: nat, rows: seq<Event>, n: nat) {
    forall i :: n <= i < |rows| ==> Key(sub, rows[i].id) !in t.retries && Key(sub, rows[i].id) !in t.dead
  }

  lemma ChosenStep(rows: seq<Event>, os: seq<Outcome>, maxRetries: nat, v: Verdict, n: nat)
    requires |rows| == |os| && n < |rows| && Ascending(rows)
    ensures var here := if VerdictOf(os[n], maxRetries) == v then {rows[n]} else {};
            Chosen(rows, os, maxRetries, v, n) == Chosen(rows, os, maxRetries, v, n + 1) + here
    ensures rows[n] !in Chosen(rows, os, maxRetries, v, n + 1)
  {
  }

  lemma ChosenDistinct(rows: seq<Event>, os: seq<Outcome>, maxRetries: nat, v: Verdict, n: nat)
    requires |rows| == |os| && Ascending(rows)
    ensures DistinctIds(Chosen(rows, os, maxRetries, v, n))
  {
  }

  /** The rows that the messages with one verdict add, from position n on. */
  ghost function Adds(sub: nat, rows: seq<Event>, os: seq<Outcome>, maxRetries: nat, v: Verdict, n: nat): map<Key, Row>
    requires |rows| == |os|
  {
    Rows(sub, Chosen(rows, os, maxRetries, v, n), if v == Dead then 0 else 1)
  }

  lemma AddsStep(sub: nat, rows: seq<Event>, os: seq<Outcome>, maxRetries: nat, v: Verdict, n: nat)
    requires Ascending(rows) && |rows| == |os| && n < |rows|
    ensures var e, rest := rows[n], Adds(sub, rows, os, maxRetries, v, n + 1);
            && Key(sub, e.id) !in rest
            && Adds(sub, rows, os, maxRetries, v, n) ==
            if VerdictOf(os[n], maxRetries) != v then rest
            else rest[Key(sub, e.id) := Row(e.retry + (if v == Dead then 0 else 1), e.body)]
  {
    KeyIsLater(sub, rows, os, maxRetries, v, n);
    if VerdictOf(os[n], maxRetries) == v {
      AddsRow(sub, rows, os, maxRetries, v, n);
    } else {
      ChosenStep(rows, os, maxRetries, v, n);
      assert Chosen(rows, os, maxRetries, v, n) == Chosen(rows, os, maxRetries, v, n + 1);
    }
  }

  lemma ChosenGrows(rows: seq<Event>, os: seq<Outcome>, maxRetries: nat, v: Verdict, n: nat)
    requires |rows| == |os| && n < |rows| && Ascending(rows) && VerdictOf(os[n], maxRetries) == v
    ensures rows[n] !in Chosen(rows, os, maxRetries, v, n + 1)
    ensures Chosen(rows, os, maxRetries, v, n) == Chosen(rows, os, maxRetries, v, n + 1) + {rows[n]}
    ensures DistinctIds(Chosen(rows, os, maxRetries, v, n))
  {
    ChosenStep(rows, os, maxRetries, v, n);
    ChosenDistinct(rows, os, maxRetries, v, n);
  }

  lemma AddsRow(sub: nat, rows: seq<Event>, os: seq<Outcome>, maxRetries: nat, v: Verdict, n: nat)
    requires Ascending(rows) && |rows| == |os| && n < |rows| && VerdictOf(os[n], maxRetries) == v
    ensures Adds(sub, rows, os, maxRetries, v, n) ==
            Adds(sub, rows, os, maxRetries, v, n + 1)[
              Key(sub, rows[n].id) := Row(rows[n].retry + (if v == Dead then 0 else 1), rows[n].body)]
  {
    ChosenGrows(rows, os, maxRetries, v, n);
    RowsAdd(sub, Chosen(rows, os, maxRetries, v, n + 1), Chosen(rows, os, maxRetries, v, n), if v == Dead then 0 else 1, rows[n]);
  }

  lemma KeyIsLater(sub: nat, rows: seq<Event>, os: seq<Outcome>, maxRetries: nat, v: Verdict, n: nat)
    requires Ascending(rows) && |rows| == |os| && n < |rows|
    ensures Key(sub, rows[n].id) !in Adds(sub, rows, os, maxRetries, v, n + 1)
  {
  }

  lemma Shift(m: map<Key, Row>, r: map<Key, Row>, k: Key, row: Row)
    requires k !in r
    ensures m[k := row] + r == m + r[k := row]
  {
  }

  /** Storing message n first, or with the rest, makes no difference to one of the tables. */
  lemma RowsStep(m: map<Key, Row>, m': map<Key, Row>, sub: nat, rows: seq<Event>, os: seq<Outcome>, maxRetries: nat, v: Verdict,
                 n: nat)
    requires Ascending(rows) && |rows| == |os| && n < |rows|
    requires m' == if VerdictOf(os[n], maxRetries) != v then m
                   else m[Key(sub, rows[n].id) := Row(rows[n].retry + (if v == Dead then 0 else 1), rows[n].body)]
    ensures m' + Adds(sub, rows, os, maxRetries, v, n + 1) == m + Adds(sub, rows, os, maxRetries, v, n)
  {
    AddsStep(sub, rows, os, maxRetries, v, n);
    Shift(m, Adds(sub, rows, os, maxRetries, v, n + 1), Key(sub, rows[n].id),
      Row(rows[n].retry + (if v == Dead then 0 else 1), rows[n].body));
  }

  /** The statement over the messages from position n on left these rows. */
  ghost predicate Left(p: Progress, q: Progress, sub: nat, rows: seq<Event>, os: seq<Outcome>, maxRetries: nat, n: nat)
    requires |rows| == |os| && n <= |rows|
  {
    && p.Progress? && q.Progress?
    && q.count == p.count + |FailedOf(os[n..], maxRetries)|
    && q.stored.retries == p.stored.retries + Adds(sub, rows, os, maxRetries, Retry, n)
    && q.stored.dead == p.stored.dead + Adds(sub, rows, os, maxRetries, Dead, n)
  }

  lemma LeftStep(p: Progress, q: Progress, r: Progress, sub: nat, rows: seq<Event>, os: seq<Outcome>, maxRetries: nat, n: nat)
    requires p.Progress? && Ascending(rows) && |rows| == |os| && n < |rows| && Clear(p.stored, sub, rows, n)
    requires var v := VerdictOf(os[n], maxRetries);
             q == if v == Done then p else StoreRow(p, sub, rows[n], v == Dead)
    requires Left(q, r, sub, rows, os, maxRetries, n + 1)
    ensures Left(p, r, sub, rows, os, maxRetries, n)
  {
    FailedNext(os, maxRetries, n);
    RowsStep(p.stored.retries, q.stored.retries, sub, rows, os, maxRetries, Retry, n);
    RowsStep(p.stored.dead, q.stored.dead, sub, rows, os, maxRetries, Dead, n);
  }

  /** On a batch whose messages have no row yet, the statement adds a retry row or a dead
      letter for each failed message, and nothing else. */
  lemma {:induction false} StatementLeaves(p: Progress, sub: nat, rows: seq<Event>, os: seq<Outcome>, maxRetries: nat, n: nat)
    requires p.Progress? && Ascending(rows) && |rows| == |os| && n <= |rows|
    requires forall i :: 0 <= i < |rows| ==> os[i].msg == MessageOf(rows[i])
    requires Clear(p.stored, sub, rows, n)
    ensures Left(p, Statement(p, sub, rows, FailedOf(os[n..], maxRetries)), sub, rows, os, maxRetries, n)
    decreases |rows| - n
  {
    var fs := FailedOf(os[n..], maxRetries);
    if n == |rows| {
      assert Chosen(rows, os, maxRetries, Retry, n) == {} && Chosen(rows, os, maxRetries, Dead, n) == {};
    } else {
      var e, v := rows[n], VerdictOf(os[n], maxRetries);
      var q := if v == Done then p else StoreRow(p, sub, e, v == Dead);
      FailedNext(os, maxRetries, n);
      if v == Done {
        assert fs == FailedOf(os[n + 1..], maxRetries);
      } else {
        assert fs[0] == Failed(e.id, v == Dead) && fs[1..] == FailedOf(os[n + 1..], maxRetries);
        OneMatch(p, sub, rows, fs[0], n);
      }
      StillClear(p, sub, rows, n, v == Dead);
      StatementLeaves(q, sub, rows, os, maxRetries, n + 1);
      LeftStep(p, q, Statement(p, sub, rows, fs), sub, rows, os, maxRetries, n);
    }
  }

  lemma StillClear(p: Progress, sub: nat, rows: seq<Event>, n: nat, dead: bool)
    requires p.Progress? && Ascending(rows) && n < |rows| && Clear(p.stored, sub, rows, n)
    ensures Clear(p.stored, sub, rows, n + 1)
    ensures var q := StoreRow(p, sub, rows[n], dead); q.Progress? && Clear(q.stored, sub, rows, n + 1)
  {
  }

  // ---- the results of a whole batch

  ghost function PositionOf(rows: seq<Event>, e: Event): (i: nat)
    requires e in rows
    ensures i < |rows| && rows[i] == e
  {
    var i: nat :| i < |rows| && rows[i] == e; i
  }

  /** The verdicts that the results stand for. */
  ghost function Verdicts(rows: seq<Event>, os: seq<Outcome>, maxRetries: nat): map<Event, Verdict>
    requires |rows| == |os|
  {
    map e | e in rows :: VerdictOf(os[PositionOf(rows, e)], maxRetries)
  }

  lemma VerdictsAt(rows: seq<Event>, os: seq<Outcome>, maxRetries: nat)
    requires Ascending(rows) && |rows| == |os|
    ensures forall i :: 0 <= i < |rows| ==>
      rows[i] in Verdicts(rows, os, maxRetries) && Verdicts(rows, os, maxRetries)[rows[i]] == VerdictOf(os[i], maxRetries)
  {
  }

  lemma ChosenIsVerdict(rows: seq<Event>, os: seq<Outcome>, maxRetries: nat, v: Verdict)
    requires Ascending(rows) && |rows| == |os|
    ensures With(Verdicts(rows, os, maxRetries), v) == Chosen(rows, os, maxRetries, v, 0)
  {
  }

  /** What storeFailures leaves on an open batch, in the terms of the step Finish. */
  lemma StoreIsFinish(t: Stored, sub: nat, rows: seq<Event>, os: seq<Outcome>, maxRetries: nat)
    requires Ascending(rows) && |rows| == |os| && Clear(t, sub, rows, 0)
    requires forall i :: 0 <= i < |rows| ==> os[i].msg == MessageOf(rows[i])
    ensures var verdicts := Verdicts(rows, os, maxRetries);
            StoreAll(t, sub, rows, FailedOf(os, maxRetries)) ==
            Some(Stored(t.retries + Rows(sub, With(verdicts, Retry), 1), t.dead + Rows(sub, With(verdicts, Dead), 0)))
  {
    assert os[0..] == os;
    StatementLeaves(Progress(t, 0), sub, rows, os, maxRetries, 0);
    ChosenIsVerdict(rows, os, maxRetries, Retry);
    ChosenIsVerdict(rows, os, maxRetries, Dead);
  }

  /** Two reads of one batch give the same sequence. */
  lemma {:induction false} SameRows(a: seq<Event>, b: seq<Event>)
    requires Ascending(a) && Ascending(b) && |a| == |b| && forall e :: e in a <==> e in b
    ensures a == b
    decreases |a|
  {
    if a != [] {
      assert a[0] in b;
      assert b[0] in a;
      assert a[0] == b[0];
      forall e ensures e in a[1..] <==> e in b[1..] {
        assert e in a[1..] ==> e in a && e != a[0];
        assert e in b[1..] ==> e in b && e != b[0];
      }
      SameRows(a[1..], b[1..]);
    }
  }
}
