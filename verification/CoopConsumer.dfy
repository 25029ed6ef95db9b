/** The SQL functions of the cooperative consumers, over the rows of one consumer and its
    members. Each call is proved to take steps of Cooperative. */
module CoopConsumer {
  import opened Wrappers
  import opened Snapshots
  import opened Cooperative
  import EventLog
  import Failures
  import LogMessages

  datatype CoopError = NoTicks | NormalConsumer | ActiveConsumer | ActiveMember | UnsupportedHandling

  /** These steps lead from one state to another. */
  ghost predicate Leads(g: Group, steps: seq<Step>, end: Group)
    decreases |steps|
  {
    if steps == [] then g == end else Enabled(g, steps[0]) && Leads(Take(g, steps[0]), steps[1..], end)
  }

  lemma {:induction false} LeadsOn(g: Group, steps: seq<Step>, mid: Group, step: Step)
    requires Leads(g, steps, mid) && Enabled(mid, step)
    ensures Leads(g, steps + [step], Take(mid, step))
    decreases |steps|
  {
    if steps == [] {
      assert ([] + [step])[1..] == [];
    } else {
      LeadsOn(Take(g, steps[0]), steps[1..], mid, step);
      assert (steps + [step])[1..] == steps[1..] + [step];
    }
  }

  lemma {:induction false} LeadsKeepsInv(g: Group, steps: seq<Step>, end: Group)
    requires GroupInv(g) && Leads(g, steps, end)
    ensures GroupInv(end)
    decreases |steps|
  {
    if steps != [] {
      StepKeepsInv(g, steps[0]);
      LeadsKeepsInv(Take(g, steps[0]), steps[1..], end);
    }
  }

  /** A member whose window m may take: stale, and its row is not locked. */
  predicate MayLose(g: Group, m: nat, v: nat, now: int, dead: int, locked: set<nat>) {
    Stale(g, m, v, now, dead) && v !in locked
  }

  /** order by sub_active, sub_consumer */
  predicate Before(g: Group, u: nat, v: nat)
    requires u in g.members && v in g.members
  {
    g.members[u].active < g.members[v].active || (g.members[u].active == g.members[v].active && u <= v)
  }

  class Consumer {
    var ticks: map<nat, Snapshot>
    var main: Main
    var members: map<nat, Member>
    var nextBatch: nat
    var retries: map<EventLog.Key, EventLog.Row>
    var dead: map<EventLog.Key, EventLog.Row>
    /** The committed rows of the event tables that a member can read. */
    var events: set<EventLog.Event>
    ghost var history: History

    ghost function Contents(): Group
      reads this`ticks, this`main, this`members, this`nextBatch, this`history
    {
      Group(ticks, main, members, nextBatch, history)
    }

    /** The newest tick of the queue. */
    method NewestTick() returns (r: Option<nat>)
      ensures r == None <==> ticks == map[]
      ensures r.Some? ==> Newest(ticks, r.value)
      ensures r.Some? ==> r.value in ticks && forall u :: u in ticks ==> u <= r.value
    {
      r := None;
      var rest := ticks.Keys;
      while rest != {}
        invariant rest <= ticks.Keys
        invariant r == None <==> rest == ticks.Keys
        invariant r.Some? ==> r.value in ticks && forall u :: u in ticks && u !in rest ==> u <= r.value
        decreases rest
      {
        var t :| t in rest;
        if r == None || r.value < t {
          r := Some(t);
        }
        rest := rest - {t};
      }
    }

    /** The first tick after the cursor. */
    method NextTick(last: nat) returns (r: Option<nat>)
      ensures r == None <==> forall t :: t in ticks ==> t <= last
      ensures r.Some? ==> FirstAfter(ticks, last, r.value)
      ensures r.Some? ==> r.value in ticks && last < r.value && forall u :: u in ticks && last < u ==> r.value <= u
    {
      r := None;
      var rest := ticks.Keys;
      while rest != {}
        invariant rest <= ticks.Keys
        invariant r == None <==> forall t :: t in ticks && t !in rest ==> t <= last
        invariant r.Some? ==> r.value in ticks && last < r.value
        invariant r.Some? ==> forall t :: t in ticks && t !in rest && last < t ==> r.value <= t
        decreases rest
      {
        var t :| t in rest;
        if last < t && (r == None || t < r.value) {
          r := Some(t);
        }
        rest := rest - {t};
      }
    }

    /** The member with the oldest sign of life among those that m may take over. */
    method FindVictim(m: nat, now: int, dead: int, locked: set<nat>) returns (v: Option<nat>)
      ensures v == None <==> forall u :: u in members ==> !MayLose(Contents(), m, u, now, dead, locked)
      ensures v.Some? ==> MayLose(Contents(), m, v.value, now, dead, locked)
      ensures v.Some? ==> forall u :: u in members && MayLose(Contents(), m, u, now, dead, locked) ==> Before(Contents(), v.value, u)
      ensures v.Some? ==>
        && v.value in members && v.value != m && members[v.value].window.Some? && v.value !in locked
        && members[v.value].active < now - dead
      ensures forall u :: u in members && u != m && members[u].window.Some? && u !in locked && members[u].active < now - dead ==>
        && v.Some?
        && (members[v.value].active < members[u].active || (members[v.value].active == members[u].active && v.value <= u))
    {
      v := None;
      var rest := members.Keys;
      while rest != {}
        invariant rest <= members.Keys
        invariant v == None <==> forall u :: u in members && u !in rest ==> !MayLose(Contents(), m, u, now, dead, locked)
        invariant v.Some? ==> MayLose(Contents(), m, v.value, now, dead, locked)
        invariant v.Some? ==> forall u :: u in members && u !in rest && MayLose(Contents(), m, u, now, dead, locked) ==>
          Before(Contents(), v.value, u)
        decreases rest
      {
        var u :| u in rest;
        var row := members[u];
        if u != m && row.window.Some? && row.active < now - dead && u !in locked {
          if v == None {
            v := Some(u);
          } else {
            var oldest := members[v.value].active;
            if row.active < oldest || (row.active == oldest && u < v.value) {
              v := Some(u);
            }
          }
        }
        rest := rest - {u};
      }
    }

    /** register_subconsumer */
    method Register(m: nat, now: int, convert: bool, ghost g: Group) returns (r: Result<int, CoopError>, ghost steps: seq<Step>)
      requires g == Contents() && GroupInv(g)
      modifies this`main, this`members, this`history
      ensures r.Err? ==> steps == [] && Contents() == g
      ensures r.Ok? ==> Leads(g, steps, Contents()) && Contents().main.CoopMain? && m in Contents().members
      ensures r.Ok? ==> Contents().nextBatch == g.nextBatch && forall n :: SpanOf(Contents(), n) == SpanOf(g, n)
      ensures r == Err(NoTicks) <==> g.main == Absent && g.ticks == map[]
      ensures r == Err(NormalConsumer) <==> g.main.Normal? && !convert
      ensures r == Err(ActiveConsumer) <==> g.main.Normal? && convert && g.main.open.Some?
      ensures r.Err? ==> r.error.NoTicks? || r.error.NormalConsumer? || r.error.ActiveConsumer?
      ensures r.Ok? ==> r.value == if m in g.members then 0 else 1
      ensures r.Ok? && g.main == Absent ==>
        Contents().main.last in g.ticks && forall t :: t in g.ticks ==> t <= Contents().main.last
      ensures r.Ok? && g.main != Absent ==> Contents().main == CoopMain(g.main.last)
      ensures r.Ok? && m !in g.members ==> Contents().members == g.members[m := Member(None, now)]
      ensures r.Ok? && m in g.members ==> Contents().members == g.members[m := g.members[m].(active := now)]
    {
      steps := [];
      if main == Absent {
        var last := NewestTick();
        if last == None {
          return Err(NoTicks), steps;
        }
        main, history := CoopMain(last.value), history.(start := last.value);
        LeadsOn(g, steps, g, Subscribe(last.value));
        steps := steps + [Subscribe(last.value)];
      } else if main.Normal? {
        if !convert {
          return Err(NormalConsumer), steps;
        }
        if main.open.Some? {
          return Err(ActiveConsumer), steps;
        }
        main := CoopMain(main.last);
        LeadsOn(g, steps, g, Convert);
        steps := steps + [Convert];
      }
      ghost var mid := Contents();
      if m in members {
        members := members[m := members[m].(active := now)];
        LeadsOn(g, steps, mid, Touch(m, now));
        steps := steps + [Touch(m, now)];
        return Ok(0), steps;
      }
      members := members[m := Member(None, now)];
      LeadsOn(g, steps, mid, Join(m, now));
      steps := steps + [Join(m, now)];
      r := Ok(1);
    }

    /** The window that next_batch_custom gives a registered member: its own, else one that
        it takes over, else the next of the queue, else none. */
    method NextWindow(m: nat, now: int, dead: Option<int>, locked: set<nat>, ghost g: Group)
      returns (r: Option<Held>, ghost step: Step)
      requires g == Contents() && GroupInv(g) && main.CoopMain? && m in members
      modifies this`main, this`members, this`nextBatch, this`history
      ensures r.Some? ==> Enabled(g, step) && Contents() == Take(g, step)
      ensures r == None ==> Contents() == g
      ensures r == None ==> g.members[m].window == None && forall t :: t in g.ticks ==> t <= g.main.last
      ensures r.Some? ==>
        && m in Contents().members && Contents().members[m].window == r
        && match step
           case Touch(n, _) => n == m && g.members[m].window == r
           case TakeOver(n, v, _, d) =>
             && n == m && dead == Some(d) && MayLose(g, m, v, now, d, locked)
             && (forall u :: u in g.members && MayLose(g, m, u, now, d, locked) ==> Before(g, v, u))
           case Hand(n, _, _) =>
             && n == m
             && (dead.Some? ==> forall u :: u in g.members ==> !MayLose(g, m, u, now, dead.value, locked))
           case _ => false
    {
      step := Touch(m, now);
      var row := members[m];
      if row.window.Some? {
        members := members[m := row.(active := now)];
        return row.window, step;
      }
      if dead.Some? {
        var victim := FindVictim(m, now, dead.value, locked);
        if victim.Some? {
          var v := victim.value;
          var w := members[v].window.value;
          var id := nextBatch;
          nextBatch := nextBatch + 1;
          members := members[m := Member(Some(Held(id, w.prev, w.next)), now)];
          members := members[v := Member(None, now)];
          step := TakeOver(m, v, now, dead.value);
          history := Take(g, step).history;
          return Some(Held(id, w.prev, w.next)), step;
        }
      }
      var prev := main.last;
      var next := NextTick(prev);
      if next == None {
        return None, step;
      }
      var id := nextBatch;
      nextBatch := nextBatch + 1;
      main := CoopMain(next.value);
      members := members[m := Member(Some(Held(id, prev, next.value)), now)];
      step := Hand(m, next.value, now);
      history := Take(g, step).history;
      r := Some(Held(id, prev, next.value));
    }

    /** next_batch_custom without limits, with a member. An exception rolls back, also the
        registration. */
    method NextBatch(m: nat, now: int, dead: Option<int>, locked: set<nat>, ghost g: Group)
      returns (r: Result<Option<Held>, CoopError>, ghost steps: seq<Step>)
      requires g == Contents() && GroupInv(g)
      modifies this`main, this`members, this`nextBatch, this`history
      ensures r.Err? ==> Contents() == g
      ensures r.Ok? ==> Leads(g, steps, Contents())
      ensures r.Ok? && r.value.Some? ==> m in Contents().members && Contents().members[m].window == r.value
      ensures r.Ok? && SpanOf(g, m).Some? ==> r.value.Some? && Span(r.value.value.prev, r.value.value.next) == SpanOf(g, m).value
      ensures r == Ok(None) ==> SpanOf(g, m) == None && Contents().main.CoopMain? && forall t :: t in g.ticks ==> t <= Contents().main.last
    {
      var registered;
      registered, steps := Register(m, now, false, g);
      if registered.Err? {
        return Err(registered.error), steps;
      }
      ghost var mid := Contents();
      LeadsKeepsInv(g, steps, mid);
      var window;
      ghost var step;
      window, step := NextWindow(m, now, dead, locked, mid);
      if window.Some? {
        LeadsOn(g, steps, mid, step);
        steps := steps + [step];
      }
      r := Ok(window);
    }

    /** finish_batch, over the rows of this consumer: the batch of a member gives its window
        back as finished; the batch of a consumer on its own moves the cursor. */
    method FinishBatch(batch: nat, now: int, ghost g: Group) returns (n: nat, ghost step: Step)
      requires g == Contents() && GroupInv(g)
      modifies this`main, this`members, this`history
      ensures n == 0 <==> !InUse(g, batch)
      ensures n == 0 ==> Contents() == g
      ensures n != 0 ==> n == 1 && Enabled(g, step) && Contents() == Take(g, step)
      ensures n != 0 ==> (step.FinishMember? && step.batch == batch) || step == FinishAlone(batch)
    {
      step := FinishAlone(batch);
      if main.Normal? && main.open.Some? && main.open.value.batch == batch {
        main := Normal(main.open.value.next, None);
        history := Take(g, step).history;
        return 1, step;
      }
      var rest := members.Keys;
      while rest != {}
        invariant rest <= members.Keys
        invariant Contents() == g
        invariant forall u :: u in members && u !in rest && members[u].window.Some? ==> members[u].window.value.batch != batch
        decreases rest
      {
        var u :| u in rest;
        if members[u].window.Some? && members[u].window.value.batch == batch {
          members := members[u := Member(None, now)];
          step := FinishMember(u, batch, now);
          history := Take(g, step).history;
          return 1, step;
        }
        rest := rest - {u};
      }
      n := 0;
    }

    /** The loop of unregister_subconsumer over the messages of the window: each retries, or
        is dead when it has no retries left. */
    method ReturnMessages(sub: nat, rows: seq<EventLog.Event>, maxRetries: nat)
      requires Failures.Ascending(rows)
      modifies this`retries, this`dead
      ensures Failures.NackAll(Failures.Stored(old(retries), old(dead)), sub, rows, AllFailed(rows, maxRetries), maxRetries) ==
              Some(Failures.Stored(retries, dead))
    {
      ghost var start, fs := Failures.Stored(retries, dead), AllFailed(rows, maxRetries);
      for i := 0 to |rows|
        invariant Failures.NackAll(Failures.Stored(retries, dead), sub, rows, fs[i..], maxRetries) ==
                  Failures.NackAll(start, sub, rows, fs, maxRetries)
      {
        assert fs[i..][0] == fs[i] && fs[i..][1..] == fs[i + 1..];
        var e := rows[i];
        var k := EventLog.Key(sub, e.id);
        Failures.NackFinds(Failures.Stored(retries, dead), sub, rows, i, maxRetries);
        if e.retry >= maxRetries {
          if k !in dead {
            dead := dead[k := EventLog.Row(e.retry, e.body)];
          }
        } else if k !in retries {
          retries := retries[k := EventLog.Row(e.retry + 1, e.body)];
        }
      }
    }

    /** The row of the member goes away, its window counts as finished, and without members
        the consumer is on its own again. */
    method RemoveMember(m: nat, now: int, ghost g: Group)
      requires g == Contents() && main.CoopMain? && m in members
      modifies this`main, this`members, this`history
      ensures Contents() == Take(g, Leave(m, now))
    {
      members := members - {m};
      if members == map[] {
        main := Normal(main.last, None);
      }
      history := Take(g, Leave(m, now)).history;
    }

    /** get_batch_events on the window of member m, for the subscription id that the members
        share. */
    method ReadWindow(m: nat, sub: nat, ghost g: Group) returns (rows: seq<EventLog.Event>)
      requires g == Contents() && SpanOf(g, m).Some? && InTicks(g) && Shared(g)
      requires LogMessages.DistinctIds(WindowEvents(g, events, m, sub))
      ensures Failures.Ascending(rows) && forall e :: e in rows <==> e in WindowEvents(g, events, m, sub)
    {
      WindowIsInTicks(g, m);
      var w := members[m].window.value;
      var first, end := ticks[w.prev], ticks[w.next];
      rows := Failures.OrderById(set e | e in events && end.Sees(e.txid) && !first.Sees(e.txid) && EventLog.Mine(e, sub));
    }

    /** unregister_subconsumer. The messages of the window, each once, are returned first: each
        without a row of its own gets a retry row or a dead letter. */
    method Unregister(m: nat, handling: int, now: int, sub: nat, maxRetries: nat, ghost g: Group)
      returns (r: Result<nat, CoopError>, rows: seq<EventLog.Event>)
      requires g == Contents() && GroupInv(g)
      requires SpanOf(g, m).Some? ==> LogMessages.DistinctIds(WindowEvents(g, events, m, sub))
      modifies this`main, this`members, this`history, this`retries, this`dead
      ensures r == Err(UnsupportedHandling) <==> handling != 0 && handling != 1
      ensures r == Err(ActiveMember) <==> handling == 0 && g.main.CoopMain? && SpanOf(g, m).Some?
      ensures r == Ok(0) <==> (handling == 0 || handling == 1) && !(g.main.CoopMain? && m in g.members)
      ensures r == Ok(1) ==> Enabled(g, Leave(m, now)) && Contents() == Take(g, Leave(m, now))
      ensures r != Ok(1) ==> Contents() == g
      ensures r == Ok(1) && SpanOf(g, m).Some? ==>
        && (forall e :: e in rows <==> e in WindowEvents(g, events, m, sub))
        && Failures.Stored(retries, dead) == Returned(Failures.Stored(old(retries), old(dead)), sub, rows, maxRetries)
      ensures r != Ok(1) || SpanOf(g, m) == None ==> rows == [] && retries == old(retries) && dead == old(dead)
      ensures r.Err? || r.value <= 1
    {
      rows := [];
      if handling != 0 && handling != 1 {
        return Err(UnsupportedHandling), rows;
      }
      if !main.CoopMain? || m !in members {
        return Ok(0), rows;
      }
      if members[m].window.Some? {
        if handling == 0 {
          return Err(ActiveMember), rows;
        }
        rows := ReadWindow(m, sub, g);
        LeavingLosesNothing(Failures.Stored(retries, dead), sub, rows, maxRetries);
        ReturnMessages(sub, rows, maxRetries);
      }
      RemoveMember(m, now, g);
      r := Ok(1);
    }
  }

  /** The rows of the window of a member: those of the transactions between its two ticks. */
  ghost function WindowEvents(g: Group, events: set<EventLog.Event>, m: nat, sub: nat): set<EventLog.Event>
    requires SpanOf(g, m).Some? && InTicks(g) && Shared(g)
  {
    WindowIsInTicks(g, m);
    var w := SpanOf(g, m).value;
    set e | e in events && Between(g.ticks[w.prev], g.ticks[w.next], e.txid) && EventLog.Mine(e, sub)
  }

  lemma WindowIsInTicks(g: Group, m: nat)
    requires SpanOf(g, m).Some? && InTicks(g) && Shared(g)
    ensures SpanOf(g, m).value.prev in g.ticks && SpanOf(g, m).value.next in g.ticks
  {
    assert g.history.passed[g.history.holds[m]] in g.history.passed;
  }

  function AllFailed(rows: seq<EventLog.Event>, maxRetries: nat): seq<Failures.Failed> {
    seq(|rows|, i requires 0 <= i < |rows| => Failures.Failed(rows[i].id, rows[i].retry >= maxRetries))
  }

  ghost function WithRetries(rows: seq<EventLog.Event>, maxRetries: nat): set<EventLog.Event> {
    set e | e in rows && e.retry < maxRetries
  }

  ghost function WithoutRetries(rows: seq<EventLog.Event>, maxRetries: nat): set<EventLog.Event> {
    set e | e in rows && e.retry >= maxRetries
  }

  /** What a leaving member leaves: a row that is there already stays, for example of a message
      that the member gave back before. */
  ghost function Returned(t: Failures.Stored, sub: nat, rows: seq<EventLog.Event>, maxRetries: nat): Failures.Stored {
    Failures.Stored(
      EventLog.Rows(sub, WithRetries(rows, maxRetries), 1) + t.retries,
      EventLog.Rows(sub, WithoutRetries(rows, maxRetries), 0) + t.dead)
  }

  /** Without retries left a message has a dead letter, else a retry row with one retry more; a row
      that was there stays. */
  ghost predicate ReturnedAs(t: Failures.Stored, u: Failures.Stored, k: EventLog.Key, e: EventLog.Event, maxRetries: nat) {
    if e.retry >= maxRetries then
      k in u.dead && (k !in t.dead ==> u.dead[k] == EventLog.Row(e.retry, e.body))
    else
      k in u.retries && (k !in t.retries ==> u.retries[k] == EventLog.Row(e.retry + 1, e.body))
  }

  lemma ReturnsRow(t: Failures.Stored, sub: nat, rows: seq<EventLog.Event>, maxRetries: nat, e: EventLog.Event)
    requires Failures.Ascending(rows) && e in rows
    ensures ReturnedAs(t, Returned(t, sub, rows, maxRetries), EventLog.Key(sub, e.id), e, maxRetries)
  {
    if e.retry >= maxRetries {
      LogMessages.RowsOf(sub, WithoutRetries(rows, maxRetries), 0, e);
    } else {
      LogMessages.RowsOf(sub, WithRetries(rows, maxRetries), 1, e);
    }
  }

  /** A member that leaves loses no message: each message of its window has a retry row or a
      dead letter afterwards, and no earlier row changes. */
  lemma LeavingLosesNothing(t: Failures.Stored, sub: nat, rows: seq<EventLog.Event>, maxRetries: nat)
    requires Failures.Ascending(rows)
    ensures Failures.NackAll(t, sub, rows, AllFailed(rows, maxRetries), maxRetries) ==
            Some(Returned(t, sub, rows, maxRetries))
    ensures var u := Returned(t, sub, rows, maxRetries);
            && (forall e :: e in rows ==> EventLog.Key(sub, e.id) in u.retries || EventLog.Key(sub, e.id) in u.dead)
            && (forall k :: k in t.retries ==> k in u.retries && u.retries[k] == t.retries[k])
            && (forall k :: k in t.dead ==> k in u.dead && u.dead[k] == t.dead[k])
    ensures var u := Returned(t, sub, rows, maxRetries);
            forall e :: e in rows ==> ReturnedAs(t, u, EventLog.Key(sub, e.id), e, maxRetries)
  {
    forall e | e in rows ensures ReturnedAs(t, Returned(t, sub, rows, maxRetries), EventLog.Key(sub, e.id), e, maxRetries) {
      ReturnsRow(t, sub, rows, maxRetries, e);
    }
    var os := AllOutcomes(rows);
    NacksLeave(t, sub, rows, maxRetries, 0);
    AllVerdicts(rows, maxRetries);
    assert AllFailed(rows, maxRetries)[0..] == AllFailed(rows, maxRetries);
    forall e | e in rows ensures e in WithRetries(rows, maxRetries) || e in WithoutRetries(rows, maxRetries) {
    }
  }

  lemma {:induction false} NacksLeave(t: Failures.Stored, sub: nat, rows: seq<EventLog.Event>, maxRetries: nat, n: nat)
    requires Failures.Ascending(rows) && n <= |rows|
    ensures var os := AllOutcomes(rows);
            Failures.NackAll(t, sub, rows, AllFailed(rows, maxRetries)[n..], maxRetries) ==
            Some(Failures.Stored(
              Failures.Adds(sub, rows, os, maxRetries, EventLog.Retry, n) + t.retries,
              Failures.Adds(sub, rows, os, maxRetries, EventLog.Dead, n) + t.dead))
    decreases |rows| - n
  {
    var os, fs := AllOutcomes(rows), AllFailed(rows, maxRetries);
    if n == |rows| {
      assert fs[n..] == [];
      NothingAdded(t.retries, sub, rows, maxRetries, EventLog.Retry);
      NothingAdded(t.dead, sub, rows, maxRetries, EventLog.Dead);
    } else {
      Failures.NackFinds(t, sub, rows, n, maxRetries);
      var u := Failures.Nack(t, sub, rows, rows[n].id, maxRetries).value;
      assert Failures.NackAll(t, sub, rows, fs[n..], maxRetries) == Failures.NackAll(u, sub, rows, fs[n + 1..], maxRetries) by {
        assert fs[n..][0] == fs[n] && fs[n..][1..] == fs[n + 1..];
      }
      NacksLeave(u, sub, rows, maxRetries, n + 1);
      NackStep(t.retries, u.retries, sub, rows, maxRetries, EventLog.Retry, n);
      NackStep(t.dead, u.dead, sub, rows, maxRetries, EventLog.Dead, n);
    }
  }

  lemma NackStep(m: map<EventLog.Key, EventLog.Row>, m': map<EventLog.Key, EventLog.Row>, sub: nat,
                 rows: seq<EventLog.Event>, maxRetries: nat, v: EventLog.Verdict, n: nat)
    requires Failures.Ascending(rows) && n < |rows|
    requires var k := EventLog.Key(sub, rows[n].id);
             m' == if Failures.VerdictOf(AllOutcomes(rows)[n], maxRetries) != v || k in m then m
                   else m[k := EventLog.Row(rows[n].retry + (if v == EventLog.Dead then 0 else 1), rows[n].body)]
    ensures var os := AllOutcomes(rows);
            Failures.Adds(sub, rows, os, maxRetries, v, n + 1) + m' == Failures.Adds(sub, rows, os, maxRetries, v, n) + m
  {
    var e, os := rows[n], AllOutcomes(rows);
    var added := Failures.VerdictOf(os[n], maxRetries) == v;
    var rest, all := Failures.Adds(sub, rows, os, maxRetries, v, n + 1), Failures.Adds(sub, rows, os, maxRetries, v, n);
    var k, row := EventLog.Key(sub, e.id), EventLog.Row(e.retry + (if v == EventLog.Dead then 0 else 1), e.body);
    assert all == if added then rest[k := row] else rest by {
      Failures.AddsStep(sub, rows, os, maxRetries, v, n);
    }
    Below(rest, all, m, m', k, row, added);
  }

  /** A row below a map shows where the map has none. */
  lemma Below(rest: map<EventLog.Key, EventLog.Row>, all: map<EventLog.Key, EventLog.Row>, m: map<EventLog.Key, EventLog.Row>,
              m': map<EventLog.Key, EventLog.Row>, k: EventLog.Key, row: EventLog.Row, added: bool)
    requires all == if added then rest[k := row] else rest
    requires m' == if added && k !in m then m[k := row] else m
    ensures rest + m' == all + m
  {
  }

  lemma NothingAdded(m: map<EventLog.Key, EventLog.Row>, sub: nat, rows: seq<EventLog.Event>, maxRetries: nat, v: EventLog.Verdict)
    ensures Failures.Adds(sub, rows, AllOutcomes(rows), maxRetries, v, |rows|) + m == m
  {
    assert Failures.Chosen(rows, AllOutcomes(rows), maxRetries, v, |rows|) == {};
  }

  /** Every message failed, with an error that is not permanent. */
  function AllOutcomes(rows: seq<EventLog.Event>): seq<Failures.Outcome> {
    seq(|rows|, i requires 0 <= i < |rows| =>
      Failures.Outcome(Failures.MessageOf(rows[i]), Some(Failures.Temporary), false, false))
  }

  lemma AllVerdicts(rows: seq<EventLog.Event>, maxRetries: nat)
    requires Failures.Ascending(rows)
    ensures var os := AllOutcomes(rows);
            && Failures.Chosen(rows, os, maxRetries, EventLog.Retry, 0) == WithRetries(rows, maxRetries)
            && Failures.Chosen(rows, os, maxRetries, EventLog.Dead, 0) == WithoutRetries(rows, maxRetries)
  {
  }
}
