/** Why the bound on the handler runs of a message needs its two other terms: runs from a new
    queue without retries in which the handler of a message ends any number of times. */
module UnboundedRuns {
  import opened Wrappers
  import opened Snapshots
  import opened EventLog
  import opened WorkerRuns
  import opened ObservedRuns
  import opened HandlerRuns

  /** A new queue with one subscription, one tick, and no retries. */
  function NewQueue(): State {
    State(
      Tx(1, {}, {0}, 1),
      Store([{}, {}, {}], 0, 0, Some(0), None),
      Feed(map[0 := Snapshot(1, 1, {})], 1, map[0 := Sub(0, None)], 0),
      Parked(map[], map[], None, {}),
      History({}, map[], 0, {}, {}, map[]),
      0, 0)
  }

  function NewWatched(): Watched {
    Watched(Work(NewQueue(), map[], map[], 0, map[], map[], map[]), map[], map[])
  }

  const FIRST: Event := Event(0, 1, None, 0, "")
  const SECOND: Event := Event(1, 1, None, 0, "")

  /** The queue after two messages, one tick, and the opening of the batch between. */
  function OneBatch(): State {
    State(
      Tx(3, {}, {0, 1, 2}, 3),
      Store([{FIRST, SECOND}, {}, {}], 0, 0, Some(0), None),
      Feed(map[0 := Snapshot(1, 1, {}), 1 := Snapshot(2, 2, {})], 2, map[0 := Sub(0, Some(OpenBatch(0, 1)))], 1),
      Parked(map[], map[], None, {}),
      History({FIRST, SECOND}, map[0 := Origin(1, ""), 1 := Origin(1, "")], 0, {}, {}, map[]),
      2, 0)
  }

  /** The queue with the first message, and with both, not committed. */
  function WrittenOne(): State {
    NewQueue().(
      tx := Tx(2, {1}, {0}, 1),
      store := NewQueue().store.(tables := [{FIRST}, {}, {}]),
      history := NewQueue().history.(written := {FIRST}, sent := map[0 := Origin(1, "")]),
      nextId := 1)
  }

  function WrittenTwo(): State {
    NewQueue().(
      tx := Tx(2, {1}, {0}, 1),
      store := NewQueue().store.(tables := [{FIRST, SECOND}, {}, {}]),
      history := OneBatch().history,
      nextId := 2)
  }

  /** The queue with the messages committed, and the transaction of the ticker. */
  function Ticking(): State {
    WrittenTwo().(tx := Tx(3, {2}, {0, 1}, 2))
  }

  /** The queue with the second tick. */
  function Ticked(): State {
    OneBatch().(feed := OneBatch().feed.(subs := NewQueue().feed.subs, nextBatch := 0))
  }

  lemma NewQueueIsNew()
    ensures Init(NewQueue())
  {
  }

  lemma WritesFirst()
    ensures var begun := NewQueue().(tx := Tx(2, {1}, {0}, 1));
            && Enabled(NewQueue(), Begin) && Take(NewQueue(), Begin) == begun
            && Enabled(begun, Insert(1, "")) && Take(begun, Insert(1, "")) == WrittenOne()
  {
    var begun := NewQueue().(tx := Tx(2, {1}, {0}, 1));
    assert Pointed(begun.feed);
    assert begun.store.tables[0] + {FIRST} == {FIRST};
    assert begun.store.tables[0 := begun.store.tables[0] + {FIRST}] == WrittenOne().store.tables;
  }

  lemma WritesSecond()
    ensures Enabled(WrittenOne(), Insert(1, "")) && Take(WrittenOne(), Insert(1, "")) == WrittenTwo()
  {
    assert {FIRST} + {SECOND} == {FIRST, SECOND};
    assert WrittenOne().store.tables[0 := {FIRST, SECOND}] == WrittenTwo().store.tables;
  }

  lemma Commits()
    ensures var sent := WrittenTwo().(tx := Tx(2, {}, {0, 1}, 2));
            && Enabled(WrittenTwo(), Commit(1)) && Take(WrittenTwo(), Commit(1)) == sent
            && Enabled(sent, Begin) && Take(sent, Begin) == Ticking()
  {
  }

  lemma Ticks()
    ensures Enabled(Ticking(), MakeTick(2)) && Take(Ticking(), MakeTick(2)) == Ticked()
    ensures Pointed(Ticked().feed) && Enabled(Ticked(), Open(0, 1)) && Take(Ticked(), Open(0, 1)) == OneBatch()
  {
    var s := TakeSnapshot(Ticking().tx, 2);
    assert s.xip == {};
    assert s == Snapshot(2, 2, {});
    assert Take(Ticking(), MakeTick(2)).feed.ticks == OneBatch().feed.ticks;
  }

  lemma OneBatchHolds()
    ensures Pointed(OneBatch().feed) && HasBatch(OneBatch(), 0)
    ensures Batch(OneBatch(), 0) == {FIRST, SECOND}
  {
  }

  // ---- runs

  ghost function Last(vs: seq<Watched>): Watched
    requires vs != []
  {
    vs[|vs| - 1]
  }

  lemma Then(vs: seq<Watched>, observed: bool, a: WorkStep, ended: set<Event>) returns (longer: seq<Watched>)
    requires WatchedRun(vs, observed) && WorkEnabled(Last(vs).work, a) && MayEnd(Last(vs).work, a, ended)
    requires observed ==> Observed(Last(vs).work, a, false)
    ensures WatchedRun(longer, observed) && longer[0] == vs[0] && Last(longer) == Watch(Last(vs), a, ended)
  {
    longer := vs + [Watch(Last(vs), a, ended)];
    forall i | 0 < i < |longer| ensures WatchedStepAt(longer, i, observed) {
      if i < |vs| {
        assert WatchedStepAt(vs, i, observed);
      } else {
        assert WatchedStep(longer[i - 1], longer[i], observed);
      }
    }
  }

  lemma ThenLogs(vs: seq<Watched>, step: Step) returns (longer: seq<Watched>)
    requires WatchedRun(vs, true) && WorkEnabled(Last(vs).work, LogStep(step))
    ensures WatchedRun(longer, true) && longer[0] == vs[0]
    ensures Last(longer) == Last(vs).(work := Last(vs).work.(log := Take(Last(vs).work.log, step)))
  {
    longer := Then(vs, true, LogStep(step), {});
  }

  lemma ObservedRunIsRun(vs: seq<Watched>)
    requires WatchedRun(vs, true)
    ensures WatchedRun(vs, false)
  {
    forall i | 0 < i < |vs| ensures WatchedStepAt(vs, i, false) {
      assert WatchedStepAt(vs, i, true);
    }
  }

  /** One worker is at work on the batch. */
  ghost predicate Working(v: Watched) {
    && v.work.log == OneBatch()
    && v.work.nextPass > 0
    && v.work.nextPass - 1 in v.work.passes
    && v.work.passes[v.work.nextPass - 1] == Pass(0, 0, {FIRST, SECOND}, true)
  }

  /** What opening the batch leaves. */
  lemma Opens(v: Watched)
    requires v.work.log == Ticked() && v.work.runs == map[]
    ensures WorkEnabled(v.work, OpenNew(0, 1))
    ensures var u := Watch(v, OpenNew(0, 1), {});
            Working(u) && u.work.runs == map[] && u.ran == v.ran && u.cut == v.cut
  {
    Ticks();
    OneBatchHolds();
  }

  lemma OpenOne() returns (vs: seq<Watched>)
    ensures WatchedRun(vs, true) && vs[0] == NewWatched()
    ensures Working(Last(vs)) && Last(vs).work.runs == map[] && Last(vs).ran == map[] && Last(vs).cut == map[]
  {
    NewQueueIsNew();
    vs := [NewWatched()];
    WritesFirst();
    vs := ThenLogs(vs, Begin);
    vs := ThenLogs(vs, Insert(1, ""));
    WritesSecond();
    vs := ThenLogs(vs, Insert(1, ""));
    Commits();
    vs := ThenLogs(vs, Commit(1));
    vs := ThenLogs(vs, Begin);
    Ticks();
    vs := ThenLogs(vs, MakeTick(2));
    Opens(Last(vs));
    vs := Then(vs, true, OpenNew(0, 1), {});
  }

  /** The handlers end, and the worker crashes before its finish. */
  lemma Crashes(v: Watched)
    requires Working(v)
    ensures var a := Crash(v.work.nextPass - 1);
            && WorkEnabled(v.work, a) && MayEnd(v.work, a, {FIRST, SECOND})
            && var u := Watch(v, a, {FIRST, SECOND});
               && u.work.log == OneBatch() && u.cut == v.cut
               && Of(u.ran, Key(0, 0)) == Of(v.ran, Key(0, 0)) + 1
  {
    OneBatchHolds();
    assert Key(0, FIRST.id) in Keys(0, {FIRST, SECOND});
  }

  lemma OpensUnseen(v: Watched)
    requires v.work.log == OneBatch()
    ensures WorkEnabled(v.work, ReopenUnseen(0))
    ensures var u := Watch(v, ReopenUnseen(0), {}); Working(u) && u.ran == v.ran && u.cut == v.cut
  {
    OneBatchHolds();
  }

  /** With a retry limit of 0 and without a stop, a handler ends any number of times when
      nobody counts the opens. */
  lemma {:induction false} UnseenOpensRunForever(n: nat) returns (vs: seq<Watched>)
    ensures WatchedRun(vs, false) && vs[0] == NewWatched() && NewWatched().work.log.maxRetries == 0
    ensures Working(Last(vs)) && Of(Last(vs).ran, Key(0, 0)) == n && Last(vs).cut == map[]
  {
    if n == 0 {
      vs := OpenOne();
      ObservedRunIsRun(vs);
    } else {
      vs := UnseenOpensRunForever(n - 1);
      Crashes(Last(vs));
      vs := Then(vs, false, Crash(Last(vs).work.nextPass - 1), {FIRST, SECOND});
      OpensUnseen(Last(vs));
      vs := Then(vs, false, ReopenUnseen(0), {});
    }
  }

  /** The first handler ends, and the worker is stopped at the second. */
  lemma Stops(v: Watched)
    requires Working(v) && Of(v.work.runs, 0) == 0
    ensures var a := Stop(v.work.nextPass - 1, true);
            && WorkEnabled(v.work, a) && MayEnd(v.work, a, {FIRST}) && Observed(v.work, a, false)
            && var u := Watch(v, a, {FIRST});
               && u.work.log == OneBatch() && Of(u.work.runs, 0) == -1
               && Of(u.ran, Key(0, 0)) == Of(v.ran, Key(0, 0)) + 1
               && Of(u.cut, Key(0, 0)) == Of(v.cut, Key(0, 0)) + 1
  {
    OneBatchHolds();
    assert SECOND !in {FIRST} && SECOND in {FIRST, SECOND};
    assert Key(0, FIRST.id) in Keys(0, {FIRST}) && Key(0, FIRST.id) in Keys(0, {FIRST, SECOND});
  }

  lemma OpensStopped(v: Watched)
    requires v.work.log == OneBatch() && Of(v.work.runs, 0) == -1
    ensures WorkEnabled(v.work, Reopen(0)) && Observed(v.work, Reopen(0), false)
    ensures var u := Watch(v, Reopen(0), {});
            Working(u) && Of(u.work.runs, 0) == 0 && u.ran == v.ran && u.cut == v.cut
  {
    OneBatchHolds();
  }

  lemma StopsOnce(vs: seq<Watched>) returns (longer: seq<Watched>)
    requires WatchedRun(vs, true) && Working(Last(vs)) && Of(Last(vs).work.runs, 0) == 0
    ensures WatchedRun(longer, true) && longer[0] == vs[0]
    ensures Working(Last(longer)) && Of(Last(longer).work.runs, 0) == 0
    ensures Of(Last(longer).ran, Key(0, 0)) == Of(Last(vs).ran, Key(0, 0)) + 1
    ensures Of(Last(longer).cut, Key(0, 0)) == Of(Last(vs).cut, Key(0, 0)) + 1
  {
    Stops(Last(vs));
    longer := Then(vs, true, Stop(Last(vs).work.nextPass - 1, true), {FIRST});
    OpensStopped(Last(longer));
    longer := Then(longer, true, Reopen(0), {});
  }

  /** With a retry limit of 0 and every open counted, the handler of the first message ends
      any number of times when the worker is stopped each time at the second. */
  lemma {:induction false} StoppedBatchRunsForever(n: nat) returns (vs: seq<Watched>)
    ensures WatchedRun(vs, true) && vs[0] == NewWatched() && NewWatched().work.log.maxRetries == 0
    ensures Working(Last(vs)) && Of(Last(vs).work.runs, 0) == 0
    ensures Of(Last(vs).ran, Key(0, 0)) == n && Of(Last(vs).cut, Key(0, 0)) == n
  {
    if n == 0 {
      vs := OpenOne();
    } else {
      vs := StoppedBatchRunsForever(n - 1);
      vs := StopsOnce(vs);
    }
  }
}
