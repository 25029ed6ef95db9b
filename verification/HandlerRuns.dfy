/** The runs of one message's handler, message by message: a stop ends the pass of a batch, but
    the handlers that came to their end before it have run. */
module HandlerRuns {
  import opened Wrappers
  import opened EventLog
  import opened LogMessages
  import opened LogTheorems
  import opened Failures
  import opened WorkerRuns
  import opened ObservedRuns
  import opened WorkerBatch

  /** ran counts, for a message, the runs of its handler that came to an end with a result;
      cut, the stops of its batches that were taken back from their counts. */
  datatype Watched = Watched(work: Work, ran: map<Key, int>, cut: map<Key, int>)

  /** The messages whose handlers came to an end in the pass that a step ends: not all of them
      when the worker stops it, all of them when it finishes, any when it crashes. */
  ghost predicate MayEnd(w: Work, a: WorkStep, ended: set<Event>)
    requires WorkEnabled(w, a)
  {
    match a
    case Stop(p, _) => ended < w.passes[p].msgs
    case Crash(p) => ended <= if w.passes[p].handles then w.passes[p].msgs else {}
    case Settle(p, _) => ended == if w.passes[p].handles then w.passes[p].msgs else {}
    case _ => ended == {}
  }

  ghost function Watch(v: Watched, a: WorkStep, ended: set<Event>): Watched
    requires WorkEnabled(v.work, a)
  {
    if a.Stop? || a.Crash? || a.Settle? then
      var pass := v.work.passes[a.pass];
      Watched(WorkTake(v.work, a), Add(v.ran, Keys(pass.sub, ended), 1),
              if a.Stop? && a.stored then Add(v.cut, Keys(pass.sub, pass.msgs), 1) else v.cut)
    else
      v.(work := WorkTake(v.work, a))
  }

  ghost predicate WatchedStep(v: Watched, u: Watched, observed: bool) {
    exists a, ended ::
      && WorkEnabled(v.work, a) && MayEnd(v.work, a, ended) && (observed ==> Observed(v.work, a, false))
      && u == Watch(v, a, ended)
  }

  ghost predicate WatchedStepAt(vs: seq<Watched>, i: nat, observed: bool) {
    0 < i < |vs| && WatchedStep(vs[i - 1], vs[i], observed)
  }

  ghost predicate Steps(vs: seq<Watched>, observed: bool) {
    forall i :: 0 < i < |vs| ==> WatchedStepAt(vs, i, observed)
  }

  ghost predicate WatchedRun(vs: seq<Watched>, observed: bool) {
    && vs != []
    && WorkInit(vs[0].work) && vs[0].ran == map[] && vs[0].cut == map[]
    && Steps(vs, observed)
  }

  function Works(vs: seq<Watched>): seq<Work> {
    seq(|vs|, i requires 0 <= i < |vs| => vs[i].work)
  }

  lemma WatchedIsRun(vs: seq<Watched>, observed: bool)
    requires WatchedRun(vs, observed)
    ensures WorkRun(Works(vs))
    ensures observed ==> ObservedRun(Works(vs), false)
  {
    forall i | 0 < i < |Works(vs)| ensures WorkStepAt(Works(vs), i) && (observed ==> ObservedStepAt(Works(vs), i, false)) {
      WatchedStepIsStep(vs, i, observed);
    }
  }

  lemma WatchedStepIsStep(vs: seq<Watched>, i: nat, observed: bool)
    requires WatchedRun(vs, observed) && 0 < i < |vs|
    ensures WorkStepAt(Works(vs), i)
    ensures observed ==> ObservedStepAt(Works(vs), i, false)
  {
    assert WatchedStepAt(vs, i, observed);
    WatchedIsNext(vs[i - 1], vs[i], observed);
  }

  lemma WatchedIsNext(v: Watched, u: Watched, observed: bool)
    requires WatchedStep(v, u, observed)
    ensures WorkNext(v.work, u.work)
    ensures observed ==> ObservedNext(v.work, u.work, false)
  {
    var a, ended :| WorkEnabled(v.work, a) && MayEnd(v.work, a, ended) && (observed ==> Observed(v.work, a, false))
      && u == Watch(v, a, ended);
    assert u.work == WorkTake(v.work, a);
  }

  // ---- the ledger

  ghost predicate CanRun(pass: Pass, k: Key) {
    pass.handles && k in Keys(pass.sub, pass.msgs)
  }

  /** The passes under way that can still run the handler of a message. */
  ghost function Live(passes: map<nat, Pass>, k: Key): set<nat> {
    set p | p in passes && CanRun(passes[p], k)
  }

  /** Each pass that a message was in ran its handler once at most or runs it yet, and is spent or
      was taken back. */
  ghost predicate Balanced(v: Watched, k: Key) {
    Of(v.ran, k) + |Live(v.work.passes, k)| <= Of(v.work.spent, k) + Of(v.cut, k)
  }

  lemma LiveStart(w: Work, s: nat, handles: bool, k: Key)
    requires Pointed(w.log.feed) && HasBatch(w.log, s) && w.nextPass !in w.passes
    ensures var v := Start(w, s, handles);
            |Live(v.passes, k)| - |Live(w.passes, k)| == Of(v.spent, k) - Of(w.spent, k)
  {
    StartsLive(w.passes, w.nextPass, Pass(s, w.log.feed.subs[s].batch.value.id, Batch(w.log, s), handles), k);
  }

  lemma StartsLive(passes: map<nat, Pass>, p: nat, pass: Pass, k: Key)
    requires p !in passes
    ensures |Live(passes[p := pass], k)| == |Live(passes, k)| + (if CanRun(pass, k) then 1 else 0)
  {
    assert Live(passes[p := pass], k) == Live(passes, k) + if CanRun(pass, k) then {p} else {};
  }

  lemma LiveEnd(passes: map<nat, Pass>, p: nat, k: Key)
    requires p in passes
    ensures |Live(passes - {p}, k)| == |Live(passes, k)| - (if CanRun(passes[p], k) then 1 else 0)
  {
    assert Live(passes - {p}, k) == Live(passes, k) - {p};
  }

  lemma OpenPoints(st: State, s: nat, next: nat)
    requires Enabled(st, Open(s, next))
    ensures Pointed(Take(st, Open(s, next)).feed) && HasBatch(Take(st, Open(s, next)), s)
  {
  }

  lemma StartBalances(v: Watched, a: WorkStep, k: Key)
    requires WorkEnabled(v.work, a) && (a.OpenNew? || a.Reopen? || a.ReopenUnseen?)
    requires v.work.nextPass !in v.work.passes && Balanced(v, k)
    ensures Balanced(v.(work := WorkTake(v.work, a)), k)
  {
    var w := v.work;
    match a {
      case OpenNew(s, next) =>
        var begun := w.(log := Take(w.log, Open(s, next)));
        OpenPoints(w.log, s, next);
        LiveStart(begun, s, true, k);
      case Reopen(s) =>
        var n := Of(w.runs, w.log.feed.subs[s].batch.value.id) + 1;
        var counted := w.(runs := w.runs[w.log.feed.subs[s].batch.value.id := n]);
        LiveStart(counted, s, n < MAX_BATCH_RUNS, k);
      case ReopenUnseen(s) =>
        var forgot := Forget(w, w.log.feed.subs[s].batch.value.id, Keys(s, Batch(w.log, s)), 1);
        LiveStart(forgot, s, true, k);
    }
  }

  lemma EndBalances(v: Watched, a: WorkStep, ended: set<Event>, k: Key)
    requires WorkEnabled(v.work, a) && MayEnd(v.work, a, ended) && (a.Stop? || a.Crash? || a.Settle?)
    requires Balanced(v, k)
    ensures Balanced(Watch(v, a, ended), k)
  {
    var w, pass := v.work, v.work.passes[a.pass];
    LiveEnd(w.passes, a.pass, k);
    if k in Keys(pass.sub, ended) {
      var e :| e in ended && k == Key(pass.sub, e.id);
      assert k in Keys(pass.sub, pass.msgs);
    }
  }

  lemma StepBalances(v: Watched, a: WorkStep, ended: set<Event>, k: Key)
    requires WorkEnabled(v.work, a) && MayEnd(v.work, a, ended)
    requires v.work.nextPass !in v.work.passes && Balanced(v, k)
    ensures Balanced(Watch(v, a, ended), k)
  {
    if a.Stop? || a.Crash? || a.Settle? {
      EndBalances(v, a, ended, k);
    } else if a.OpenNew? || a.Reopen? || a.ReopenUnseen? {
      StartBalances(v, a, k);
    }
  }

  lemma NextBalances(v: Watched, u: Watched, observed: bool, k: Key)
    requires v.work.nextPass !in v.work.passes && WatchedStep(v, u, observed) && Balanced(v, k)
    ensures Balanced(u, k)
  {
    var a, ended :| WorkEnabled(v.work, a) && MayEnd(v.work, a, ended) && u == Watch(v, a, ended);
    StepBalances(v, a, ended, k);
  }

  lemma NextPassIsNew(vs: seq<Watched>, i: nat, observed: bool)
    requires WatchedRun(vs, observed) && i < |vs|
    ensures vs[i].work.nextPass !in vs[i].work.passes
  {
    WatchedIsRun(vs, observed);
    WorkRunKeepsInv(Works(vs), i);
    assert BatchesKnown(vs[i].work);
  }

  lemma FirstBalances(v: Watched, k: Key)
    requires WorkInit(v.work) && v.ran == map[] && v.cut == map[]
    ensures Balanced(v, k)
  {
    assert Live(v.work.passes, k) == {};
  }

  lemma NextInStepsBalances(vs: seq<Watched>, i: nat, observed: bool, k: Key)
    requires Steps(vs, observed) && 0 < i < |vs|
    requires vs[i - 1].work.nextPass !in vs[i - 1].work.passes && Balanced(vs[i - 1], k)
    ensures Balanced(vs[i], k)
  {
    assert WatchedStepAt(vs, i, observed);
    NextBalances(vs[i - 1], vs[i], observed, k);
  }

  lemma {:induction false} RunBalances(vs: seq<Watched>, i: nat, observed: bool, k: Key)
    requires WatchedRun(vs, observed) && i < |vs|
    ensures Balanced(vs[i], k)
  {
    if i == 0 {
      FirstBalances(vs[0], k);
    } else {
      RunBalances(vs, i - 1, observed, k);
      NextPassIsNew(vs, i - 1, observed);
      NextInStepsBalances(vs, i, observed, k);
    }
  }

  // ---- what holds in every run

  /** With the retry limit M, the handler of a message comes to its end at most 3(M + 1) times,
      once more for each stop that was taken back from the count of its batch, and once more for
      each run that the counts of its batches forgot. */
  lemma HandlerRunsAreBounded(vs: seq<Watched>, i: nat, k: Key)
    requires WatchedRun(vs, false) && i < |vs|
    ensures Of(vs[i].ran, k) <=
            3 * (vs[i].work.log.maxRetries + 1) + Of(vs[i].cut, k) + Of(vs[i].work.forgotten, k)
  {
    RunBalances(vs, i, false, k);
    WatchedIsRun(vs, false);
    BatchPassesAreBounded(Works(vs), i, k);
  }

  /** When every open is seen and no open batch loses its count, only the stops remain. A stop that
      could not be stored costs a run of the batch, so it adds none. */
  lemma ObservedHandlerRunsAreBounded(vs: seq<Watched>, i: nat, k: Key)
    requires WatchedRun(vs, true) && i < |vs|
    ensures Of(vs[i].ran, k) <= 3 * (vs[i].work.log.maxRetries + 1) + Of(vs[i].cut, k)
  {
    RunBalances(vs, i, true, k);
    WatchedIsRun(vs, true);
    PoisonMessagesEnd(Works(vs), i, k);
  }

  // ---- the messages that a stopped batch has handled

  /** The messages whose result is not a stop. */
  ghost function EndedOf(rows: seq<Event>, handle: Message -> Option<Failure>, ctx: Context): set<Event> {
    set i | 0 <= i < |rows| && !ResultOf(Messages(rows), handle, ctx, i).stopped :: rows[i]
  }

  /** The results of a stopped batch are such a part of it: at least one handler did not come
      to its end. */
  lemma StoppedBatchEndsInPart(rows: seq<Event>, handle: Message -> Option<Failure>, ctx: Context, batch: set<Event>)
    requires Ascending(rows) && forall e :: e in rows <==> e in batch
    requires exists i :: 0 <= i < |rows| && ResultOf(Messages(rows), handle, ctx, i).stopped
    ensures EndedOf(rows, handle, ctx) < batch
  {
    var i :| 0 <= i < |rows| && ResultOf(Messages(rows), handle, ctx, i).stopped;
    assert rows[i] in batch && rows[i] !in EndedOf(rows, handle, ctx);
  }

  /** A context that ends while the second handler runs, which then fails: the first handler has its
      result, and the second is stopped with its own error. */
  lemma SecondMessageIsStopped(rows: seq<Event>, handle: Message -> Option<Failure>)
    requires Ascending(rows) && |rows| == 2 && handle(MessageOf(rows[1])) != None
    ensures ResultOf(Messages(rows), handle, Context(3), 0) == Outcome(MessageOf(rows[0]), handle(MessageOf(rows[0])), false, false)
    ensures ResultOf(Messages(rows), handle, Context(3), 1) == Outcome(MessageOf(rows[1]), handle(MessageOf(rows[1])), true, false)
    ensures EndedOf(rows, handle, Context(3)) == {rows[0]}
  {
  }
}
