/** One batch in the hands of a worker: opening it, running the handlers, and finishing
    it or leaving it open. Each call is proved to take steps of WorkerRuns. */
module WorkerBatch {
  import opened Wrappers
  import opened Snapshots
  import opened EventLog
  import opened LogStore
  import opened Places
  import opened LogMessages
  import opened LogRuns
  import opened LogTheorems
  import opened Failures
  import opened PgQue
  import opened WorkerRuns

  /** A context, by the first reading that finds it ended. */
  datatype Context = Context(ends: nat) {
    predicate Ended(reading: nat) {
      ends <= reading
    }
  }

  /** The database calls that fail. With lost, the finish commits and its answer is lost. */
  datatype Faults = Faults(
    current: bool, next: bool, count: bool, messages: bool, finish: bool, lost: bool, uncount: bool)

  datatype WorkerError = Sql(error: SqlError) | Connection

  /** An open batch, and the earlier runs that did not finish. */
  datatype Opened = Opened(id: nat, msgs: seq<Message>, runs: int)

  /** How a call of handleBatch ended. */
  datatype Ending = NoBatch | Broke | LeftOpen(batch: Opened) | Closed(batch: Opened)

  // ---- running the handlers

  /** The result of message i: readings 2i and 2i + 1 of the context are the one before its
      handler and the one after it. */
  function ResultOf(msgs: seq<Message>, handle: Message -> Option<Failure>, ctx: Context, i: nat): Outcome
    requires i < |msgs|
  {
    if ctx.Ended(2 * i) then
      Outcome(msgs[i], Some(Temporary), true, false)
    else
      var err := handle(msgs[i]);
      Outcome(msgs[i], err, err != None && ctx.Ended(2 * i + 1), false)
  }

  method RunAll(ctx: Context, handle: Message -> Option<Failure>, msgs: seq<Message>) returns (results: array<Outcome>)
    ensures fresh(results) && results.Length == |msgs|
    ensures forall i :: 0 <= i < |msgs| ==> results[i] == ResultOf(msgs, handle, ctx, i)
    ensures forall i :: 0 <= i < |msgs| ==>
      && results[i].msg == msgs[i] && !results[i].dead
      && (results[i].stopped <==> ctx.ends <= 2 * i || (handle(msgs[i]) != None && ctx.ends <= 2 * i + 1))
      && results[i].err == if ctx.ends <= 2 * i then Some(Temporary) else handle(msgs[i])
  {
    results := new Outcome[|msgs|](_ => Outcome(Message(0, 0, ""), None, false, false));
    for i := 0 to |msgs|
      invariant forall k :: 0 <= k < i ==> results[k] == ResultOf(msgs, handle, ctx, k)
    {
      results[i] := Outcome(msgs[i], None, false, false);
      if ctx.Ended(2 * i) {
        results[i] := results[i].(err := Some(Temporary), stopped := true);
        continue;
      }
      var err := handle(msgs[i]);
      results[i] := results[i].(err := err);
      if err != None {
        results[i] := results[i].(stopped := ctx.Ended(2 * i + 1));
      }
    }
  }

  /** Stopped results are a suffix of the batch, each with an error; before the suffix,
      each message has the result of its handler. */
  lemma StoppedIsSuffix(msgs: seq<Message>, handle: Message -> Option<Failure>, ctx: Context, i: nat, j: nat)
    requires i < j < |msgs|
    ensures ResultOf(msgs, handle, ctx, i).stopped ==> ResultOf(msgs, handle, ctx, j).stopped
    ensures ResultOf(msgs, handle, ctx, j).stopped ==> ResultOf(msgs, handle, ctx, j).err != None
    ensures !ResultOf(msgs, handle, ctx, j).stopped ==> ResultOf(msgs, handle, ctx, i).err == handle(msgs[i])
  {
  }

  method GiveUp(b: Opened) returns (results: array<Outcome>)
    ensures fresh(results) && results.Length == |b.msgs|
    ensures forall i :: 0 <= i < |b.msgs| ==> results[i] == Outcome(b.msgs[i], Some(Temporary), false, false)
  {
    results := new Outcome[|b.msgs|](_ => Outcome(Message(0, 0, ""), None, false, false));
    for i := 0 to |b.msgs|
      invariant forall k :: 0 <= k < i ==> results[k] == Outcome(b.msgs[k], Some(Temporary), false, false)
    {
      results[i] := Outcome(b.msgs[i], Some(Temporary), false, false);
    }
  }

  // ---- steps of the worker

  ghost predicate CanDo(w: Work, steps: seq<WorkStep>)
    decreases |steps|
  {
    steps != [] ==> WorkEnabled(w, steps[0]) && CanDo(WorkTake(w, steps[0]), steps[1..])
  }

  ghost function DoAll(w: Work, steps: seq<WorkStep>): Work
    requires CanDo(w, steps)
    decreases |steps|
  {
    if steps == [] then w else DoAll(WorkTake(w, steps[0]), steps[1..])
  }

  lemma {:induction false} DoMore(w: Work, steps: seq<WorkStep>, a: WorkStep)
    requires CanDo(w, steps) && WorkEnabled(DoAll(w, steps), a)
    ensures CanDo(w, steps + [a]) && DoAll(w, steps + [a]) == WorkTake(DoAll(w, steps), a)
    decreases |steps|
  {
    if steps == [] {
      assert ([] + [a])[1..] == [];
    } else {
      DoMore(WorkTake(w, steps[0]), steps[1..], a);
      assert (steps + [a])[1..] == steps[1..] + [a];
    }
  }

  lemma {:induction false} DoAllKeepsInv(start: State, w: Work, steps: seq<WorkStep>)
    requires WorkInv(start, w) && CanDo(w, steps)
    ensures WorkInv(start, DoAll(w, steps))
    decreases |steps|
  {
    if steps != [] {
      WorkStepKeepsInv(start, w, steps[0]);
      DoAllKeepsInv(start, WorkTake(w, steps[0]), steps[1..]);
    }
  }

  /** The tables show the state of the workers. */
  ghost predicate Shows(q: Queue, w: Work)
    reads q
  {
    q.Contents() == w.log && q.runs == w.runs
  }

  /** A worker is at work on the open batch of the subscription. */
  ghost predicate AtWork(w: Work, pass: nat, sub: nat, b: nat, handles: bool) {
    && Pointed(w.log.feed)
    && OpenIn(w.log, sub, b)
    && pass in w.passes
    && w.passes[pass] == Pass(sub, b, Batch(w.log, sub), handles)
  }

  /** Step a opened batch b, and the tables show it. n is the number of earlier runs that
      openBatch reports. */
  ghost predicate Began(w: Work, a: WorkStep, now: State, runs: map<nat, int>, sub: nat, b: nat, n: int) {
    && WorkEnabled(w, a)
    && WorkTake(w, a).log == now
    && WorkTake(w, a).runs == runs
    && AtWork(WorkTake(w, a), w.nextPass, sub, b, n < MAX_BATCH_RUNS)
    && (!a.ReopenUnseen? ==> Of(runs, b) == n)
  }

  /** next_batch opened a new batch of the subscription. */
  ghost predicate Opens(st: State, now: State, sub: nat, next: nat) {
    && sub in st.feed.subs && st.feed.subs[sub].batch == None
    && next in st.feed.ticks && st.feed.subs[sub].last < next
    && now == st.(feed := st.feed.(
         subs := st.feed.subs[sub := Sub(st.feed.subs[sub].last, Some(EventLog.OpenBatch(st.feed.nextBatch, next)))],
         nextBatch := st.feed.nextBatch + 1))
  }

  lemma OpenIs(st: State, now: State, sub: nat, next: nat)
    requires StoreInv(st) && Opens(st, now, sub, next)
    ensures Enabled(st, Open(sub, next)) && now == Take(st, Open(sub, next))
    ensures Pointed(now.feed) && OpenIn(now, sub, st.feed.nextBatch)
  {
  }

  lemma Starts(w: Work, sub: nat, b: nat, handles: bool)
    requires Pointed(w.log.feed) && OpenIn(w.log, sub, b)
    ensures var v := Start(w, sub, handles);
            v.log == w.log && v.runs == w.runs && AtWork(v, w.nextPass, sub, b, handles)
  {
  }

  lemma BeginsNew(w: Work, now: State, sub: nat, next: nat)
    requires StoreInv(w.log) && BatchesKnown(w) && Opens(w.log, now, sub, next)
    ensures Began(w, OpenNew(sub, next), now, w.runs, sub, w.log.feed.nextBatch, 0)
  {
    OpenIs(w.log, now, sub, next);
    Starts(w.(log := now), sub, w.log.feed.nextBatch, true);
    assert w.log.feed.nextBatch !in w.runs;
  }

  lemma CountsAgain(w: Work, sub: nat)
    requires Pointed(w.log.feed) && HasBatch(w.log, sub)
    ensures var b, v := w.log.feed.subs[sub].batch.value.id, Reopened(w, sub);
            && v.log == w.log && v.runs == w.runs[b := Of(w.runs, b) + 1]
            && AtWork(v, w.nextPass, sub, b, Of(v.runs, b) < MAX_BATCH_RUNS)
  {
  }

  lemma BeginsAgain(w: Work, sub: nat, b: nat)
    requires Pointed(w.log.feed) && OpenIn(w.log, sub, b)
    ensures var n := Of(w.runs, b) + 1; Began(w, Reopen(sub), w.log, w.runs[b := n], sub, b, n)
  {
    CountsAgain(w, sub);
  }

  lemma BeginsUnseen(w: Work, sub: nat, b: nat)
    requires Pointed(w.log.feed) && OpenIn(w.log, sub, b)
    ensures Began(w, ReopenUnseen(sub), w.log, w.runs, sub, b, 0)
  {
    Starts(Forget(w, b, Keys(sub, Batch(w.log, sub)), 1), sub, b, true);
  }

  /** next_batch returned this batch: it was open, or it is new. */
  ghost predicate Found(st: State, now: State, sub: nat, id: nat) {
    if HasBatch(st, sub) then now == st && OpenIn(st, sub, id)
    else id == st.feed.nextBatch && exists next :: Opens(st, now, sub, next)
  }

  /** The end of openBatch's changes: a batch that was reported open is counted. */
  method CountOpened(q: Queue, sub: nat, id: nat, open: Option<nat>, faults: Faults, ghost w: Work)
    returns (runs: Option<int>, ghost a: WorkStep)
    requires q.runs == w.runs && StoreInv(w.log) && BatchesKnown(w) && Found(w.log, q.Contents(), sub, id)
    requires open == if !faults.current && HasBatch(w.log, sub) then Some(id) else None
    modifies q`runs
    ensures runs == None ==> Shows(q, w)
    ensures runs.Some? ==>
      Began(w, a, q.Contents(), q.runs, sub, id, runs.value) && (a.ReopenUnseen? ==> faults.current)
  {
    a := Crash(0);
    if open == Some(id) {
      if faults.count {
        return None, a;
      }
      var n := q.CountRun(id);
      a := Reopen(sub);
      BeginsAgain(w, sub, id);
      return Some(n), a;
    }
    if HasBatch(w.log, sub) {
      a := ReopenUnseen(sub);
      BeginsUnseen(w, sub, id);
    } else {
      ghost var next :| Opens(w.log, q.Contents(), sub, next);
      a := OpenNew(sub, next);
      BeginsNew(w, q.Contents(), sub, next);
    }
    runs := Some(0);
  }

  /** The part of openBatch that changes tables. */
  method OpenAndCount(q: Queue, sub: nat, faults: Faults, ghost w: Work)
    returns (r: Result<Option<(nat, int)>, WorkerError>, ghost a: WorkStep)
    requires Shows(q, w) && StoreInv(w.log) && BatchesKnown(w)
    modifies q`subs, q`nextBatch, q`runs
    ensures r.Err? || r.value == None ==> Shows(q, w)
    ensures r.Ok? && r.value.Some? ==>
      Began(w, a, q.Contents(), q.runs, sub, r.value.value.0, r.value.value.1) && (a.ReopenUnseen? ==> faults.current)
  {
    a := Crash(0);
    var open := q.CurrentBatch(sub, faults.current);
    if faults.next {
      return Err(Connection), a;
    }
    var found := q.NextBatch(sub);
    if found.Err? {
      return Err(Sql(found.error)), a;
    }
    if found.value == None {
      return Ok(None), a;
    }
    if !HasBatch(w.log, sub) {
      assert Opens(w.log, q.Contents(), sub, q.subs[sub].batch.value.next);
    }
    var runs;
    runs, a := CountOpened(q, sub, found.value.value, open, faults, w);
    r := if runs == None then Err(Connection) else Ok(Some((found.value.value, runs.value)));
  }

  /** Steps that lead to what the tables show. */
  ghost predicate Did(w: Work, steps: seq<WorkStep>, now: State, runs: map<nat, int>) {
    CanDo(w, steps) && DoAll(w, steps).log == now && DoAll(w, steps).runs == runs
  }

  lemma DidNothing(w: Work)
    ensures Did(w, [], w.log, w.runs)
  {
  }

  lemma DidOne(w: Work, a: WorkStep)
    requires WorkEnabled(w, a)
    ensures CanDo(w, [a]) && DoAll(w, [a]) == WorkTake(w, a)
  {
  }

  lemma DidTwo(w: Work, a: WorkStep, c: WorkStep)
    requires WorkEnabled(w, a) && WorkEnabled(WorkTake(w, a), c)
    ensures Did(w, [a, c], WorkTake(WorkTake(w, a), c).log, WorkTake(WorkTake(w, a), c).runs)
  {
    DidOne(w, a);
    DoMore(w, [a], c);
    assert [a] + [c] == [a, c];
  }

  function Messages(rows: seq<Event>): seq<Message> {
    seq(|rows|, i requires 0 <= i < |rows| => MessageOf(rows[i]))
  }

  /** The rows of the open batch, in the order of their ids. */
  ghost predicate Reading(st: State, sub: nat, rows: seq<Event>)
    requires Pointed(st.feed)
  {
    && HasBatch(st, sub)
    && |rows| == |Batch(st, sub)| && Ascending(rows) && (forall e :: e in rows <==> e in Batch(st, sub))
  }

  /** openBatch */
  method OpenBatch(q: Queue, sub: nat, faults: Faults, ghost start: State, ghost w: Work)
    returns (r: Result<Option<Opened>, WorkerError>, ghost rows: seq<Event>, ghost a: WorkStep, ghost steps: seq<WorkStep>)
    requires WorkInv(start, w) && Shows(q, w)
    modifies q`subs, q`nextBatch, q`runs
    ensures r.Err? || r.value == None ==> Did(w, steps, q.Contents(), q.runs)
    ensures r.Ok? && r.value.Some? ==>
      && var b := r.value.value;
         && Began(w, a, q.Contents(), q.runs, sub, b.id, b.runs) && (a.ReopenUnseen? ==> faults.current)
         && WorkInv(start, WorkTake(w, a))
         && Reading(q.Contents(), sub, rows) && b.msgs == Messages(rows)
  {
    rows, steps := [], [];
    DidNothing(w);
    var found;
    found, a := OpenAndCount(q, sub, faults, w);
    if found.Err? {
      return Err(found.error), rows, a, steps;
    }
    if found.value == None {
      return Ok(None), rows, a, steps;
    }
    var (id, runs) := found.value.value;
    WorkStepKeepsInv(start, w, a);
    if faults.messages {
      steps := [a, Crash(w.nextPass)];
      DidTwo(w, a, Crash(w.nextPass));
      return Err(Connection), rows, a, steps;
    }
    var read := q.GetBatchEvents(sub);
    rows := read;
    r := Ok(Some(Opened(id, Messages(read), runs)));
  }

  /** leaveOpen */
  method LeaveOpen(q: Queue, b: Opened, faults: Faults)
    modifies q`runs
    ensures q.Contents() == old(q.Contents())
    ensures q.runs == if faults.uncount then old(q.runs) else old(q.runs)[b.id := Of(old(q.runs), b.id) - 1]
  {
    if !faults.uncount {
      q.UncountRun(b.id);
    }
  }

  /** The result that a batch without a stop has for a message. */
  function Expected(b: Opened, handle: Message -> Option<Failure>, m: Message): Outcome {
    Outcome(m, if b.runs < MAX_BATCH_RUNS then handle(m) else Some(Temporary), false, false)
  }

  method RunBatch(ctx: Context, handle: Message -> Option<Failure>, b: Opened) returns (results: array<Outcome>, stopped: bool)
    ensures fresh(results) && results.Length == |b.msgs|
    ensures forall i :: 0 <= i < |b.msgs| ==> results[i].msg == b.msgs[i]
    ensures stopped ==> b.runs < MAX_BATCH_RUNS
    ensures !stopped ==> forall i :: 0 <= i < |b.msgs| ==> results[i] == Expected(b, handle, b.msgs[i])
    ensures stopped <==> b.runs < MAX_BATCH_RUNS && exists i :: 0 <= i < |b.msgs| && ResultOf(b.msgs, handle, ctx, i).stopped
  {
    if b.runs >= MAX_BATCH_RUNS {
      results := GiveUp(b);
    } else {
      results := RunAll(ctx, handle, b.msgs);
    }
    stopped := false;
    for i := 0 to results.Length
      invariant stopped <==> exists k :: 0 <= k < i && results[k].stopped
    {
      stopped := stopped || results[i].stopped;
    }
  }

  /** The verdicts of a batch without a stop. */
  ghost predicate Judged(b: Opened, handle: Message -> Option<Failure>, rows: seq<Event>, maxRetries: nat,
                         verdicts: map<Event, Verdict>) {
    forall i :: 0 <= i < |rows| ==>
      rows[i] in verdicts && verdicts[rows[i]] == VerdictOf(Expected(b, handle, MessageOf(rows[i])), maxRetries)
  }

  /** The step Settle, from the outcomes of a batch without a stop. */
  lemma MaySettle(w: Work, pass: nat, sub: nat, b: Opened, handle: Message -> Option<Failure>, rows: seq<Event>, os: seq<Outcome>)
    requires AtWork(w, pass, sub, b.id, b.runs < MAX_BATCH_RUNS) && Reading(w.log, sub, rows)
    requires |os| == |rows| && forall i :: 0 <= i < |rows| ==> os[i] == Expected(b, handle, MessageOf(rows[i]))
    ensures IsRead(w.log, sub, rows, os)
    ensures var verdicts := Verdicts(rows, os, w.log.maxRetries);
            && Judged(b, handle, rows, w.log.maxRetries, verdicts)
            && CanFinish(w.log, sub, b.id, verdicts)
            && verdicts.Keys == w.passes[pass].msgs
            && (b.runs >= MAX_BATCH_RUNS ==> forall e :: e in verdicts ==> verdicts[e] != Done)
  {
    VerdictsAt(rows, os, w.log.maxRetries);
    ResultsMayFinish(w.log, sub, b.id, rows, os);
  }

  /** The end of handleBatch without a stop: one transaction, which succeeds. */
  method FinishOpened(q: Queue, sub: nat, b: Opened, results: array<Outcome>, ghost rows: seq<Event>,
                      ghost st: State, ghost os: seq<Outcome>)
    requires q.Contents() == st && StoreInv(st) && Apart(ViewOf(st)) && os == results[..]
    requires OpenIn(st, sub, b.id) && IsRead(st, sub, rows, os)
    modifies q`retries, q`dead, q`runs, q`subs, q`history, results
    ensures q.Contents() == Finished(st, sub, Verdicts(rows, os, st.maxRetries))
    ensures q.runs == old(q.runs) - {b.id}
  {
    var _ := q.FinishBatch(sub, b.id, results, rows, st, os);
  }

  lemma SettleShows(w: Work, pass: nat, sub: nat, b: nat, handles: bool, verdicts: map<Event, Verdict>)
    requires AtWork(w, pass, sub, b, handles) && w.log.store.cur < |w.log.store.tables|
    requires CanFinish(w.log, sub, b, verdicts) && verdicts.Keys == w.passes[pass].msgs
    requires !handles ==> forall e :: e in verdicts ==> verdicts[e] != Done
    ensures WorkEnabled(w, Settle(pass, verdicts))
    ensures WorkTake(w, Settle(pass, verdicts)).log == Finished(w.log, sub, verdicts)
    ensures WorkTake(w, Settle(pass, verdicts)).runs == w.runs - {b}
  {
  }

  lemma StopShows(w: Work, pass: nat, sub: nat, b: nat, stored: bool)
    requires AtWork(w, pass, sub, b, true)
    ensures WorkEnabled(w, Stop(pass, stored))
    ensures WorkTake(w, Stop(pass, stored)).log == w.log
    ensures WorkTake(w, Stop(pass, stored)).runs == if stored then w.runs[b := Of(w.runs, b) - 1] else w.runs
  {
  }

  method StopBatch(q: Queue, sub: nat, b: Opened, faults: Faults, ghost w: Work, ghost pass: nat) returns (ghost c: WorkStep)
    requires Shows(q, w) && AtWork(w, pass, sub, b.id, true)
    modifies q`runs
    ensures c == Stop(pass, !faults.uncount) && WorkEnabled(w, c) && Shows(q, WorkTake(w, c))
  {
    LeaveOpen(q, b, faults);
    c := Stop(pass, !faults.uncount);
    StopShows(w, pass, sub, b.id, !faults.uncount);
  }

  lemma CrashShows(w: Work, pass: nat)
    requires Pointed(w.log.feed) && pass in w.passes
    ensures WorkEnabled(w, Crash(pass)) && WorkTake(w, Crash(pass)).log == w.log && WorkTake(w, Crash(pass)).runs == w.runs
  {
  }

  method CloseBatch(q: Queue, sub: nat, b: Opened, handle: Message -> Option<Failure>, results: array<Outcome>,
                    ghost rows: seq<Event>, ghost w: Work, ghost pass: nat) returns (ghost c: WorkStep)
    requires Shows(q, w) && StoreInv(w.log) && Apart(ViewOf(w.log))
    requires AtWork(w, pass, sub, b.id, b.runs < MAX_BATCH_RUNS) && Reading(w.log, sub, rows) && b.msgs == Messages(rows)
    requires results.Length == |b.msgs| && forall i :: 0 <= i < |b.msgs| ==> results[i] == Expected(b, handle, b.msgs[i])
    modifies q, results
    ensures WorkEnabled(w, c) && Shows(q, WorkTake(w, c))
    ensures c.Settle? && c.pass == pass && Judged(b, handle, rows, w.log.maxRetries, c.verdicts)
  {
    ghost var os := results[..];
    MaySettle(w, pass, sub, b, handle, rows, os);
    FinishOpened(q, sub, b, results, rows, w.log, os);
    c := Settle(pass, Verdicts(rows, os, w.log.maxRetries));
    SettleShows(w, pass, sub, b.id, b.runs < MAX_BATCH_RUNS, Verdicts(rows, os, w.log.maxRetries));
  }

  /** The worker has run the handlers of an open batch; c is the step that ends its work.
      A batch that was not stopped is finished with the verdicts of its handlers; one
      stopped message keeps the whole batch open, and nothing in the log changes. */
  ghost predicate Ends(ending: Ending, b: Opened, rows: seq<Event>, ctx: Context, handle: Message -> Option<Failure>,
                       faults: Faults, maxRetries: nat, c: WorkStep) {
    match ending
    case NoBatch => false
    case Broke =>
      (c.Crash? && faults.finish) || (c.Settle? && faults.lost && Judged(b, handle, rows, maxRetries, c.verdicts))
    case LeftOpen(open) =>
      && open == b && c.Stop? && c.stored == !faults.uncount
      && exists i :: 0 <= i < |b.msgs| && ResultOf(b.msgs, handle, ctx, i).stopped
    case Closed(open) =>
      && open == b && c.Settle? && Judged(b, handle, rows, maxRetries, c.verdicts)
      && (b.runs < MAX_BATCH_RUNS ==> forall i :: 0 <= i < |b.msgs| ==> !ResultOf(b.msgs, handle, ctx, i).stopped)
  }

  method EndBatch(q: Queue, sub: nat, b: Opened, ctx: Context, handle: Message -> Option<Failure>, faults: Faults,
                  ghost rows: seq<Event>, ghost w: Work, ghost pass: nat) returns (ending: Ending, ghost c: WorkStep)
    requires Shows(q, w) && StoreInv(w.log) && Apart(ViewOf(w.log))
    requires AtWork(w, pass, sub, b.id, b.runs < MAX_BATCH_RUNS) && Reading(w.log, sub, rows) && b.msgs == Messages(rows)
    modifies q
    ensures WorkEnabled(w, c) && Shows(q, WorkTake(w, c))
    ensures Ends(ending, b, rows, ctx, handle, faults, w.log.maxRetries, c)
    ensures ending.LeftOpen? ==> c == Stop(pass, !faults.uncount)
    ensures ending.Closed? ==> c.pass == pass
  {
    var results, stopped := RunBatch(ctx, handle, b);
    if stopped {
      c := StopBatch(q, sub, b, faults, w, pass);
      return LeftOpen(b), c;
    }
    if faults.finish {
      CrashShows(w, pass);
      return Broke, Crash(pass);
    }
    c := CloseBatch(q, sub, b, handle, results, rows, w, pass);
    ending := if faults.lost then Broke else Closed(b);
  }

  /** A stop reaches message i: the context ends before its handler, or while its handler runs,
      which then fails. */
  ghost predicate StoppedAt(msgs: seq<Message>, handle: Message -> Option<Failure>, ctx: Context, i: nat)
    requires i < |msgs|
  {
    ctx.ends <= 2 * i || (handle(msgs[i]) != None && ctx.ends <= 2 * i + 1)
  }

  /** The ending of a batch decides where each of its messages is. */
  lemma ClosedLeaves(w: Work, pass: nat, sub: nat, b: Opened, handle: Message -> Option<Failure>, rows: seq<Event>,
                     verdicts: map<Event, Verdict>, e: Event)
    requires AtWork(w, pass, sub, b.id, b.runs < MAX_BATCH_RUNS) && Reading(w.log, sub, rows) && Apart(ViewOf(w.log))
    requires WorkEnabled(w, Settle(pass, verdicts)) && Judged(b, handle, rows, w.log.maxRetries, verdicts) && e in rows
    ensures HandledAs(WorkTake(w, Settle(pass, verdicts)).log, sub, e, if b.runs < 3 then handle(MessageOf(e)) else Some(Temporary))
  {
    SettleFinishes(w, pass, sub, b.id, b.runs < MAX_BATCH_RUNS, verdicts);
    JudgedLeaves(w.log, sub, b, handle, rows, verdicts, e);
  }

  lemma SettleFinishes(w: Work, pass: nat, sub: nat, b: nat, handles: bool, verdicts: map<Event, Verdict>)
    requires AtWork(w, pass, sub, b, handles) && WorkEnabled(w, Settle(pass, verdicts))
    ensures verdicts.Keys == Batch(w.log, sub)
    ensures WorkTake(w, Settle(pass, verdicts)).log == Finished(w.log, sub, verdicts)
  {
  }

  lemma JudgedLeaves(st: State, sub: nat, b: Opened, handle: Message -> Option<Failure>, rows: seq<Event>,
                     verdicts: map<Event, Verdict>, e: Event)
    requires Pointed(st.feed) && Reading(st, sub, rows) && Apart(ViewOf(st)) && verdicts.Keys == Batch(st, sub)
    requires Judged(b, handle, rows, st.maxRetries, verdicts) && e in rows
    ensures HandledAs(Finished(st, sub, verdicts), sub, e, if b.runs < 3 then handle(MessageOf(e)) else Some(Temporary))
  {
    var i :| 0 <= i < |rows| && rows[i] == e;
    assert e in verdicts.Keys;
    VerdictDecides(st, sub, verdicts, e, Expected(b, handle, MessageOf(e)));
  }

  lemma HandledBatch(w: Work, pass: nat, sub: nat, b: Opened, ctx: Context, handle: Message -> Option<Failure>,
                     faults: Faults, rows: seq<Event>, ending: Ending, c: WorkStep)
    requires AtWork(w, pass, sub, b.id, b.runs < MAX_BATCH_RUNS) && Reading(w.log, sub, rows) && Apart(ViewOf(w.log))
    requires WorkEnabled(w, c) && Ends(ending, b, rows, ctx, handle, faults, w.log.maxRetries, c)
    requires ending.LeftOpen? ==> c == Stop(pass, !faults.uncount)
    requires ending.Closed? ==> c.pass == pass
    ensures ending.LeftOpen? ==>
      && b.runs < 3 && WorkTake(w, c).log == w.log
      && exists i :: 0 <= i < |b.msgs| && StoppedAt(b.msgs, handle, ctx, i)
    ensures ending.Closed? ==>
      && (b.runs < 3 ==> forall i :: 0 <= i < |b.msgs| ==> !StoppedAt(b.msgs, handle, ctx, i))
      && forall e :: e in rows ==>
           HandledAs(WorkTake(w, c).log, sub, e, if b.runs < 3 then handle(MessageOf(e)) else Some(Temporary))
  {
    forall i | 0 <= i < |b.msgs| ensures ResultOf(b.msgs, handle, ctx, i).stopped <==> StoppedAt(b.msgs, handle, ctx, i) {
    }
    if ending.Closed? {
      forall e | e in rows
        ensures HandledAs(WorkTake(w, c).log, sub, e, if b.runs < 3 then handle(MessageOf(e)) else Some(Temporary))
      {
        ClosedLeaves(w, pass, sub, b, handle, rows, c.verdicts, e);
      }
    }
  }

  /** handleBatch: a call that opens a batch and runs its handlers is a step that opens it and
      a step that ends the work; any other call leaves at most an open batch behind. */
  method HandleBatch(q: Queue, sub: nat, ctx: Context, handle: Message -> Option<Failure>, faults: Faults,
                     ghost start: State, ghost w: Work)
    returns (r: Result<Option<nat>, WorkerError>, ending: Ending, ghost rows: seq<Event>, ghost a: WorkStep, ghost steps: seq<WorkStep>)
    requires WorkInv(start, w) && Shows(q, w)
    modifies q
    ensures Did(w, steps, q.Contents(), q.runs)
    ensures ending.NoBatch? <==> r == Ok(None)
    ensures ending.Broke? <==> r.Err?
    ensures ending.LeftOpen? || ending.Closed? ==>
      && r == Ok(Some(|ending.batch.msgs|))
      && WorkEnabled(w, a) && |steps| == 2 && steps[0] == a
      && AtWork(WorkTake(w, a), w.nextPass, sub, ending.batch.id, ending.batch.runs < MAX_BATCH_RUNS)
      && Reading(WorkTake(w, a).log, sub, rows) && ending.batch.msgs == Messages(rows)
      && Ends(ending, ending.batch, rows, ctx, handle, faults, WorkTake(w, a).log.maxRetries, steps[1])
    ensures ending.LeftOpen? ==>
      && ending.batch.runs < 3 && q.Contents() == WorkTake(w, a).log
      && exists i :: 0 <= i < |ending.batch.msgs| && StoppedAt(ending.batch.msgs, handle, ctx, i)
    ensures ending.Closed? ==>
      && (ending.batch.runs < 3 ==> forall i :: 0 <= i < |ending.batch.msgs| ==> !StoppedAt(ending.batch.msgs, handle, ctx, i))
      && forall e :: e in rows ==>
           HandledAs(q.Contents(), sub, e, if ending.batch.runs < 3 then handle(MessageOf(e)) else Some(Temporary))
  {
    var found;
    found, rows, a, steps := OpenBatch(q, sub, faults, start, w);
    if found.Err? {
      return Err(found.error), Broke, rows, a, steps;
    }
    if found.value == None {
      return Ok(None), NoBatch, rows, a, steps;
    }
    var b := found.value.value;
    ghost var c;
    ending, c := EndBatch(q, sub, b, ctx, handle, faults, rows, WorkTake(w, a), w.nextPass);
    steps := [a, c];
    DidTwo(w, a, c);
    HandledBatch(WorkTake(w, a), w.nextPass, sub, b, ctx, handle, faults, rows, ending, c);
    var n: nat := |b.msgs|;
    r := if ending.Broke? then Err(Connection) else Ok(Some(n));
  }

  /** A stop costs nothing: an open and a stored stop of the same batch leave the log, the
      count that the next open reports, and the passes that each message spent as they
      were. Without the store, the stop costs one run and one pass. */
  lemma StopCostsNothing(w: Work, s: nat, stored: bool)
    requires Pointed(w.log.feed) && HasBatch(w.log, s) && BatchesKnown(w)
    requires Of(w.runs, w.log.feed.subs[s].batch.value.id) + 1 < MAX_BATCH_RUNS
    ensures WorkEnabled(Reopened(w, s), Stop(w.nextPass, stored))
    ensures var b, u := w.log.feed.subs[s].batch.value.id, WorkTake(Reopened(w, s), Stop(w.nextPass, stored));
            && u.log == w.log
            && (forall k :: Of(u.spent, k) == Of(w.spent, k) + (if !stored && k in Keys(s, Batch(w.log, s)) then 1 else 0))
            && ReportedRuns(u, b) == ReportedRuns(w, b) + (if stored then 0 else 1)
            && u.passes == w.passes
  {
    var v := Reopened(w, s);
    CountsAgain(w, s);
    assert w.nextPass !in w.passes;
    assert v.passes - {w.nextPass} == w.passes;
  }

  /** A stop of the first open costs nothing either: the next open reports no earlier run. */
  lemma FirstStopCostsNothing(w: Work, s: nat, next: nat, stored: bool)
    requires BatchesKnown(w) && WorkEnabled(w, OpenNew(s, next)) && Pointed(Take(w.log, Open(s, next)).feed)
    ensures WorkEnabled(WorkTake(w, OpenNew(s, next)), Stop(w.nextPass, stored))
    ensures var u := WorkTake(WorkTake(w, OpenNew(s, next)), Stop(w.nextPass, stored));
            && u.log == Take(w.log, Open(s, next)) && HasBatch(u.log, s) && Pointed(u.log.feed)
            && (forall k :: Of(u.spent, k) == Of(w.spent, k) + (if !stored && k in Keys(s, Batch(u.log, s)) then 1 else 0))
            && ReportedRuns(u, w.log.feed.nextBatch) == if stored then 0 else 1
  {
    StartsFirst(w, s, next);
    StopUndoes(w, WorkTake(w, OpenNew(s, next)), w.nextPass, stored);
  }

  lemma StartsFirst(w: Work, s: nat, next: nat)
    requires WorkEnabled(w, OpenNew(s, next)) && Pointed(Take(w.log, Open(s, next)).feed)
    ensures var v, st := WorkTake(w, OpenNew(s, next)), Take(w.log, Open(s, next));
            && v.log == st && v.runs == w.runs && HasBatch(st, s)
            && w.nextPass in v.passes && v.passes[w.nextPass] == Pass(s, w.log.feed.nextBatch, Batch(st, s), true)
            && v.spent == Add(w.spent, Keys(s, Batch(st, s)), 1)
  {
  }

  lemma StopUndoes(w: Work, v: Work, p: nat, stored: bool)
    requires Pointed(v.log.feed) && p in v.passes && v.passes[p].handles && v.runs == w.runs
    requires v.spent == Add(w.spent, Keys(v.passes[p].sub, v.passes[p].msgs), 1)
    ensures WorkEnabled(v, Stop(p, stored))
    ensures var b, u := v.passes[p].batch, WorkTake(v, Stop(p, stored));
            && u.log == v.log
            && (forall k :: Of(u.spent, k) ==
                 Of(w.spent, k) + (if !stored && k in Keys(v.passes[p].sub, v.passes[p].msgs) then 1 else 0))
            && Of(u.runs, b) == Of(w.runs, b) - (if stored then 1 else 0)
  {
  }
}
