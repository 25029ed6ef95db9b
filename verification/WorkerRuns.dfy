/** The worker on top of the log: how often the handlers of a message run. Any number of
    workers can work on one batch: after a lost lock the old one may still run. */
module WorkerRuns {
  import opened Wrappers
  import opened Snapshots
  import opened EventLog
  import opened LogStore
  import opened LogReading
  import opened Places
  import opened LogMessages
  import opened LogRuns
  import opened LogTheorems

  /** A batch that came back open this often does not run its handlers again. */
  const MAX_BATCH_RUNS: int := 3

  /** One worker at work on an open batch, with the messages it read. handles is false
      for a batch that the worker gives up. */
  datatype Pass = Pass(sub: nat, batch: nat, msgs: set<Event>, handles: bool)

  /** What happened to a batch: the times it was opened, its stops, those among them that could
      not be taken back from its count, the opens that its count does not show, and the passes
      through its handlers that no stop took back. */
  datatype Tally = Tally(opens: int, stops: int, unstored: int, forgotten: int, handled: int)

  /** runs is the table queue_batch_runs. spent counts, for a message, the passes of its
      batches through the handlers that no stop took back; forgotten, the runs that the counts
      of its batches do not show. HandlerRuns counts the runs of its own handler. */
  datatype Work = Work(
    log: State, runs: map<nat, int>, passes: map<nat, Pass>, nextPass: nat,
    tallies: map<nat, Tally>, spent: map<Key, int>, forgotten: map<Key, int>)

  function Of<K>(m: map<K, int>, k: K): int {
    if k in m then m[k] else 0
  }

  function Add(m: map<Key, int>, keys: set<Key>, n: int): (r: map<Key, int>)
    ensures forall k :: Of(r, k) == if k in keys then Of(m, k) + n else Of(m, k)
  {
    m + map k | k in keys :: Of(m, k) + n
  }

  datatype WorkStep =
    | LogStep(step: Step)
    | OpenNew(sub: nat, next: nat)
    | Reopen(sub: nat)
    | ReopenUnseen(sub: nat)
    | Stop(pass: nat, stored: bool)
    | Crash(pass: nat)
    | Settle(pass: nat, verdicts: map<Event, Verdict>)
    | PurgeRuns(batch: nat)

  ghost predicate WorkEnabled(w: Work, a: WorkStep) {
    && Pointed(w.log.feed)
    && match a
       case LogStep(step) => Enabled(w.log, step) && !step.Open? && !step.Finish?
       case OpenNew(s, next) => Enabled(w.log, Open(s, next))
       case Reopen(s) => HasBatch(w.log, s)
       case ReopenUnseen(s) => HasBatch(w.log, s)
       case Stop(p, _) => p in w.passes && w.passes[p].handles
       case Crash(p) => p in w.passes
       case Settle(p, verdicts) =>
         && p in w.passes
         && verdicts.Keys == w.passes[p].msgs
         && (!w.passes[p].handles ==> forall e :: e in verdicts ==> verdicts[e] != Done)
         && Enabled(w.log, Finish(w.passes[p].sub, w.passes[p].batch, verdicts))
       case PurgeRuns(b) => b in w.runs
  }

  const NO_TALLY := Tally(0, 0, 0, 0, 0)

  function TallyOf(w: Work, b: nat): Tally {
    if b in w.tallies then w.tallies[b] else NO_TALLY
  }

  /** A worker starts on the open batch. */
  ghost function Start(w: Work, s: nat, handles: bool): Work
    requires Pointed(w.log.feed) && HasBatch(w.log, s)
  {
    var b, msgs := w.log.feed.subs[s].batch.value.id, Batch(w.log, s);
    var t := TallyOf(w, b);
    w.(passes := w.passes[w.nextPass := Pass(s, b, msgs, handles)], nextPass := w.nextPass + 1,
       tallies := w.tallies[b := t.(opens := t.opens + 1, handled := if handles then t.handled + 1 else t.handled)],
       spent := if handles then Add(w.spent, Keys(s, msgs), 1) else w.spent)
  }

  /** The batch was open before: countRun adds 1 and returns the new count. */
  ghost function Reopened(w: Work, s: nat): Work
    requires Pointed(w.log.feed) && HasBatch(w.log, s)
  {
    var b := w.log.feed.subs[s].batch.value.id;
    var n := Of(w.runs, b) + 1;
    Start(w.(runs := w.runs[b := n]), s, n < MAX_BATCH_RUNS)
  }

  ghost function WorkTake(w: Work, a: WorkStep): Work
    requires WorkEnabled(w, a)
  {
    match a
    case LogStep(step) =>
      w.(log := Take(w.log, step))
    case OpenNew(s, next) =>
      // next_batch gives a new id, so there is nothing to count.
      Start(w.(log := Take(w.log, Open(s, next))), s, true)
    case Reopen(s) =>
      Reopened(w, s)
    case ReopenUnseen(s) =>
      // currentBatch did not report this batch: its read failed, or another worker
      // opened the batch between the two calls.
      Start(Forget(w, w.log.feed.subs[s].batch.value.id, Keys(s, Batch(w.log, s)), 1), s, true)
    case Stop(p, stored) =>
      // leaveOpen: uncountRun takes 1 back, if the database is there.
      var pass := w.passes[p];
      var t := TallyOf(w, pass.batch);
      w.(passes := w.passes - {p},
         runs := if stored then w.runs[pass.batch := Of(w.runs, pass.batch) - 1] else w.runs,
         tallies := w.tallies[pass.batch := if stored then t.(stops := t.stops + 1, handled := t.handled - 1)
                                            else t.(stops := t.stops + 1, unstored := t.unstored + 1)],
         spent := if stored then Add(w.spent, Keys(pass.sub, pass.msgs), -1) else w.spent)
    case Crash(p) =>
      w.(passes := w.passes - {p})
    case Settle(p, verdicts) =>
      var pass := w.passes[p];
      w.(passes := w.passes - {p}, runs := w.runs - {pass.batch},
         log := Take(w.log, Finish(pass.sub, pass.batch, verdicts)))
    case PurgeRuns(b) =>
      Forget(w, b, OpenKeys(w.log, b), w.runs[b]).(runs := w.runs - {b})
  }

  /** The count of the batch misses n runs from here on. */
  ghost function Forget(w: Work, b: nat, keys: set<Key>, n: int): Work {
    var t := TallyOf(w, b);
    w.(tallies := w.tallies[b := t.(forgotten := t.forgotten + n)], forgotten := Add(w.forgotten, keys, n))
  }

  /** The messages of the subscription that has this batch open. */
  ghost function OpenKeys(st: State, b: nat): set<Key>
    requires Pointed(st.feed)
  {
    set s, e | s in st.feed.subs && OpenAs(st, s, b) && e in Batch(st, s) :: Key(s, e.id)
  }

  ghost predicate WorkInit(w: Work) {
    && Init(w.log)
    && w.runs == map[] && w.passes == map[] && w.nextPass == 0
    && w.tallies == map[] && w.spent == map[] && w.forgotten == map[]
  }

  // ---- invariants

  /** The stored count of an open batch is the number of its opens after the first, less
      the stops that were taken back and less what it forgot. */
  ghost predicate CountedAt(w: Work, b: nat) {
    var t := TallyOf(w, b);
    && Of(w.runs, b) == t.opens - 1 - (t.stops - t.unstored) - t.forgotten
    && t.handled <= t.opens - (t.stops - t.unstored)
    && t.handled <= MAX_BATCH_RUNS + t.forgotten
  }

  ghost predicate Counted(w: Work) {
    forall s, b :: OpenAs(w.log, s, b) ==> CountedAt(w, b)
  }

  ghost predicate BatchesKnown(w: Work) {
    && (forall b :: b in w.tallies || b in w.runs ==> b < w.log.feed.nextBatch)
    && (forall p :: p in w.passes ==> p < w.nextPass && w.passes[p].batch < w.log.feed.nextBatch)
  }

  /** A worker on an open batch holds the messages of the batch. */
  ghost predicate ReadsBatch(st: State, pass: Pass)
    requires Pointed(st.feed)
  {
    && (forall u :: OpenAs(st, u, pass.batch) ==> u == pass.sub && pass.msgs == Batch(st, u))
    && (forall e :: e in pass.msgs ==> pass.sub in st.feed.subs && SentAndCommitted(st, e.id))
  }

  ghost predicate Reads(w: Work)
    requires Pointed(w.log.feed)
  {
    forall p :: p in w.passes ==> ReadsBatch(w.log, w.passes[p])
  }

  /** The passes that a waiting row may have spent: three for each earlier delivery, and
      those of its open batch. */
  ghost function Allowance(w: Work, s: nat, e: Event): int
    requires Pointed(w.log.feed) && s in w.log.feed.subs
  {
    var here :=
      if HasBatch(w.log, s) && e in Batch(w.log, s) then
        var t := TallyOf(w, w.log.feed.subs[s].batch.value.id);
        t.handled - t.forgotten
      else 0;
    MAX_BATCH_RUNS * e.retry + here + Of(w.forgotten, Key(s, e.id))
  }

  ghost predicate WaitingBounded(w: Work)
    requires Pointed(w.log.feed)
  {
    forall s, e :: s in w.log.feed.subs && Unread(w.log, s, e) ==> Of(w.spent, Key(s, e.id)) <= Allowance(w, s, e)
  }

  ghost predicate ParkedBounded(w: Work) {
    forall k :: k in w.log.parked.retries ==>
      Of(w.spent, k) <= MAX_BATCH_RUNS * w.log.parked.retries[k].retry + Of(w.forgotten, k)
  }

  ghost predicate EndedBounded(w: Work) {
    forall k :: k in w.log.parked.dead || k in w.log.history.done || k in w.log.history.purged ==>
      Of(w.spent, k) <= MAX_BATCH_RUNS * (w.log.maxRetries + 1) + Of(w.forgotten, k)
  }

  ghost predicate UnsentBounded(w: Work) {
    forall k: Key :: !(k.sub in w.log.feed.subs && SentAndCommitted(w.log, k.id)) ==>
      Of(w.spent, k) == 0 && Of(w.forgotten, k) == 0
  }

  ghost predicate Bounded(w: Work)
    requires Pointed(w.log.feed)
  {
    WaitingBounded(w) && ParkedBounded(w) && EndedBounded(w) && UnsentBounded(w)
  }

  ghost predicate WorkInv(start: State, w: Work) {
    Inv(start, w.log) && Counted(w) && BatchesKnown(w) && Reads(w) && Bounded(w)
  }

  lemma WorkInitInv(w: Work)
    requires WorkInit(w)
    ensures WorkInv(w.log, w)
  {
    InitInv(w.log);
  }

  // ---- steps of the log

  /** A row becomes unread when its producer commits, or when it comes back from the
      retry queue with the count it had there. */
  lemma NewlyUnread(st: State, step: Step, s: nat, e: Event)
    requires StoreInv(st) && RowInv(st) && Enabled(st, step) && !step.Finish?
    requires Pointed(Take(st, step).feed) && s in st.feed.subs && Unread(Take(st, step), s, e)
    ensures || Unread(st, s, e)
            || (e.retry == 0 && !SentAndCommitted(st, e.id))
            || (Key(s, e.id) in st.parked.retries && st.parked.retries[Key(s, e.id)].retry == e.retry)
  {
    OnlyFinishMoves(st, step, s);
    match step {
      case Commit(x) => CommitSendsOnly(st, x, e);
      case CommitMove => CommitMoveBringsBack(st, e);
      case _ => OthersCommitNoRow(st, step, e);
    }
  }

  ghost predicate CommittedRow(st: State, e: Event) {
    e in st.history.written && e.txid in st.tx.committed
  }

  lemma CommitSendsOnly(st: State, x: nat, e: Event)
    requires FeedInv(st) && RowInv(st) && Enabled(st, Commit(x)) && CommittedRow(Take(st, Commit(x)), e)
    ensures CommittedRow(st, e) || (e.retry == 0 && !SentAndCommitted(st, e.id))
  {
    assert Genuine(st, e);
  }

  lemma CommitMoveBringsBack(st: State, e: Event)
    requires FeedInv(st) && Moving(st) && Enabled(st, CommitMove) && CommittedRow(Take(st, CommitMove), e)
    ensures || CommittedRow(st, e)
            || (e.owner.Some? && var k := Key(e.owner.value, e.id); k in st.parked.retries && st.parked.retries[k].retry == e.retry)
  {
  }

  lemma OthersCommitNoRow(st: State, step: Step, e: Event)
    requires FeedInv(st) && Moving(st) && QuietRotation(st) && Enabled(st, step) && !step.Commit? && !step.CommitMove?
    requires CommittedRow(Take(st, step), e)
    ensures CommittedRow(st, e)
  {
  }

  /** What else a step of the log leaves as it was. */
  lemma LogStepFrame(st: State, step: Step)
    requires StoreInv(st) && RowInv(st) && Enabled(st, step) && !step.Finish? && !step.Open?
    ensures var st' := Take(st, step);
            && st'.feed.subs == st.feed.subs && st'.feed.nextBatch == st.feed.nextBatch
            && (forall k :: k in st'.parked.retries ==> k in st.parked.retries && st'.parked.retries[k] == st.parked.retries[k])
            && (forall k :: k in st'.parked.dead || k in st'.history.done || k in st'.history.purged ==>
                 k in st.parked.dead || k in st.history.done || k in st.history.purged)
            && st'.maxRetries == st.maxRetries
            && (forall id :: SentAndCommitted(st, id) ==> SentAndCommitted(st', id))
  {
  }

  lemma LogStepKeepsWork(start: State, w: Work, step: Step)
    requires WorkInv(start, w) && WorkEnabled(w, LogStep(step))
    ensures WorkInv(start, WorkTake(w, LogStep(step)))
  {
    StepKeepsInv(start, w.log, step);
    LogStepKeepsBatches(w, step);
    LogStepKeepsCounts(w, step);
    LogStepKeepsWaiting(w, step);
    LogStepFrame(w.log, step);
  }

  lemma LogStepKeepsBatches(w: Work, step: Step)
    requires StoreInv(w.log) && RowInv(w.log) && WorkEnabled(w, LogStep(step)) && Pointed(Take(w.log, step).feed)
    ensures forall s, b :: OpenAs(Take(w.log, step), s, b) <==> OpenAs(w.log, s, b)
    ensures forall s :: HasBatch(w.log, s) ==> HasBatch(Take(w.log, step), s) && Batch(Take(w.log, step), s) == Batch(w.log, s)
  {
    LogStepFrame(w.log, step);
    forall s | HasBatch(w.log, s)
      ensures HasBatch(Take(w.log, step), s) && Batch(Take(w.log, step), s) == Batch(w.log, s)
    {
      BatchStays(w.log, step, s);
    }
  }

  lemma LogStepKeepsCounts(w: Work, step: Step)
    requires StoreInv(w.log) && RowInv(w.log) && WorkEnabled(w, LogStep(step)) && Pointed(Take(w.log, step).feed)
    requires forall s, b :: OpenAs(Take(w.log, step), s, b) <==> OpenAs(w.log, s, b)
    requires forall s :: HasBatch(w.log, s) ==> HasBatch(Take(w.log, step), s) && Batch(Take(w.log, step), s) == Batch(w.log, s)
    requires Counted(w) && BatchesKnown(w) && Reads(w)
    ensures var v := WorkTake(w, LogStep(step)); Counted(v) && BatchesKnown(v) && Reads(v)
  {
    var v := WorkTake(w, LogStep(step));
    LogStepFrame(w.log, step);
    forall u, c | OpenAs(v.log, u, c) ensures CountedAt(v, c) {
      assert CountedAt(w, c);
    }
    forall p | p in v.passes ensures ReadsBatch(v.log, v.passes[p]) {
      assert ReadsBatch(w.log, w.passes[p]);
    }
  }

  lemma LogStepKeepsWaiting(w: Work, step: Step)
    requires StoreInv(w.log) && RowInv(w.log) && WorkEnabled(w, LogStep(step)) && Pointed(Take(w.log, step).feed)
    requires WaitingBounded(w) && ParkedBounded(w) && UnsentBounded(w)
    requires forall s :: HasBatch(w.log, s) ==> HasBatch(Take(w.log, step), s) && Batch(Take(w.log, step), s) == Batch(w.log, s)
    ensures WaitingBounded(WorkTake(w, LogStep(step)))
  {
    var st, st', w' := w.log, Take(w.log, step), WorkTake(w, LogStep(step));
    LogStepFrame(st, step);
    forall s, e | s in st.feed.subs && Unread(st', s, e)
      ensures Of(w.spent, Key(s, e.id)) <= Allowance(w', s, e)
    {
      NewlyUnread(st, step, s, e);
      SameAllowance(w, w', s, e);
      WaitsWithin(w, s, e);
    }
  }

  lemma SameAllowance(w: Work, v: Work, s: nat, e: Event)
    requires Pointed(w.log.feed) && Pointed(v.log.feed) && s in w.log.feed.subs
    requires v.log.feed.subs == w.log.feed.subs && v.tallies == w.tallies && v.forgotten == w.forgotten
    requires HasBatch(w.log, s) ==> Batch(v.log, s) == Batch(w.log, s)
    ensures Allowance(v, s, e) == Allowance(w, s, e)
  {
  }

  lemma WaitsWithin(w: Work, s: nat, e: Event)
    requires Pointed(w.log.feed) && WaitingBounded(w) && ParkedBounded(w) && UnsentBounded(w) && s in w.log.feed.subs
    requires || Unread(w.log, s, e)
             || (e.retry == 0 && !SentAndCommitted(w.log, e.id))
             || (Key(s, e.id) in w.log.parked.retries && w.log.parked.retries[Key(s, e.id)].retry == e.retry)
    ensures Of(w.spent, Key(s, e.id)) <= Allowance(w, s, e)
  {
  }

  // ---- a worker starts

  /** The messages of an open batch are nowhere else. */
  lemma BatchKeysWait(st: State, s: nat, k: Key)
    requires Pointed(st.feed) && Conserved(ViewOf(st)) && HasBatch(st, s) && k in Keys(s, Batch(st, s))
    ensures k.sub == s && SentAndCommitted(st, k.id)
    ensures k !in st.parked.retries && k !in st.parked.dead && k !in st.history.done && k !in st.history.purged
    ensures forall e :: Unread(st, s, e) && e.id == k.id ==> e in Batch(st, s)
  {
    var f :| f in Batch(st, s) && k == Key(s, f.id);
    assert Entry(s, f) in Log(st);
    FailuresAreNew(st, s, f);
    forall e | Unread(st, s, e) && e.id == k.id ensures e == f {
      assert Entry(s, e) in Log(st);
    }
  }

  /** Another pass over the batch costs each of its messages one, and the batch allows
      one more. */
  lemma StartKeepsBounds(w: Work, s: nat, handles: bool)
    requires Pointed(w.log.feed) && Conserved(ViewOf(w.log)) && HasBatch(w.log, s) && Bounded(w)
    requires forall u, c :: OpenAs(w.log, u, c) && c == w.log.feed.subs[s].batch.value.id ==> u == s
    ensures Bounded(Start(w, s, handles))
  {
    var st, v := w.log, Start(w, s, handles);
    var keys := Keys(s, Batch(st, s));
    forall k | k in keys
      ensures k.sub == s && SentAndCommitted(st, k.id)
      ensures k !in st.parked.retries && k !in st.parked.dead && k !in st.history.done && k !in st.history.purged
    {
      BatchKeysWait(st, s, k);
    }
    forall u, e | u in st.feed.subs && Unread(st, u, e)
      ensures Of(v.spent, Key(u, e.id)) <= Allowance(v, u, e)
    {
      assert Of(w.spent, Key(u, e.id)) <= Allowance(w, u, e);
      if u == s {
        if e in Batch(st, s) {
          assert Key(s, e.id) in keys;
        } else if Key(s, e.id) in keys {
          BatchKeysWait(st, s, Key(s, e.id));
        }
      } else if HasBatch(st, u) {
        assert OpenAs(st, u, st.feed.subs[u].batch.value.id);
      }
    }
  }

  lemma StartKeepsReads(w: Work, s: nat, handles: bool)
    requires Pointed(w.log.feed) && Conserved(ViewOf(w.log)) && HasBatch(w.log, s) && Reads(w) && BatchesKnown(w)
    requires w.log.feed.subs[s].batch.value.id < w.log.feed.nextBatch
    requires forall u, c :: OpenAs(w.log, u, c) && c == w.log.feed.subs[s].batch.value.id ==> u == s
    ensures var v := Start(w, s, handles); Reads(v) && BatchesKnown(v)
  {
    forall e | e in Batch(w.log, s) ensures SentAndCommitted(w.log, e.id) {
      assert Key(s, e.id) in Keys(s, Batch(w.log, s));
      BatchKeysWait(w.log, s, Key(s, e.id));
    }
    var v := Start(w, s, handles);
    forall p | p in v.passes ensures ReadsBatch(v.log, v.passes[p]) {
      assert p in w.passes ==> ReadsBatch(w.log, w.passes[p]);
    }
  }

  lemma OpenIsUnique(start: State, st: State, s: nat)
    requires Inv(start, st) && HasBatch(st, s)
    ensures st.feed.subs[s].batch.value.id < st.feed.nextBatch
    ensures forall u, c :: OpenAs(st, u, c) && c == st.feed.subs[s].batch.value.id ==> u == s
  {
  }

  lemma StartKeepsCounted(w: Work, s: nat, handles: bool)
    requires Pointed(w.log.feed) && HasBatch(w.log, s)
    requires var b := w.log.feed.subs[s].batch.value.id;
             var t := TallyOf(w, b);
             && (forall u, c :: OpenAs(w.log, u, c) && c != b ==> CountedAt(w, c))
             && Of(w.runs, b) == t.opens - (t.stops - t.unstored) - t.forgotten
             && t.handled <= t.opens - (t.stops - t.unstored)
             && t.handled + (if handles then 1 else 0) <= MAX_BATCH_RUNS + t.forgotten
    ensures Counted(Start(w, s, handles))
  {
  }

  lemma ReopenKeepsWork(start: State, w: Work, s: nat)
    requires WorkInv(start, w) && WorkEnabled(w, Reopen(s))
    ensures WorkInv(start, WorkTake(w, Reopen(s)))
  {
    OpenIsUnique(start, w.log, s);
    ReopenCounts(w, s);
    ReopenBounds(w, s);
  }

  lemma ReopenBounds(w: Work, s: nat)
    requires Pointed(w.log.feed) && Conserved(ViewOf(w.log)) && HasBatch(w.log, s) && Bounded(w)
    requires forall u, c :: OpenAs(w.log, u, c) && c == w.log.feed.subs[s].batch.value.id ==> u == s
    ensures Bounded(Reopened(w, s))
  {
    var handles := Of(w.runs, w.log.feed.subs[s].batch.value.id) + 1 < MAX_BATCH_RUNS;
    StartKeepsBounds(w, s, handles);
    RunsAreNotBounds(Start(w, s, handles), Reopened(w, s));
  }

  lemma RunsAreNotBounds(w: Work, v: Work)
    requires Pointed(w.log.feed) && Bounded(w)
    requires v.log == w.log && v.tallies == w.tallies && v.spent == w.spent && v.forgotten == w.forgotten
    ensures Bounded(v)
  {
  }

  lemma ReopenCounts(w: Work, s: nat)
    requires Pointed(w.log.feed) && HasBatch(w.log, s)
    requires Counted(w) && BatchesKnown(w) && Reads(w) && Conserved(ViewOf(w.log))
    requires w.log.feed.subs[s].batch.value.id < w.log.feed.nextBatch
    requires forall u, c :: OpenAs(w.log, u, c) && c == w.log.feed.subs[s].batch.value.id ==> u == s
    ensures var v := Reopened(w, s); Counted(v) && BatchesKnown(v) && Reads(v)
  {
    var b := w.log.feed.subs[s].batch.value.id;
    var n := Of(w.runs, b) + 1;
    ReopenIsCounted(w, s);
    StartKeepsReads(w.(runs := w.runs[b := n]), s, n < MAX_BATCH_RUNS);
  }

  lemma ReopenIsCounted(w: Work, s: nat)
    requires Pointed(w.log.feed) && HasBatch(w.log, s) && Counted(w)
    ensures Counted(Reopened(w, s))
  {
    var b := w.log.feed.subs[s].batch.value.id;
    var n := Of(w.runs, b) + 1;
    var v := w.(runs := w.runs[b := n]);
    assert OpenAs(w.log, s, b);
    forall u, c | OpenAs(w.log, u, c) && c != b ensures CountedAt(v, c) {
      assert CountedAt(w, c);
    }
    StartKeepsCounted(v, s, n < MAX_BATCH_RUNS);
  }

  /** A count that misses n runs of an open batch: the allowance stays the same. */
  lemma ForgetKeepsBounds(w: Work, s: nat, n: int)
    requires Pointed(w.log.feed) && Conserved(ViewOf(w.log)) && HasBatch(w.log, s) && Bounded(w)
    requires forall u, c :: OpenAs(w.log, u, c) && c == w.log.feed.subs[s].batch.value.id ==> u == s
    ensures Bounded(Forget(w, w.log.feed.subs[s].batch.value.id, Keys(s, Batch(w.log, s)), n))
  {
    var st, keys := w.log, Keys(s, Batch(w.log, s));
    var v := Forget(w, w.log.feed.subs[s].batch.value.id, keys, n);
    forall k | k in keys
      ensures k.sub == s && SentAndCommitted(st, k.id)
      ensures k !in st.parked.retries && k !in st.parked.dead && k !in st.history.done && k !in st.history.purged
    {
      BatchKeysWait(st, s, k);
    }
    forall u, e | u in st.feed.subs && Unread(st, u, e)
      ensures Allowance(v, u, e) == Allowance(w, u, e)
    {
      if u == s {
        if e in Batch(st, s) {
          assert Key(s, e.id) in keys;
        } else if Key(s, e.id) in keys {
          BatchKeysWait(st, s, Key(s, e.id));
        }
      } else if HasBatch(st, u) {
        assert OpenAs(st, u, st.feed.subs[u].batch.value.id);
      }
    }
  }

  lemma ReopenUnseenKeepsWork(start: State, w: Work, s: nat)
    requires WorkInv(start, w) && WorkEnabled(w, ReopenUnseen(s))
    ensures WorkInv(start, WorkTake(w, ReopenUnseen(s)))
  {
    var b := w.log.feed.subs[s].batch.value.id;
    OpenIsUnique(start, w.log, s);
    ReopenUnseenCounts(w, s);
    ForgetKeepsBounds(w, s, 1);
    StartKeepsBounds(Forget(w, b, Keys(s, Batch(w.log, s)), 1), s, true);
  }

  lemma ReopenUnseenCounts(w: Work, s: nat)
    requires WorkEnabled(w, ReopenUnseen(s)) && Counted(w) && BatchesKnown(w) && Reads(w) && Conserved(ViewOf(w.log))
    requires w.log.feed.subs[s].batch.value.id < w.log.feed.nextBatch
    requires forall u, c :: OpenAs(w.log, u, c) && c == w.log.feed.subs[s].batch.value.id ==> u == s
    ensures var v := WorkTake(w, ReopenUnseen(s)); Counted(v) && BatchesKnown(v) && Reads(v)
  {
    var b := w.log.feed.subs[s].batch.value.id;
    var v := Forget(w, b, Keys(s, Batch(w.log, s)), 1);
    assert OpenAs(w.log, s, b);
    forall u, c | OpenAs(w.log, u, c) && c != b ensures CountedAt(v, c) {
      assert CountedAt(w, c);
    }
    StartKeepsCounted(v, s, true);
    StartKeepsReads(v, s, true);
  }

  lemma OpenNewKeepsWork(start: State, w: Work, s: nat, next: nat)
    requires WorkInv(start, w) && WorkEnabled(w, OpenNew(s, next))
    ensures WorkInv(start, WorkTake(w, OpenNew(s, next)))
  {
    StepKeepsInv(start, w.log, Open(s, next));
    OpenIsUnique(start, Take(w.log, Open(s, next)), s);
    OpenNewFrame(w.log, s, next);
    OpenNewCounts(w, s, next);
    OpenNewBounds(w, s, next);
    StartKeepsBounds(w.(log := Take(w.log, Open(s, next))), s, true);
  }

  lemma OpenNewCounts(w: Work, s: nat, next: nat)
    requires StoreInv(w.log) && RowInv(w.log) && WorkEnabled(w, OpenNew(s, next))
    requires Counted(w) && BatchesKnown(w) && Reads(w)
    requires Pointed(Take(w.log, Open(s, next)).feed) && Conserved(ViewOf(Take(w.log, Open(s, next))))
    requires forall u, c :: OpenAs(Take(w.log, Open(s, next)), u, c) && c == w.log.feed.nextBatch ==> u == s
    ensures var v := WorkTake(w, OpenNew(s, next)); Counted(v) && BatchesKnown(v) && Reads(v)
  {
    OpenNewFrame(w.log, s, next);
    OpenNewReads(w, s, next);
    NewBatchIsCounted(w, w.(log := Take(w.log, Open(s, next))), s);
    StartKeepsReads(w.(log := Take(w.log, Open(s, next))), s, true);
  }

  lemma NewBatchIsCounted(w: Work, v: Work, s: nat)
    requires Pointed(v.log.feed) && HasBatch(v.log, s) && v.log.feed.subs[s].batch.value.id == w.log.feed.nextBatch
    requires v.runs == w.runs && v.tallies == w.tallies && Counted(w) && BatchesKnown(w)
    requires forall u, c :: OpenAs(v.log, u, c) && c == w.log.feed.nextBatch ==> u == s
    requires forall u, c :: u != s ==> (OpenAs(v.log, u, c) <==> OpenAs(w.log, u, c))
    ensures Counted(Start(v, s, true))
  {
    var b := w.log.feed.nextBatch;
    assert TallyOf(w, b) == NO_TALLY && Of(w.runs, b) == 0;
    forall u, c | OpenAs(v.log, u, c) && c != b ensures CountedAt(v, c) {
      assert CountedAt(w, c);
    }
    StartKeepsCounted(v, s, true);
  }

  lemma OpenNewReads(w: Work, s: nat, next: nat)
    requires StoreInv(w.log) && RowInv(w.log) && WorkEnabled(w, OpenNew(s, next)) && BatchesKnown(w) && Reads(w)
    requires Pointed(Take(w.log, Open(s, next)).feed)
    ensures var v := w.(log := Take(w.log, Open(s, next))); BatchesKnown(v) && Reads(v)
  {
    var v := w.(log := Take(w.log, Open(s, next)));
    OpenNewFrame(w.log, s, next);
    forall p | p in v.passes ensures ReadsBatch(v.log, v.passes[p]) {
      assert ReadsBatch(w.log, w.passes[p]);
      NewBatchIsUnread(w.log, v.log, s, w.passes[p]);
    }
  }

  lemma NewBatchIsUnread(st: State, st': State, s: nat, pass: Pass)
    requires Pointed(st.feed) && Pointed(st'.feed) && ReadsBatch(st, pass) && st'.feed.subs.Keys == st.feed.subs.Keys
    requires !OpenAs(st', s, pass.batch)
    requires forall u, b :: u != s ==> (OpenAs(st', u, b) <==> OpenAs(st, u, b))
    requires forall u :: u != s && HasBatch(st, u) ==> HasBatch(st', u) && Batch(st', u) == Batch(st, u)
    requires forall id :: SentAndCommitted(st', id) <==> SentAndCommitted(st, id)
    ensures ReadsBatch(st', pass)
  {
  }

  lemma OpenNewBounds(w: Work, s: nat, next: nat)
    requires StoreInv(w.log) && RowInv(w.log) && WorkEnabled(w, OpenNew(s, next))
    requires BatchesKnown(w) && Bounded(w)
    ensures Pointed(Take(w.log, Open(s, next)).feed)
    ensures Bounded(w.(log := Take(w.log, Open(s, next))))
  {
    var st, v := w.log, w.(log := Take(w.log, Open(s, next)));
    OpenNewFrame(st, s, next);
    assert TallyOf(w, st.feed.nextBatch) == NO_TALLY;
    forall u, e | u in st.feed.subs && Unread(v.log, u, e)
      ensures Of(w.spent, Key(u, e.id)) <= Allowance(v, u, e)
    {
      OpenNewAllows(w, v, s, u, e);
    }
  }

  lemma OpenNewAllows(w: Work, v: Work, s: nat, u: nat, e: Event)
    requires Pointed(w.log.feed) && Pointed(v.log.feed) && u in w.log.feed.subs && u in v.log.feed.subs
    requires w.tallies == v.tallies && w.forgotten == v.forgotten
    requires !HasBatch(w.log, s)
    requires HasBatch(v.log, s) && TallyOf(w, v.log.feed.subs[s].batch.value.id) == NO_TALLY
    requires u != s ==> v.log.feed.subs[u] == w.log.feed.subs[u]
    requires u != s && HasBatch(w.log, u) ==> Batch(v.log, u) == Batch(w.log, u)
    ensures Allowance(v, u, e) == Allowance(w, u, e)
  {
  }

  lemma OpenNewFrame(st: State, s: nat, next: nat)
    requires StoreInv(st) && RowInv(st) && Enabled(st, Open(s, next))
    ensures var st' := Take(st, Open(s, next));
            && Pointed(st'.feed) && HasBatch(st', s)
            && (forall u, e :: u in st.feed.subs ==> (Unread(st', u, e) <==> Unread(st, u, e)))
            && (forall u :: u != s ==> (HasBatch(st', u) <==> HasBatch(st, u)))
            && (forall u :: u != s && HasBatch(st, u) ==> Batch(st', u) == Batch(st, u))
            && (forall u, b :: u != s ==> (OpenAs(st', u, b) <==> OpenAs(st, u, b)))
            && (forall id :: SentAndCommitted(st', id) <==> SentAndCommitted(st, id))
  {
  }

  // ---- a worker ends

  lemma StopKeepsWork(start: State, w: Work, p: nat, stored: bool)
    requires WorkInv(start, w) && WorkEnabled(w, Stop(p, stored))
    ensures WorkInv(start, WorkTake(w, Stop(p, stored)))
  {
    StopKeepsCounts(w, p, stored);
    StopKeepsBounds(w, p, stored);
  }

  lemma StopKeepsCounts(w: Work, p: nat, stored: bool)
    requires WorkEnabled(w, Stop(p, stored)) && Counted(w) && BatchesKnown(w) && Reads(w)
    ensures var v := WorkTake(w, Stop(p, stored)); Counted(v) && BatchesKnown(v) && Reads(v)
  {
  }

  lemma StopKeepsBounds(w: Work, p: nat, stored: bool)
    requires WorkEnabled(w, Stop(p, stored)) && Reads(w) && Bounded(w)
    ensures Bounded(WorkTake(w, Stop(p, stored)))
  {
    var st, v, pass := w.log, WorkTake(w, Stop(p, stored)), w.passes[p];
    forall u, e | u in st.feed.subs && Unread(st, u, e)
      ensures Of(v.spent, Key(u, e.id)) <= Allowance(v, u, e)
    {
      assert Of(w.spent, Key(u, e.id)) <= Allowance(w, u, e);
      if HasBatch(st, u) && e in Batch(st, u) && st.feed.subs[u].batch.value.id == pass.batch {
        assert OpenAs(st, u, pass.batch);
        assert Key(u, e.id) in Keys(pass.sub, pass.msgs);
      }
    }
  }

  lemma CrashKeepsWork(start: State, w: Work, p: nat)
    requires WorkInv(start, w) && WorkEnabled(w, Crash(p))
    ensures WorkInv(start, WorkTake(w, Crash(p)))
  {
    CrashKeepsCounts(w, p);
    RunsAreNotBounds(w, WorkTake(w, Crash(p)));
  }

  lemma CrashKeepsCounts(w: Work, p: nat)
    requires WorkEnabled(w, Crash(p)) && Counted(w) && BatchesKnown(w) && Reads(w)
    ensures var v := WorkTake(w, Crash(p)); Counted(v) && BatchesKnown(v) && Reads(v)
  {
  }

  lemma PurgeKeepsWork(start: State, w: Work, b: nat)
    requires WorkInv(start, w) && WorkEnabled(w, PurgeRuns(b))
    ensures WorkInv(start, WorkTake(w, PurgeRuns(b)))
  {
    PurgeKeepsCounts(w, b);
    if s :| OpenAs(w.log, s, b) {
      OpenIsUnique(start, w.log, s);
      OpenKeysAre(w.log, s, b);
      ForgetKeepsBounds(w, s, w.runs[b]);
    } else {
      assert OpenKeys(w.log, b) == {};
      ForgetNothing(w, b, w.runs[b]);
    }
    PurgeBounds(w, b);
  }

  lemma OpenKeysAre(st: State, s: nat, b: nat)
    requires Pointed(st.feed) && OpenAs(st, s, b) && forall u :: OpenAs(st, u, b) ==> u == s
    ensures OpenKeys(st, b) == Keys(s, Batch(st, s))
  {
  }

  lemma PurgeBounds(w: Work, b: nat)
    requires WorkEnabled(w, PurgeRuns(b)) && Bounded(Forget(w, b, OpenKeys(w.log, b), w.runs[b]))
    ensures Bounded(WorkTake(w, PurgeRuns(b)))
  {
    RunsAreNotBounds(Forget(w, b, OpenKeys(w.log, b), w.runs[b]), WorkTake(w, PurgeRuns(b)));
  }

  lemma ForgetNothing(w: Work, b: nat, n: int)
    requires Pointed(w.log.feed) && Bounded(w) && forall s :: !OpenAs(w.log, s, b)
    ensures Bounded(Forget(w, b, {}, n))
  {
    var v := Forget(w, b, {}, n);
    forall u, e | u in w.log.feed.subs && Unread(w.log, u, e)
      ensures Allowance(v, u, e) == Allowance(w, u, e)
    {
      if HasBatch(w.log, u) {
        assert !OpenAs(w.log, u, b);
      }
    }
  }

  lemma PurgeKeepsCounts(w: Work, b: nat)
    requires WorkEnabled(w, PurgeRuns(b)) && Counted(w) && BatchesKnown(w) && Reads(w)
    ensures var v := WorkTake(w, PurgeRuns(b)); Counted(v) && BatchesKnown(v) && Reads(v)
  {
  }

  // ---- a worker finishes

  lemma SettleKeepsWork(start: State, w: Work, p: nat, verdicts: map<Event, Verdict>)
    requires WorkInv(start, w) && WorkEnabled(w, Settle(p, verdicts))
    ensures WorkInv(start, WorkTake(w, Settle(p, verdicts)))
  {
    var pass := w.passes[p];
    StepKeepsInv(start, w.log, Finish(pass.sub, pass.batch, verdicts));
    SettleFrame(start, w.log, pass.sub, pass.batch, verdicts);
    SettleBringsNothingBack(w.log, pass.sub, pass.batch, verdicts);
    SettleKeepsCounts(w, p, verdicts);
    SettleKeepsWaiting(w, p, verdicts);
    SettleKeepsParked(w, p, verdicts);
  }

  /** Finishing touches no other batch ... */
  lemma SettleFrame(start: State, st: State, s: nat, b: nat, verdicts: map<Event, Verdict>)
    requires Inv(start, st) && Enabled(st, Finish(s, b, verdicts)) && Pointed(Take(st, Finish(s, b, verdicts)).feed)
    ensures var st' := Take(st, Finish(s, b, verdicts));
            && (forall u, c :: OpenAs(st', u, c) <==> OpenAs(st, u, c) && u != s)
            && (forall u :: OpenAs(st, u, b) ==> u == s)
            && (forall u :: u != s && HasBatch(st, u) ==> HasBatch(st', u) && Batch(st', u) == Batch(st, u))
            && (forall id :: SentAndCommitted(st', id) <==> SentAndCommitted(st, id))
            && !HasBatch(st', s)
  {
    OpenIsUnique(start, st, s);
    SettleOpens(st, s, b, verdicts);
    forall u | u != s && HasBatch(st, u)
      ensures HasBatch(Take(st, Finish(s, b, verdicts)), u) && Batch(Take(st, Finish(s, b, verdicts)), u) == Batch(st, u)
    {
      BatchStays(st, Finish(s, b, verdicts), u);
    }
  }

  lemma SettleOpens(st: State, s: nat, b: nat, verdicts: map<Event, Verdict>)
    requires Enabled(st, Finish(s, b, verdicts))
    ensures var st' := Take(st, Finish(s, b, verdicts));
            && (forall u, c :: OpenAs(st', u, c) <==> OpenAs(st, u, c) && u != s)
            && (forall id :: SentAndCommitted(st', id) <==> SentAndCommitted(st, id))
            && !HasBatch(st', s)
  {
  }

  /** ... and brings no row back. */
  lemma SettleBringsNothingBack(st: State, s: nat, b: nat, verdicts: map<Event, Verdict>)
    requires FeedInv(st) && Enabled(st, Finish(s, b, verdicts)) && Pointed(Take(st, Finish(s, b, verdicts)).feed)
    ensures var st' := Take(st, Finish(s, b, verdicts));
            forall u, e :: u in st.feed.subs && Unread(st', u, e) ==> Unread(st, u, e) && (u == s ==> e !in Batch(st, s))
  {
  }

  lemma SettleKeepsCounts(w: Work, p: nat, verdicts: map<Event, Verdict>)
    requires WorkEnabled(w, Settle(p, verdicts)) && Counted(w) && BatchesKnown(w) && Reads(w)
    requires var s, b, st' := w.passes[p].sub, w.passes[p].batch, WorkTake(w, Settle(p, verdicts)).log;
             && Pointed(st'.feed)
             && (forall u, c :: OpenAs(st', u, c) <==> OpenAs(w.log, u, c) && u != s)
             && (forall u :: OpenAs(w.log, u, b) ==> u == s)
             && (forall u :: u != s && HasBatch(w.log, u) ==> HasBatch(st', u) && Batch(st', u) == Batch(w.log, u))
             && (forall id :: SentAndCommitted(st', id) <==> SentAndCommitted(w.log, id))
    ensures var v := WorkTake(w, Settle(p, verdicts)); Counted(v) && BatchesKnown(v) && Reads(v)
  {
    var v := WorkTake(w, Settle(p, verdicts));
    forall u, c | OpenAs(v.log, u, c) ensures CountedAt(v, c) {
      assert CountedAt(w, c);
    }
    forall q | q in v.passes ensures ReadsBatch(v.log, v.passes[q]) {
      assert ReadsBatch(w.log, w.passes[q]);
    }
  }

  lemma SettleKeepsWaiting(w: Work, p: nat, verdicts: map<Event, Verdict>)
    requires WorkEnabled(w, Settle(p, verdicts)) && WaitingBounded(w)
    requires var s, st' := w.passes[p].sub, WorkTake(w, Settle(p, verdicts)).log;
             && Pointed(st'.feed) && !HasBatch(st', s)
             && (forall u, c :: OpenAs(st', u, c) <==> OpenAs(w.log, u, c) && u != s)
             && (forall u :: u != s && HasBatch(w.log, u) ==> HasBatch(st', u) && Batch(st', u) == Batch(w.log, u))
             && (forall u, e :: u in w.log.feed.subs && Unread(st', u, e) ==>
               Unread(w.log, u, e) && (u == s ==> e !in Batch(w.log, s)))
    ensures WaitingBounded(WorkTake(w, Settle(p, verdicts)))
  {
  }

  /** Each message leaves the batch with at most three more passes than it came with. */
  lemma SettledMessage(w: Work, s: nat, e: Event)
    requires Pointed(w.log.feed) && GenuineRows(w.log) && Counted(w) && WaitingBounded(w)
    requires HasBatch(w.log, s) && e in Batch(w.log, s)
    ensures Of(w.spent, Key(s, e.id)) <= MAX_BATCH_RUNS * (e.retry + 1) + Of(w.forgotten, Key(s, e.id))
    ensures e.retry <= w.log.maxRetries
  {
    assert OpenAs(w.log, s, w.log.feed.subs[s].batch.value.id);
    assert Genuine(w.log, e);
    assert Of(w.spent, Key(s, e.id)) <= Allowance(w, s, e);
  }

  lemma SettleKeepsParked(w: Work, p: nat, verdicts: map<Event, Verdict>)
    requires WorkEnabled(w, Settle(p, verdicts)) && Apart(ViewOf(w.log)) && GenuineRows(w.log)
    requires Counted(w) && Bounded(w)
    ensures var v := WorkTake(w, Settle(p, verdicts)); ParkedBounded(v) && EndedBounded(v) && UnsentBounded(v)
  {
    var v, s, st := WorkTake(w, Settle(p, verdicts)), w.passes[p].sub, w.log;
    BatchIdsDistinct(st, s);
    forall k | k in v.log.parked.retries && k in Rows(s, With(verdicts, Retry), 1)
      ensures Of(v.spent, k) <= MAX_BATCH_RUNS * v.log.parked.retries[k].retry + Of(v.forgotten, k)
    {
      var e :| e in With(verdicts, Retry) && k == Key(s, e.id);
      RowsOf(s, With(verdicts, Retry), 1, e);
      SettledMessage(w, s, e);
    }
    forall k | k in Rows(s, With(verdicts, Dead), 0) || k in Keys(s, With(verdicts, Done))
      ensures Of(v.spent, k) <= MAX_BATCH_RUNS * (st.maxRetries + 1) + Of(v.forgotten, k)
    {
      var e :| e in Batch(st, s) && k == Key(s, e.id);
      SettledMessage(w, s, e);
    }
  }

  // ---- runs of the worker

  lemma WorkStepKeepsInv(start: State, w: Work, a: WorkStep)
    requires WorkInv(start, w) && WorkEnabled(w, a)
    ensures WorkInv(start, WorkTake(w, a))
  {
    match a {
      case LogStep(step) => LogStepKeepsWork(start, w, step);
      case OpenNew(s, next) => OpenNewKeepsWork(start, w, s, next);
      case Reopen(s) => ReopenKeepsWork(start, w, s);
      case ReopenUnseen(s) => ReopenUnseenKeepsWork(start, w, s);
      case Stop(p, stored) => StopKeepsWork(start, w, p, stored);
      case Crash(p) => CrashKeepsWork(start, w, p);
      case Settle(p, verdicts) => SettleKeepsWork(start, w, p, verdicts);
      case PurgeRuns(b) => PurgeKeepsWork(start, w, b);
    }
  }

  ghost predicate WorkNext(a: Work, b: Work) {
    exists step :: WorkEnabled(a, step) && b == WorkTake(a, step)
  }

  ghost predicate WorkStepAt(works: seq<Work>, i: nat) {
    0 < i < |works| && WorkNext(works[i - 1], works[i])
  }

  /** A run of the queue with its workers. */
  ghost predicate WorkRun(works: seq<Work>) {
    && works != []
    && WorkInit(works[0])
    && forall i :: 0 < i < |works| ==> WorkStepAt(works, i)
  }

  lemma WorkNextKeepsInv(start: State, w: Work, v: Work)
    requires WorkInv(start, w) && WorkNext(w, v)
    ensures WorkInv(start, v)
  {
    var step :| WorkEnabled(w, step) && v == WorkTake(w, step);
    WorkStepKeepsInv(start, w, step);
  }

  lemma {:induction false} WorkRunKeepsInv(works: seq<Work>, i: nat)
    requires WorkRun(works) && i < |works|
    ensures WorkInv(works[0].log, works[i])
  {
    if i == 0 {
      WorkInitInv(works[0]);
    } else {
      WorkRunKeepsInv(works, i - 1);
      assert WorkStepAt(works, i);
      WorkNextKeepsInv(works[0].log, works[i - 1], works[i]);
    }
  }

  // ---- what holds in every run

  /** The runs that openBatch reports when it finds the batch open. */
  function ReportedRuns(w: Work, b: nat): int {
    Of(w.runs, b) + 1
  }

  /** The reported runs of an open batch by the ledger: its opens, less the stops that were
      taken back, less what its count forgot. */
  lemma ReportedRunsByLedger(works: seq<Work>, i: nat, s: nat, b: nat)
    requires WorkRun(works) && i < |works| && OpenAs(works[i].log, s, b)
    ensures var t := TallyOf(works[i], b); ReportedRuns(works[i], b) == t.opens - (t.stops - t.unstored) - t.forgotten
  {
    WorkRunKeepsInv(works, i);
    assert CountedAt(works[i], b);
  }

  /** With the retry limit M, the batches of a message pass through the handlers at most
      3(M + 1) times without a stop, plus the runs that the counts forgot. */
  lemma BatchPassesAreBounded(works: seq<Work>, i: nat, k: Key)
    requires WorkRun(works) && i < |works|
    ensures Of(works[i].spent, k) <= 3 * (works[i].log.maxRetries + 1) + Of(works[i].forgotten, k)
  {
    WorkRunKeepsInv(works, i);
    SpentInState(works[0].log, works[i], k);
  }

  lemma SpentInState(start: State, w: Work, k: Key)
    requires WorkInv(start, w)
    ensures Of(w.spent, k) <= MAX_BATCH_RUNS * (w.log.maxRetries + 1) + Of(w.forgotten, k)
  {
    if k.sub in w.log.feed.subs && SentAndCommitted(w.log, k.id) {
      SomePlace(w.log, k);
      if Logged(ViewOf(w.log), k) {
        var a :| a in Log(w.log) && KeyOf(a) == k;
        WaitingSpent(w, k.sub, a.row);
      } else if k in w.log.parked.retries {
        assert GenuineParked(w.log, k, w.log.parked.retries[k]);
      }
    }
  }

  lemma SomePlace(st: State, k: Key)
    requires Pointed(st.feed) && Conserved(ViewOf(st)) && k.sub in st.feed.subs && SentAndCommitted(st, k.id)
    ensures Logged(ViewOf(st), k) || k in st.parked.retries || k in st.parked.dead || k in st.history.done || k in st.history.purged
  {
  }

  lemma WaitingSpent(w: Work, s: nat, e: Event)
    requires Pointed(w.log.feed) && GenuineRows(w.log) && Counted(w) && WaitingBounded(w)
    requires s in w.log.feed.subs && Unread(w.log, s, e)
    ensures Of(w.spent, Key(s, e.id)) <= MAX_BATCH_RUNS * (w.log.maxRetries + 1) + Of(w.forgotten, Key(s, e.id))
  {
    assert Genuine(w.log, e);
    if HasBatch(w.log, s) && e in Batch(w.log, s) {
      SettledMessage(w, s, e);
    }
  }
}
