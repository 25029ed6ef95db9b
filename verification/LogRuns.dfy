/** Runs of the log: the invariants hold in every reachable state, and what follows. */
module LogRuns {
  import opened Wrappers
  import opened Snapshots
  import opened BatchQuery
  import opened EventLog
  import opened LogStore
  import opened LogReading
  import opened Places
  import opened LogMessages

  // ---- batches over time

  ghost function PassedBy(st: State, s: nat): seq<Window> {
    if s in st.history.passed then st.history.passed[s] else []
  }

  /** Batch ids are used once. */
  ghost predicate BatchIdsFresh(st: State) {
    && (forall s :: HasBatch(st, s) ==> st.feed.subs[s].batch.value.id < st.feed.nextBatch)
    && (forall s, i :: 0 <= i < |PassedBy(st, s)| ==> PassedBy(st, s)[i].batch < st.feed.nextBatch)
    && (forall s, t :: HasBatch(st, s) && HasBatch(st, t) && st.feed.subs[s].batch.value.id == st.feed.subs[t].batch.value.id ==>
      s == t)
    && (forall s, t, i :: HasBatch(st, s) && 0 <= i < |PassedBy(st, t)| ==>
      st.feed.subs[s].batch.value.id != PassedBy(st, t)[i].batch)
    && (forall s, t, i, j :: 0 <= i < |PassedBy(st, s)| && 0 <= j < |PassedBy(st, t)| && PassedBy(st, s)[i].batch == PassedBy(st, t)[j].batch ==>
      s == t && i == j)
  }

  /** The batches that a subscription passed lead from its first tick to its last. */
  ghost predicate Chained(start: State, st: State)
    requires Pointed(start.feed) && Pointed(st.feed)
  {
    && st.feed.subs.Keys == start.feed.subs.Keys
    && (forall s :: s in st.feed.subs ==> Chain(PassedBy(st, s), LastSnapshot(start, s), LastSnapshot(st, s)))
  }

  /** Nothing was written by a transaction that had ended before the start. */
  ghost predicate SinceStart(start: State, st: State) {
    && (forall x :: Ended(start.tx, x) ==> Ended(st.tx, x))
    && (forall e :: e in st.history.written ==> !Ended(start.tx, e.txid))
  }

  ghost predicate Inv(start: State, st: State) {
    && StoreInv(st)
    && MessageInv(st)
    && Init(start)
    && Chained(start, st)
    && BatchIdsFresh(st)
    && SinceStart(start, st)
  }

  lemma InitInv(start: State)
    requires Init(start)
    ensures Inv(start, start)
  {
  }

  // ---- each step keeps the store

  lemma StepKeepsStore(st: State, step: Step)
    requires StoreInv(st) && RowInv(st) && Enabled(st, step)
    ensures StoreInv(Take(st, step))
  {
    var st' := Take(st, step);
    match step {
      case Begin => BeginKeepsStore(st);
      case Insert(x, body) =>
        assert Event(st.nextId, x, None, 0, body) !in st.history.written;
        WriteKeepsStore(st, Event(st.nextId, x, None, 0, body), st');
      case Commit(x) => EndKeepsStore(st, st', x, true);
      case Abort(x) => EndKeepsStore(st, st', x, false);
      case MakeTick(own) => TickKeeps(st, own);
      case Open(s, next) => OpenKeepsStore(st, s, next);
      case Finish(s, b, verdicts) => FinishKeepsStore(st, s, b, verdicts);
      case MoveRetry(x, key) =>
        CopyIsNew(st, x, key);
        WriteKeepsStore(st, Copy(x, key, st.parked.retries[key]), st');
      case CommitMove => EndKeepsStore(st, st', st.parked.mover.value, true);
      case BeginRotation(x) => BeginRotationKeepsStore(st, x);
      case CommitRotation => CommitRotationKeepsStore(st);
      case CommitStep2(x) => CommitStep2KeepsStore(st, x);
      case PurgeDead(keys) => PurgeKeepsStore(st, keys);
    }
  }

  // ---- each step keeps the messages

  lemma QuietStepKeepsMessages(st: State, step: Step)
    requires StoreInv(st) && MessageInv(st) && Enabled(st, step) && StoreInv(Take(st, step))
    requires step.Begin? || step.MakeTick? || step.Open? || step.BeginRotation? || step.CommitRotation? || step.CommitStep2?
    ensures MessageInv(Take(st, step))
  {
    StepIsQuiet(st, step);
    QuietKeepsRows(st, Take(st, step));
    QuietKeepsView(st, Take(st, step));
  }

  lemma StepIsQuiet(st: State, step: Step)
    requires StoreInv(st) && RowInv(st) && Enabled(st, step) && Pointed(Take(st, step).feed)
    requires step.Begin? || step.MakeTick? || step.Open? || step.BeginRotation? || step.CommitRotation? || step.CommitStep2?
    ensures var st' := Take(st, step);
            && Quiet(st, st') && QuietRotation(st') && st'.feed.subs.Keys == st.feed.subs.Keys
            && forall s :: s in st.feed.subs ==> LastSnapshot(st', s) == LastSnapshot(st, s)
  {
  }

  lemma StepKeepsMessages(st: State, step: Step)
    requires StoreInv(st) && MessageInv(st) && Enabled(st, step) && StoreInv(Take(st, step))
    ensures MessageInv(Take(st, step))
  {
    match step {
      case Insert(x, body) =>
        InsertKeepsRows(st, x, body);
        InsertKeepsView(st, x, body);
      case Commit(x) => CommitKeepsMessages(st, x);
      case Abort(x) =>
        AbortKeepsRows(st, x);
        AbortKeepsView(st, x);
      case Finish(s, b, verdicts) => FinishKeepsMessages(st, s, b, verdicts);
      case MoveRetry(x, key) =>
        MoveKeepsRows(st, x, key);
        MoveKeepsView(st, x, key);
      case CommitMove => CommitMoveKeepsMessages(st);
      case PurgeDead(keys) =>
        PurgeKeepsRows(st, keys);
        PurgeTakesDead(st, keys);
        PurgeConserves(ViewOf(st), keys);
      case _ => QuietStepKeepsMessages(st, step);
    }
  }

  lemma CommitKeepsMessages(st: State, x: nat)
    requires FeedInv(st) && MessageInv(st) && Enabled(st, Commit(x)) && Pointed(Take(st, Commit(x)).feed)
    ensures MessageInv(Take(st, Commit(x)))
  {
    CommitKeepsRows(st, x);
    CommitSends(st, x);
    SendConserves(ViewOf(st), MessagesOf(st, x));
  }

  lemma FinishKeepsMessages(st: State, s: nat, b: nat, verdicts: map<Event, Verdict>)
    requires FeedInv(st) && MessageInv(st) && Enabled(st, Finish(s, b, verdicts)) && Pointed(Take(st, Finish(s, b, verdicts)).feed)
    ensures MessageInv(Take(st, Finish(s, b, verdicts)))
  {
    FinishKeepsRows(st, s, b, verdicts);
    FinishSettles(st, s, b, verdicts);
    SettleConserves(ViewOf(st), BatchEntries(st, s), Keys(s, With(verdicts, Done)),
      Keys(s, With(verdicts, Retry)), Keys(s, With(verdicts, Dead)));
  }

  lemma CommitMoveKeepsMessages(st: State)
    requires FeedInv(st) && MessageInv(st) && Enabled(st, CommitMove) && Pointed(Take(st, CommitMove).feed)
    ensures MessageInv(Take(st, CommitMove))
  {
    CommitMoveKeepsRows(st);
    CommitMoveMovesBack(st);
    MoveBackConserves(ViewOf(st), Copies(st));
  }

  // ---- each step keeps the batches

  lemma FinishKeepsIds(st: State, st': State, s: nat, w: Window)
    requires BatchIdsFresh(st) && HasBatch(st, s) && w.batch == st.feed.subs[s].batch.value.id
    requires st'.feed.nextBatch == st.feed.nextBatch
    requires forall t :: PassedBy(st', t) == if t == s then PassedBy(st, s) + [w] else PassedBy(st, t)
    requires forall t :: HasBatch(st', t) ==> t != s && HasBatch(st, t) && st'.feed.subs[t] == st.feed.subs[t]
    ensures BatchIdsFresh(st')
  {
    forall t, i | 0 <= i < |PassedBy(st', t)| ensures PassedBy(st', t)[i] == w || Earlier(st, t, i, PassedBy(st', t)[i]) {
      FinishPasses(st, st', s, w, t, i);
    }
    forall t, u, i, j | 0 <= i < |PassedBy(st', t)| && 0 <= j < |PassedBy(st', u)| && PassedBy(st', t)[i].batch == PassedBy(st', u)[j].batch
      ensures t == u && i == j
    {
      FinishPasses(st, st', s, w, t, i);
      FinishPasses(st, st', s, w, u, j);
    }
  }

  ghost predicate Earlier(st: State, t: nat, i: nat, w: Window) {
    i < |PassedBy(st, t)| && PassedBy(st, t)[i] == w
  }

  /** A batch passed after a finish was passed before, or is the one that just finished. */
  lemma FinishPasses(st: State, st': State, s: nat, w: Window, t: nat, i: nat)
    requires PassedBy(st', t) == if t == s then PassedBy(st, s) + [w] else PassedBy(st, t)
    requires i < |PassedBy(st', t)|
    ensures if t == s && i == |PassedBy(st, s)| then PassedBy(st', t)[i] == w else Earlier(st, t, i, PassedBy(st', t)[i])
  {
  }

  lemma OpenKeepsIds(st: State, st': State, s: nat)
    requires BatchIdsFresh(st) && HasBatch(st', s) && st'.feed.subs[s].batch.value.id == st.feed.nextBatch
    requires st'.feed.nextBatch == st.feed.nextBatch + 1
    requires forall t :: PassedBy(st', t) == PassedBy(st, t)
    requires forall t :: HasBatch(st', t) && t != s ==> HasBatch(st, t) && st'.feed.subs[t] == st.feed.subs[t]
    ensures BatchIdsFresh(st')
  {
  }

  lemma SameBatchesKeepIds(st: State, st': State)
    requires BatchIdsFresh(st) && st'.feed.subs == st.feed.subs && st'.feed.nextBatch == st.feed.nextBatch
    requires st'.history.passed == st.history.passed
    ensures BatchIdsFresh(st')
  {
    assert forall t :: PassedBy(st', t) == PassedBy(st, t);
    assert forall t :: HasBatch(st', t) <==> HasBatch(st, t);
  }

  lemma StepKeepsIds(st: State, step: Step)
    requires BatchIdsFresh(st) && Enabled(st, step)
    ensures BatchIdsFresh(Take(st, step))
  {
    var st' := Take(st, step);
    match step {
      case Finish(s, b, verdicts) =>
        FinishKeepsIds(st, st', s, Window(b, LastSnapshot(st, s), NextSnapshot(st, s)));
      case Open(s, next) =>
        assert HasBatch(st', s);
        OpenKeepsIds(st, st', s);
      case _ => SameBatchesKeepIds(st, st');
    }
  }

  /** Only finishing a batch moves the cursor of its subscription. */
  lemma OnlyFinishMoves(st: State, step: Step, t: nat)
    requires Ordered(st.tx, st.feed) && Enabled(st, step) && Pointed(Take(st, step).feed) && t in st.feed.subs
    requires !(step.Finish? && step.sub == t)
    ensures t in Take(st, step).feed.subs
    ensures PassedBy(Take(st, step), t) == PassedBy(st, t)
    ensures LastSnapshot(Take(st, step), t) == LastSnapshot(st, t)
  {
    OnlyFinishPasses(st, step, t);
    TicksDoNotChange(st, step, st.feed.subs[t].last);
  }

  lemma OnlyFinishPasses(st: State, step: Step, t: nat)
    requires Enabled(st, step) && t in st.feed.subs && !(step.Finish? && step.sub == t)
    ensures var st' := Take(st, step);
            t in st'.feed.subs && st'.feed.subs[t].last == st.feed.subs[t].last && PassedBy(st', t) == PassedBy(st, t)
  {
  }

  lemma TicksDoNotChange(st: State, step: Step, k: nat)
    requires Ordered(st.tx, st.feed) && Enabled(st, step) && k in st.feed.ticks && k in Take(st, step).feed.ticks
    ensures Take(st, step).feed.ticks[k] == st.feed.ticks[k]
  {
  }

  lemma FinishMoves(start: State, st: State, step: Step)
    requires Pointed(start.feed) && Pointed(st.feed) && Chained(start, st) && Ordered(st.tx, st.feed)
    requires Enabled(st, step) && step.Finish? && Pointed(Take(st, step).feed)
    ensures step.sub in start.feed.subs
    ensures Chain(PassedBy(Take(st, step), step.sub), LastSnapshot(start, step.sub), LastSnapshot(Take(st, step), step.sub))
  {
  }

  lemma StepKeepsChain(start: State, st: State, step: Step)
    requires Pointed(start.feed) && Pointed(st.feed) && Chained(start, st) && Ordered(st.tx, st.feed)
    requires Enabled(st, step) && Pointed(Take(st, step).feed)
    ensures Chained(start, Take(st, step))
  {
    var st' := Take(st, step);
    assert st'.feed.subs.Keys == st.feed.subs.Keys;
    forall t | t in st.feed.subs
      ensures Chain(PassedBy(st', t), LastSnapshot(start, t), LastSnapshot(st', t))
    {
      if step.Finish? && step.sub == t {
        FinishMoves(start, st, step);
      } else {
        OnlyFinishMoves(st, step, t);
      }
    }
  }

  lemma ChainGrows(ws: seq<Window>, a: Snapshot, w: Window)
    requires Chain(ws, a, w.first) && Precedes(w.first, w.end)
    ensures Chain(ws + [w], a, w.end)
  {
  }

  lemma StepKeepsStart(start: State, st: State, step: Step)
    requires StoreInv(st) && RowInv(st) && SinceStart(start, st) && Enabled(st, step)
    ensures SinceStart(start, Take(st, step))
  {
  }

  lemma StepKeepsInv(start: State, st: State, step: Step)
    requires Inv(start, st) && Enabled(st, step)
    ensures Inv(start, Take(st, step))
  {
    StepKeepsStore(st, step);
    StepKeepsMessages(st, step);
    StepKeepsIds(st, step);
    StepKeepsChain(start, st, step);
    StepKeepsStart(start, st, step);
  }

  /** The invariants hold in every state of every run. */
  lemma {:induction false} RunKeepsInv(states: seq<State>, i: nat)
    requires Run(states) && i < |states|
    ensures Inv(states[0], states[i])
  {
    if i == 0 {
      InitInv(states[0]);
    } else {
      RunKeepsInv(states, i - 1);
      assert StepAt(states, i);
      var step :| Enabled(states[i - 1], step) && states[i] == Take(states[i - 1], step);
      StepKeepsInv(states[0], states[i - 1], step);
    }
  }
}
