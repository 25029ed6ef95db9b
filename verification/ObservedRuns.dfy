/** The run counts under the hypotheses that they rest on: every open of an open batch is seen, no
    purge takes the count of a batch that is open, and, for the exact count, every stop is taken
    back. */
module ObservedRuns {
  import opened Wrappers
  import opened EventLog
  import opened LogStore
  import opened LogMessages
  import opened LogRuns
  import opened LogTheorems
  import opened WorkerRuns

  /** currentBatch reports every open batch, and purgeRuns spares its row. With stored, the
      uncountRun of each stop succeeds too. */
  ghost predicate Observed(w: Work, a: WorkStep, stored: bool) {
    && !a.ReopenUnseen?
    && (a.PurgeRuns? ==> forall s :: !OpenAs(w.log, s, a.batch))
    && (stored && a.Stop? ==> a.stored)
  }

  ghost predicate ObservedNext(a: Work, b: Work, stored: bool) {
    exists step :: WorkEnabled(a, step) && Observed(a, step, stored) && b == WorkTake(a, step)
  }

  ghost predicate ObservedStepAt(works: seq<Work>, i: nat, stored: bool) {
    0 < i < |works| && ObservedNext(works[i - 1], works[i], stored)
  }

  ghost predicate ObservedRun(works: seq<Work>, stored: bool) {
    && works != []
    && WorkInit(works[0])
    && forall i :: 0 < i < |works| ==> ObservedStepAt(works, i, stored)
  }

  lemma ObservedIsRun(works: seq<Work>, stored: bool)
    requires ObservedRun(works, stored)
    ensures WorkRun(works)
  {
    forall i | 0 < i < |works| ensures WorkStepAt(works, i) {
      assert ObservedStepAt(works, i, stored);
    }
  }

  ghost predicate NothingForgotten(w: Work, stored: bool) {
    && (forall s, b :: OpenAs(w.log, s, b) ==> TallyOf(w, b).forgotten == 0 && (stored ==> TallyOf(w, b).unstored == 0))
    && (forall k :: Of(w.forgotten, k) == 0)
  }

  lemma LogStepForgetsNothing(w: Work, step: Step, stored: bool)
    requires StoreInv(w.log) && RowInv(w.log) && WorkEnabled(w, LogStep(step)) && NothingForgotten(w, stored)
    ensures NothingForgotten(WorkTake(w, LogStep(step)), stored)
  {
    LogStepFrame(w.log, step);
    assert forall s, b :: OpenAs(Take(w.log, step), s, b) <==> OpenAs(w.log, s, b);
  }

  lemma OpenNewForgetsNothing(w: Work, s: nat, next: nat, stored: bool)
    requires WorkEnabled(w, OpenNew(s, next)) && Pointed(Take(w.log, Open(s, next)).feed)
    requires BatchesKnown(w) && NothingForgotten(w, stored)
    ensures NothingForgotten(WorkTake(w, OpenNew(s, next)), stored)
  {
    assert TallyOf(w, w.log.feed.nextBatch) == NO_TALLY;
    forall u, b | OpenAs(Take(w.log, Open(s, next)), u, b) ensures TallyOf(w, b).forgotten == 0 && (stored ==> TallyOf(w, b).unstored == 0) {
      assert u != s ==> OpenAs(w.log, u, b);
    }
  }

  lemma PurgeForgetsNothing(w: Work, b: nat, stored: bool)
    requires WorkEnabled(w, PurgeRuns(b)) && Observed(w, PurgeRuns(b), stored) && NothingForgotten(w, stored)
    ensures NothingForgotten(WorkTake(w, PurgeRuns(b)), stored)
  {
    assert OpenKeys(w.log, b) == {};
  }

  lemma SettleForgetsNothing(w: Work, p: nat, verdicts: map<Event, Verdict>, stored: bool)
    requires WorkEnabled(w, Settle(p, verdicts)) && NothingForgotten(w, stored)
    ensures NothingForgotten(WorkTake(w, Settle(p, verdicts)), stored)
  {
    SettleOpens(w.log, w.passes[p].sub, w.passes[p].batch, verdicts);
  }

  lemma ReopenForgetsNothing(w: Work, s: nat, stored: bool)
    requires WorkEnabled(w, Reopen(s)) && NothingForgotten(w, stored)
    ensures NothingForgotten(WorkTake(w, Reopen(s)), stored)
  {
    assert OpenAs(w.log, s, w.log.feed.subs[s].batch.value.id);
  }

  lemma EndForgetsNothing(w: Work, a: WorkStep, stored: bool)
    requires (a.Stop? || a.Crash?) && WorkEnabled(w, a) && Observed(w, a, stored) && NothingForgotten(w, stored)
    ensures NothingForgotten(WorkTake(w, a), stored)
  {
  }

  lemma StepForgetsNothing(w: Work, a: WorkStep, stored: bool)
    requires StoreInv(w.log) && RowInv(w.log) && BatchesKnown(w)
    requires WorkEnabled(w, a) && Observed(w, a, stored) && NothingForgotten(w, stored)
    ensures NothingForgotten(WorkTake(w, a), stored)
  {
    match a {
      case LogStep(step) => LogStepForgetsNothing(w, step, stored);
      case OpenNew(s, next) =>
        OpenKeepsStore(w.log, s, next);
        OpenNewForgetsNothing(w, s, next, stored);
      case Reopen(s) => ReopenForgetsNothing(w, s, stored);
      case PurgeRuns(b) => PurgeForgetsNothing(w, b, stored);
      case Settle(p, verdicts) => SettleForgetsNothing(w, p, verdicts, stored);
      case Stop(_, _) => EndForgetsNothing(w, a, stored);
      case Crash(_) => EndForgetsNothing(w, a, stored);
    }
  }

  lemma NextForgetsNothing(start: State, w: Work, v: Work, stored: bool)
    requires WorkInv(start, w) && ObservedNext(w, v, stored) && NothingForgotten(w, stored)
    ensures NothingForgotten(v, stored)
  {
    var step :| WorkEnabled(w, step) && Observed(w, step, stored) && v == WorkTake(w, step);
    StepForgetsNothing(w, step, stored);
  }

  lemma NextInRunForgetsNothing(works: seq<Work>, i: nat, w: Work, v: Work, stored: bool)
    requires WorkRun(works) && i < |works| && w == works[i] && ObservedNext(w, v, stored) && NothingForgotten(w, stored)
    ensures NothingForgotten(v, stored)
  {
    WorkRunKeepsInv(works, i);
    NextForgetsNothing(works[0].log, w, v, stored);
  }

  lemma {:induction false} ObservedRunForgetsNothing(works: seq<Work>, i: nat, stored: bool)
    requires ObservedRun(works, stored) && i < |works|
    ensures NothingForgotten(works[i], stored)
  {
    if i > 0 {
      ObservedIsRun(works, stored);
      ObservedRunForgetsNothing(works, i - 1, stored);
      assert ObservedStepAt(works, i, stored);
      NextInRunForgetsNothing(works, i - 1, works[i - 1], works[i], stored);
    }
  }

  /** The runs that an open would report are the opens so far that no stop took back: they
      neither finished nor were stopped. */
  ghost predicate CountIsExact(w: Work, b: nat) {
    ReportedRuns(w, b) == TallyOf(w, b).opens - TallyOf(w, b).stops
  }

  /** In every observed run in which every stop is taken back, the reported runs of an open batch
      are its earlier opens that neither finished nor were stopped. */
  lemma ReportedRunsAreTheEarlierOpens(works: seq<Work>, i: nat, s: nat, b: nat)
    requires ObservedRun(works, true) && i < |works| && OpenAs(works[i].log, s, b)
    ensures CountIsExact(works[i], b)
  {
    ObservedIsRun(works, true);
    ReportedRunsByLedger(works, i, s, b);
    ObservedRunForgetsNothing(works, i, true);
  }

  /** Poison messages end: in every observed run with retry limit M the batches of a message
      run at most 3(M + 1) times without a stop that is taken back, in all its deliveries
      together. */
  lemma PoisonMessagesEnd(works: seq<Work>, i: nat, k: Key)
    requires ObservedRun(works, false) && i < |works|
    ensures Of(works[i].spent, k) <= 3 * (works[i].log.maxRetries + 1)
  {
    ObservedIsRun(works, false);
    BatchPassesAreBounded(works, i, k);
    ObservedRunForgetsNothing(works, i, false);
  }

  /** A worker at the batch is stopped, and uncountRun fails. */
  ghost predicate StopsUnstored(w: Work, a: WorkStep, b: nat) {
    a.Stop? && !a.stored && a.pass in w.passes && w.passes[a.pass].batch == b
  }

  /** The hypotheses are exact, step by step: an exact count of a batch that stays open becomes
      wrong exactly when an open of it goes unseen, when a purge takes a count that is not 0, or
      when a stop is not taken back. */
  lemma CountStaysExact(start: State, w: Work, a: WorkStep, s: nat, b: nat)
    requires WorkInv(start, w) && WorkEnabled(w, a) && OpenAs(w.log, s, b) && OpenAs(WorkTake(w, a).log, s, b)
    requires CountIsExact(w, b)
    ensures CountIsExact(WorkTake(w, a), b) <==>
            a != ReopenUnseen(s) && !(a == PurgeRuns(b) && w.runs[b] != 0) && !StopsUnstored(w, a, b)
  {
    WorkStepKeepsInv(start, w, a);
    OpenIsUnique(start, w.log, s);
    ForgettingBreaksCount(w, a, s, b);
  }

  lemma ForgettingBreaksCount(w: Work, a: WorkStep, s: nat, b: nat)
    requires WorkEnabled(w, a) && OpenAs(w.log, s, b) && OpenAs(WorkTake(w, a).log, s, b)
    requires b < w.log.feed.nextBatch && forall u :: OpenAs(w.log, u, b) ==> u == s
    requires Counted(w) && Counted(WorkTake(w, a)) && CountIsExact(w, b)
    ensures CountIsExact(WorkTake(w, a), b) <==>
            a != ReopenUnseen(s) && !(a == PurgeRuns(b) && w.runs[b] != 0) && !StopsUnstored(w, a, b)
  {
    CountIsOpensLess(w, s, b);
    CountIsOpensLess(WorkTake(w, a), s, b);
    StepForgets(w, a, s, b);
  }

  lemma CountIsOpensLess(w: Work, s: nat, b: nat)
    requires Counted(w) && OpenAs(w.log, s, b)
    ensures CountIsExact(w, b) <==> TallyOf(w, b).forgotten == TallyOf(w, b).unstored
  {
    assert CountedAt(w, b);
  }

  lemma StepForgets(w: Work, a: WorkStep, s: nat, b: nat)
    requires WorkEnabled(w, a) && OpenAs(w.log, s, b)
    requires b < w.log.feed.nextBatch && forall u :: OpenAs(w.log, u, b) ==> u == s
    ensures TallyOf(WorkTake(w, a), b).forgotten - TallyOf(w, b).forgotten ==
            if a == ReopenUnseen(s) then 1 else if a == PurgeRuns(b) then w.runs[b] else 0
    ensures TallyOf(WorkTake(w, a), b).unstored - TallyOf(w, b).unstored == if StopsUnstored(w, a, b) then 1 else 0
  {
    if a.Reopen? || a.ReopenUnseen? {
      assert OpenAs(w.log, a.sub, w.log.feed.subs[a.sub].batch.value.id);
    }
  }
}
