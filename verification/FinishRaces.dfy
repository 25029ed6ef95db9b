/** Finishes of one batch that overlap statement by statement: two workers after a lost lock. An
    insert waits for the uncommitted row of another transaction, and ack waits for its lock on
    the row of the subscription. */
module FinishRaces {
  import opened Wrappers
  import opened EventLog
  import opened Failures

  /** One row that storeFailures sends: a dead letter, or a retry. */
  datatype Write = Write(e: Event, dead: bool)

  datatype Phase = Begun | Storing(n: nat) | Acked | Committed | RolledBack

  /** A finish under way, with the rows that it has written and not committed. */
  datatype Finisher = Finisher(plan: seq<Write>, phase: Phase, rows: Stored)

  /** The committed tables: retry rows, dead letters, the run count of the batch, and whether
      the batch is open. */
  datatype Race = Race(sub: nat, tables: Stored, counted: bool, open: bool, finishes: map<nat, Finisher>)

  const NOTHING: Stored := Stored(map[], map[])

  function KeyIn(r: Race, w: Write): Key {
    Key(r.sub, w.e.id)
  }

  predicate Live(f: Finisher) {
    f.phase.Begun? || f.phase.Storing? || f.phase.Acked?
  }

  function Both(a: Stored, b: Stored): Stored {
    Stored(a.retries + b.retries, a.dead + b.dead)
  }

  /** Another transaction has written the row and not ended. */
  predicate Waits(r: Race, f: nat, w: Write) {
    exists g :: g in r.finishes && g != f && Live(r.finishes[g])
      && KeyIn(r, w) in (if w.dead then r.finishes[g].rows.dead else r.finishes[g].rows.retries)
  }

  datatype Step = Start(f: nat, plan: seq<Write>) | Read(f: nat) | Insert(f: nat) | Ack(f: nat) | CommitTx(f: nat) | Abort(f: nat)

  ghost predicate Enabled(r: Race, step: Step) {
    match step
    case Start(f, _) => f !in r.finishes
    case Read(f) => f in r.finishes && r.finishes[f].phase.Begun?
    case Insert(f) =>
      && f in r.finishes && r.finishes[f].phase.Storing? && r.finishes[f].phase.n < |r.finishes[f].plan|
      && !Waits(r, f, r.finishes[f].plan[r.finishes[f].phase.n])
    case Ack(f) =>
      && f in r.finishes && r.finishes[f].phase == Storing(|r.finishes[f].plan|)
      && forall g :: g in r.finishes ==> !r.finishes[g].phase.Acked?
    case CommitTx(f) => f in r.finishes && r.finishes[f].phase.Acked?
    case Abort(f) => f in r.finishes && Live(r.finishes[f])
  }

  function RollBack(f: Finisher): Finisher {
    f.(phase := RolledBack, rows := NOTHING)
  }

  /** The next row of a statement: event_dead skips a dead letter that is there, and a retry
      row that is there breaks the statement and its transaction. */
  function Stores(r: Race, f: Finisher): Finisher
    requires f.phase.Storing? && f.phase.n < |f.plan|
  {
    var w, k := f.plan[f.phase.n], KeyIn(r, f.plan[f.phase.n]);
    if w.dead then
      f.(phase := Storing(f.phase.n + 1),
         rows := if k in r.tables.dead || k in f.rows.dead then f.rows
                 else f.rows.(dead := f.rows.dead[k := Row(w.e.retry, w.e.body)]))
    else if k in r.tables.retries || k in f.rows.retries then
      RollBack(f)
    else
      f.(phase := Storing(f.phase.n + 1), rows := f.rows.(retries := f.rows.retries[k := Row(w.e.retry + 1, w.e.body)]))
  }

  ghost function Take(r: Race, step: Step): Race
    requires Enabled(r, step)
  {
    match step
    case Start(f, plan) => r.(finishes := r.finishes[f := Finisher(plan, Begun, NOTHING)])
    case Read(f) =>
      // Without a failure there is no statement; else get_batch_events must find the batch.
      var me := r.finishes[f];
      r.(finishes := r.finishes[f := if me.plan == [] || r.open then me.(phase := Storing(0)) else RollBack(me)])
    case Insert(f) => r.(finishes := r.finishes[f := Stores(r, r.finishes[f])])
    case Ack(f) =>
      // finish_batch finds the batch, and then the transaction holds its row, or it returns 0.
      var me := r.finishes[f];
      r.(finishes := r.finishes[f := if r.open then me.(phase := Acked) else RollBack(me)])
    case CommitTx(f) =>
      var me := r.finishes[f];
      r.(tables := Both(r.tables, me.rows), counted := false, open := false,
         finishes := r.finishes[f := me.(phase := Committed)])
    case Abort(f) => r.(finishes := r.finishes[f := RollBack(r.finishes[f])])
  }

  ghost predicate Init(r: Race) {
    r.open && r.finishes == map[]
  }

  ghost predicate Next(a: Race, b: Race) {
    exists step :: Enabled(a, step) && b == Take(a, step)
  }

  ghost predicate StepAt(rs: seq<Race>, i: nat) {
    0 < i < |rs| && Next(rs[i - 1], rs[i])
  }

  ghost predicate Run(rs: seq<Race>) {
    rs != [] && Init(rs[0]) && forall i :: 0 < i < |rs| ==> StepAt(rs, i)
  }

  // ---- what one finish alone would leave

  function StoreWrites(p: Progress, sub: nat, plan: seq<Write>): Progress
    decreases |plan|
  {
    if plan == [] then p
    else
      var w := plan[|plan| - 1];
      StoreRow(StoreWrites(p, sub, plan[..|plan| - 1]), sub, w.e, w.dead)
  }

  /** The rows of a finish are those that it would have written alone from the start on. */
  ghost predicate Alone(start: Race, f: Finisher) {
    && (f.phase.Begun? ==> f.rows == NOTHING)
    && (f.phase.Storing? ==>
         && f.phase.n <= |f.plan|
         && StoreWrites(Progress(start.tables, 0), start.sub, f.plan[..f.phase.n]) == Progress(Both(start.tables, f.rows), f.phase.n))
    && (f.phase.Acked? ==>
         StoreWrites(Progress(start.tables, 0), start.sub, f.plan) == Progress(Both(start.tables, f.rows), |f.plan|))
    && (f.phase.RolledBack? ==> f.rows == NOTHING)
  }

  ghost predicate Untouched(start: Race, r: Race) {
    r.tables == start.tables && r.counted == start.counted
  }

  ghost predicate Winner(start: Race, r: Race, f: nat) {
    && f in r.finishes && r.finishes[f].phase.Committed?
    && (forall g :: g in r.finishes && r.finishes[g].phase.Committed? ==> g == f)
    && StoreWrites(Progress(start.tables, 0), start.sub, r.finishes[f].plan) == Progress(r.tables, |r.finishes[f].plan|)
    && !r.counted
  }

  ghost predicate Inv(start: Race, r: Race) {
    && r.sub == start.sub
    && (forall f :: f in r.finishes && r.finishes[f].phase.RolledBack? ==> r.finishes[f].rows == NOTHING)
    && (forall f, g :: f in r.finishes && g in r.finishes && r.finishes[f].phase.Acked? && r.finishes[g].phase.Acked? ==> f == g)
    && (r.open ==>
         && Untouched(start, r)
         && (forall f :: f in r.finishes ==> !r.finishes[f].phase.Committed? && Alone(start, r.finishes[f])))
    && (!r.open ==>
         && (exists f :: Winner(start, r, f))
         && (forall f :: f in r.finishes ==> !r.finishes[f].phase.Acked?))
  }

  lemma StoresAlone(start: Race, r: Race, f: Finisher)
    requires r.sub == start.sub && r.tables == start.tables
    requires Alone(start, f) && f.phase.Storing? && f.phase.n < |f.plan|
    ensures Alone(start, Stores(r, f)) && !Stores(r, f).phase.Acked? && !Stores(r, f).phase.Committed?
  {
    var n := f.phase.n;
    assert f.plan[..n + 1][..n] == f.plan[..n] && f.plan[..n + 1][n] == f.plan[n];
    StoresRow(r, f);
  }

  lemma StoresRow(r: Race, f: Finisher)
    requires f.phase.Storing? && f.phase.n < |f.plan|
    ensures var w, g := f.plan[f.phase.n], Stores(r, f);
            StoreRow(Progress(Both(r.tables, f.rows), f.phase.n), r.sub, w.e, w.dead) ==
            if g.phase.RolledBack? then Broken else Progress(Both(r.tables, g.rows), f.phase.n + 1)
  {
    var w, k := f.plan[f.phase.n], KeyIn(r, f.plan[f.phase.n]);
    assert r.tables.dead + f.rows.dead[k := Row(w.e.retry, w.e.body)] == (r.tables.dead + f.rows.dead)[k := Row(w.e.retry, w.e.body)];
    assert r.tables.retries + f.rows.retries[k := Row(w.e.retry + 1, w.e.body)] ==
           (r.tables.retries + f.rows.retries)[k := Row(w.e.retry + 1, w.e.body)];
  }

  lemma BeginsAlone(start: Race, f: Finisher)
    requires Alone(start, f) && f.phase.Begun?
    ensures Alone(start, f.(phase := Storing(0)))
  {
    assert f.plan[..0] == [];
  }

  lemma AcksAlone(start: Race, f: Finisher)
    requires Alone(start, f) && f.phase == Storing(|f.plan|)
    ensures Alone(start, f.(phase := Acked))
  {
    assert f.plan[..|f.plan|] == f.plan;
  }

  lemma OneChanges(start: Race, r: Race, f: nat, me: Finisher)
    requires Inv(start, r) && r.open && Alone(start, me) && !me.phase.Committed?
    requires me.phase.Acked? ==> forall g :: g in r.finishes ==> !r.finishes[g].phase.Acked?
    ensures Inv(start, r.(finishes := r.finishes[f := me]))
  {
  }

  /** While the batch is open, a step of one finish leaves every finish as if it were alone. */
  lemma OpenStepKeeps(start: Race, r: Race, step: Step)
    requires Inv(start, r) && r.open && Enabled(r, step) && !step.CommitTx?
    ensures Inv(start, Take(r, step))
  {
    if !step.Start? {
      assert Alone(start, r.finishes[step.f]);
    }
    match step {
      case Start(f, plan) =>
      case Read(f) => BeginsAlone(start, r.finishes[f]);
      case Insert(f) => StoresAlone(start, r, r.finishes[f]);
      case Ack(f) => AcksAlone(start, r.finishes[f]);
      case Abort(f) =>
    }
    OneChanges(start, r, step.f, Take(r, step).finishes[step.f]);
  }

  lemma CommitWins(start: Race, r: Race, f: nat)
    requires Inv(start, r) && Enabled(r, CommitTx(f))
    ensures Inv(start, Take(r, CommitTx(f)))
  {
    assert Winner(start, Take(r, CommitTx(f)), f);
  }

  /** After the commit the others can only end without a trace. */
  lemma ClosedStepKeeps(start: Race, r: Race, step: Step)
    requires Inv(start, r) && !r.open && Enabled(r, step)
    ensures Inv(start, Take(r, step))
  {
    var f :| Winner(start, r, f);
    assert Winner(start, Take(r, step), f);
  }

  lemma StepKeepsInv(start: Race, r: Race, step: Step)
    requires Inv(start, r) && Enabled(r, step)
    ensures Inv(start, Take(r, step))
  {
    if !r.open {
      ClosedStepKeeps(start, r, step);
    } else if step.CommitTx? {
      CommitWins(start, r, step.f);
    } else {
      OpenStepKeeps(start, r, step);
    }
  }

  lemma NextKeepsInv(start: Race, a: Race, b: Race)
    requires Inv(start, a) && Next(a, b)
    ensures Inv(start, b)
  {
    var step :| Enabled(a, step) && b == Take(a, step);
    StepKeepsInv(start, a, step);
  }

  lemma {:induction false} RunKeepsInv(rs: seq<Race>, i: nat)
    requires Run(rs) && i < |rs|
    ensures Inv(rs[0], rs[i])
  {
    if i > 0 {
      RunKeepsInv(rs, i - 1);
      assert StepAt(rs, i);
      NextKeepsInv(rs[0], rs[i - 1], rs[i]);
    }
  }

  // ---- what holds in every run

  /** Results of a batch are stored at most once: as long as no finish has committed, the tables
      are as they were; afterwards one finish has, and the tables are what it alone would
      have left. A finish that rolled back left nothing. */
  lemma OneFinishWins(rs: seq<Race>, i: nat, g: nat)
    requires Run(rs) && i < |rs|
    ensures rs[i].open ==> Untouched(rs[0], rs[i]) && forall f :: f in rs[i].finishes ==> !rs[i].finishes[f].phase.Committed?
    ensures !rs[i].open ==> exists f :: Winner(rs[0], rs[i], f)
    ensures g in rs[i].finishes && rs[i].finishes[g].phase.RolledBack? ==> rs[i].finishes[g].rows == NOTHING
  {
    RunKeepsInv(rs, i);
  }

  /** Neither table has a row for a message of the plan, and no message is in it twice. */
  ghost predicate ClearPlan(r: Race, plan: seq<Write>) {
    && (forall i :: 0 <= i < |plan| ==> KeyIn(r, plan[i]) !in r.tables.retries && KeyIn(r, plan[i]) !in r.tables.dead)
    && (forall i, j :: 0 <= i < j < |plan| ==> plan[i].e.id != plan[j].e.id)
  }

  lemma {:induction false} WritesOf(r: Race, plan: seq<Write>, n: nat, k: Key)
    requires n <= |plan|
    requires StoreWrites(Progress(r.tables, 0), r.sub, plan[..n]).Progress?
    ensures k in StoreWrites(Progress(r.tables, 0), r.sub, plan[..n]).stored.retries ==>
            k in r.tables.retries || exists i :: 0 <= i < n && KeyIn(r, plan[i]) == k
  {
    if n > 0 {
      assert plan[..n][..n - 1] == plan[..n - 1] && plan[..n][n - 1] == plan[n - 1];
      WritesOf(r, plan, n - 1, k);
    }
  }

  /** A statement breaks on a key only after another finish has committed: on an open batch each
      row of a clear plan can be stored, or waits. */
  lemma BreaksOnlyAfterCommit(rs: seq<Race>, i: nat, f: nat)
    requires Run(rs) && i < |rs| && Enabled(rs[i], Step.Insert(f)) && ClearPlan(rs[0], rs[i].finishes[f].plan)
    ensures Stores(rs[i], rs[i].finishes[f]).phase.RolledBack? ==> !rs[i].open
  {
    RunKeepsInv(rs, i);
    if rs[i].open {
      OpenPlanStores(rs[0], rs[i], rs[i].finishes[f]);
    }
  }

  lemma OpenPlanStores(start: Race, r: Race, f: Finisher)
    requires r.sub == start.sub && r.tables == start.tables && Alone(start, f) && ClearPlan(start, f.plan)
    requires f.phase.Storing? && f.phase.n < |f.plan|
    ensures !Stores(r, f).phase.RolledBack?
  {
    var n, k := f.phase.n, KeyIn(r, f.plan[f.phase.n]);
    WritesOf(start, f.plan, n, k);
    assert forall i :: 0 <= i < n ==> KeyIn(start, f.plan[i]) != k;
    assert k in Both(start.tables, f.rows).retries <==> k in start.tables.retries || k in f.rows.retries;
  }

  // ---- the results of a batch as a plan

  /** The rows that storeFailures sends for the first n results. */
  function PlanOf(rows: seq<Event>, os: seq<Outcome>, maxRetries: nat, n: nat): seq<Write>
    requires |rows| == |os| && n <= |os|
  {
    if n == 0 then []
    else
      PlanOf(rows, os, maxRetries, n - 1) + WriteOf(rows[n - 1], os[n - 1], maxRetries)
  }

  function WriteOf(e: Event, o: Outcome, maxRetries: nat): seq<Write> {
    var v := VerdictOf(o, maxRetries);
    if v == Done then [] else [Write(e, v == Dead)]
  }

  lemma {:induction false} StatementNext(p: Progress, sub: nat, rows: seq<Event>, fs: seq<Failed>, f: Failed)
    ensures Statement(p, sub, rows, fs + [f]) == StoreMatches(Statement(p, sub, rows, fs), sub, rows, f)
    decreases |fs|
  {
    if fs == [] {
      assert [] + [f] == [f];
    } else {
      assert (fs + [f])[1..] == fs[1..] + [f];
      StatementNext(StoreMatches(p, sub, rows, fs[0]), sub, rows, fs[1..], f);
    }
  }

  lemma {:induction false} FailedLast(os: seq<Outcome>, maxRetries: nat)
    requires os != []
    ensures FailedOf(os, maxRetries) == FailedOf(os[..|os| - 1], maxRetries) + FailedAt(os[|os| - 1], maxRetries)
  {
    if |os| > 1 {
      var rest := os[1..];
      assert os[..|os| - 1][1..] == rest[..|rest| - 1];
      FailedLast(rest, maxRetries);
    } else {
      assert os[1..] == [] && os[..0] == [];
    }
  }

  /** The failed messages among the first n results. */
  function FailedUpTo(os: seq<Outcome>, maxRetries: nat, n: nat): seq<Failed>
    requires n <= |os|
  {
    if n == 0 then [] else FailedUpTo(os, maxRetries, n - 1) + FailedAt(os[n - 1], maxRetries)
  }

  lemma {:induction false} FailedUpToAll(os: seq<Outcome>, maxRetries: nat)
    ensures FailedUpTo(os, maxRetries, |os|) == FailedOf(os, maxRetries)
    decreases |os|
  {
    if os != [] {
      var n := |os| - 1;
      FailedUpToAll(os[..n], maxRetries);
      FailedUpToPrefix(os, maxRetries, n, n);
      FailedLast(os, maxRetries);
    }
  }

  lemma {:induction false} FailedUpToPrefix(os: seq<Outcome>, maxRetries: nat, n: nat, k: nat)
    requires k <= n <= |os|
    ensures FailedUpTo(os[..n], maxRetries, k) == FailedUpTo(os, maxRetries, k)
    decreases k
  {
    if k > 0 {
      FailedUpToPrefix(os, maxRetries, n, k - 1);
    }
  }

  lemma WritesNext(p: Progress, sub: nat, plan: seq<Write>, w: Write)
    ensures StoreWrites(p, sub, plan + [w]) == StoreRow(StoreWrites(p, sub, plan), sub, w.e, w.dead)
  {
    assert (plan + [w])[..|plan|] == plan;
  }

  /** One more result: its row, if it failed, joins at its own place. */
  lemma ResultIsWrite(p: Progress, sub: nat, rows: seq<Event>, o: Outcome, maxRetries: nat, n: nat,
                      plan: seq<Write>, fs: seq<Failed>)
    requires Ascending(rows) && n < |rows| && o.msg == MessageOf(rows[n])
    requires Same(p, sub, rows, plan, fs)
    ensures Same(p, sub, rows, plan + WriteOf(rows[n], o, maxRetries), fs + FailedAt(o, maxRetries))
  {
    var v := VerdictOf(o, maxRetries);
    if v == Done {
      assert plan + [] == plan && fs + [] == fs;
    } else {
      var f := Failed(rows[n].id, v == Dead);
      WritesNext(p, sub, plan, Write(rows[n], v == Dead));
      StatementNext(p, sub, rows, fs, f);
      OneMatch(Statement(p, sub, rows, fs), sub, rows, f, n);
    }
  }

  /** These rows of a plan are what the statement does for these failed messages. */
  ghost predicate Same(p: Progress, sub: nat, rows: seq<Event>, plan: seq<Write>, fs: seq<Failed>) {
    StoreWrites(p, sub, plan) == Statement(p, sub, rows, fs) && |plan| == |fs|
  }

  /** The plan, row after row, is the statement, which joins each failed message with the batch. */
  lemma {:induction false} PlanIsStatement(p: Progress, sub: nat, rows: seq<Event>, os: seq<Outcome>, maxRetries: nat, n: nat)
    requires Ascending(rows) && |rows| == |os| && n <= |os|
    requires forall i :: 0 <= i < |rows| ==> os[i].msg == MessageOf(rows[i])
    ensures Same(p, sub, rows, PlanOf(rows, os, maxRetries, n), FailedUpTo(os, maxRetries, n))
  {
    if n > 0 {
      PlanIsStatement(p, sub, rows, os, maxRetries, n - 1);
      ResultIsWrite(p, sub, rows, os[n - 1], maxRetries, n - 1,
        PlanOf(rows, os, maxRetries, n - 1), FailedUpTo(os, maxRetries, n - 1));
    }
  }

  /** The winner leaves what storeFailures leaves when no other finish runs. */
  lemma WinnerStoresItsResults(rs: seq<Race>, i: nat, f: nat, rows: seq<Event>, os: seq<Outcome>, maxRetries: nat)
    requires Run(rs) && i < |rs| && f in rs[i].finishes && rs[i].finishes[f].phase.Committed?
    requires Ascending(rows) && |rows| == |os| && forall j :: 0 <= j < |rows| ==> os[j].msg == MessageOf(rows[j])
    requires rs[i].finishes[f].plan == PlanOf(rows, os, maxRetries, |os|)
    ensures StoreAll(rs[0].tables, rs[0].sub, rows, FailedOf(os, maxRetries)) == Some(rs[i].tables)
  {
    RunKeepsInv(rs, i);
    PlanIsStatement(Progress(rs[0].tables, 0), rs[0].sub, rows, os, maxRetries, |os|);
    FailedUpToAll(os, maxRetries);
  }

  /** On a batch without rows yet, the race as a whole is the one step Finish of the log, with
      the verdicts of the winner. */
  lemma RaceIsOneFinish(rs: seq<Race>, i: nat, f: nat, rows: seq<Event>, os: seq<Outcome>, maxRetries: nat)
    requires Run(rs) && i < |rs| && f in rs[i].finishes && rs[i].finishes[f].phase.Committed?
    requires Ascending(rows) && |rows| == |os| && forall j :: 0 <= j < |rows| ==> os[j].msg == MessageOf(rows[j])
    requires rs[i].finishes[f].plan == PlanOf(rows, os, maxRetries, |os|)
    requires Clear(rs[0].tables, rs[0].sub, rows, 0)
    ensures var t, sub, verdicts := rs[0].tables, rs[0].sub, Verdicts(rows, os, maxRetries);
            rs[i].tables == Stored(t.retries + Rows(sub, With(verdicts, Retry), 1), t.dead + Rows(sub, With(verdicts, Dead), 0))
  {
    WinnerStoresItsResults(rs, i, f, rows, os, maxRetries);
    StoreIsFinish(rs[0].tables, rs[0].sub, rows, os, maxRetries);
  }
}
