/** Cooperative consumers: the members of one consumer share its cursor. The cursor moves
    when a window of ticks is handed out, and the members hold the windows. */
module Cooperative {
  import opened Wrappers
  import opened Snapshots

  /** A batch in hand: its id, and the ticks between which it lies. */
  datatype Held = Held(batch: nat, prev: nat, next: nat)

  /** A coop_member row. Its batch and its two ticks are set and cleared together. */
  datatype Member = Member(window: Option<Held>, active: int)

  /** The row of the consumer: not subscribed, on its own, or the head of a group. open is
      the batch of a consumer on its own. */
  datatype Main = Absent | Normal(last: nat, open: Option<Held>) | CoopMain(last: nat)

  datatype Span = Span(prev: nat, next: nat)

  /** What the tables do not say: the first tick, the windows that the cursor passed, the
      window that each member holds, and the windows that are finished, by number. */
  datatype History = History(start: nat, passed: seq<Span>, holds: map<nat, nat>, done: set<nat>)

  /** The consumer and its members, by consumer id, and the ticks of the queue, also those
      that rotation has removed. */
  datatype Group = Group(
    ticks: map<nat, Snapshot>, main: Main, members: map<nat, Member>, nextBatch: nat, history: History)

  datatype Step =
    | Tick(id: nat, snapshot: Snapshot)
    | Subscribe(last: nat)
    | Convert
    | Join(m: nat, now: int)
    | Touch(m: nat, now: int)
    | TakeOver(m: nat, victim: nat, now: int, dead: int)
    | Hand(m: nat, next: nat, now: int)
    | OpenAlone(next: nat)
    | FinishAlone(batch: nat)
    | FinishMember(m: nat, batch: nat, now: int)
    | Leave(m: nat, now: int)

  predicate Newest(ticks: map<nat, Snapshot>, t: nat) {
    t in ticks && forall u :: u in ticks ==> u <= t
  }

  /** The first tick after another. */
  predicate FirstAfter(ticks: map<nat, Snapshot>, last: nat, t: nat) {
    t in ticks && last < t && forall u :: u in ticks && last < u ==> t <= u
  }

  predicate Holding(g: Group, m: nat) {
    m in g.members && g.members[m].window.Some?
  }

  /** The window in the hands of a member. */
  function SpanOf(g: Group, m: nat): Option<Span> {
    if Holding(g, m) then Some(Span(g.members[m].window.value.prev, g.members[m].window.value.next)) else None
  }

  /** A member that may lose its window: it did not show itself for the dead interval. */
  predicate Stale(g: Group, m: nat, v: nat, now: int, dead: int) {
    v != m && Holding(g, v) && g.members[v].active < now - dead
  }

  ghost predicate Enabled(g: Group, step: Step) {
    match step
    case Tick(id, s) =>
      (forall t :: t in g.ticks ==> t < id && Precedes(g.ticks[t], s))
    case Subscribe(last) => g.main == Absent && Newest(g.ticks, last)
    case Convert => g.main.Normal? && g.main.open == None
    case Join(m, _) => g.main.CoopMain? && m !in g.members
    case Touch(m, _) => m in g.members
    case TakeOver(m, v, now, dead) =>
      m in g.members && g.members[m].window == None && Stale(g, m, v, now, dead)
    case Hand(m, next, _) =>
      g.main.CoopMain? && m in g.members && g.members[m].window == None && FirstAfter(g.ticks, g.main.last, next)
    case OpenAlone(next) => g.main.Normal? && g.main.open == None && FirstAfter(g.ticks, g.main.last, next)
    case FinishAlone(b) => g.main.Normal? && g.main.open.Some? && g.main.open.value.batch == b
    case FinishMember(m, b, _) => Holding(g, m) && g.members[m].window.value.batch == b
    case Leave(m, _) => g.main.CoopMain? && m in g.members
  }

  function Cleared(g: Group, m: nat, now: int): map<nat, Member>
    requires m in g.members
  {
    g.members[m := Member(None, now)]
  }

  ghost function Take(g: Group, step: Step): Group
    requires Enabled(g, step)
  {
    var h := g.history;
    match step
    case Tick(id, s) => g.(ticks := g.ticks[id := s])
    case Subscribe(last) => g.(main := CoopMain(last), history := h.(start := last))
    case Convert => g.(main := CoopMain(g.main.last))
    case Join(m, now) => g.(members := g.members[m := Member(None, now)])
    case Touch(m, now) => g.(members := g.members[m := g.members[m].(active := now)])
    case TakeOver(m, v, now, _) =>
      var w := g.members[v].window.value;
      g.(members := g.members[m := Member(Some(Held(g.nextBatch, w.prev, w.next)), now)][v := Member(None, now)],
         nextBatch := g.nextBatch + 1,
         history := if v in h.holds then h.(holds := (h.holds - {v})[m := h.holds[v]]) else h)
    case Hand(m, next, now) =>
      g.(main := CoopMain(next),
         members := g.members[m := Member(Some(Held(g.nextBatch, g.main.last, next)), now)],
         nextBatch := g.nextBatch + 1,
         history := h.(passed := h.passed + [Span(g.main.last, next)], holds := h.holds[m := |h.passed|]))
    case OpenAlone(next) =>
      g.(main := g.main.(open := Some(Held(g.nextBatch, g.main.last, next))), nextBatch := g.nextBatch + 1)
    case FinishAlone(_) =>
      g.(main := Normal(g.main.open.value.next, None),
         history := h.(passed := h.passed + [Span(g.main.last, g.main.open.value.next)], done := h.done + {|h.passed|}))
    case FinishMember(m, _, now) => Closed(g, m).(members := Cleared(g, m, now))
    case Leave(m, _) =>
      var left := Closed(g, m).(members := g.members - {m});
      if left.members == map[] then left.(main := Normal(g.main.last, None)) else left
  }

  /** The window of a member, if it has one, is finished. */
  ghost function Closed(g: Group, m: nat): Group {
    var h := g.history;
    if m in h.holds then g.(history := h.(holds := h.holds - {m}, done := h.done + {h.holds[m]})) else g
  }

  ghost predicate Init(g: Group) {
    && OrderedTicks(g.ticks)
    && g.main == Absent && g.members == map[] && g.history == History(0, [], map[], {})
  }

  // ---- invariants

  ghost predicate OrderedTicks(ticks: map<nat, Snapshot>) {
    forall t, u :: t in ticks && u in ticks && t < u ==> Precedes(ticks[t], ticks[u])
  }

  /** Windows that start at a, end at b, and meet end to end. */
  ghost predicate Chained(spans: seq<Span>, a: nat, b: nat) {
    if spans == [] then a == b
    else
      var w := spans[|spans| - 1];
      w.next == b && w.prev < b && Chained(spans[..|spans| - 1], a, w.prev)
  }

  ghost predicate InTicks(g: Group) {
    forall w :: w in g.history.passed ==> w.prev in g.ticks && w.next in g.ticks
  }

  ghost predicate Cursor(g: Group) {
    match g.main
    case Absent => g.members == map[] && g.history == History(0, [], map[], {})
    case Normal(last, open) =>
      && g.members == map[] && last in g.ticks && g.history.start in g.ticks && Chained(g.history.passed, g.history.start, last)
      && (open.Some? ==> open.value.prev == last && last < open.value.next && open.value.next in g.ticks)
    case CoopMain(last) =>
      last in g.ticks && g.history.start in g.ticks && Chained(g.history.passed, g.history.start, last)
  }

  /** The windows that members hold and the finished windows are all windows, and no window
      counts twice. */
  ghost predicate Shared(g: Group) {
    var h := g.history;
    && (forall m :: m in h.holds <==> SpanOf(g, m).Some?)
    && (forall m :: m in h.holds ==> h.holds[m] < |h.passed| && h.holds[m] !in h.done)
    && (forall m, n :: m in h.holds && n in h.holds && h.holds[m] == h.holds[n] ==> m == n)
    && (forall i :: 0 <= i < |h.passed| ==> i in h.done || HeldBy(g, i))
    && (forall i :: i in h.done ==> i < |h.passed|)
    && (forall m :: m in h.holds ==> SpanOf(g, m) == Some(h.passed[h.holds[m]]))
  }

  ghost predicate HeldBy(g: Group, i: nat) {
    exists m :: m in g.history.holds && g.history.holds[m] == i
  }

  ghost predicate FreshIds(g: Group) {
    && (forall m :: Holding(g, m) ==> g.members[m].window.value.batch < g.nextBatch)
    && (forall m, n :: Holding(g, m) && Holding(g, n) && g.members[m].window.value.batch == g.members[n].window.value.batch ==> m == n)
    && (g.main.Normal? && g.main.open.Some? ==> g.main.open.value.batch < g.nextBatch)
  }

  ghost predicate GroupInv(g: Group) {
    OrderedTicks(g.ticks) && InTicks(g) && Cursor(g) && Shared(g) && FreshIds(g)
  }

  lemma ChainGrows(spans: seq<Span>, a: nat, b: nat, next: nat)
    requires Chained(spans, a, b) && b < next
    ensures Chained(spans + [Span(b, next)], a, next)
  {
  }

  /** A takeover moves one window intact to another member, under a new batch id, and
      touches no other. */
  lemma TakeOverMovesWindow(g: Group, m: nat, v: nat, now: int, dead: int)
    requires Enabled(g, TakeOver(m, v, now, dead))
    ensures var g' := Take(g, TakeOver(m, v, now, dead));
            && (forall n :: SpanOf(g', n) == if n == m then SpanOf(g, v) else if n == v then None else SpanOf(g, n))
            && g'.members[m].window.value.batch == g.nextBatch
            && (forall n :: n != m && n != v && n in g.members ==> n in g'.members && g'.members[n] == g.members[n])
            && g'.main == g.main && g'.history.passed == g.history.passed && g'.history.done == g.history.done
  {
  }

  /** A member keeps its window until it finishes it, leaves, or does not show itself for the dead
      interval and loses it to another member. */
  lemma OnlyTheStaleLose(g: Group, step: Step, v: nat)
    requires Enabled(g, step) && Holding(g, v) && SpanOf(Take(g, step), v) != SpanOf(g, v)
    ensures || (step.FinishMember? && step.m == v)
            || (step.Leave? && step.m == v)
            || (step.TakeOver? && step.victim == v && step.m != v && g.members[v].active < step.now - step.dead)
  {
  }

  /** The next window starts at the cursor and ends at the first later tick; the cursor moves to its
      end, and nobody else notices. */
  lemma HandGivesNext(g: Group, m: nat, next: nat, now: int)
    requires Enabled(g, Hand(m, next, now))
    ensures var g' := Take(g, Hand(m, next, now));
            && m in g'.members && g'.members[m].window == Some(Held(g.nextBatch, g.main.last, next))
            && g'.main == CoopMain(next) && g'.nextBatch == g.nextBatch + 1
            && next in g.ticks && g.main.last < next && (forall u :: u in g.ticks && g.main.last < u ==> next <= u)
            && (forall n :: n != m ==> (n in g'.members <==> n in g.members) && (n in g.members ==> g'.members[n] == g.members[n]))
  {
  }

  /** A finish gives the window back and moves no cursor but that of a consumer on its own. */
  lemma FinishClears(g: Group, step: Step)
    requires Enabled(g, step) && (step.FinishMember? || step.FinishAlone?)
    ensures var g' := Take(g, step);
            && g'.nextBatch == g.nextBatch && g'.ticks == g.ticks
            && if step.FinishMember? then
                 && g'.main == g.main && SpanOf(g', step.m) == None
                 && (forall n :: n != step.m ==> SpanOf(g', n) == SpanOf(g, n))
               else
                 g'.main == Normal(g.main.open.value.next, None) && g'.members == g.members
  {
  }

  /** A member that leaves is gone; the last one leaves the consumer on its own, at its cursor. */
  lemma LeaveRemoves(g: Group, m: nat, now: int)
    requires Enabled(g, Leave(m, now))
    ensures var g' := Take(g, Leave(m, now));
            && g'.members == g.members - {m}
            && g'.main == if g.members.Keys == {m} then Normal(g.main.last, None) else g.main
  {
    var left := g.members - {m};
    assert left.Keys == g.members.Keys - {m};
    assert left == map[] <==> left.Keys == {};
    assert left.Keys == {} <==> g.members.Keys == {m};
  }

  /** A member that shows itself, or gets a window, is active from now on. */
  lemma SignsOfLife(g: Group, step: Step)
    requires Enabled(g, step) && (step.Join? || step.Touch? || step.TakeOver? || step.Hand? || step.FinishMember?)
    ensures var g' := Take(g, step); step.m in g'.members && g'.members[step.m].active == step.now
  {
  }

  lemma MovedHolds(g: Group, g': Group, m: nat, v: nat)
    requires Shared(g) && m !in g.history.holds && v in g.history.holds
    requires g'.history == g.history.(holds := (g.history.holds - {v})[m := g.history.holds[v]])
    ensures forall i :: 0 <= i < |g.history.passed| ==> i in g.history.done || HeldBy(g', i)
    ensures forall n :: n in g'.history.holds <==> n == m || (n != v && n in g.history.holds)
    ensures forall n :: n in g'.history.holds ==> g'.history.holds[n] == g.history.holds[if n == m then v else n]
  {
    var h := g.history;
    forall i | 0 <= i < |h.passed| && i !in h.done ensures HeldBy(g', i) {
      assert HeldBy(g, i);
      var n :| n in h.holds && h.holds[n] == i;
      assert g'.history.holds[if n == v then m else n] == i;
    }
  }

  lemma MovedShares(g: Group, g': Group, m: nat, v: nat)
    requires Shared(g) && m !in g.history.holds && v in g.history.holds
    requires g'.history == g.history.(holds := (g.history.holds - {v})[m := g.history.holds[v]])
    requires forall n :: SpanOf(g', n) == if n == m then SpanOf(g, v) else if n == v then None else SpanOf(g, n)
    ensures Shared(g')
  {
    MovedHolds(g, g', m, v);
    var h, holds := g.history, g'.history.holds;
    forall n, k | n in holds && k in holds && holds[n] == holds[k] ensures n == k {
      assert h.holds[if n == m then v else n] == h.holds[if k == m then v else k];
    }
    forall n | n in holds ensures SpanOf(g', n) == Some(h.passed[holds[n]]) {
      assert SpanOf(g, if n == m then v else n) == Some(h.passed[h.holds[if n == m then v else n]]);
    }
  }

  lemma TakeOverShares(g: Group, m: nat, v: nat, now: int, dead: int)
    requires Shared(g) && Enabled(g, TakeOver(m, v, now, dead))
    ensures Shared(Take(g, TakeOver(m, v, now, dead)))
  {
    TakeOverMovesWindow(g, m, v, now, dead);
    assert SpanOf(g, m) == None && SpanOf(g, v).Some?;
    MovedShares(g, Take(g, TakeOver(m, v, now, dead)), m, v);
  }

  lemma HandShares(g: Group, m: nat, next: nat, now: int)
    requires Shared(g) && Enabled(g, Hand(m, next, now))
    ensures Shared(Take(g, Hand(m, next, now)))
  {
    var h, g' := g.history, Take(g, Hand(m, next, now));
    assert g'.history.holds[m] == |h.passed|;
    forall i | 0 <= i < |h.passed| && i !in h.done ensures HeldBy(g', i) {
      assert HeldBy(g, i);
      var n :| n in h.holds && h.holds[n] == i;
      assert g'.history.holds[n] == i;
    }
    assert HeldBy(g', |h.passed|);
  }

  lemma ClosedHolds(g: Group, m: nat, g': Group)
    requires Shared(g) && g'.history == Closed(g, m).history
    ensures forall n :: n in g'.history.holds <==> n != m && n in g.history.holds
    ensures forall n :: n in g'.history.holds ==> g'.history.holds[n] == g.history.holds[n] && g.history.holds[n] !in g'.history.done
  {
  }

  lemma ClosedOrHeld(g: Group, m: nat, g': Group)
    requires Shared(g) && g'.history == Closed(g, m).history
    ensures forall i :: 0 <= i < |g.history.passed| ==> i in g'.history.done || HeldBy(g', i)
  {
    var h := g.history;
    forall i | 0 <= i < |h.passed| && i !in g'.history.done ensures HeldBy(g', i) {
      assert HeldBy(g, i);
      var n :| n in h.holds && h.holds[n] == i;
      assert g'.history.holds[n] == i;
    }
  }

  /** The window of member m is finished, and the member has none, or is gone. */
  lemma ClosedShares(g: Group, m: nat, g': Group)
    requires Shared(g) && g'.history == Closed(g, m).history
    requires forall n :: SpanOf(g', n) == if n == m then None else SpanOf(g, n)
    ensures Shared(g')
  {
    ClosedHolds(g, m, g');
    ClosedOrHeld(g, m, g');
    assert g'.history.passed == g.history.passed;
    assert forall i :: i in g'.history.done ==> i < |g.history.passed|;
  }

  lemma SameShares(g: Group, g': Group)
    requires Shared(g)
    requires g'.history.passed == g.history.passed && g'.history.holds == g.history.holds && g'.history.done == g.history.done
    requires forall n :: SpanOf(g', n) == SpanOf(g, n)
    ensures Shared(g')
  {
  }

  lemma FinishAloneShares(g: Group, b: nat)
    requires Shared(g) && g.members == map[] && Enabled(g, FinishAlone(b))
    ensures Shared(Take(g, FinishAlone(b)))
  {
  }

  lemma FinishMemberShares(g: Group, m: nat, b: nat, now: int)
    requires Shared(g) && Enabled(g, FinishMember(m, b, now))
    ensures Shared(Take(g, FinishMember(m, b, now)))
  {
    ClosedShares(g, m, Take(g, FinishMember(m, b, now)));
  }

  lemma LeaveShares(g: Group, m: nat, now: int)
    requires Shared(g) && Enabled(g, Leave(m, now))
    ensures Shared(Take(g, Leave(m, now)))
  {
    ClosedShares(g, m, Take(g, Leave(m, now)));
  }

  lemma StepShares(g: Group, step: Step)
    requires Shared(g) && Cursor(g) && Enabled(g, step)
    ensures Shared(Take(g, step))
  {
    match step {
      case TakeOver(m, v, now, dead) => TakeOverShares(g, m, v, now, dead);
      case Hand(m, next, now) => HandShares(g, m, next, now);
      case FinishMember(m, b, now) => FinishMemberShares(g, m, b, now);
      case Leave(m, now) => LeaveShares(g, m, now);
      case FinishAlone(b) => FinishAloneShares(g, b);
      case _ => SameShares(g, Take(g, step));
    }
  }

  lemma HandKeepsCursor(g: Group, m: nat, next: nat, now: int)
    requires Cursor(g) && InTicks(g) && Enabled(g, Hand(m, next, now))
    ensures var g' := Take(g, Hand(m, next, now)); Cursor(g') && InTicks(g')
  {
    ChainGrows(g.history.passed, g.history.start, g.main.last, next);
  }

  lemma FinishAloneKeepsCursor(g: Group, b: nat)
    requires Cursor(g) && InTicks(g) && Enabled(g, FinishAlone(b))
    ensures var g' := Take(g, FinishAlone(b)); Cursor(g') && InTicks(g')
  {
    ChainGrows(g.history.passed, g.history.start, g.main.last, g.main.open.value.next);
  }

  lemma LeaveKeepsCursor(g: Group, m: nat, now: int)
    requires Cursor(g) && InTicks(g) && Enabled(g, Leave(m, now))
    ensures var g' := Take(g, Leave(m, now)); Cursor(g') && InTicks(g')
  {
  }

  lemma StepKeepsCursor(g: Group, step: Step)
    requires Cursor(g) && InTicks(g) && OrderedTicks(g.ticks) && Enabled(g, step)
    ensures var g' := Take(g, step); Cursor(g') && InTicks(g') && OrderedTicks(g'.ticks)
  {
    match step {
      case Hand(m, next, now) => HandKeepsCursor(g, m, next, now);
      case FinishAlone(b) => FinishAloneKeepsCursor(g, b);
      case Leave(m, now) => LeaveKeepsCursor(g, m, now);
      case _ =>
    }
  }

  lemma TakeOverIds(g: Group, m: nat, v: nat, now: int, dead: int)
    requires FreshIds(g) && Enabled(g, TakeOver(m, v, now, dead))
    ensures FreshIds(Take(g, TakeOver(m, v, now, dead)))
  {
  }

  lemma StepKeepsIds(g: Group, step: Step)
    requires FreshIds(g) && Enabled(g, step)
    ensures FreshIds(Take(g, step))
  {
    match step {
      case TakeOver(m, v, now, dead) => TakeOverIds(g, m, v, now, dead);
      case Hand(_, _, _) => case Leave(_, _) => case FinishMember(_, _, _) => case _ =>
    }
  }

  lemma StepKeepsInv(g: Group, step: Step)
    requires GroupInv(g) && Enabled(g, step)
    ensures GroupInv(Take(g, step))
  {
    StepShares(g, step);
    StepKeepsCursor(g, step);
    StepKeepsIds(g, step);
  }

  // ---- runs

  ghost predicate Next(a: Group, b: Group) {
    exists step :: Enabled(a, step) && b == Take(a, step)
  }

  ghost predicate StepAt(groups: seq<Group>, i: nat) {
    0 < i < |groups| && Next(groups[i - 1], groups[i])
  }

  ghost predicate Run(groups: seq<Group>) {
    && groups != []
    && Init(groups[0])
    && forall i :: 0 < i < |groups| ==> StepAt(groups, i)
  }

  lemma {:induction false} RunKeepsInv(groups: seq<Group>, i: nat)
    requires Run(groups) && i < |groups|
    ensures GroupInv(groups[i])
  {
    if i > 0 {
      RunKeepsInv(groups, i - 1);
      assert StepAt(groups, i);
      var step :| Enabled(groups[i - 1], step) && groups[i] == Take(groups[i - 1], step);
      StepKeepsInv(groups[i - 1], step);
    }
  }

  function CursorOf(main: Main): nat
    requires !main.Absent?
  {
    main.last
  }

  /** The windows as snapshots. */
  ghost function WindowsOf(ticks: map<nat, Snapshot>, spans: seq<Span>): (ws: seq<Window>)
    requires forall w :: w in spans ==> w.prev in ticks && w.next in ticks
    ensures |ws| == |spans|
  {
    seq(|spans|, i requires 0 <= i < |spans| => Window(i, ticks[spans[i].prev], ticks[spans[i].next]))
  }

  lemma {:induction false} WindowsChain(ticks: map<nat, Snapshot>, spans: seq<Span>, a: nat, b: nat)
    requires OrderedTicks(ticks) && a in ticks && b in ticks && Chained(spans, a, b)
    requires forall w :: w in spans ==> w.prev in ticks && w.next in ticks
    ensures Chain(WindowsOf(ticks, spans), ticks[a], ticks[b])
  {
    if spans != [] {
      var n := |spans| - 1;
      assert spans[n] in spans;
      WindowsChain(ticks, spans[..n], a, spans[n].prev);
      assert WindowsOf(ticks, spans)[..n] == WindowsOf(ticks, spans[..n]);
    }
  }

  /** A transaction in window k. */
  ghost predicate InWindow(g: Group, k: nat, x: nat)
    requires InTicks(g)
  {
    k < |g.history.passed| && Between(g.ticks[g.history.passed[k].prev], g.ticks[g.history.passed[k].next], x)
  }

  lemma WindowsTileHere(g: Group, x: nat)
    requires GroupInv(g) && !g.main.Absent?
    ensures g.history.start in g.ticks && g.main.last in g.ticks
    ensures Between(g.ticks[g.history.start], g.ticks[g.main.last], x) <==> exists k :: InWindow(g, k, x)
    ensures forall j, k :: InWindow(g, j, x) && InWindow(g, k, x) ==> j == k
  {
    var ws, a, b := WindowsOf(g.ticks, g.history.passed), g.ticks[g.history.start], g.ticks[g.main.last];
    WindowsChain(g.ticks, g.history.passed, g.history.start, g.main.last);
    ChainCovers(ws, a, b, x);
    InWindowIs(g, x);
    forall j: nat, k: nat | InWindow(g, j, x) && InWindow(g, k, x) ensures j == k {
      ChainDisjoint(ws, a, b, j, k, x);
    }
  }

  lemma InWindowIs(g: Group, x: nat)
    requires InTicks(g)
    ensures var ws := WindowsOf(g.ticks, g.history.passed);
            && (forall k: nat :: InWindow(g, k, x) ==> k < |ws| && Between(ws[k].first, ws[k].end, x))
            && (forall k: nat :: k < |ws| && Between(ws[k].first, ws[k].end, x) ==> InWindow(g, k, x))
  {
  }

  /** Cooperative windows tile the log: in every reachable state each transaction between
      the first tick and the cursor is in exactly one window, and each window is finished
      or in the hands of exactly one member. */
  lemma WindowsTile(groups: seq<Group>, i: nat, x: nat)
    requires Run(groups) && i < |groups| && !groups[i].main.Absent?
    ensures var g := groups[i];
            && InTicks(g) && g.history.start in g.ticks && g.main.last in g.ticks
            && (Between(g.ticks[g.history.start], g.ticks[g.main.last], x) <==> exists k :: InWindow(g, k, x))
            && (forall j, k :: InWindow(g, j, x) && InWindow(g, k, x) ==> j == k)
            && (forall k :: 0 <= k < |g.history.passed| ==> (k in g.history.done <==> !HeldBy(g, k)))
            && (forall m, n :: m in g.history.holds && n in g.history.holds && g.history.holds[m] == g.history.holds[n] ==> m == n)
            && (forall m :: m in g.history.holds ==>
                 g.history.holds[m] < |g.history.passed| && SpanOf(g, m) == Some(g.history.passed[g.history.holds[m]]))
            && (forall m :: SpanOf(g, m).Some? ==> m in g.history.holds)
  {
    RunKeepsInv(groups, i);
    WindowsTileHere(groups[i], x);
  }

  lemma StepKeepsDone(g: Group, step: Step)
    requires GroupInv(g) && Enabled(g, step)
    ensures g.history.done <= Take(g, step).history.done
  {
  }

  lemma {:induction false} DoneStays(groups: seq<Group>, i: nat, j: nat, k: nat)
    requires Run(groups) && i <= j < |groups| && k in groups[i].history.done
    ensures k in groups[j].history.done
  {
    if i < j {
      DoneStays(groups, i, j - 1, k);
      RunKeepsInv(groups, j - 1);
      assert StepAt(groups, j);
      var step :| Enabled(groups[j - 1], step) && groups[j] == Take(groups[j - 1], step);
      StepKeepsDone(groups[j - 1], step);
    }
  }

  /** A finished window stays finished: no member ever holds it again. */
  lemma WindowFinishesOnce(groups: seq<Group>, i: nat, j: nat, k: nat, m: nat)
    requires Run(groups) && i <= j < |groups| && k in groups[i].history.done
    ensures k in groups[j].history.done
    ensures m in groups[j].history.holds ==> groups[j].history.holds[m] != k
  {
    DoneStays(groups, i, j, k);
    RunKeepsInv(groups, j);
  }

  // ---- batch ids

  ghost predicate InUse(g: Group, b: nat) {
    || (exists m :: Holding(g, m) && g.members[m].window.value.batch == b)
    || (g.main.Normal? && g.main.open.Some? && g.main.open.value.batch == b)
  }

  lemma UnusedStays(g: Group, step: Step, b: nat)
    requires Enabled(g, step) && b < g.nextBatch && !InUse(g, b)
    ensures b < Take(g, step).nextBatch && !InUse(Take(g, step), b)
  {
  }

  lemma {:induction false} UnusedForever(groups: seq<Group>, i: nat, j: nat, b: nat)
    requires Run(groups) && i <= j < |groups| && b < groups[i].nextBatch && !InUse(groups[i], b)
    ensures b < groups[j].nextBatch && !InUse(groups[j], b)
  {
    if i < j {
      UnusedForever(groups, i, j - 1, b);
      assert StepAt(groups, j);
      var step :| Enabled(groups[j - 1], step) && groups[j] == Take(groups[j - 1], step);
      UnusedStays(groups[j - 1], step, b);
    }
  }

  /** The member that lost its window cannot finish it: the old batch id is never in use
      again, so a late finish_batch finds nothing. */
  lemma LateFinishFindsNothing(groups: seq<Group>, i: nat, j: nat, m: nat, v: nat, now: int, dead: int)
    requires Run(groups) && i < j < |groups|
    requires Enabled(groups[i], TakeOver(m, v, now, dead)) && groups[i + 1] == Take(groups[i], TakeOver(m, v, now, dead))
    ensures !InUse(groups[j], groups[i].members[v].window.value.batch)
  {
    RunKeepsInv(groups, i);
    TakenBatchIsUnused(groups[i], m, v, now, dead);
    UnusedForever(groups, i + 1, j, groups[i].members[v].window.value.batch);
  }

  lemma TakenBatchIsUnused(g: Group, m: nat, v: nat, now: int, dead: int)
    requires FreshIds(g) && Cursor(g) && Enabled(g, TakeOver(m, v, now, dead))
    ensures var b, g' := g.members[v].window.value.batch, Take(g, TakeOver(m, v, now, dead));
            b < g'.nextBatch && !InUse(g', b)
  {
  }
}
