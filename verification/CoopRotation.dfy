/** Cooperative consumers and rotation together: the cursor of a group has passed the windows that
    its members hold, and still no row of such a window is truncated. */
module CoopRotation {
  import opened Wrappers
  import opened Snapshots
  import opened EventLog
  import opened LogStore
  import opened LogReading
  import C = Cooperative

  /** The log of a queue and the group that consumes it. */
  datatype Joint = Joint(log: State, group: C.Group)

  // ---- the rows of pgque.subscription

  /** The key of the main row is 0, and that of member m is m + 1. */
  function SubKeys(g: C.Group): set<nat> {
    (if g.main.Absent? then {} else {0}) + set m | m in g.members && C.Holding(g, m) :: m + 1
  }

  function SubRow(g: C.Group, s: nat): Sub
    requires s in SubKeys(g)
  {
    if s == 0 then
      Sub(g.main.last,
          if g.main.Normal? && g.main.open.Some? then Some(OpenBatch(g.main.open.value.batch, g.main.open.value.next)) else None)
    else
      var w := g.members[s - 1].window.value;
      Sub(w.prev, Some(OpenBatch(w.batch, w.next)))
  }

  /** The rows with a last tick: the main row, and the members that hold a window. */
  function SubsOf(g: C.Group): map<nat, Sub> {
    map s | s in SubKeys(g) :: SubRow(g, s)
  }

  // ---- steps

  /** Log is a step of the log that begins a transaction, makes a tick or rotates. WriteRow is the
      insert of a message or of a retried copy. EndTx is the end of a transaction that is not
      the commit of a rotation. */
  datatype JointStep =
    | Log(log: Step)
    | WriteRow(e: Event)
    | EndTx(x: nat, commit: bool)
    | Group(group: C.Step)

  ghost predicate JointEnabled(j: Joint, a: JointStep) {
    match a
    case Log(step) =>
      && (step.Begin? || step.MakeTick? || step.BeginRotation? || step.CommitRotation? || step.CommitStep2?)
      && Enabled(j.log, step)
    case WriteRow(e) => j.log.store.cur < |j.log.store.tables| && e.txid in j.log.tx.running && e !in j.log.history.written
    case EndTx(x, commit) =>
      x in j.log.tx.running && (commit && j.log.store.rotation.Some? ==> j.log.store.rotation.value.xid != x)
    case Group(step) => !step.Tick? && !step.Subscribe? && C.Enabled(j.group, step)
  }

  ghost function Ends(st: State, x: nat, commit: bool): State {
    var rotating := st.store.rotation.Some? && st.store.rotation.value.xid == x;
    st.(tx := End(st.tx, x, commit),
        store := if rotating then st.store.(rotation := None) else st.store)
  }

  /** The group moves: its rows and the batch ids change, and nothing else of the log. */
  function Repointed(st: State, g: C.Group): State {
    st.(feed := st.feed.(subs := SubsOf(g), nextBatch := g.nextBatch))
  }

  ghost function JointTake(j: Joint, a: JointStep): Joint
    requires JointEnabled(j, a)
  {
    match a
    case Log(step) =>
      Joint(Take(j.log, step),
            if step.MakeTick? then j.group.(ticks := j.group.ticks[j.log.feed.nextTick := TakeSnapshot(j.log.tx, step.own)])
            else j.group)
    case WriteRow(e) => j.(log := Write(j.log, e))
    case EndTx(x, commit) => j.(log := Ends(j.log, x, commit))
    case Group(step) => var g := C.Take(j.group, step); Joint(Repointed(j.log, g), g)
  }

  /** A new queue with its consumer, alone or at the head of members without windows. */
  ghost predicate JointInit(j: Joint) {
    && Init(j.log)
    && !j.group.main.Absent?
    && (j.group.main.Normal? ==> j.group.members == map[] && j.group.main.open == None)
    && (forall m :: m in j.group.members ==> j.group.members[m].window == None)
    && j.group.history == C.History(j.group.main.last, [], map[], {})
    && j.log.feed.ticks == j.group.ticks
    && j.log.feed.subs == SubsOf(j.group)
    && j.log.feed.nextBatch == j.group.nextBatch
  }

  // ---- invariants

  /** The group knows every tick there was; those that are gone are older than its cursor. */
  ghost predicate SameTicks(j: Joint) {
    && !j.group.main.Absent?
    && (forall t :: t in j.log.feed.ticks ==> t in j.group.ticks && j.group.ticks[t] == j.log.feed.ticks[t])
    && (forall t :: t in j.group.ticks ==> t < j.log.feed.nextTick && Past(j.log.tx, j.group.ticks[t]))
    && (forall t :: t in j.group.ticks && t !in j.log.feed.ticks ==> t < j.group.main.last)
  }

  ghost predicate SameSubs(j: Joint) {
    j.log.feed.subs == SubsOf(j.group) && j.log.feed.nextBatch == j.group.nextBatch
  }

  ghost predicate Inv(j: Joint) {
    StoreInv(j.log) && C.GroupInv(j.group) && SameTicks(j) && SameSubs(j)
  }

  lemma InitInv(j: Joint)
    requires JointInit(j)
    ensures Inv(j)
  {
    MainPoints(j.log, j.group);
    assert C.Chained([], j.group.main.last, j.group.main.last);
  }

  lemma MainPoints(st: State, g: C.Group)
    requires Pointed(st.feed) && st.feed.subs == SubsOf(g) && !g.main.Absent?
    ensures 0 in st.feed.subs && st.feed.subs[0].last == g.main.last && g.main.last in st.feed.ticks
  {
    assert 0 in SubKeys(g);
  }

  // ---- steps of the log

  lemma BeginKeepsPast(tx: Tx)
    requires Transactions(tx)
    ensures forall s :: Past(tx, s) ==> Past(tx.(next := tx.next + 1, running := tx.running + {tx.next}), s)
  {
  }

  /** A step that leaves the ticks and the rows of the group as they are. */
  lemma QuietKeeps(j: Joint, j': Joint)
    requires Inv(j) && StoreInv(j'.log) && j'.group == j.group && j'.log.feed == j.log.feed
    requires forall s :: Past(j.log.tx, s) ==> Past(j'.log.tx, s)
    ensures Inv(j')
  {
  }

  lemma EndKeepsInv(j: Joint, x: nat, commit: bool)
    requires Inv(j) && JointEnabled(j, EndTx(x, commit))
    ensures Inv(JointTake(j, EndTx(x, commit)))
  {
    EndKeeps(j.log.tx, x, commit);
    EndKeepsStore(j.log, Ends(j.log, x, commit), x, commit);
    QuietKeeps(j, JointTake(j, EndTx(x, commit)));
  }

  lemma Step2KeepsInv(j: Joint, x: nat)
    requires Inv(j) && Enabled(j.log, CommitStep2(x))
    ensures Inv(JointTake(j, Log(CommitStep2(x))))
  {
    EndKeeps(j.log.tx, x, true);
    CommitStep2KeepsStore(j.log, x);
    QuietKeeps(j, JointTake(j, Log(CommitStep2(x))));
  }

  /** A new tick is later than every tick that there was, also than those that are gone. */
  lemma TickIsNewest(j: Joint, own: nat)
    requires Transactions(j.log.tx) && SameTicks(j) && Enabled(j.log, MakeTick(own))
    ensures C.Enabled(j.group, C.Tick(j.log.feed.nextTick, TakeSnapshot(j.log.tx, own)))
  {
    forall t | t in j.group.ticks ensures Precedes(j.group.ticks[t], TakeSnapshot(j.log.tx, own)) {
      SnapshotIsLatest(j.log.tx, own, j.group.ticks[t]);
    }
  }

  lemma TickKeepsTicks(j: Joint, own: nat)
    requires Transactions(j.log.tx) && SameTicks(j) && Enabled(j.log, MakeTick(own))
    ensures SameTicks(JointTake(j, Log(MakeTick(own))))
  {
    EndKeeps(j.log.tx, own, true);
    SnapshotIsPast(j.log.tx, own);
  }

  lemma TickKeepsGroup(j: Joint, own: nat)
    requires Transactions(j.log.tx) && SameTicks(j) && Enabled(j.log, MakeTick(own)) && C.GroupInv(j.group)
    ensures C.GroupInv(JointTake(j, Log(MakeTick(own))).group)
  {
    TickIsNewest(j, own);
    C.StepKeepsInv(j.group, C.Tick(j.log.feed.nextTick, TakeSnapshot(j.log.tx, own)));
  }

  lemma TickKeepsSubs(j: Joint, own: nat)
    requires SameSubs(j) && Enabled(j.log, MakeTick(own))
    ensures SameSubs(JointTake(j, Log(MakeTick(own))))
  {
    var g' := JointTake(j, Log(MakeTick(own))).group;
    assert SubsOf(g') == SubsOf(j.group) by {
      assert SubKeys(g') == SubKeys(j.group);
    }
  }

  lemma TickKeepsInv(j: Joint, own: nat)
    requires Inv(j) && Enabled(j.log, MakeTick(own))
    ensures Inv(JointTake(j, Log(MakeTick(own))))
  {
    TickKeeps(j.log, own);
    TickKeepsGroup(j, own);
    TickKeepsTicks(j, own);
    TickKeepsSubs(j, own);
  }

  /** The ticks that a rotation removes are older than the cursor. */
  lemma RotationKeepsInv(j: Joint)
    requires Inv(j) && Enabled(j.log, CommitRotation)
    ensures Inv(JointTake(j, Log(CommitRotation)))
  {
    var st, st' := j.log, Take(j.log, CommitRotation);
    CommitRotationKeepsStore(st);
    EndKeeps(st.tx, st.store.rotation.value.xid, true);
    MainPoints(st, j.group);
    forall t | t in st.feed.ticks && t !in st'.feed.ticks ensures t < j.group.main.last {
      assert LastSnapshot(st, 0) == st.feed.ticks[j.group.main.last];
    }
  }

  lemma LogStepKeepsInv(j: Joint, step: Step)
    requires Inv(j) && JointEnabled(j, Log(step))
    ensures Inv(JointTake(j, Log(step)))
  {
    match step {
      case Begin =>
        BeginKeepsStore(j.log);
        BeginKeepsPast(j.log.tx);
        QuietKeeps(j, JointTake(j, Log(step)));
      case MakeTick(own) => TickKeepsInv(j, own);
      case BeginRotation(x) =>
        BeginRotationKeepsStore(j.log, x);
        QuietKeeps(j, JointTake(j, Log(step)));
      case CommitRotation => RotationKeepsInv(j);
      case CommitStep2(x) => Step2KeepsInv(j, x);
    }
  }

  lemma WriteKeepsInv(j: Joint, e: Event)
    requires Inv(j) && JointEnabled(j, WriteRow(e))
    ensures Inv(JointTake(j, WriteRow(e)))
  {
    WriteKeepsStore(j.log, e, Write(j.log, e));
    QuietKeeps(j, JointTake(j, WriteRow(e)));
  }

  // ---- steps of the group

  /** The row of a member after a step is its row before, the row of the member it takes over, or
      starts where the cursor was. */
  lemma RowOrigin(g: C.Group, step: C.Step, s: nat)
    requires C.Enabled(g, step) && !step.Tick? && !step.Subscribe? && !g.main.Absent?
    requires s in SubsOf(C.Take(g, step)) && s > 0
    ensures var row := SubsOf(C.Take(g, step))[s];
            || (step.Hand? && step.m == s - 1 && row == Sub(g.main.last, Some(OpenBatch(g.nextBatch, step.next))))
            || exists u :: u in SubsOf(g) && SubsOf(g)[u].last == row.last
                 && SubsOf(g)[u].batch.Some? && row.batch.Some? && SubsOf(g)[u].batch.value.next == row.batch.value.next
  {
    var m := s - 1;
    if step.TakeOver? && step.m == m {
      assert step.victim + 1 in SubsOf(g);
    } else if !(step.Hand? && step.m == m) {
      assert C.Holding(g, m);
      assert m + 1 in SubsOf(g);
    }
  }

  /** The main row after a step. */
  lemma MainRow(g: C.Group, step: C.Step)
    requires C.Enabled(g, step) && !step.Tick? && !step.Subscribe? && !g.main.Absent?
    ensures 0 in SubsOf(g) && SubsOf(g)[0].last == g.main.last
    ensures var g' := C.Take(g, step);
            && !g'.main.Absent? && 0 in SubsOf(g') && SubsOf(g')[0].last == g'.main.last
            && (g'.main.last == g.main.last || (step.Hand? && g'.main.last == step.next)
                || (step.FinishAlone? && g'.main.last == g.main.open.value.next))
            && (SubsOf(g')[0].batch.Some? ==>
                 SubsOf(g')[0] == SubsOf(g)[0] || (step.OpenAlone? && SubsOf(g')[0] == Sub(g.main.last, Some(OpenBatch(g.nextBatch, step.next)))))
  {
  }

  /** Each row of the group after a step starts no earlier than some row before it, and its ticks
      are there. */
  lemma RowsMoveForward(feed: Feed, g: C.Group, step: C.Step, s: nat)
    requires Pointed(feed) && feed.subs == SubsOf(g)
    requires C.Enabled(g, step) && !step.Tick? && !step.Subscribe? && !g.main.Absent?
    requires forall t :: t in g.ticks && g.main.last <= t ==> t in feed.ticks
    requires s in SubsOf(C.Take(g, step))
    ensures var row := SubsOf(C.Take(g, step))[s];
            && row.last in feed.ticks
            && (row.batch.Some? ==> row.batch.value.next in feed.ticks && row.last < row.batch.value.next)
            && StartsNoEarlier(feed, feed.(subs := SubsOf(C.Take(g, step))), s)
  {
    MainRow(g, step);
    assert feed.subs[0].last == g.main.last;
    if s > 0 {
      RowOrigin(g, step, s);
    } else if step.FinishAlone? {
      assert feed.subs[0].batch.Some?;
    }
  }

  lemma GroupKeepsStore(j: Joint, step: C.Step)
    requires StoreInv(j.log) && SameTicks(j) && SameSubs(j) && JointEnabled(j, Group(step))
    ensures StoreInv(Repointed(j.log, C.Take(j.group, step)))
  {
    var st' := Repointed(j.log, C.Take(j.group, step));
    forall s | s in st'.feed.subs
      ensures st'.feed.subs[s].last in j.log.feed.ticks
      ensures st'.feed.subs[s].batch.Some? ==>
        st'.feed.subs[s].batch.value.next in j.log.feed.ticks && st'.feed.subs[s].last < st'.feed.subs[s].batch.value.next
      ensures StartsNoEarlier(j.log.feed, st'.feed, s)
    {
      RowsMoveForward(j.log.feed, j.group, step, s);
    }
    RepointKeepsStore(j.log, st');
  }

  /** The cursor only moves forward, so the ticks that are gone stay older. */
  lemma GroupKeepsTicks(j: Joint, step: C.Step)
    requires Pointed(j.log.feed) && SameSubs(j) && SameTicks(j) && JointEnabled(j, Group(step))
    ensures SameTicks(JointTake(j, Group(step)))
  {
    MainRow(j.group, step);
    assert j.log.feed.subs[0].last == j.group.main.last;
    assert C.Take(j.group, step).ticks == j.group.ticks;
  }

  lemma GroupStepKeepsInv(j: Joint, step: C.Step)
    requires Inv(j) && JointEnabled(j, Group(step))
    ensures Inv(JointTake(j, Group(step)))
  {
    C.StepKeepsInv(j.group, step);
    GroupKeepsStore(j, step);
    GroupKeepsTicks(j, step);
    GroupKeepsSubs(j, step);
  }

  lemma GroupKeepsSubs(j: Joint, step: C.Step)
    requires JointEnabled(j, Group(step))
    ensures SameSubs(JointTake(j, Group(step)))
  {
  }

  lemma StepKeepsInv(j: Joint, a: JointStep)
    requires Inv(j) && JointEnabled(j, a)
    ensures Inv(JointTake(j, a))
  {
    match a {
      case Log(step) => LogStepKeepsInv(j, step);
      case WriteRow(e) => WriteKeepsInv(j, e);
      case EndTx(x, commit) => EndKeepsInv(j, x, commit);
      case Group(step) => GroupStepKeepsInv(j, step);
    }
  }

  // ---- runs

  ghost predicate JointNext(a: Joint, b: Joint) {
    exists step :: JointEnabled(a, step) && b == JointTake(a, step)
  }

  ghost predicate JointStepAt(js: seq<Joint>, i: nat) {
    0 < i < |js| && JointNext(js[i - 1], js[i])
  }

  ghost predicate JointRun(js: seq<Joint>) {
    js != [] && JointInit(js[0]) && forall i :: 0 < i < |js| ==> JointStepAt(js, i)
  }

  lemma NextKeepsInv(j: Joint, j': Joint)
    requires Inv(j) && JointNext(j, j')
    ensures Inv(j')
  {
    var step :| JointEnabled(j, step) && j' == JointTake(j, step);
    StepKeepsInv(j, step);
  }

  lemma {:induction false} RunKeepsInv(js: seq<Joint>, i: nat)
    requires JointRun(js) && i < |js|
    ensures Inv(js[i])
  {
    if i == 0 {
      InitInv(js[0]);
    } else {
      RunKeepsInv(js, i - 1);
      assert JointStepAt(js, i);
      NextKeepsInv(js[i - 1], js[i]);
    }
  }

  // ---- what holds in every run

  /** A transaction between the two ticks of the window in the hands of member m. */
  ghost predicate InHeldWindow(j: Joint, m: nat, x: nat) {
    && C.Holding(j.group, m)
    && j.group.members[m].window.value.prev in j.log.feed.ticks
    && j.group.members[m].window.value.next in j.log.feed.ticks
    && Between(j.log.feed.ticks[j.group.members[m].window.value.prev], j.log.feed.ticks[j.group.members[m].window.value.next], x)
  }

  lemma HeldRow(j: Joint, m: nat)
    requires Pointed(j.log.feed) && SameSubs(j) && C.Holding(j.group, m)
    ensures HasBatch(j.log, m + 1)
    ensures var w := j.group.members[m].window.value;
            && w.prev in j.log.feed.ticks && w.next in j.log.feed.ticks
            && LastSnapshot(j.log, m + 1) == j.log.feed.ticks[w.prev] && NextSnapshot(j.log, m + 1) == j.log.feed.ticks[w.next]
  {
    assert m + 1 in SubKeys(j.group);
  }

  /** Rotation loses nothing of a group: in every reachable state both ticks of a held window are
      there, and each committed row of the window is in a table that batch_event_tables chooses
      for it, although the cursor of the group has passed the window. */
  lemma HeldWindowIsKept(js: seq<Joint>, i: nat, m: nat, e: Event)
    requires JointRun(js) && i < |js| && C.Holding(js[i].group, m)
    ensures var st, w := js[i].log, js[i].group.members[m].window.value;
            && w.prev in st.feed.ticks && w.next in st.feed.ticks && |st.store.tables| > 0
            && (e in st.history.written && e.txid in st.tx.committed && InHeldWindow(js[i], m, e.txid) ==>
                 exists k :: k in BatchTables(st.store, st.feed.ticks[w.prev], st.feed.ticks[w.next])
                   && k < |st.store.tables| && e in st.store.tables[k])
  {
    RunKeepsInv(js, i);
    HeldRow(js[i], m);
    if e in js[i].log.history.written && e.txid in js[i].log.tx.committed && InHeldWindow(js[i], m, e.txid) {
      RowIsChosen(js[i].log, m + 1, e);
    }
  }

  /** Nor does it lose what no member has yet: each committed row that the cursor has not passed
      is in the current or in the previous table. */
  lemma AheadIsKept(js: seq<Joint>, i: nat, e: Event)
    requires JointRun(js) && i < |js|
    ensures var st, g := js[i].log, js[i].group;
            && !g.main.Absent? && g.main.last in st.feed.ticks && st.store.cur < |st.store.tables|
            && (e in st.history.written && e.txid in st.tx.committed && !st.feed.ticks[g.main.last].Sees(e.txid) ==>
                 e in st.store.tables[st.store.cur] || e in st.store.tables[Previous(st.store)])
  {
    RunKeepsInv(js, i);
    MainPoints(js[i].log, js[i].group);
    assert LastSnapshot(js[i].log, 0) == js[i].log.feed.ticks[js[i].group.main.last];
  }
}
