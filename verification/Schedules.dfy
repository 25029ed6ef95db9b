/** The schedules of the workers: each worker keeps the last slot that it handled, and a row
    in job_schedules decides among the workers. A time is a number of nanoseconds since the
    zero time.Time, which is the first value of the last slot. */
module Schedules {

  const MINUTE := 60_000_000_000

  /** last is the last slot that this worker handled. */
  datatype Schedule = Schedule(typ: string, every: int, offset: int, last: int)

  /** A scheduled message. */
  datatype Message = Message(typ: string, slot: int)

  /** job_schedules, and the messages that the queue received. */
  datatype Shared = Shared(rows: map<string, int>, sent: seq<Message>)

  /** What happens to the statement of sendSlot: it may fail before its commit, or fail
      for the worker after it. */
  datatype Fault = Fine | FailsBefore | FailsAfter

  predicate Registrable(s: Schedule) {
    s.every >= MINUTE && 0 <= s.offset < s.every
  }

  // ---- slots

  /** time.Truncate: down to a multiple of d since the zero time. */
  function Truncate(t: int, d: int): int
    requires d > 0
  {
    t - t % d
  }

  function SlotAt(s: Schedule, now: int): int
    requires s.every > 0
  {
    Truncate(now - s.offset, s.every) + s.offset
  }

  lemma AtLeastOnce(n: int, d: int)
    requires n >= 1 && d > 0
    ensures n * d >= d
  {
  }

  lemma LaterMultiple(j: int, k: int, d: int, n: int)
    requires d > 0 && j < k && k * d <= n
    ensures j * d + d <= n
  {
    AtLeastOnce(k - j, d);
    assert k * d == j * d + (k - j) * d;
  }

  /** An interval of length d holds one multiple of d. */
  lemma OneMultiple(j: int, k: int, d: int, n: int)
    requires d > 0 && j * d <= n < j * d + d && k * d <= n < k * d + d
    ensures j == k
  {
    if j < k {
      LaterMultiple(j, k, d, n);
    } else if k < j {
      LaterMultiple(k, j, d, n);
    }
  }

  lemma MultipleLeaves(k: int, d: int, r: int)
    requires d > 0 && 0 <= r < d
    ensures (k * d + r) % d == r
  {
    var n := k * d + r;
    assert n == n / d * d + n % d;
    OneMultiple(n / d, k, d, n);
  }

  /** The slot is the one time of the schedule in the interval that ends now. */
  lemma SlotIsCurrent(s: Schedule, now: int)
    requires Registrable(s)
    ensures SlotAt(s, now) <= now < SlotAt(s, now) + s.every
    ensures SlotAt(s, now) % s.every == s.offset
    ensures forall t :: t <= now < t + s.every && t % s.every == s.offset ==> t == SlotAt(s, now)
  {
    var d, slot := s.every, SlotAt(s, now);
    var k := (now - s.offset) / d;
    assert slot == k * d + s.offset;
    MultipleLeaves(k, d, s.offset);
    forall t | t <= now < t + d && t % d == s.offset ensures t == slot {
      assert t == t / d * d + s.offset;
      OneMultiple(t / d, k, d, now - s.offset);
    }
  }

  // ---- one slot of one schedule

  /** The upsert lets the slot through: there is no row, or the row is older. */
  predicate Grants(d: Shared, typ: string, slot: int) {
    typ !in d.rows || d.rows[typ] < slot
  }

  function Granted(d: Shared, typ: string, slot: int): Shared {
    if Grants(d, typ, slot) then Shared(d.rows[typ := slot], d.sent + [Message(typ, slot)]) else d
  }

  /** The worker asks the database for this slot. */
  predicate Asks(s: Schedule, now: int)
    requires s.every > 0
  {
    SlotAt(s, now) > s.last
  }

  function SharedAfter(d: Shared, s: Schedule, now: int, fault: Fault): Shared
    requires s.every > 0
  {
    if Asks(s, now) && fault != FailsBefore then Granted(d, s.typ, SlotAt(s, now)) else d
  }

  function ScheduleAfter(s: Schedule, now: int, fault: Fault): Schedule
    requires s.every > 0
  {
    if Asks(s, now) && fault == Fine then s.(last := SlotAt(s, now)) else s
  }

  predicate Fails(s: Schedule, now: int, fault: Fault)
    requires s.every > 0
  {
    Asks(s, now) && fault != Fine
  }

  // ---- one pass over the schedules of a worker

  predicate AllRegistrable(ss: seq<Schedule>) {
    forall i :: 0 <= i < |ss| ==> Registrable(ss[i])
  }

  /** The number of schedules that a pass handles without an error. */
  function Reach(ss: seq<Schedule>, now: int, faults: seq<Fault>): nat
    requires |faults| == |ss| && AllRegistrable(ss)
    ensures Reach(ss, now, faults) <= |ss|
  {
    if ss == [] || Fails(ss[0], now, faults[0]) then 0 else 1 + Reach(ss[1..], now, faults[1..])
  }

  /** The shared state after the first n schedules of a pass. */
  function SharedAfterAll(d: Shared, ss: seq<Schedule>, now: int, faults: seq<Fault>, n: nat): Shared
    requires |faults| == |ss| && n <= |ss| && AllRegistrable(ss)
  {
    if n == 0 then d
    else SharedAfter(SharedAfterAll(d, ss, now, faults, n - 1), ss[n - 1], now, faults[n - 1])
  }

  /** A pass reaches its end exactly when no statement that it runs fails. */
  lemma {:induction false} ReachIs(ss: seq<Schedule>, now: int, faults: seq<Fault>)
    requires |faults| == |ss| && AllRegistrable(ss)
    ensures Reach(ss, now, faults) == |ss| <==>
            forall i :: 0 <= i < |ss| ==> faults[i] == Fine || SlotAt(ss[i], now) <= ss[i].last
    ensures Reach(ss, now, faults) < |ss| ==>
            var n := Reach(ss, now, faults); faults[n] != Fine && SlotAt(ss[n], now) > ss[n].last
  {
    if ss != [] && !Fails(ss[0], now, faults[0]) {
      ReachIs(ss[1..], now, faults[1..]);
      assert forall i :: 0 < i < |ss| ==> ss[i] == ss[1..][i - 1] && faults[i] == faults[1..][i - 1];
    }
  }

  class JobSchedules {
    var rows: map<string, int>
    var sent: seq<Message>

    ghost function Contents(): Shared
      reads this
    {
      Shared(rows, sent)
    }

    /** sendSlot: the upsert and the send are one statement. */
    method SendSlot(typ: string, slot: int) returns (ok: bool)
      modifies this
      ensures ok <==> Grants(old(Contents()), typ, slot)
      ensures Contents() == Granted(old(Contents()), typ, slot)
      ensures ok <==> typ !in old(rows) || old(rows)[typ] < slot
      ensures rows == if ok then old(rows)[typ := slot] else old(rows)
      ensures sent == if ok then old(sent) + [Message(typ, slot)] else old(sent)
    {
      ok := typ !in rows || rows[typ] < slot;
      if ok {
        rows := rows[typ := slot];
        sent := sent + [Message(typ, slot)];
      }
    }
  }

  class Worker {
    const schedules: array<Schedule>

    constructor (ss: seq<Schedule>)
      requires AllRegistrable(ss)
      ensures fresh(schedules) && schedules[..] == ss
    {
      schedules := new Schedule[|ss|](i requires 0 <= i < |ss| => ss[i]);
    }

    /** sendSchedules: an error ends the pass, and its slot is asked for again. */
    method SendSchedules(db: JobSchedules, now: int, faults: seq<Fault>) returns (ok: bool)
      requires |faults| == schedules.Length && AllRegistrable(schedules[..])
      modifies db, schedules
      ensures var ss, n := old(schedules[..]), Reach(old(schedules[..]), now, faults);
              && (ok <==> n == |ss|)
              && (forall i :: 0 <= i < n ==> schedules[i] == ScheduleAfter(ss[i], now, faults[i]))
              && (forall i :: n <= i < |ss| ==> schedules[i] == ss[i])
              && db.Contents() == SharedAfterAll(old(db.Contents()), ss, now, faults, if ok then n else n + 1)
      ensures ok <==> forall i :: 0 <= i < schedules.Length ==>
        faults[i] == Fine || SlotAt(old(schedules[i]), now) <= old(schedules[i].last)
      ensures ok ==> forall i :: 0 <= i < schedules.Length ==>
        schedules[i] == var s := old(schedules[i]); if SlotAt(s, now) > s.last then s.(last := SlotAt(s, now)) else s
    {
      ReachIs(schedules[..], now, faults);
      ghost var ss, d := schedules[..], db.Contents();
      for i := 0 to schedules.Length
        invariant i + Reach(ss[i..], now, faults[i..]) == Reach(ss, now, faults)
        invariant forall k :: 0 <= k < i ==> schedules[k] == ScheduleAfter(ss[k], now, faults[k])
        invariant forall k :: i <= k < schedules.Length ==> schedules[k] == ss[k]
        invariant db.Contents() == SharedAfterAll(d, ss, now, faults, i)
      {
        assert ss[i..][0] == ss[i] && ss[i..][1..] == ss[i + 1..];
        assert faults[i..][0] == faults[i] && faults[i..][1..] == faults[i + 1..];
        var s := schedules[i];
        var slot := SlotAt(s, now);
        if slot <= s.last {
          continue;
        }
        if faults[i] == FailsBefore {
          return false;
        }
        var sent := db.SendSlot(s.typ, slot);
        if faults[i] == FailsAfter {
          return false;
        }
        schedules[i] := s.(last := slot);
      }
      ok := true;
    }
  }

  // ---- any workers, any clocks

  /** The workers of the database, each with its own schedules. */
  datatype System = System(shared: Shared, workers: map<nat, seq<Schedule>>)

  /** Start also stands for a restart: the last slots of the worker are lost. One check is
      one schedule in a pass of one worker, by its own clock. */
  datatype Step = Start(w: nat, ss: seq<Schedule>) | Check(w: nat, i: nat, now: int, fault: Fault)

  ghost predicate Enabled(y: System, step: Step) {
    match step
    case Start(w, ss) => AllRegistrable(ss) && forall i :: 0 <= i < |ss| ==> ss[i].last == 0
    case Check(w, i, now, fault) => w in y.workers && i < |y.workers[w]| && Registrable(y.workers[w][i])
  }

  ghost function Take(y: System, step: Step): System
    requires Enabled(y, step)
  {
    match step
    case Start(w, ss) => y.(workers := y.workers[w := ss])
    case Check(w, i, now, fault) =>
      var s := y.workers[w][i];
      System(SharedAfter(y.shared, s, now, fault), y.workers[w := y.workers[w][i := ScheduleAfter(s, now, fault)]])
  }

  /** The system after the first n schedules of a pass, as SendSchedules leaves it. */
  ghost function AfterPass(y: System, w: nat, now: int, faults: seq<Fault>, n: nat): System
    requires w in y.workers && AllRegistrable(y.workers[w]) && |faults| == |y.workers[w]| && n <= |faults|
  {
    var ss := y.workers[w];
    System(SharedAfterAll(y.shared, ss, now, faults, n),
           y.workers[w := seq(|ss|, i requires 0 <= i < |ss| => if i < n then ScheduleAfter(ss[i], now, faults[i]) else ss[i])])
  }

  /** A pass is one check after another. */
  lemma PassIsChecks(y: System, w: nat, now: int, faults: seq<Fault>, n: nat)
    requires w in y.workers && AllRegistrable(y.workers[w]) && |faults| == |y.workers[w]| && n < |faults|
    ensures AfterPass(y, w, now, faults, 0) == y
    ensures Enabled(AfterPass(y, w, now, faults, n), Check(w, n, now, faults[n]))
    ensures AfterPass(y, w, now, faults, n + 1) == Take(AfterPass(y, w, now, faults, n), Check(w, n, now, faults[n]))
  {
    var ss, before, after := y.workers[w], AfterPass(y, w, now, faults, n), AfterPass(y, w, now, faults, n + 1);
    assert AfterPass(y, w, now, faults, 0).workers[w] == ss;
    assert AfterPass(y, w, now, faults, 0).workers == y.workers;
    assert after.workers[w] == before.workers[w][n := ScheduleAfter(ss[n], now, faults[n])];
    assert after.workers == before.workers[w := before.workers[w][n := ScheduleAfter(ss[n], now, faults[n])]];
  }

  ghost predicate Init(y: System) {
    y == System(Shared(map[], []), map[])
  }

  ghost predicate Next(a: System, b: System) {
    exists step :: Enabled(a, step) && b == Take(a, step)
  }

  ghost predicate StepAt(run: seq<System>, i: nat) {
    0 < i < |run| && Next(run[i - 1], run[i])
  }

  ghost predicate Run(run: seq<System>) {
    run != [] && Init(run[0]) && forall i :: 0 < i < |run| ==> StepAt(run, i)
  }

  /** Slots of one type go out in increasing order, and the row holds the latest. */
  ghost predicate SharedInv(d: Shared) {
    && (forall i, j :: 0 <= i < j < |d.sent| && d.sent[i].typ == d.sent[j].typ ==> d.sent[i].slot < d.sent[j].slot)
    && (forall i :: 0 <= i < |d.sent| ==> d.sent[i].typ in d.rows && d.sent[i].slot <= d.rows[d.sent[i].typ])
    && (forall typ :: typ in d.rows ==> d.rows[typ] > 0 && Message(typ, d.rows[typ]) in d.sent)
  }

  /** A worker remembers no slot that the row does not know. */
  ghost predicate Known(d: Shared, s: Schedule) {
    && Registrable(s)
    && s.last >= 0
    && (s.last > 0 ==> s.typ in d.rows && s.last <= d.rows[s.typ])
  }

  ghost predicate Inv(y: System) {
    && SharedInv(y.shared)
    && forall w, i :: w in y.workers && 0 <= i < |y.workers[w]| ==> Known(y.shared, y.workers[w][i])
  }

  lemma GrantKeepsShared(d: Shared, typ: string, slot: int)
    requires SharedInv(d) && slot > 0
    ensures SharedInv(Granted(d, typ, slot))
  {
  }

  lemma CheckKeepsShared(d: Shared, s: Schedule, now: int, fault: Fault)
    requires SharedInv(d) && Known(d, s)
    ensures SharedInv(SharedAfter(d, s, now, fault))
  {
    if Asks(s, now) {
      GrantKeepsShared(d, s.typ, SlotAt(s, now));
    }
  }

  /** Rows only move forward, and the worker that asked knows no more than its row. */
  lemma CheckKeepsKnown(d: Shared, s: Schedule, now: int, fault: Fault, t: Schedule)
    requires Known(d, s) && Known(d, t)
    ensures var d' := SharedAfter(d, s, now, fault); Known(d', ScheduleAfter(s, now, fault)) && Known(d', t)
  {
  }

  lemma CheckKeepsInv(y: System, w: nat, i: nat, now: int, fault: Fault)
    requires Inv(y) && Enabled(y, Check(w, i, now, fault))
    ensures Inv(Take(y, Check(w, i, now, fault)))
  {
    var y', s := Take(y, Check(w, i, now, fault)), y.workers[w][i];
    CheckKeepsShared(y.shared, s, now, fault);
    forall v, j | v in y'.workers && 0 <= j < |y'.workers[v]| ensures Known(y'.shared, y'.workers[v][j]) {
      CheckKeepsKnown(y.shared, s, now, fault, y.workers[v][j]);
    }
  }

  lemma StepKeepsInv(y: System, step: Step)
    requires Inv(y) && Enabled(y, step)
    ensures Inv(Take(y, step))
  {
    match step {
      case Start(_, _) =>
      case Check(w, i, now, fault) => CheckKeepsInv(y, w, i, now, fault);
    }
  }

  lemma {:induction false} RunKeepsInv(run: seq<System>, i: nat)
    requires Run(run) && i < |run|
    ensures Inv(run[i])
  {
    if i > 0 {
      RunKeepsInv(run, i - 1);
      assert StepAt(run, i);
      var step :| Enabled(run[i - 1], step) && run[i] == Take(run[i - 1], step);
      StepKeepsInv(run[i - 1], step);
    }
  }

  /** Each slot goes out at most once, and the slots of a type in increasing order, for any
      number of workers, restarts, clocks, and lost answers. */
  lemma SlotsIncrease(run: seq<System>, k: nat, i: nat, j: nat)
    requires Run(run) && k < |run| && i < j < |run[k].shared.sent|
    requires run[k].shared.sent[i].typ == run[k].shared.sent[j].typ
    ensures run[k].shared.sent[i].slot < run[k].shared.sent[j].slot
  {
    RunKeepsInv(run, k);
  }

  /** The last slot that a worker remembers suppresses a slot that the row would still grant
      only where there is no row and the slot is not after the zero time. */
  lemma CacheSuppressesNothing(run: seq<System>, k: nat, w: nat, i: nat, now: int)
    requires Run(run) && k < |run| && w in run[k].workers && i < |run[k].workers[w]|
    ensures var s := run[k].workers[w][i];
            && Registrable(s)
            && (!Asks(s, now) && Grants(run[k].shared, s.typ, SlotAt(s, now)) <==>
                s.typ !in run[k].shared.rows && SlotAt(s, now) <= 0)
            && (now >= s.every ==> (Grants(run[k].shared, s.typ, SlotAt(s, now)) ==> Asks(s, now)))
  {
    RunKeepsInv(run, k);
    var s := run[k].workers[w][i];
    assert Known(run[k].shared, s);
    SlotIsCurrent(s, now);
  }
}
