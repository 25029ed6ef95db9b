/** Migrators that run at the same time: each file is applied once, together with its row in
    schema_migrations. */
module Migrator {
  import opened Wrappers

  // ---- file names

  /** The order of slices.Sort on strings. */
  predicate Less(a: string, b: string) {
    b != "" && (a == "" || a[0] < b[0] || (a[0] == b[0] && Less(a[1..], b[1..])))
  }

  lemma {:induction false} LessIsTotal(a: string, b: string)
    ensures a == b || Less(a, b) || Less(b, a)
    ensures !(Less(a, b) && Less(b, a)) && !Less(a, a)
  {
    if a != "" && b != "" && a[0] == b[0] {
      LessIsTotal(a[1..], b[1..]);
      assert a == [a[0]] + a[1..] && b == [b[0]] + b[1..];
    }
    if a != "" {
      LessIsIrreflexive(a);
    }
  }

  lemma {:induction false} LessIsIrreflexive(a: string)
    ensures !Less(a, a)
  {
    if a != "" {
      LessIsIrreflexive(a[1..]);
    }
  }

  lemma {:induction false} LessIsTransitive(a: string, b: string, c: string)
    requires Less(a, b) && Less(b, c)
    ensures Less(a, c)
  {
    if a != "" && a[0] == b[0] && b[0] == c[0] {
      LessIsTransitive(a[1..], b[1..], c[1..]);
    }
  }

  /** The lexical order: at the first place where they differ, a has the smaller character, or
      a ends there. */
  ghost predicate Lexical(a: string, b: string) {
    exists k :: LexicalAt(a, b, k)
  }

  ghost predicate LexicalAt(a: string, b: string, k: nat) {
    k <= |a| && k < |b| && a[..k] == b[..k] && (k == |a| || a[k] < b[k])
  }

  lemma {:induction false} LessIsLexical(a: string, b: string)
    ensures Less(a, b) <==> Lexical(a, b)
  {
    if a != "" && b != "" && a[0] == b[0] {
      LessIsLexical(a[1..], b[1..]);
      if k: nat :| LexicalAt(a[1..], b[1..], k) {
        assert a[..k + 1] == [a[0]] + a[1..][..k] && b[..k + 1] == [b[0]] + b[1..][..k];
        assert LexicalAt(a, b, k + 1);
      }
      if k: nat :| LexicalAt(a, b, k) {
        LexicalRest(a, b, k);
      }
    } else {
      if Less(a, b) {
        assert LexicalAt(a, b, 0);
      }
      if k: nat :| k > 0 && LexicalAt(a, b, k) {
        LexicalFirst(a, b, k);
      }
    }
  }

  lemma LexicalFirst(a: string, b: string, k: nat)
    requires k > 0 && LexicalAt(a, b, k)
    ensures a[0] == b[0]
  {
    assert a[..k][0] == b[..k][0];
  }

  lemma LexicalRest(a: string, b: string, k: nat)
    requires a != "" && b != "" && a[0] == b[0] && LexicalAt(a, b, k)
    ensures LexicalAt(a[1..], b[1..], k - 1)
  {
    assert a[1..][..k - 1] == a[..k][1..] && b[1..][..k - 1] == b[..k][1..];
  }

  ghost predicate Ascending(fs: seq<string>) {
    forall i, j :: 0 <= i < j < |fs| ==> Less(fs[i], fs[j])
  }

  ghost predicate IsLeast(files: set<string>, f: string) {
    f in files && forall g :: g in files && g != f ==> Less(f, g)
  }

  lemma {:induction false} LeastExists(files: set<string>)
    requires files != {}
    ensures exists f :: IsLeast(files, f)
  {
    var f :| f in files;
    var rest := files - {f};
    if rest == {} {
      assert files == {f};
      assert IsLeast(files, f);
    } else {
      LeastExists(rest);
      var g :| IsLeast(rest, g);
      LessOfTwo(files, f, g);
    }
  }

  lemma LessOfTwo(files: set<string>, f: string, g: string)
    requires f in files && IsLeast(files - {f}, g)
    ensures IsLeast(files, if Less(f, g) then f else g)
  {
    LessIsTotal(f, g);
    forall h | h in files && h != f && h != g ensures Less(g, h) && (Less(f, g) ==> Less(f, h)) {
      assert h in files - {f};
      if Less(f, g) { LessIsTransitive(f, g, h); }
    }
  }

  lemma LexicalOrder(fs: seq<string>)
    ensures Ascending(fs) <==> forall i, j :: 0 <= i < j < |fs| ==> Lexical(fs[i], fs[j])
  {
    forall i, j | 0 <= i < j < |fs| ensures Less(fs[i], fs[j]) <==> Lexical(fs[i], fs[j]) {
      LessIsLexical(fs[i], fs[j]);
    }
  }

  /** slices.Sort of the names of the files, which are different. */
  ghost function Sorted(files: set<string>): (fs: seq<string>)
    ensures Ascending(fs) && (forall f :: f in fs <==> f in files)
  {
    if files == {} then []
    else
      LeastExists(files);
      var f :| IsLeast(files, f);
      [f] + Sorted(files - {f})
  }

  /** The files of a run that are not applied, in order. */
  function Pending(fs: seq<string>, rows: set<string>): seq<string> {
    if fs == [] then [] else (if fs[0] in rows then [] else [fs[0]]) + Pending(fs[1..], rows)
  }

  lemma {:induction false} PendingIs(fs: seq<string>, rows: set<string>)
    requires Ascending(fs)
    ensures Ascending(Pending(fs, rows))
    ensures forall f :: f in Pending(fs, rows) <==> f in fs && f !in rows
  {
    if fs != [] {
      assert forall i :: 0 <= i < |fs[1..]| ==> fs[1..][i] == fs[i + 1];
      PendingIs(fs[1..], rows);
      forall f | f in fs[1..] ensures Less(fs[0], f) {
      }
    }
  }

  ghost function SetOf(fs: seq<string>): set<string> {
    set f | f in fs
  }

  // ---- the database

  class Database {
    /** schema_migrations, the files whose SQL took effect, in order, and the advisory lock. */
    var rows: set<string>
    var log: seq<string>
    var lock: Option<nat>

    /** applyMigration: the SQL of the file and its row commit together, or nothing does. */
    method ApplyMigration(file: string, breaks: bool) returns (ok: bool)
      modifies this`rows, this`log
      ensures ok <==> !breaks && file !in old(rows)
      ensures ok ==> rows == old(rows) + {file} && log == old(log) + [file]
      ensures !ok ==> rows == old(rows) && log == old(log)
    {
      ok := !breaks && file !in rows;
      if ok {
        rows := rows + {file};
        log := log + [file];
      }
    }

    /** Migrate in session m, after it got the lock. files are sorted; breaksAt is the number
        of the file, among those that are not applied, at which an error ends the run. */
    method Migrate(m: nat, files: seq<string>, breaksAt: nat) returns (ok: bool)
      requires lock == None && Ascending(files)
      modifies this
      ensures lock == None
      ensures var todo := Pending(files, old(rows));
              var n := if breaksAt < |todo| then breaksAt else |todo|;
              && (ok <==> n == |todo|)
              && log == old(log) + todo[..n]
              && rows == old(rows) + SetOf(todo[..n])
    {
      lock := Some(m);
      var applied := rows;
      var n := 0;
      ghost var todo := Pending(files, applied);
      PendingIs(files, applied);
      for i := 0 to |files|
        invariant lock == Some(m)
        invariant n <= |todo| && n <= breaksAt && todo[n..] == Pending(files[i..], applied)
        invariant log == old(log) + todo[..n]
        invariant rows == applied + SetOf(todo[..n])
      {
        if files[i] in applied {
          AppliedIsSkipped(files, applied, i);
          continue;
        }
        NextPending(files, applied, i, todo, n);
        ok := ApplyMigration(files[i], n == breaksAt);
        if !ok {
          lock := None;
          return;
        }
        n := n + 1;
      }
      assert todo[..n] == todo;
      lock := None;
      ok := true;
    }
  }

  /** More files took effect, each lexically after the one before. */
  ghost predicate AppendsInOrder(was: seq<string>, now: seq<string>) {
    was <= now && forall i, j :: |was| <= i < j < |now| ==> Lexical(now[i], now[j])
  }

  /** What Migrate appends to the log, wherever an error ends it. */
  lemma MigratesInOrder(log: seq<string>, files: seq<string>, rows: set<string>, n: nat)
    requires Ascending(files) && n <= |Pending(files, rows)|
    ensures AppendsInOrder(log, log + Pending(files, rows)[..n])
    ensures forall f :: f in Pending(files, rows) <==> f in files && f !in rows
  {
    PendingIs(files, rows);
    LexicalOrder(Pending(files, rows));
  }

  lemma AppliedIsSkipped(files: seq<string>, applied: set<string>, i: nat)
    requires i < |files| && files[i] in applied
    ensures Pending(files[i..], applied) == Pending(files[i + 1..], applied)
  {
  }

  lemma NextPending(files: seq<string>, applied: set<string>, i: nat, todo: seq<string>, n: nat)
    requires i < |files| && files[i] !in applied && Ascending(todo) && n <= |todo|
    requires todo[n..] == Pending(files[i..], applied)
    ensures n < |todo| && todo[n] == files[i] && todo[n + 1..] == Pending(files[i + 1..], applied)
    ensures files[i] !in todo[..n]
    ensures todo[..n + 1] == todo[..n] + [files[i]]
    ensures SetOf(todo[..n + 1]) == SetOf(todo[..n]) + {files[i]}
  {
    assert files[i..][0] == files[i] && files[i..][1..] == files[i + 1..];
    assert todo[n..][0] == todo[n] && todo[n..][1..] == todo[n + 1..];
    assert todo[..n + 1] == todo[..n] + [todo[n]];
    forall k | 0 <= k < n ensures todo[k] != todo[n] {
      LessIsTotal(todo[k], todo[n]);
    }
  }

  // ---- migrators at the same time

  /** seen is what the migrator read from schema_migrations when it had the lock. */
  datatype Phase = Waiting | Locked | Running(seen: set<string>, next: nat) | Ended(ok: bool)

  /** done is the history of the files that this migrator applied. */
  datatype Runner = Runner(files: seq<string>, phase: Phase, done: seq<string>)

  datatype State = State(rows: set<string>, log: seq<string>, lock: Option<nat>, runners: map<nat, Runner>)

  /** Break is any end of a run before its time: an error, a crash, a lost connection. The
      lock is of the session, so it goes away with it. */
  datatype Step = Arrive(m: nat, files: seq<string>) | Lock(m: nat) | Read(m: nat) | Skip(m: nat) | Apply(m: nat) | Finish(m: nat) | Break(m: nat)

  predicate HasLock(p: Phase) {
    p.Locked? || p.Running?
  }

  predicate AtFile(r: Runner) {
    r.phase.Running? && r.phase.next < |r.files|
  }

  ghost predicate Enabled(st: State, step: Step) {
    match step
    case Arrive(m, files) => m !in st.runners && Ascending(files)
    case Lock(m) => m in st.runners && st.runners[m].phase.Waiting? && st.lock == None
    case Read(m) => m in st.runners && st.runners[m].phase.Locked?
    case Skip(m) => m in st.runners && AtFile(st.runners[m]) && st.runners[m].files[st.runners[m].phase.next] in st.runners[m].phase.seen
    case Apply(m) =>
      && m in st.runners && AtFile(st.runners[m])
      && st.runners[m].files[st.runners[m].phase.next] !in st.runners[m].phase.seen
      && st.runners[m].files[st.runners[m].phase.next] !in st.rows
    case Finish(m) => m in st.runners && st.runners[m].phase.Running? && st.runners[m].phase.next == |st.runners[m].files|
    case Break(m) => m in st.runners && !st.runners[m].phase.Ended?
  }

  ghost function Take(st: State, step: Step): State
    requires Enabled(st, step)
  {
    match step
    case Arrive(m, files) => st.(runners := st.runners[m := Runner(files, Waiting, [])])
    case Lock(m) => st.(lock := Some(m), runners := st.runners[m := st.runners[m].(phase := Locked)])
    case Read(m) => st.(runners := st.runners[m := st.runners[m].(phase := Running(st.rows, 0))])
    case Skip(m) =>
      var r := st.runners[m];
      st.(runners := st.runners[m := r.(phase := Running(r.phase.seen, r.phase.next + 1))])
    case Apply(m) =>
      var r := st.runners[m];
      var f := r.files[r.phase.next];
      st.(rows := st.rows + {f}, log := st.log + [f],
          runners := st.runners[m := Runner(r.files, Running(r.phase.seen, r.phase.next + 1), r.done + [f])])
    case Finish(m) => Left(st, m, true)
    case Break(m) => Left(st, m, false)
  }

  function Left(st: State, m: nat, ok: bool): State
    requires m in st.runners
  {
    st.(lock := if st.lock == Some(m) then None else st.lock, runners := st.runners[m := st.runners[m].(phase := Ended(ok))])
  }

  ghost predicate Init(st: State) {
    st == State({}, [], None, map[])
  }

  ghost predicate Next(a: State, b: State) {
    exists step :: Enabled(a, step) && b == Take(a, step)
  }

  ghost predicate StepAt(states: seq<State>, i: nat) {
    0 < i < |states| && Next(states[i - 1], states[i])
  }

  ghost predicate Run(states: seq<State>) {
    states != [] && Init(states[0]) && forall i :: 0 < i < |states| ==> StepAt(states, i)
  }

  /** Each row has its file in the log, once. */
  ghost predicate Once(st: State) {
    && (forall f :: f in st.rows <==> f in st.log)
    && (forall i, j :: 0 <= i < j < |st.log| ==> st.log[i] != st.log[j])
  }

  ghost predicate Exclusive(st: State) {
    && (st.lock.Some? ==> st.lock.value in st.runners)
    && (forall m :: m in st.runners ==> (HasLock(st.runners[m].phase) <==> st.lock == Some(m)))
  }

  /** While a migrator has the lock, nobody else changes schema_migrations: what it saw and
      what it applied is all that is there. */
  ghost predicate Progress(rows: set<string>, r: Runner) {
    && Ascending(r.files) && Ascending(r.done)
    && (r.phase.Waiting? || r.phase.Locked? ==> r.done == [])
    && (r.phase.Running? ==>
         && r.phase.next <= |r.files|
         && (forall f :: f in rows <==> f in r.phase.seen || f in r.done)
         && (forall f :: f in r.done <==> f in r.files[..r.phase.next] && f !in r.phase.seen))
    && (r.phase == Ended(true) ==> forall f :: f in r.files ==> f in rows)
    && (forall f :: f in r.done ==> f in rows && f in r.files)
  }

  ghost predicate Inv(st: State) {
    Once(st) && Exclusive(st) && forall m :: m in st.runners ==> Progress(st.rows, st.runners[m])
  }

  lemma NextFileIsNew(r: Runner, rows: set<string>)
    requires Progress(rows, r) && AtFile(r) && r.files[r.phase.next] !in r.phase.seen
    ensures r.files[r.phase.next] !in rows
    ensures Ascending(r.done + [r.files[r.phase.next]])
  {
    var f := r.files[r.phase.next];
    forall g | g in r.files[..r.phase.next] ensures Less(g, f) && g != f {
      LessIsTotal(g, f);
    }
  }

  lemma ApplyKeepsProgress(rows: set<string>, r: Runner)
    requires Progress(rows, r) && AtFile(r) && r.files[r.phase.next] !in r.phase.seen
    ensures var f := r.files[r.phase.next];
            Progress(rows + {f}, Runner(r.files, Running(r.phase.seen, r.phase.next + 1), r.done + [f]))
  {
    NextFileIsNew(r, rows);
    assert r.files[..r.phase.next + 1] == r.files[..r.phase.next] + [r.files[r.phase.next]];
  }

  lemma SkipKeepsProgress(rows: set<string>, r: Runner)
    requires Progress(rows, r) && AtFile(r) && r.files[r.phase.next] in r.phase.seen
    ensures Progress(rows, r.(phase := Running(r.phase.seen, r.phase.next + 1)))
  {
  }

  lemma FinishKeepsProgress(rows: set<string>, r: Runner)
    requires Progress(rows, r) && r.phase.Running? && r.phase.next == |r.files|
    ensures Progress(rows, r.(phase := Ended(true)))
  {
  }

  /** One migrator moves; the rows and the log stay. */
  lemma OneMoves(st: State, m: nat, r: Runner, lock: Option<nat>)
    requires Inv(st) && Progress(st.rows, r)
    requires if HasLock(r.phase) then lock == Some(m) else lock != Some(m)
    requires lock != st.lock ==> (lock == Some(m) && st.lock == None) || (lock == None && st.lock == Some(m))
    ensures Inv(st.(lock := lock, runners := st.runners[m := r]))
  {
  }

  lemma ApplyKeepsInv(st: State, m: nat)
    requires Inv(st) && Enabled(st, Apply(m))
    ensures Inv(Take(st, Apply(m)))
  {
    var st', f := Take(st, Apply(m)), st.runners[m].files[st.runners[m].phase.next];
    assert st.lock == Some(m);
    ApplyKeepsProgress(st.rows, st.runners[m]);
    forall n | n in st'.runners && n != m ensures Progress(st'.rows, st'.runners[n]) {
      assert !HasLock(st.runners[n].phase) && Progress(st.rows, st.runners[n]);
    }
    assert Once(st') by {
      assert f !in st.log;
    }
  }

  lemma StepKeepsInv(st: State, step: Step)
    requires Inv(st) && Enabled(st, step)
    ensures Inv(Take(st, step))
  {
    var st' := Take(st, step);
    if step.Apply? {
      ApplyKeepsInv(st, step.m);
    } else {
      StepKeepsProgress(st, step);
      OneMoves(st, step.m, st'.runners[step.m], st'.lock);
    }
  }

  lemma StepKeepsProgress(st: State, step: Step)
    requires Inv(st) && Enabled(st, step) && !step.Apply?
    ensures var st' := Take(st, step); step.m in st'.runners && Progress(st'.rows, st'.runners[step.m])
  {
    match step {
      case Skip(m) => SkipKeepsProgress(st.rows, st.runners[m]);
      case Finish(m) => FinishKeepsProgress(st.rows, st.runners[m]);
      case _ =>
    }
  }

  lemma {:induction false} RunKeepsInv(states: seq<State>, i: nat)
    requires Run(states) && i < |states|
    ensures Inv(states[i])
  {
    if i > 0 {
      RunKeepsInv(states, i - 1);
      assert StepAt(states, i);
      var step :| Enabled(states[i - 1], step) && states[i] == Take(states[i - 1], step);
      StepKeepsInv(states[i - 1], step);
    }
  }

  // ---- what holds in every run

  /** Each file takes effect at most once, exactly when its row is there; at most one migrator
      is at work; each applies its files in lexical order; and one that ends well has all of
      its files applied. */
  lemma FilesApplyOnce(states: seq<State>, i: nat, m: nat, n: nat)
    requires Run(states) && i < |states| && m in states[i].runners && n in states[i].runners
    ensures var st := states[i];
            && (forall f :: f in st.rows <==> f in st.log)
            && (forall j, k :: 0 <= j < k < |st.log| ==> st.log[j] != st.log[k])
            && (HasLock(st.runners[m].phase) && HasLock(st.runners[n].phase) ==> m == n)
            && (forall j, k :: 0 <= j < k < |st.runners[m].done| ==> Lexical(st.runners[m].done[j], st.runners[m].done[k]))
            && (st.runners[m].phase == Ended(true) ==> forall f :: f in st.runners[m].files ==> f in st.rows)
  {
    RunKeepsInv(states, i);
    LexicalOrder(states[i].runners[m].done);
  }

  /** The insert into schema_migrations never breaks the primary key: a migrator that comes to
      a file it did not see applied can apply it. */
  lemma RowIsNeverThere(states: seq<State>, i: nat, m: nat)
    requires Run(states) && i < |states| && m in states[i].runners && AtFile(states[i].runners[m])
    ensures var r := states[i].runners[m];
            r.files[r.phase.next] !in r.phase.seen ==> Enabled(states[i], Apply(m))
  {
    RunKeepsInv(states, i);
    var r := states[i].runners[m];
    if r.files[r.phase.next] !in r.phase.seen {
      NextFileIsNew(r, states[i].rows);
    }
  }

  /** A migrator that breaks leaves no lock behind: the next one can take it. */
  lemma BreakReleasesTheLock(states: seq<State>, i: nat, m: nat, n: nat)
    requires Run(states) && i < |states| && Enabled(states[i], Break(m)) && HasLock(states[i].runners[m].phase)
    requires n in states[i].runners && n != m && states[i].runners[n].phase.Waiting?
    ensures !Enabled(states[i], Lock(n)) && Enabled(Take(states[i], Break(m)), Lock(n))
  {
    RunKeepsInv(states, i);
  }
}
