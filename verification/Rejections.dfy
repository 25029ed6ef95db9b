/** What a rejected request changes: it still runs the sweep that is due. */
module Rejections {
  import opened RateLimiter

  // ---- room in the table

  function KeysIn(rs: seq<Request>): set<string> {
    set i | 0 <= i < |rs| :: rs[i].key
  }

  lemma StepKeys(l: Limiter, r: Request)
    ensures After(l, r).tat.Keys <= l.tat.Keys + {r.key}
  {
  }

  /** Few keys never meet a full table: those of the table and those of the requests together
      fit into it. */
  lemma {:induction false} FewKeysMeetRoom(l: Limiter, rs: seq<Request>)
    requires |l.tat.Keys + KeysIn(rs)| <= 100_000
    ensures Full !in Decisions(l, rs)
    decreases |rs|
  {
    if rs != [] {
      var r, m := rs[0], After(l, rs[0]);
      assert r.key in KeysIn(rs);
      forall k | k in KeysIn(rs[1..]) ensures k in KeysIn(rs) {
        var i :| 0 <= i < |rs[1..]| && rs[1..][i].key == k;
        assert rs[i + 1].key == k;
      }
      StepKeys(l, r);
      KeysShrink(m.tat.Keys + KeysIn(rs[1..]), l.tat.Keys + KeysIn(rs));
      FewKeysMeetRoom(m, rs[1..]);
      NewKeyMeetsRoom(l, r, l.tat.Keys + KeysIn(rs));
    }
  }

  lemma NewKeyMeetsRoom(l: Limiter, r: Request, keys: set<string>)
    requires l.tat.Keys <= keys && r.key in keys && |keys| <= MAX_LIMITER_KEYS
    ensures Asked(l, r) != Full
  {
    var swept := Swept(l, r.at).tat.Keys;
    if r.key !in swept {
      KeysShrink(swept + {r.key}, keys);
    }
  }

  /** A new limiter that sees at most as many keys as its table holds decides every request
      as a leaky bucket does. */
  lemma FewKeysLeakyBucket(interval: int, burst: int, rs: seq<Request>)
    requires Ordered(0, rs) && |KeysIn(rs)| <= 100_000
    ensures Decisions(Fresh(interval, burst), rs) ==
            LeakyBucket(map[], interval, interval * (Max(burst, 1) - 1), rs)
  {
    assert Fresh(interval, burst).tat.Keys + KeysIn(rs) == KeysIn(rs);
    FewKeysMeetRoom(Fresh(interval, burst), rs);
    LimiterIsLeakyBucket(interval, burst, rs);
  }

  // ---- rejections

  /** A rejected request that takes no sweep changes nothing at all. */
  lemma RejectionWithoutSweep(l: Limiter, r: Request)
    requires Asked(l, r) != Allowed && r.at - l.lastSweep < 60_000_000_000
    ensures After(l, r) == l
  {
  }

  /** A rejection changes no later decision when the keys fit into the table. */
  lemma RejectionChangesNothing(l: Limiter, r: Request, rs: seq<Request>)
    requires Ordered(r.at, rs) && Asked(l, r) != Allowed
    requires |l.tat.Keys + KeysIn(rs)| <= 100_000
    ensures Decisions(After(l, r), rs) == Decisions(l, rs)
  {
    FewKeysMeetRoom(l, rs);
    KeysShrink(After(l, r).tat.Keys + KeysIn(rs), l.tat.Keys + KeysIn(rs));
    FewKeysMeetRoom(After(l, r), rs);
    RejectionLeavesSame(l, r);
    SweptTableIsGcra(After(l, r), l, r.at, rs);
    SweptTableIsGcra(l, l, r.at, rs);
    RoomForAll(rs, Decisions(l, rs));
    RoomForAll(rs, Decisions(After(l, r), rs));
  }

  lemma RejectionLeavesSame(l: Limiter, r: Request)
    requires Asked(l, r) != Allowed
    ensures Same(After(l, r), l, r.at)
  {
    SameLater(l, l, r.at, r.at);
  }

  /** The request takes a sweep that finds no idle key in a full table, and the next request is
      of a new key and comes when a key is idle, but before the next sweep. */
  ghost predicate TakesSweep(l: Limiter, r: Request, q: Request) {
    && r.at - l.lastSweep >= SWEEP_INTERVAL
    && q.at - r.at < SWEEP_INTERVAL
    && q.key !in l.tat
    && |l.tat| >= MAX_LIMITER_KEYS
    && (forall k :: k in l.tat ==> l.tat[k] > r.at)
    && (exists k :: k in l.tat && l.tat[k] <= q.at)
  }

  lemma FewerKeys(a: set<string>, b: set<string>)
    requires a <= b
    ensures |a| == |b| <==> a == b
  {
    KeysShrink(a, b);
    if b <= a {
      assert a == b;
    } else {
      var x :| x in b && x !in a;
      KeysShrink(a, b - {x});
    }
  }

  /** Which requests a sweep makes room for. */
  lemma SweepMakesRoom(tat: map<string, int>, now: int)
    requires |tat| <= MAX_LIMITER_KEYS
    ensures var left := map k | k in tat && tat[k] > now :: tat[k];
            && |left| <= |tat|
            && (|left| >= MAX_LIMITER_KEYS <==> |tat| >= MAX_LIMITER_KEYS && forall k :: k in tat ==> tat[k] > now)
  {
    var left := map k | k in tat && tat[k] > now :: tat[k];
    FewerKeys(left.Keys, tat.Keys);
    assert left.Keys == tat.Keys <==> forall k :: k in tat ==> tat[k] > now;
    KeysShrink(left.Keys, tat.Keys);
  }

  /** A rejection changes the answer to the next request exactly when it took a sweep that the
      next request would have used. The next request then meets a full table; without the
      rejection it is decided by GCRA. */
  lemma RejectionChangesAnswer(l: Limiter, r: Request, q: Request)
    requires |l.tat| <= MAX_LIMITER_KEYS && r.at <= q.at && Asked(l, r) != Allowed
    ensures Asked(After(l, r), q) != Asked(l, q) <==> TakesSweep(l, r, q)
    ensures TakesSweep(l, r, q) ==> Asked(After(l, r), q) == Full && Asked(l, q) == GcraDecide(l, q)
  {
    if r.at - l.lastSweep >= SWEEP_INTERVAL {
      var s := Swept(l, r.at);
      SweepMakesRoom(l.tat, r.at);
      SweepMakesRoom(l.tat, q.at);
      SweepMakesRoom(s.tat, q.at);
      SameLater(l, l, r.at, r.at);
      SameLater(s, l, r.at, q.at);
      SameLater(l, l, r.at, q.at);
      SweptTwice(l.tat, r.at, q.at);
    }
  }

  lemma SweptTwice(tat: map<string, int>, first: int, second: int)
    requires first <= second
    ensures var once := map k | k in tat && tat[k] > first :: tat[k];
            (map k | k in once && once[k] > second :: once[k]) == (map k | k in tat && tat[k] > second :: tat[k])
  {
  }

  // ---- rejections and the runs after them

  const HALF := SWEEP_INTERVAL / 2

  /** Requests from some time on that two limiters answer differently. */
  ghost predicate TellApart(a: Limiter, b: Limiter, from: nat, rs: seq<Request>) {
    Ordered(from, rs) && Decisions(a, rs) != Decisions(b, rs)
  }

  lemma TellApartFirst(a: Limiter, b: Limiter, from: nat, q: Request)
    requires from <= q.at && Asked(a, q) != Asked(b, q)
    ensures TellApart(a, b, from, [q])
  {
    assert Decisions(a, [q])[0] != Decisions(b, [q])[0];
  }

  lemma TellApartLater(a: Limiter, b: Limiter, from: nat, q: Request, rs: seq<Request>)
    requires from <= q.at && TellApart(After(a, q), After(b, q), q.at, rs)
    ensures TellApart(a, b, from, [q] + rs)
  {
    assert ([q] + rs)[1..] == rs;
    assert Decisions(a, [q] + rs)[1..] == Decisions(After(a, q), rs);
    assert Decisions(b, [q] + rs)[1..] == Decisions(After(b, q), rs);
  }

  /** Two limiters that differ in their sweep clocks: half an interval lies between them. */
  ghost predicate OutOfStep(a: Limiter, b: Limiter, at: nat) {
    && a.interval == b.interval && a.tolerance == b.tolerance && a.tolerance >= 0
    && a.lastSweep == at && b.lastSweep == at + HALF
    && |a.tat| <= MAX_LIMITER_KEYS && |b.tat| <= MAX_LIMITER_KEYS
  }

  lemma SweepFindsNone(l: Limiter, now: nat)
    requires forall k :: k in l.tat ==> l.tat[k] > now
    ensures Swept(l, now).tat == l.tat
  {
  }

  /** A new key asks two full tables: the sweep of one of them makes room, or only its clock
      moves. */
  lemma ProbeFull(a: Limiter, b: Limiter, at: nat, q: Request)
    requires OutOfStep(a, b, at) && a.tat == b.tat && |a.tat| == MAX_LIMITER_KEYS && q.key !in a.tat
    requires q.at == at + SWEEP_INTERVAL
    ensures After(b, q) == b && Asked(b, q) == Full
    ensures if exists k :: k in a.tat && a.tat[k] <= q.at then Asked(a, q) == Allowed
            else Asked(a, q) == Full && After(a, q) == a.(lastSweep := q.at)
  {
    SweepMakesRoom(a.tat, q.at);
    if forall k :: k in a.tat ==> a.tat[k] > q.at {
      SweepFindsNone(a, q.at);
    }
  }

  /** Two full tables out of step: a new key that asks every half interval meets room in one of
      them first, at the latest when every key is idle. */
  lemma {:induction false} ProbesTellApart(a: Limiter, b: Limiter, at: nat, key: string, bound: int) returns (rs: seq<Request>)
    requires OutOfStep(a, b, at) && a.tat == b.tat && |a.tat| == MAX_LIMITER_KEYS && key !in a.tat
    requires forall k :: k in a.tat ==> a.tat[k] <= bound
    ensures TellApart(a, b, at + HALF, rs)
    decreases bound - at
  {
    var q := Request(key, at + SWEEP_INTERVAL);
    ProbeFull(a, b, at, q);
    if exists k :: k in a.tat && a.tat[k] <= q.at {
      TellApartFirst(a, b, at + HALF, q);
      rs := [q];
    } else {
      assert bound > q.at by {
        var k :| k in a.tat;
        assert a.tat[k] > q.at;
      }
      rs := ProbesTellApart(b, After(a, q), at + HALF, key, bound);
      TellApartLater(a, b, at + HALF, q, rs);
      rs := [q] + rs;
    }
  }

  lemma {:induction false} LongerThanAll(keys: set<string>) returns (n: nat)
    ensures forall k :: k in keys ==> |k| < n
  {
    if keys == {} {
      n := 0;
    } else {
      var k :| k in keys;
      n := LongerThanAll(keys - {k});
      n := if n <= |k| then |k| + 1 else n;
      assert forall j :: j in keys ==> j == k || j in keys - {k};
    }
  }

  function Name(i: nat): string {
    seq(i, _ => 'a')
  }

  lemma NewKey(keys: set<string>) returns (key: string)
    ensures key !in keys
  {
    var n := LongerThanAll(keys);
    key := Name(n);
    assert |key| == n;
  }

  lemma {:induction false} LatestOf(tat: map<string, int>) returns (bound: int)
    ensures forall k :: k in tat ==> tat[k] <= bound
    decreases |tat|
  {
    if tat == map[] {
      bound := 0;
    } else {
      var k :| k in tat;
      var rest := tat - {k};
      assert rest.Keys == tat.Keys - {k};
      bound := LatestOf(rest);
      bound := Max(bound, tat[k]);
      assert forall j :: j in tat ==> j == k || (j in rest && rest[j] == tat[j]);
    }
  }

  /** A new key asks a limiter that takes no sweep. */
  lemma NewKeyAsks(l: Limiter, q: Request)
    requires l.tolerance >= 0 && q.key !in l.tat && q.at - l.lastSweep < SWEEP_INTERVAL
    ensures if |l.tat| >= MAX_LIMITER_KEYS then Asked(l, q) == Full && After(l, q) == l
            else Asked(l, q) == Allowed && After(l, q) == l.(tat := l.tat[q.key := q.at + l.interval])
  {
  }

  /** New keys fill two tables that are out of step: one is full before the other, or they
      are equal and full at once. */
  lemma {:induction false} FillTellsApart(a: Limiter, b: Limiter, at: nat) returns (rs: seq<Request>)
    requires OutOfStep(a, b, at) && (|a.tat| == |b.tat| ==> a.tat == b.tat)
    ensures rs != [] && rs[0].at == at + HALF && TellApart(a, b, at + HALF, rs)
    decreases 2 * MAX_LIMITER_KEYS - |a.tat| - |b.tat|
  {
    var key := NewKey(a.tat.Keys + b.tat.Keys);
    var q := Request(key, at + HALF);
    NewKeyAsks(a, q);
    NewKeyAsks(b, q);
    if Asked(a, q) != Asked(b, q) {
      TellApartFirst(a, b, q.at, q);
      rs := [q];
    } else {
      if Asked(a, q) == Full {
        var bound := LatestOf(a.tat);
        rs := ProbesTellApart(a, b, at, key, bound);
      } else {
        rs := FillTellsApart(After(a, q), After(b, q), at);
      }
      TellApartLater(a, b, q.at, q, rs);
      rs := [q] + rs;
    }
  }

  /** The sweep of the first request may as well come before it. */
  lemma SweepFirst(l: Limiter, rs: seq<Request>)
    requires rs != []
    ensures Decisions(l, rs) == Decisions(Swept(l, rs[0].at), rs)
  {
    assert Swept(Swept(l, rs[0].at), rs[0].at) == Swept(l, rs[0].at);
  }

  /** A rejection that takes a due sweep, and a request half an interval later: the table with
      the rejection and the one without it are out of step. */
  lemma DueSweepTellsApart(l: Limiter, r: Request) returns (rs: seq<Request>)
    requires l.tolerance >= 0 && |l.tat| <= MAX_LIMITER_KEYS && Asked(l, r) != Allowed
    requires r.at - l.lastSweep >= SWEEP_INTERVAL
    ensures TellApart(After(l, r), l, r.at, rs)
  {
    var a, b := After(l, r), Swept(l, r.at + HALF);
    SweptIsSmaller(l, r.at);
    SweptIsSmaller(l, r.at + HALF);
    LaterSweepFindsMore(l.tat, r.at, r.at + HALF);
    rs := FillTellsApart(a, b, r.at);
    SweepFirst(l, rs);
  }

  lemma LaterSweepFindsMore(tat: map<string, int>, first: int, second: int)
    requires first <= second
    ensures var once, twice := map k | k in tat && tat[k] > first :: tat[k], map k | k in tat && tat[k] > second :: tat[k];
            |once| == |twice| ==> once == twice
  {
    var once, twice := map k | k in tat && tat[k] > first :: tat[k], map k | k in tat && tat[k] > second :: tat[k];
    assert twice.Keys <= once.Keys;
    FewerKeys(twice.Keys, once.Keys);
  }

  /** A rejection changes some later decision, for some requests that may follow, exactly when
      it takes a due sweep. */
  lemma RejectionMatters(l: Limiter, r: Request)
    requires l.tolerance >= 0 && |l.tat| <= 100_000 && Asked(l, r) != Allowed
    ensures (exists rs :: TellApart(After(l, r), l, r.at, rs)) <==> r.at - l.lastSweep >= 60_000_000_000
  {
    if r.at - l.lastSweep >= SWEEP_INTERVAL {
      var rs := DueSweepTellsApart(l, r);
    } else {
      RejectionWithoutSweep(l, r);
    }
  }
}
