/** The request limiter: the generic cell rate algorithm (GCRA, Annex A of ITU-T I.371) over
    a table of bounded size from which idle keys are swept. A time is a number of
    nanoseconds since the zero time.Time, which stands for a missing key. */
module RateLimiter {

  const SECOND := 1_000_000_000
  const MAX_LIMITER_KEYS := 100_000
  const SWEEP_INTERVAL := 60 * SECOND

  /** Full is the rejection of a new key by a full table. */
  datatype Decision = Allowed | Wait(wait: int) | Full

  datatype Limiter = Limiter(interval: int, tolerance: int, tat: map<string, int>, lastSweep: nat)

  datatype Request = Request(key: string, at: nat)

  function Max(a: int, b: int): int {
    if a < b then b else a
  }

  function Tat(l: Limiter, key: string): int {
    if key in l.tat then l.tat[key] else 0
  }

  function Fresh(interval: int, burst: int): Limiter {
    Limiter(interval, interval * (Max(burst, 1) - 1), map[], 0)
  }

  function Swept(l: Limiter, now: nat): Limiter {
    if now - l.lastSweep < SWEEP_INTERVAL then l
    else l.(tat := map k | k in l.tat && l.tat[k] > now :: l.tat[k], lastSweep := now)
  }

  function Decide(l: Limiter, key: string, now: nat): Decision {
    var earliest := Max(Tat(l, key), now) - l.tolerance;
    if key !in l.tat && |l.tat| >= MAX_LIMITER_KEYS then Full
    else if now < earliest then Wait(earliest - now)
    else Allowed
  }

  function Asked(l: Limiter, r: Request): Decision {
    Decide(Swept(l, r.at), r.key, r.at)
  }

  function After(l: Limiter, r: Request): Limiter {
    var s := Swept(l, r.at);
    if Asked(l, r) == Allowed then s.(tat := s.tat[r.key := Max(Tat(s, r.key), r.at) + s.interval]) else s
  }

  class RateLimiter {
    const interval: int
    const tolerance: int
    var tat: map<string, int>
    var lastSweep: nat

    ghost function Contents(): Limiter
      reads this
    {
      Limiter(interval, tolerance, tat, lastSweep)
    }

    constructor (interval: int, burst: int)
      ensures Contents() == Fresh(interval, burst)
    {
      this.interval := interval;
      this.tolerance := interval * (Max(burst, 1) - 1);
      tat := map[];
      lastSweep := 0;
    }

    method Sweep(now: nat)
      modifies this
      ensures Contents() == Swept(old(Contents()), now)
      ensures lastSweep == if now - old(lastSweep) < 60_000_000_000 then old(lastSweep) else now
      ensures forall k :: k in tat <==>
        k in old(tat) && (now - old(lastSweep) < 60_000_000_000 || old(tat)[k] > now)
      ensures forall k :: k in tat ==> tat[k] == old(tat)[k]
    {
      if now - lastSweep < SWEEP_INTERVAL {
        return;
      }
      lastSweep := now;
      tat := map k | k in tat && tat[k] > now :: tat[k];
    }

    /** Allow: a full table answers a new key with the interval as its wait. */
    method Allow(key: string, now: nat) returns (wait: int, ok: bool)
      modifies this
      ensures Contents() == After(old(Contents()), Request(key, now))
      ensures match Asked(old(Contents()), Request(key, now))
              case Allowed => ok && wait == 0
              case Wait(w) => !ok && wait == w
              case Full => !ok && wait == interval
    {
      Sweep(now);
      var found := key in tat;
      var t := if found then tat[key] else 0;
      if !found && |tat| >= MAX_LIMITER_KEYS {
        return interval, false;
      }
      if t < now {
        t := now;
      }
      var earliest := t - tolerance;
      if now < earliest {
        return earliest - now, false;
      }
      tat := tat[key := t + interval];
      return 0, true;
    }
  }

  // ---- runs

  function Decisions(l: Limiter, rs: seq<Request>): (ds: seq<Decision>)
    ensures |ds| == |rs|
    decreases |rs|
  {
    if rs == [] then [] else [Asked(l, rs[0])] + Decisions(After(l, rs[0]), rs[1..])
  }

  function Final(l: Limiter, rs: seq<Request>): Limiter
    decreases |rs|
  {
    if rs == [] then l else Final(After(l, rs[0]), rs[1..])
  }

  /** Requests at nondecreasing times, from some time on. */
  predicate Ordered(from: nat, rs: seq<Request>)
    decreases |rs|
  {
    rs != [] ==> from <= rs[0].at && Ordered(rs[0].at, rs[1..])
  }

  lemma {:induction false} RunsSplit(l: Limiter, rs: seq<Request>, more: seq<Request>)
    ensures Decisions(l, rs + more) == Decisions(l, rs) + Decisions(Final(l, rs), more)
    ensures Final(l, rs + more) == Final(Final(l, rs), more)
    decreases |rs|
  {
    if rs == [] {
      assert [] + more == more;
    } else {
      assert (rs + more)[1..] == rs[1..] + more;
      RunsSplit(After(l, rs[0]), rs[1..], more);
    }
  }

  // ---- the table

  lemma SweptIsSmaller(l: Limiter, now: nat)
    ensures |Swept(l, now).tat| <= |l.tat|
  {
    KeysShrink(Swept(l, now).tat.Keys, l.tat.Keys);
  }

  lemma {:induction false} KeysShrink(a: set<string>, b: set<string>)
    requires a <= b
    ensures |a| <= |b|
  {
    if a != {} {
      var x :| x in a;
      KeysShrink(a - {x}, b - {x});
    }
  }

  /** The table never grows past its limit. */
  lemma {:induction false} TableIsBounded(l: Limiter, rs: seq<Request>)
    requires |l.tat| <= 100_000
    ensures |Final(l, rs).tat| <= 100_000
    decreases |rs|
  {
    if rs != [] {
      SweptIsSmaller(l, rs[0].at);
      TableIsBounded(After(l, rs[0]), rs[1..]);
    }
  }

  // ---- the table against GCRA without sweeps

  /** GCRA: a time for each key, and no limit on the keys. */
  function GcraDecide(l: Limiter, r: Request): Decision {
    var earliest := Max(Tat(l, r.key), r.at) - l.tolerance;
    if r.at < earliest then Wait(earliest - r.at) else Allowed
  }

  function GcraAfter(l: Limiter, r: Request): Limiter {
    if GcraDecide(l, r) == Allowed then l.(tat := l.tat[r.key := Max(Tat(l, r.key), r.at) + l.interval]) else l
  }

  function Gcra(l: Limiter, rs: seq<Request>): (ds: seq<Decision>)
    ensures |ds| == |rs|
    decreases |rs|
  {
    if rs == [] then [] else [GcraDecide(l, rs[0])] + Gcra(GcraAfter(l, rs[0]), rs[1..])
  }

  /** From now on, no request can tell the two tables apart, while there is room. */
  ghost predicate Same(l: Limiter, u: Limiter, now: nat) {
    && l.interval == u.interval && l.tolerance == u.tolerance
    && forall k :: Max(Tat(l, k), now) == Max(Tat(u, k), now)
  }

  lemma SameLater(l: Limiter, u: Limiter, now: nat, later: nat)
    requires Same(l, u, now) && now <= later
    ensures Same(Swept(l, later), u, later)
  {
  }

  lemma SameStep(l: Limiter, u: Limiter, now: nat, r: Request)
    requires Same(l, u, now) && now <= r.at
    ensures Asked(l, r) != Full ==> Asked(l, r) == GcraDecide(u, r) && Same(After(l, r), GcraAfter(u, r), r.at)
    ensures Asked(l, r) == Full ==> Same(After(l, r), u, r.at)
  {
    SameLater(l, u, now, r.at);
    var s := Swept(l, r.at);
    assert Max(Tat(s, r.key), r.at) == Max(Tat(u, r.key), r.at);
    forall k ensures Asked(l, r) != Full ==> Max(Tat(After(l, r), k), r.at) == Max(Tat(GcraAfter(u, r), k), r.at) {
      assert Max(Tat(s, k), r.at) == Max(Tat(u, k), r.at);
    }
  }

  /** The requests that met room in the table. */
  function Roomy(rs: seq<Request>, ds: seq<Decision>): seq<Request>
    requires |rs| == |ds|
  {
    if rs == [] then [] else (if ds[0] == Full then [] else [rs[0]]) + Roomy(rs[1..], ds[1..])
  }

  function Answered(ds: seq<Decision>): seq<Decision> {
    if ds == [] then [] else (if ds[0] == Full then [] else [ds[0]]) + Answered(ds[1..])
  }

  /** Sweeping changes nothing: the requests that meet room are decided as by GCRA over a
      table that keeps every key for ever. */
  lemma {:induction false} SweptTableIsGcra(l: Limiter, u: Limiter, now: nat, rs: seq<Request>)
    requires Same(l, u, now) && Ordered(now, rs)
    ensures Answered(Decisions(l, rs)) == Gcra(u, Roomy(rs, Decisions(l, rs)))
    decreases |rs|
  {
    if rs != [] {
      var r := rs[0];
      SameStep(l, u, now, r);
      var full := Asked(l, r) == Full;
      SweptTableIsGcra(After(l, r), if full then u else GcraAfter(u, r), r.at, rs[1..]);
      assert Decisions(l, rs)[1..] == Decisions(After(l, r), rs[1..]);
      var roomy := Roomy(rs[1..], Decisions(After(l, r), rs[1..]));
      if full {
        assert [] + roomy == roomy;
      } else {
        assert ([r] + roomy)[1..] == roomy;
      }
    }
  }

  lemma {:induction false} RoomForAll(rs: seq<Request>, ds: seq<Decision>)
    requires |rs| == |ds| && Full !in ds
    ensures Roomy(rs, ds) == rs && Answered(ds) == ds
  {
    if rs != [] {
      assert ds[0] in ds;
      assert forall d :: d in ds[1..] ==> d in ds;
      RoomForAll(rs[1..], ds[1..]);
    }
  }

  // ---- GCRA against a leaky bucket

  /** A bucket of one key: its level at some time. It leaks one unit per nanosecond. */
  datatype Bucket = Bucket(level: int, at: nat)

  function BucketOf(bs: map<string, Bucket>, key: string): Bucket {
    if key in bs then bs[key] else Bucket(0, 0)
  }

  function LevelAt(b: Bucket, now: nat): int {
    Max(b.level - (now - b.at), 0)
  }

  /** A request pours interval units in, if the level allows. */
  function BucketDecide(bs: map<string, Bucket>, tolerance: int, r: Request): Decision {
    var level := LevelAt(BucketOf(bs, r.key), r.at);
    if level > tolerance then Wait(level - tolerance) else Allowed
  }

  function BucketAfter(bs: map<string, Bucket>, interval: int, tolerance: int, r: Request): map<string, Bucket> {
    if BucketDecide(bs, tolerance, r) == Allowed then
      bs[r.key := Bucket(LevelAt(BucketOf(bs, r.key), r.at) + interval, r.at)]
    else bs
  }

  function LeakyBucket(bs: map<string, Bucket>, interval: int, tolerance: int, rs: seq<Request>): (ds: seq<Decision>)
    ensures |ds| == |rs|
    decreases |rs|
  {
    if rs == [] then []
    else [BucketDecide(bs, tolerance, rs[0])] + LeakyBucket(BucketAfter(bs, interval, tolerance, rs[0]), interval, tolerance, rs[1..])
  }

  ghost predicate Levels(l: Limiter, bs: map<string, Bucket>, now: nat) {
    forall k :: BucketOf(bs, k).at <= now && LevelAt(BucketOf(bs, k), now) == Max(Tat(l, k), now) - now
  }

  lemma LevelsLater(l: Limiter, bs: map<string, Bucket>, now: nat, later: nat)
    requires Levels(l, bs, now) && now <= later
    ensures Levels(l, bs, later)
  {
  }

  lemma SameDecision(l: Limiter, bs: map<string, Bucket>, r: Request)
    requires Levels(l, bs, r.at)
    ensures BucketDecide(bs, l.tolerance, r) == GcraDecide(l, r)
    ensures Max(Tat(l, r.key), r.at) - r.at == LevelAt(BucketOf(bs, r.key), r.at)
  {
  }

  lemma LevelsStep(l: Limiter, bs: map<string, Bucket>, r: Request)
    requires Levels(l, bs, r.at)
    ensures BucketDecide(bs, l.tolerance, r) == GcraDecide(l, r)
    ensures Levels(GcraAfter(l, r), BucketAfter(bs, l.interval, l.tolerance, r), r.at)
  {
    SameDecision(l, bs, r);
    if GcraDecide(l, r) == Allowed {
      var level := LevelAt(BucketOf(bs, r.key), r.at);
      PouredLevels(l, bs, r, Bucket(level + l.interval, r.at), Max(Tat(l, r.key), r.at) + l.interval);
    }
  }

  lemma PouredLevels(l: Limiter, bs: map<string, Bucket>, r: Request, b: Bucket, t: int)
    requires Levels(l, bs, r.at) && b.at == r.at && LevelAt(b, r.at) == Max(t, r.at) - r.at
    ensures Levels(l.(tat := l.tat[r.key := t]), bs[r.key := b], r.at)
  {
    var l', bs' := l.(tat := l.tat[r.key := t]), bs[r.key := b];
    forall k ensures BucketOf(bs', k).at <= r.at && LevelAt(BucketOf(bs', k), r.at) == Max(Tat(l', k), r.at) - r.at {
      if k != r.key {
        assert BucketOf(bs', k) == BucketOf(bs, k) && Tat(l', k) == Tat(l, k);
        assert BucketOf(bs, k).at <= r.at && LevelAt(BucketOf(bs, k), r.at) == Max(Tat(l, k), r.at) - r.at;
      }
    }
  }

  /** GCRA is a leaky bucket with another name for its level. */
  lemma {:induction false} GcraIsLeakyBucket(l: Limiter, bs: map<string, Bucket>, now: nat, rs: seq<Request>)
    requires Levels(l, bs, now) && Ordered(now, rs)
    ensures Gcra(l, rs) == LeakyBucket(bs, l.interval, l.tolerance, rs)
    decreases |rs|
  {
    if rs != [] {
      var r := rs[0];
      LevelsLater(l, bs, now, r.at);
      LevelsStep(l, bs, r);
      GcraIsLeakyBucket(GcraAfter(l, r), BucketAfter(bs, l.interval, l.tolerance, r), r.at, rs[1..]);
    }
  }

  /** A new limiter that meets room for every request decides as a leaky bucket of
      capacity burst intervals does. */
  lemma LimiterIsLeakyBucket(interval: int, burst: int, rs: seq<Request>)
    requires Ordered(0, rs) && Full !in Decisions(Fresh(interval, burst), rs)
    ensures Decisions(Fresh(interval, burst), rs) ==
            LeakyBucket(map[], interval, interval * (Max(burst, 1) - 1), rs)
  {
    var l := Fresh(interval, burst);
    SweptTableIsGcra(l, l, 0, rs);
    RoomForAll(rs, Decisions(l, rs));
    GcraIsLeakyBucket(l, map[], 0, rs);
  }

  // ---- the rate

  /** No key is further ahead than a full burst. */
  ghost predicate InBurst(l: Limiter, now: nat) {
    forall k :: Tat(l, k) <= now + l.tolerance + l.interval
  }

  lemma StepInBurst(l: Limiter, now: nat, r: Request)
    requires InBurst(l, now) && now <= r.at && l.interval > 0 && l.tolerance >= 0
    ensures InBurst(After(l, r), r.at)
  {
    forall k ensures Tat(After(l, r), k) <= r.at + l.tolerance + l.interval {
      assert Tat(l, k) <= now + l.tolerance + l.interval;
    }
  }

  function Count(rs: seq<Request>, ds: seq<Decision>, key: string): nat
    requires |rs| == |ds|
  {
    if rs == [] then 0 else (if rs[0].key == key && ds[0] == Allowed then 1 else 0) + Count(rs[1..], ds[1..], key)
  }

  /** Each allowed request moves the time of its key ahead by one interval. */
  lemma {:induction false} AllowedMoveAhead(l: Limiter, now: nat, rs: seq<Request>, key: string, base: int)
    requires InBurst(l, now) && Ordered(now, rs) && l.interval > 0 && l.tolerance >= 0
    requires base <= Max(Tat(l, key), now)
    ensures var end := if rs == [] then now else rs[|rs| - 1].at;
            base + Count(rs, Decisions(l, rs), key) * l.interval <= end + l.tolerance + l.interval
    decreases |rs|
  {
    if rs == [] {
      assert Tat(l, key) <= now + l.tolerance + l.interval;
    } else {
      var r := rs[0];
      StepInBurst(l, now, r);
      StepMovesAhead(l, now, r, key, base);
      AllowedMoveAhead(After(l, r), r.at, rs[1..], key, base + One(l, r, key) * l.interval);
      CountFirst(l, rs, key);
      Distributes(One(l, r, key), Count(rs[1..], Decisions(After(l, r), rs[1..]), key), l.interval);
    }
  }

  /** The first request counts 1 if it is of the key and allowed. */
  function One(l: Limiter, r: Request, key: string): nat {
    if r.key == key && Asked(l, r) == Allowed then 1 else 0
  }

  lemma StepMovesAhead(l: Limiter, now: nat, r: Request, key: string, base: int)
    requires now <= r.at && l.interval > 0 && base <= Max(Tat(l, key), now)
    ensures base + One(l, r, key) * l.interval <= Max(Tat(After(l, r), key), r.at)
  {
    assert 1 * l.interval == l.interval;
  }

  lemma CountFirst(l: Limiter, rs: seq<Request>, key: string)
    requires rs != []
    ensures Count(rs, Decisions(l, rs), key) == One(l, rs[0], key) + Count(rs[1..], Decisions(After(l, rs[0]), rs[1..]), key)
  {
    assert Decisions(l, rs)[1..] == Decisions(After(l, rs[0]), rs[1..]);
  }

  lemma Distributes(a: int, b: int, c: int)
    ensures (a + b) * c == a * c + b * c
  {
  }

  lemma {:induction false} OrderedSplits(from: nat, rs: seq<Request>, more: seq<Request>)
    requires Ordered(from, rs + more)
    ensures Ordered(from, rs)
    ensures Ordered(if rs == [] then from else rs[|rs| - 1].at, more)
    decreases |rs|
  {
    if rs == [] {
      assert [] + more == more;
    } else {
      assert (rs + more)[1..] == rs[1..] + more;
      OrderedSplits(rs[0].at, rs[1..], more);
    }
  }

  lemma {:induction false} RunInBurst(l: Limiter, now: nat, rs: seq<Request>)
    requires InBurst(l, now) && Ordered(now, rs) && l.interval > 0 && l.tolerance >= 0
    ensures InBurst(Final(l, rs), if rs == [] then now else rs[|rs| - 1].at)
    ensures Final(l, rs).interval == l.interval && Final(l, rs).tolerance == l.tolerance
    decreases |rs|
  {
    if rs != [] {
      StepInBurst(l, now, rs[0]);
      RunInBurst(After(l, rs[0]), rs[0].at, rs[1..]);
    }
  }

  lemma WindowDecisions(l: Limiter, before: seq<Request>, window: seq<Request>, after: seq<Request>)
    ensures Decisions(l, before + window + after)[|before|..|before| + |window|] == Decisions(Final(l, before), window)
  {
    RunsSplit(l, before + window, after);
    RunsSplit(l, before, window);
  }

  /** The rate: in any window of a run, from its first request to its last, one key gets at
      most burst requests and one more for each interval of the window. */
  lemma WindowIsBounded(interval: int, burst: int, before: seq<Request>, window: seq<Request>, after: seq<Request>, key: string)
    requires interval > 0 && window != [] && Ordered(0, before + window + after)
    ensures var ds := Decisions(Fresh(interval, burst), before + window + after)[|before|..|before| + |window|];
            Count(window, ds, key) <= Max(burst, 1) + (window[|window| - 1].at - window[0].at) / interval
  {
    var l := Fresh(interval, burst);
    var n := Max(burst, 1);
    assert l.tolerance == interval * (n - 1) && l.tolerance >= 0;
    assert interval * (n - 1) + interval == interval * n;
    OrderedSplits(0, before + window, after);
    OrderedSplits(0, before, window);
    WindowDecisions(l, before, window, after);
    RunInBurst(l, 0, before);
    var m, first := Final(l, before), window[0].at;
    var start := if before == [] then 0 else before[|before| - 1].at;
    assert InBurst(m, first) by {
      forall k ensures Tat(m, k) <= first + m.tolerance + m.interval {
        assert Tat(m, k) <= start + m.tolerance + m.interval;
      }
    }
    AllowedMoveAhead(m, first, window, key, first);
    var count, w := Count(window, Decisions(m, window), key), window[|window| - 1].at - first;
    assert count * interval <= w + interval * n;
    AtMost(count, n, interval, w);
  }

  lemma Beyond(k: int, interval: int, w: int)
    requires interval > 0 && k > w / interval
    ensures k * interval > w
  {
    assert w == w / interval * interval + w % interval;
    var more := k - w / interval - 1;
    assert more * interval >= 0;
    assert k * interval == w / interval * interval + interval + more * interval;
  }

  lemma AtMost(count: int, burst: int, interval: int, w: int)
    requires interval > 0 && count * interval <= w + interval * burst
    ensures count <= burst + w / interval
  {
    assert (count - burst) * interval == count * interval - interval * burst;
    if count - burst > w / interval {
      Beyond(count - burst, interval, w);
    }
  }

  // ---- the wait

  lemma WaitStep(l: Limiter, key: string, end: int, r: Request)
    requires key in l.tat && l.tat[key] - l.tolerance == end && l.tolerance >= 0
    requires if r.key == key then r.at < end else r.at <= end
    ensures r.key == key ==> Asked(l, r) == Wait(end - r.at)
    ensures var m := After(l, r);
            m.tolerance == l.tolerance && (r.at < end || l.tolerance > 0 ==> key in m.tat && m.tat[key] - m.tolerance == end)
  {
  }

  /** A rejection with a wait is exact: until the wait is over, whatever happens, no request
      of the key is allowed ... */
  lemma {:induction false} NoneAllowedDuringWait(l: Limiter, key: string, end: int, rs: seq<Request>)
    requires key in l.tat && l.tat[key] - l.tolerance == end && l.tolerance >= 0
    requires forall r :: r in rs ==> r.at < end
    ensures Count(rs, Decisions(l, rs), key) == 0
    ensures var m := Final(l, rs); key in m.tat && m.tat[key] == l.tat[key] && m.tolerance == l.tolerance
    decreases |rs|
  {
    if rs != [] {
      assert rs[0] in rs;
      WaitStep(l, key, end, rs[0]);
      assert forall r :: r in rs[1..] ==> r in rs;
      NoneAllowedDuringWait(After(l, rs[0]), key, end, rs[1..]);
      assert Decisions(l, rs)[1..] == Decisions(After(l, rs[0]), rs[1..]);
    }
  }

  /** ... and a request at its end is allowed, unless the sweep at that time took the key
      from a table that is then still full: only a limiter without tolerance does that. */
  lemma AllowedAfterWait(l: Limiter, r: Request, rs: seq<Request>)
    requires Asked(l, r).Wait? && l.tolerance >= 0
    requires forall q :: q in rs ==> q.at < r.at + Asked(l, r).wait
    ensures var end, m := r.at + Asked(l, r).wait, Final(After(l, r), rs);
            && Count(rs, Decisions(After(l, r), rs), r.key) == 0
            && Asked(m, Request(r.key, end)) ==
            if r.key !in Swept(m, end).tat && |Swept(m, end).tat| >= MAX_LIMITER_KEYS then Full else Allowed
    ensures var end, m := r.at + Asked(l, r).wait, Final(After(l, r), rs);
            l.tolerance > 0 ==> Asked(m, Request(r.key, end)) == Allowed
  {
    var m, end := After(l, r), r.at + Asked(l, r).wait;
    assert r.key in m.tat && m.tat[r.key] - m.tolerance == end;
    NoneAllowedDuringWait(m, r.key, end, rs);
  }

  /** The Retry-After header: the wait in seconds, rounded up. Go divides towards zero. */
  function RetryAfter(wait: int): int {
    var n := wait + SECOND - 1;
    if n >= 0 then n / SECOND else -(-n / SECOND)
  }

  /** The header is never too early, and less than one second late. */
  lemma RetryAfterIsNotEarly(wait: int)
    requires wait > 0
    ensures wait <= RetryAfter(wait) * SECOND < wait + SECOND
  {
  }
}
