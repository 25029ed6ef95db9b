/** A new limiter, the requests that fill its table, and a rejection that decides. */
module FilledTable {
  import opened RateLimiter
  import opened Rejections

  function Names(n: nat): (names: set<string>)
    ensures |names| == n
    ensures forall k :: k in names ==> |k| < n && "b" != k
  {
    if n == 0 then {}
    else
      assert Name(n - 1) != [] ==> Name(n - 1)[0] == 'a';
      Names(n - 1) + {Name(n - 1)}
  }

  /** Requests of n different keys at time 0. */
  function Fill(n: nat): seq<Request> {
    if n == 0 then [] else Fill(n - 1) + [Request(Name(n - 1), 0)]
  }

  /** One request in 100 seconds, without a burst. */
  function Slow(): Limiter {
    Fresh(100 * SECOND, 1)
  }

  function Filled(n: nat): Limiter {
    Slow().(tat := map k | k in Names(n) :: 100 * SECOND)
  }

  /** A new key at time 0. */
  lemma FillsOne(l: Limiter, key: string)
    requires l == Slow().(tat := l.tat) && |l.tat| < MAX_LIMITER_KEYS && key !in l.tat
    ensures After(l, Request(key, 0)) == l.(tat := l.tat[key := 100 * SECOND])
  {
  }

  lemma NameIsNew(n: nat)
    ensures Name(n) !in Names(n)
  {
    assert |Name(n)| == n;
  }

  lemma FilledGrows(n: nat)
    ensures Filled(n).tat.Keys == Names(n)
    ensures Filled(n + 1).tat == Filled(n).tat[Name(n) := 100 * SECOND]
  {
    assert Names(n + 1) == Names(n) + {Name(n)};
  }

  lemma FinalMore(l: Limiter, rs: seq<Request>, r: Request)
    ensures Final(l, rs + [r]) == After(Final(l, rs), r)
  {
    RunsSplit(l, rs, [r]);
    assert [r][1..] == [];
  }

  lemma FillsMore(n: nat)
    requires n < MAX_LIMITER_KEYS
    ensures After(Filled(n), Request(Name(n), 0)) == Filled(n + 1)
  {
    NameIsNew(n);
    FilledGrows(n);
    FillsOne(Filled(n), Name(n));
  }

  lemma FillStarts()
    ensures Final(Slow(), Fill(0)) == Filled(0)
  {
    assert Filled(0).tat == map[];
  }

  lemma FillGoesOn(n: nat)
    requires n < MAX_LIMITER_KEYS && Final(Slow(), Fill(n)) == Filled(n)
    ensures Final(Slow(), Fill(n + 1)) == Filled(n + 1)
  {
    FinalMore(Slow(), Fill(n), Request(Name(n), 0));
    FillsMore(n);
  }

  lemma {:induction false} FillLeads(n: nat)
    requires n <= MAX_LIMITER_KEYS
    ensures Final(Slow(), Fill(n)) == Filled(n)
  {
    if n == 0 {
      FillStarts();
    } else {
      FillLeads(n - 1);
      FillGoesOn(n - 1);
    }
  }

  lemma FullTableDecides(l: Limiter, key: string)
    requires l == Slow().(tat := l.tat) && |l.tat| == MAX_LIMITER_KEYS && key in l.tat && "b" !in l.tat
    requires forall k :: k in l.tat ==> l.tat[k] == 100 * SECOND
    ensures var r, q := Request(key, 60 * SECOND), Request("b", 105 * SECOND);
            && Asked(l, r) == Wait(40 * SECOND) && TakesSweep(l, r, q)
            && Asked(After(l, r), q) == Full && Asked(l, q) == Allowed
  {
    var r, q := Request(key, 60 * SECOND), Request("b", 105 * SECOND);
    assert Swept(l, 60 * SECOND).tat == l.tat;
    assert Swept(l, 105 * SECOND).tat == map[];
    assert l.tat[key] <= q.at;
  }

  /** Such a rejection happens to a new limiter: after one request of each of as many keys as
      the table holds, a second request of one of them is rejected and takes the sweep, and a
      new key that comes when all keys are idle is rejected too. */
  lemma RejectionCanTakeTheSweep() returns (r: Request, q: Request)
    ensures r.at < q.at
    ensures var l := Final(Slow(), Fill(MAX_LIMITER_KEYS));
            Asked(l, r).Wait? && Asked(l, q) == Allowed && Asked(After(l, r), q) == Full
  {
    FillLeads(MAX_LIMITER_KEYS);
    var l := Filled(MAX_LIMITER_KEYS);
    assert l.tat.Keys == Names(MAX_LIMITER_KEYS);
    var key :| key in l.tat;
    FullTableDecides(l, key);
    r, q := Request(key, 60 * SECOND), Request("b", 105 * SECOND);
  }
}
