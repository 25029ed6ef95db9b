/** PostgreSQL transaction snapshots, as PgQue stores them in its ticks, and what a
    chain of snapshots does to a set of transactions. */
module Snapshots {

  /** xmin: every smaller transaction has ended. xmax: no transaction from here on is
      visible. xip: the transactions between the two that were still running. */
  datatype Snapshot = Snapshot(xmin: nat, xmax: nat, xip: set<nat>) {

    ghost predicate Valid() {
      xmin <= xmax && forall x :: x in xip ==> xmin <= x < xmax
    }

    /** pg_visible_in_snapshot */
    predicate Sees(x: nat) {
      x < xmin || (x < xmax && x !in xip)
    }
  }

  /** b was taken no earlier than a. */
  ghost predicate Precedes(a: Snapshot, b: Snapshot) {
    && a.xmin <= b.xmin
    && a.xmax <= b.xmax
    && forall x: nat :: a.Sees(x) ==> b.Sees(x)
  }

  /** The transactions of the batch between two ticks. */
  ghost predicate Between(last: Snapshot, cur: Snapshot, x: nat) {
    cur.Sees(x) && !last.Sees(x)
  }

  /** Two snapshots that a subscription moved across. */
  datatype Window = Window(batch: nat, first: Snapshot, end: Snapshot)

  /** Windows that start at a, end at b, and meet end to end. */
  ghost predicate Chain(ws: seq<Window>, a: Snapshot, b: Snapshot) {
    if ws == [] then
      a == b
    else
      var w := ws[|ws| - 1];
      w.end == b && Precedes(w.first, b) && Chain(ws[..|ws| - 1], a, w.first)
  }

  lemma {:induction false} ChainPrecedes(ws: seq<Window>, a: Snapshot, b: Snapshot)
    requires Chain(ws, a, b)
    ensures Precedes(a, b)
  {
    if ws != [] {
      ChainPrecedes(ws[..|ws| - 1], a, ws[|ws| - 1].first);
    }
  }

  /** Every window of a chain lies inside the chain. */
  lemma {:induction false} ChainWindowInside(ws: seq<Window>, a: Snapshot, b: Snapshot, i: nat)
    requires Chain(ws, a, b) && i < |ws|
    ensures Precedes(a, ws[i].first) && Precedes(ws[i].first, ws[i].end) && Precedes(ws[i].end, b)
  {
    var rest := ws[..|ws| - 1];
    var w := ws[|ws| - 1];
    ChainPrecedes(rest, a, w.first);
    if i < |rest| {
      ChainWindowInside(rest, a, w.first, i);
      assert rest[i] == ws[i];
    }
  }

  /** Consecutive batches partition the log: a transaction is in a batch of the chain
      exactly when the last tick sees it and the first does not ... */
  lemma {:induction false} ChainCovers(ws: seq<Window>, a: Snapshot, b: Snapshot, x: nat)
    requires Chain(ws, a, b)
    ensures Between(a, b, x) <==> exists i :: 0 <= i < |ws| && Between(ws[i].first, ws[i].end, x)
  {
    if ws != [] {
      var rest := ws[..|ws| - 1];
      var w := ws[|ws| - 1];
      ChainCovers(rest, a, w.first, x);
      ChainPrecedes(rest, a, w.first);
      if Between(a, w.first, x) {
        var i :| 0 <= i < |rest| && Between(rest[i].first, rest[i].end, x);
        assert ws[i] == rest[i];
      } else if Between(w.first, w.end, x) {
        assert ws[|ws| - 1] == w;
      }
      if i :| 0 <= i < |ws| && Between(ws[i].first, ws[i].end, x) {
        ChainWindowInside(ws, a, b, i);
      }
    }
  }

  /** ... and it is in one batch only. */
  lemma {:induction false} ChainDisjoint(ws: seq<Window>, a: Snapshot, b: Snapshot, i: nat, j: nat, x: nat)
    requires Chain(ws, a, b) && i < |ws| && j < |ws|
    requires Between(ws[i].first, ws[i].end, x) && Between(ws[j].first, ws[j].end, x)
    ensures i == j
  {
    var rest := ws[..|ws| - 1];
    var w := ws[|ws| - 1];
    if i < |rest| && j < |rest| {
      ChainDisjoint(rest, a, w.first, i, j, x);
    } else if i != j {
      ChainWindowInside(rest, a, w.first, if i < j then i else j);
    }
  }
}
