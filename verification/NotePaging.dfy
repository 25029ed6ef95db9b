/** Paging through the notes of a user by keyset, while notes come and go. */
module NotePaging {
  import opened Wrappers
  import opened Cursors

  const PAGE_SIZE := 20

  /** id is the number of the UUID, which is the order that PostgreSQL uses. */
  datatype Note = Note(id: nat, owner: string, createdAt: int, text: string)

  datatype NoteError = NotFound | DuplicateId

  /** (created_at, id) < (created_at, id) */
  predicate Older(t: int, id: nat, u: int, jd: nat) {
    t < u || (t == u && id < jd)
  }

  predicate OlderNote(n: Note, m: Note) {
    Older(n.createdAt, n.id, m.createdAt, m.id)
  }

  /** A cursor that parseCursor let through. */
  predicate Usable(c: Cursor) {
    c.IsZero() || IsUuid(c.id)
  }

  predicate Follows(n: Note, c: Cursor)
    requires Usable(c)
  {
    c.IsZero() || Older(n.createdAt, n.id, c.createdAt, UuidNumber(c.id))
  }

  ghost predicate KeyedById(notes: set<Note>) {
    && (forall n :: n in notes ==> n.id < Pow16(32))
    && (forall n, m :: n in notes && m in notes && n.id == m.id ==> n == m)
  }

  // ---- the table

  class NoteRepo {
    var rows: set<Note>

    /** Insert: the database chooses the id and the time. */
    method Insert(owner: string, text: string, id: nat, createdAt: int) returns (r: Result<Note, NoteError>)
      requires KeyedById(rows) && id < Pow16(32)
      modifies this
      ensures KeyedById(rows)
      ensures r.Err? <==> exists n :: n in old(rows) && n.id == id
      ensures r.Ok? ==> r.value == Note(id, owner, createdAt, text) && rows == old(rows) + {r.value}
      ensures r.Err? ==> r == Err(DuplicateId) && rows == old(rows)
    {
      if exists n :: n in rows && n.id == id {
        return Err(DuplicateId);
      }
      rows := rows + {Note(id, owner, createdAt, text)};
      r := Ok(Note(id, owner, createdAt, text));
    }

    /** Delete: the note of another user is not found, like an unknown id. */
    method Delete(owner: string, id: nat) returns (r: Result<(), NoteError>)
      requires KeyedById(rows)
      modifies this
      ensures KeyedById(rows)
      ensures r == Ok(()) || r == Err(NotFound)
      ensures r == Err(NotFound) <==> forall n :: n in old(rows) ==> n.id != id || n.owner != owner
      ensures rows == set n | n in old(rows) && !(n.id == id && n.owner == owner)
    {
      var hit := set n | n in rows && n.id == id && n.owner == owner;
      assert hit == {} ==> forall n :: n in rows && n.id == id && n.owner == owner ==> n in hit;
      r := if hit == {} then Err(NotFound) else Ok(());
      rows := rows - hit;
    }
  }

  // ---- one page

  ghost predicate IsNewest(notes: set<Note>, n: Note) {
    n in notes && forall m :: m in notes && m != n ==> OlderNote(m, n)
  }

  lemma {:induction false} NewestExists(notes: set<Note>)
    requires notes != {} && KeyedById(notes)
    ensures exists n :: IsNewest(notes, n)
  {
    var n :| n in notes;
    var rest := notes - {n};
    if rest == {} {
      assert notes == {n};
      assert IsNewest(notes, n);
    } else {
      NewestExists(rest);
      var m :| IsNewest(rest, m);
      NewerOfTwo(notes, n, m);
    }
  }

  lemma NewerOfTwo(notes: set<Note>, n: Note, m: Note)
    requires KeyedById(notes) && n in notes && IsNewest(notes - {n}, m)
    ensures IsNewest(notes, if OlderNote(n, m) then m else n)
  {
    forall k | k in notes && k != n && k != m ensures OlderNote(k, m) {
      assert k in notes - {n};
    }
  }

  ghost predicate Descending(ns: seq<Note>) {
    forall i, j :: 0 <= i < j < |ns| ==> OlderNote(ns[j], ns[i])
  }

  /** ORDER BY created_at DESC, id DESC */
  ghost function Sorted(notes: set<Note>): (ns: seq<Note>)
    requires KeyedById(notes)
    ensures Descending(ns) && (forall n :: n in ns <==> n in notes)
  {
    if notes == {} then []
    else
      NewestExists(notes);
      var n :| IsNewest(notes, n);
      [n] + Sorted(notes - {n})
  }

  ghost function Candidates(rows: set<Note>, owner: string, after: Cursor): set<Note>
    requires Usable(after)
  {
    set n | n in rows && n.owner == owner && Follows(n, after)
  }

  /** ListByUser */
  ghost function ListByUser(rows: set<Note>, owner: string, after: Cursor, limit: nat): (ns: seq<Note>)
    requires KeyedById(rows) && Usable(after)
  {
    var all := Sorted(Candidates(rows, owner, after));
    if |all| <= limit then all else all[..limit]
  }

  datatype Page = Page(notes: seq<Note>, next: Cursor)

  function CursorOf(n: Note): Cursor {
    Cursor(n.createdAt, UuidText(n.id))
  }

  /** Service.List: one extra row shows if a following page exists. */
  ghost function List(rows: set<Note>, owner: string, after: Cursor): Page
    requires KeyedById(rows) && Usable(after)
  {
    var notes := ListByUser(rows, owner, after, PAGE_SIZE + 1);
    if |notes| > PAGE_SIZE then Page(notes[..PAGE_SIZE], CursorOf(notes[PAGE_SIZE - 1])) else Page(notes, ZERO)
  }

  lemma PageIsPrefix(rows: set<Note>, owner: string, after: Cursor)
    requires KeyedById(rows) && Usable(after)
    ensures var all, p := Sorted(Candidates(rows, owner, after)), List(rows, owner, after);
            if |all| > PAGE_SIZE then p.notes == all[..PAGE_SIZE] && p.next == CursorOf(all[PAGE_SIZE - 1])
            else p.notes == all && p.next == ZERO
  {
  }

  lemma CursorFollows(last: Note, n: Note)
    requires last.id < Pow16(32)
    ensures Usable(CursorOf(last)) && !CursorOf(last).IsZero()
    ensures UuidNumber(CursorOf(last).id) == last.id
    ensures Follows(n, CursorOf(last)) <==> OlderNote(n, last)
  {
    UuidRoundTrip(last.id);
  }

  /** A page holds notes of the user that follow the cursor, newest first. */
  ghost predicate Sound(rows: set<Note>, owner: string, after: Cursor, notes: seq<Note>)
    requires Usable(after)
  {
    |notes| <= PAGE_SIZE && Descending(notes) && forall n :: n in notes ==> n in Candidates(rows, owner, after)
  }

  /** What the page leaves out follows its next cursor; a page without one leaves out
      nothing. */
  ghost predicate Complete(rows: set<Note>, owner: string, after: Cursor, p: Page)
    requires Usable(after) && Usable(p.next)
  {
    forall n :: n in Candidates(rows, owner, after) ==> n in p.notes || (!p.next.IsZero() && Follows(n, p.next))
  }

  /** The next cursor is the place of the last note of a full page. */
  ghost predicate EndsAtNext(p: Page)
    requires Usable(p.next)
  {
    !p.next.IsZero() ==>
      && |p.notes| == PAGE_SIZE
      && p.next.createdAt == p.notes[PAGE_SIZE - 1].createdAt
      && UuidNumber(p.next.id) == p.notes[PAGE_SIZE - 1].id
  }

  /** What a full page leaves out is older than its last note. */
  lemma PageLeavesOlder(all: seq<Note>)
    requires Descending(all) && |all| > PAGE_SIZE && all[PAGE_SIZE - 1].id < Pow16(32)
    ensures var next := CursorOf(all[PAGE_SIZE - 1]);
            && Usable(next) && !next.IsZero() && UuidNumber(next.id) == all[PAGE_SIZE - 1].id
            && forall n :: n in all ==> n in all[..PAGE_SIZE] || Follows(n, next)
  {
    var last := all[PAGE_SIZE - 1];
    CursorFollows(last, last);
    forall n | n in all ensures n in all[..PAGE_SIZE] || Follows(n, CursorOf(last)) {
      CursorFollows(last, n);
      var i :| 0 <= i < |all| && all[i] == n;
      if i < PAGE_SIZE {
        assert all[..PAGE_SIZE][i] == n;
      }
    }
  }

  lemma PageIsExact(rows: set<Note>, owner: string, after: Cursor)
    requires KeyedById(rows) && Usable(after)
    ensures var p := List(rows, owner, after);
            Usable(p.next) && Sound(rows, owner, after, p.notes) && Complete(rows, owner, after, p) && EndsAtNext(p)
  {
    PageIsPrefix(rows, owner, after);
    var found := Candidates(rows, owner, after);
    var all, p := Sorted(found), List(rows, owner, after);
    if |all| > PAGE_SIZE {
      assert all[PAGE_SIZE - 1] in found;
      PageLeavesOlder(all);
    }
  }

  /** A page in the terms of the table: the notes of the user below the cursor, newest first, the
      greater id first at the same time, and at most 20; what it leaves out is below its last
      note. */
  lemma PageIsNewestFirst(rows: set<Note>, owner: string, after: Cursor)
    requires KeyedById(rows) && Usable(after)
    ensures var ns := List(rows, owner, after).notes;
            && |ns| <= 20
            && (forall i, j :: 0 <= i < j < |ns| ==>
                 ns[j].createdAt < ns[i].createdAt || (ns[j].createdAt == ns[i].createdAt && ns[j].id < ns[i].id))
            && (forall n :: n in ns ==> n in rows && n.owner == owner)
            && (forall n :: n in ns && after.id != "" ==>
                 n.createdAt < after.createdAt || (n.createdAt == after.createdAt && n.id < UuidNumber(after.id)))
            && (forall n :: n in rows && n.owner == owner && n !in ns ==>
                 || (after.id != "" && !(n.createdAt < after.createdAt || (n.createdAt == after.createdAt && n.id < UuidNumber(after.id))))
                 || (|ns| == 20 && (n.createdAt < ns[19].createdAt || (n.createdAt == ns[19].createdAt && n.id < ns[19].id))))
  {
    PageIsExact(rows, owner, after);
    var p := List(rows, owner, after);
    var ns := p.notes;
    forall i, j | 0 <= i < j < |ns|
      ensures ns[j].createdAt < ns[i].createdAt || (ns[j].createdAt == ns[i].createdAt && ns[j].id < ns[i].id)
    {
      assert OlderNote(ns[j], ns[i]);
    }
    forall n | n in ns ensures n in Candidates(rows, owner, after) {
    }
    forall n | n in Candidates(rows, owner, after) && n !in ns
      ensures |ns| == 20 && (n.createdAt < ns[19].createdAt || (n.createdAt == ns[19].createdAt && n.id < ns[19].id))
    {
      assert Follows(n, p.next);
    }
  }

  // ---- a walk over the pages

  /** The cursor of page k, as it comes back from the URL of the page before it. */
  ghost function CursorAt(clock: Clock, pages: seq<Page>, k: nat): Option<Cursor>
    requires k <= |pages|
  {
    if k == 0 then Some(ZERO)
    else
      match ParseCursor(clock, FormatCursor(clock, pages[k - 1].next))
      case Ok(c) => Some(c)
      case Err(_) => None
  }

  ghost predicate PageAt(clock: Clock, tables: seq<set<Note>>, owner: string, pages: seq<Page>, k: nat)
    requires |tables| == |pages| && k < |pages|
  {
    && KeyedById(tables[k])
    && (k > 0 ==> !pages[k - 1].next.IsZero())
    && CursorAt(clock, pages, k).Some? && Usable(CursorAt(clock, pages, k).value)
    && pages[k] == List(tables[k], owner, CursorAt(clock, pages, k).value)
  }

  /** A client follows next from page to page. tables[k] is the table when page k is read. */
  ghost predicate Walk(clock: Clock, tables: seq<set<Note>>, owner: string, pages: seq<Page>) {
    && clock.Inverse()
    && |tables| == |pages|
    && forall k :: 0 <= k < |pages| ==> PageAt(clock, tables, owner, pages, k)
  }

  function Shown(pages: seq<Page>): seq<Note> {
    if pages == [] then [] else Shown(pages[..|pages| - 1]) + pages[|pages| - 1].notes
  }

  /** The note stays in the table during the walk. */
  ghost predicate Stays(tables: seq<set<Note>>, n: Note) {
    forall k :: 0 <= k < |tables| ==> n in tables[k]
  }

  /** The place where the walk is: the notes shown so far are not older than it. */
  ghost predicate Above(ns: seq<Note>, c: Cursor)
    requires Usable(c)
  {
    c.IsZero() || forall n :: n in ns ==> !Follows(n, c)
  }

  lemma NextCursorReturns(clock: Clock, c: Cursor)
    requires clock.Inverse() && IsUuid(c.id)
    ensures ParseCursor(clock, FormatCursor(clock, c)) == Ok(c)
  {
    CursorRoundTrip(clock, c);
  }

  /** Every note that stays is shown or still ahead. */
  ghost predicate NothingMissed(tables: seq<set<Note>>, owner: string, shown: seq<Note>, next: Cursor)
    requires Usable(next)
  {
    forall n :: Stays(tables, n) && n.owner == owner ==> n in shown || (!next.IsZero() && Follows(n, next))
  }

  ghost predicate FromTables(tables: seq<set<Note>>, owner: string, shown: seq<Note>) {
    forall n :: n in shown ==> n.owner == owner && exists k :: 0 <= k < |tables| && n in tables[k]
  }

  ghost predicate Filled(pages: seq<Page>)
    requires pages != []
  {
    && |Shown(pages)| >= PAGE_SIZE * (|pages| - 1)
    && (!pages[|pages| - 1].next.IsZero() ==> |Shown(pages)| == PAGE_SIZE * |pages|)
  }

  lemma {:induction false} WalkSoFar(clock: Clock, tables: seq<set<Note>>, owner: string, pages: seq<Page>)
    requires Walk(clock, tables, owner, pages) && pages != []
    ensures var next := pages[|pages| - 1].next;
            && Usable(next) && Descending(Shown(pages)) && Above(Shown(pages), next)
            && NothingMissed(tables, owner, Shown(pages), next) && FromTables(tables, owner, Shown(pages)) && Filled(pages)
    decreases |pages|
  {
    var k := |pages| - 1;
    if k == 0 {
      FirstPageIs(clock, tables, owner, pages);
      FirstPage(tables, owner, pages[0]);
    } else {
      ShorterWalk(clock, tables, owner, pages);
      WalkSoFar(clock, tables[..k], owner, pages[..k]);
      NextPageIs(clock, tables, owner, pages);
      NextPage(tables, owner, Shown(pages[..k]), pages[k - 1].next, pages[k]);
      FillsMore(pages);
    }
  }

  lemma FirstPageIs(clock: Clock, tables: seq<set<Note>>, owner: string, pages: seq<Page>)
    requires Walk(clock, tables, owner, pages) && |pages| == 1
    ensures KeyedById(tables[0]) && pages[0] == List(tables[0], owner, ZERO) && Shown(pages) == pages[0].notes
  {
    assert PageAt(clock, tables, owner, pages, 0);
    assert Shown(pages[..0]) == [] && [] + pages[0].notes == pages[0].notes;
  }

  /** The page after a usable cursor begins there. */
  lemma NextPageIs(clock: Clock, tables: seq<set<Note>>, owner: string, pages: seq<Page>)
    requires Walk(clock, tables, owner, pages) && |pages| > 1 && IsUuid(pages[|pages| - 2].next.id)
    ensures var k := |pages| - 1; KeyedById(tables[k]) && pages[k] == List(tables[k], owner, pages[k - 1].next)
  {
    assert PageAt(clock, tables, owner, pages, |pages| - 1);
    NextCursorReturns(clock, pages[|pages| - 2].next);
  }

  lemma FillsMore(pages: seq<Page>)
    requires |pages| > 1 && Filled(pages[..|pages| - 1]) && !pages[|pages| - 2].next.IsZero()
    requires !pages[|pages| - 1].next.IsZero() ==> |pages[|pages| - 1].notes| == PAGE_SIZE
    ensures Filled(pages)
  {
  }

  lemma ShorterWalk(clock: Clock, tables: seq<set<Note>>, owner: string, pages: seq<Page>)
    requires Walk(clock, tables, owner, pages) && |pages| > 1
    ensures Walk(clock, tables[..|pages| - 1], owner, pages[..|pages| - 1])
    ensures !pages[|pages| - 2].next.IsZero()
  {
    var k := |pages| - 1;
    assert PageAt(clock, tables, owner, pages, k);
    forall j | 0 <= j < k ensures PageAt(clock, tables[..k], owner, pages[..k], j) {
      assert PageAt(clock, tables, owner, pages, j);
      SamePage(clock, tables, tables[..k], owner, pages, pages[..k], j);
    }
  }

  lemma SamePage(clock: Clock, tables: seq<set<Note>>, others: seq<set<Note>>, owner: string,
                 pages: seq<Page>, more: seq<Page>, j: nat)
    requires |tables| == |pages| && |others| == |more| && j < |pages| && j < |more|
    requires PageAt(clock, tables, owner, pages, j)
    requires others[j] == tables[j] && more[j] == pages[j] && (j > 0 ==> more[j - 1] == pages[j - 1])
    ensures PageAt(clock, others, owner, more, j)
  {
  }

  lemma FirstPage(tables: seq<set<Note>>, owner: string, page: Page)
    requires |tables| == 1 && KeyedById(tables[0]) && page == List(tables[0], owner, ZERO)
    ensures Usable(page.next) && Descending(page.notes) && Above(page.notes, page.next)
    ensures NothingMissed(tables, owner, page.notes, page.next) && FromTables(tables, owner, page.notes)
    ensures |page.notes| >= 0 && (!page.next.IsZero() ==> |page.notes| == PAGE_SIZE)
  {
    PageIsExact(tables[0], owner, ZERO);
    PageIsAboveNext(tables[0], owner, ZERO, page);
    forall n | Stays(tables, n) && n.owner == owner ensures n in Candidates(tables[0], owner, ZERO) {
      assert n in tables[0];
    }
  }

  lemma PageIsAboveNext(rows: set<Note>, owner: string, after: Cursor, p: Page)
    requires Usable(after) && Usable(p.next) && Sound(rows, owner, after, p.notes) && EndsAtNext(p)
    ensures Above(p.notes, p.next)
  {
  }

  lemma NextPage(tables: seq<set<Note>>, owner: string, shown: seq<Note>, cursor: Cursor, page: Page)
    requires tables != [] && KeyedById(tables[|tables| - 1])
    requires Usable(cursor) && !cursor.IsZero() && page == List(tables[|tables| - 1], owner, cursor)
    requires Descending(shown) && Above(shown, cursor)
    requires NothingMissed(tables[..|tables| - 1], owner, shown, cursor) && FromTables(tables[..|tables| - 1], owner, shown)
    ensures Usable(page.next) && Descending(shown + page.notes) && Above(shown + page.notes, page.next)
    ensures NothingMissed(tables, owner, shown + page.notes, page.next) && FromTables(tables, owner, shown + page.notes)
    ensures !page.next.IsZero() ==> |page.notes| == PAGE_SIZE
  {
    var k := |tables| - 1;
    PageIsExact(tables[k], owner, cursor);
    PageIsAboveNext(tables[k], owner, cursor, page);
    NewerThanPage(shown, cursor, page.notes);
    NextIsAbove(shown, page);
    forall n | Stays(tables, n) && n.owner == owner
      ensures n in shown + page.notes || (!page.next.IsZero() && Follows(n, page.next))
    {
      assert n in tables[k];
      assert Stays(tables[..k], n);
      assert n in shown || n in Candidates(tables[k], owner, cursor);
    }
    forall n | n in shown + page.notes ensures n.owner == owner && exists j :: 0 <= j < |tables| && n in tables[j] {
      if n in shown {
        var j :| 0 <= j < k && n in tables[..k][j];
        assert n in tables[j];
      } else {
        assert n in Candidates(tables[k], owner, cursor);
      }
    }
  }

  lemma NextIsAbove(shown: seq<Note>, page: Page)
    requires Usable(page.next) && EndsAtNext(page) && Above(page.notes, page.next)
    requires forall i, j :: 0 <= i < |shown| && 0 <= j < |page.notes| ==> OlderNote(page.notes[j], shown[i])
    ensures Above(shown + page.notes, page.next)
  {
  }

  lemma NewerThanPage(shown: seq<Note>, cursor: Cursor, notes: seq<Note>)
    requires Usable(cursor) && !cursor.IsZero() && Descending(shown) && Above(shown, cursor)
    requires Descending(notes) && forall n :: n in notes ==> Follows(n, cursor)
    ensures Descending(shown + notes)
    ensures forall i, j :: 0 <= i < |shown| && 0 <= j < |notes| ==> OlderNote(notes[j], shown[i])
  {
    forall i, j | 0 <= i < |shown| && 0 <= j < |notes| ensures OlderNote(notes[j], shown[i]) {
      assert shown[i] in shown && notes[j] in notes;
    }
  }

  // ---- what a walk shows

  /** A walk repeats nothing, newest first, and shows only notes of its user; when its last
      page has no next, it has shown each note that stayed during the whole walk. With
      Descending, it shows each such note exactly once. */
  lemma WalkIsExact(clock: Clock, tables: seq<set<Note>>, owner: string, pages: seq<Page>, n: Note)
    requires Walk(clock, tables, owner, pages) && pages != []
    ensures var ns := Shown(pages);
            && Descending(ns)
            && (forall i, j :: 0 <= i < j < |ns| ==> ns[i] != ns[j])
            && (n in ns ==> n.owner == owner && exists k :: 0 <= k < |tables| && n in tables[k])
            && (pages[|pages| - 1].next.IsZero() && Stays(tables, n) && n.owner == owner ==> n in ns)
  {
    WalkSoFar(clock, tables, owner, pages);
  }

  /** A walk that is not at its end can always go on: the cursor of the last page is
      accepted, whatever happened to the notes. */
  lemma WalkGoesOn(clock: Clock, tables: seq<set<Note>>, owner: string, pages: seq<Page>, table: set<Note>)
    requires Walk(clock, tables, owner, pages) && pages != [] && KeyedById(table)
    requires !pages[|pages| - 1].next.IsZero()
    ensures var next := pages[|pages| - 1].next;
            && Usable(next)
            && Walk(clock, tables + [table], owner, pages + [List(table, owner, next)])
  {
    WalkSoFar(clock, tables, owner, pages);
    NextCursorReturns(clock, pages[|pages| - 1].next);
    LongerWalk(clock, tables, owner, pages, table, List(table, owner, pages[|pages| - 1].next));
  }

  lemma LongerWalk(clock: Clock, tables: seq<set<Note>>, owner: string, pages: seq<Page>, table: set<Note>, page: Page)
    requires Walk(clock, tables, owner, pages) && pages != [] && KeyedById(table)
    requires var next := pages[|pages| - 1].next;
             !next.IsZero() && Usable(next) && page == List(table, owner, next) && ParseCursor(clock, FormatCursor(clock, next)) == Ok(next)
    ensures Walk(clock, tables + [table], owner, pages + [page])
  {
    var more, longer := tables + [table], pages + [page];
    forall j | 0 <= j < |longer| ensures PageAt(clock, more, owner, longer, j) {
      if j < |pages| {
        assert PageAt(clock, tables, owner, pages, j);
        SamePage(clock, tables, more, owner, pages, longer, j);
      } else {
        assert longer[j - 1] == pages[j - 1];
      }
    }
  }

  /** A walk over a finite set of notes ends: it has at most one page more than the notes
      fill. */
  lemma WalkEnds(clock: Clock, tables: seq<set<Note>>, owner: string, pages: seq<Page>, all: set<Note>)
    requires Walk(clock, tables, owner, pages) && pages != []
    requires forall k :: 0 <= k < |tables| ==> tables[k] <= all
    ensures PAGE_SIZE * (|pages| - 1) <= |all|
    ensures !pages[|pages| - 1].next.IsZero() ==> PAGE_SIZE * |pages| < |all| + PAGE_SIZE
  {
    WalkSoFar(clock, tables, owner, pages);
    var ns := Shown(pages);
    forall i | 0 <= i < |ns| ensures ns[i] in all {
      assert ns[i] in ns;
      var k :| 0 <= k < |tables| && ns[i] in tables[k];
    }
    DistinctFit(ns, all);
  }

  lemma {:induction false} DistinctFit(ns: seq<Note>, all: set<Note>)
    requires Descending(ns) && forall i :: 0 <= i < |ns| ==> ns[i] in all
    ensures |ns| <= |all|
    decreases |ns|
  {
    if ns != [] {
      var k := |ns| - 1;
      forall i | 0 <= i < k ensures ns[..k][i] in all - {ns[k]} {
        assert OlderNote(ns[k], ns[i]);
      }
      DistinctFit(ns[..k], all - {ns[k]});
    }
  }
}
