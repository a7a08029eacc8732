// Paging through the history index: rows in descending key order, from just below a cursor,
// while other rows come, go and change between the pages.
module Pagination {
  import opened Wrappers
  import opened Frames
  import opened Cursor

  datatype Row = Row(key: RowKey, archived: bool, sessionId: Option<string>, agentId: Option<string>,
                     outcome: string, delivery: string, captureStatus: string)

  datatype Filter = Filter(includeArchived: bool, sessionId: Option<string>, agentId: Option<string>,
                           outcome: Option<string>, delivery: Option<string>, captureStatus: Option<string>)

  datatype Page = Page(entries: seq<Row>, next: Option<string>)

  /** A filter value keeps the rows that hold it; a row without a value is kept by no filter value. */
  predicate Matches(f: Filter, r: Row) {
    && (f.includeArchived || !r.archived)
    && (f.sessionId.Some? ==> r.sessionId == f.sessionId)
    && (f.agentId.Some? ==> r.agentId == f.agentId)
    && (f.outcome.Some? ==> Some(r.outcome) == f.outcome)
    && (f.delivery.Some? ==> Some(r.delivery) == f.delivery)
    && (f.captureStatus.Some? ==> Some(r.captureStatus) == f.captureStatus)
  }

  /** Text order: byte by byte, a proper prefix first. */
  predicate Before(a: Bytes, b: Bytes) {
    if b == [] then false
    else if a == [] then true
    else a[0] < b[0] || (a[0] == b[0] && Before(a[1..], b[1..]))
  }

  predicate Below(a: RowKey, b: RowKey) {
    Before(a.startedAt, b.startedAt) || (a.startedAt == b.startedAt && Before(a.entryId, b.entryId))
  }

  lemma {:induction false} BeforeIsTotal(a: Bytes, b: Bytes)
    ensures Before(a, b) || a == b || Before(b, a)
    ensures !(Before(a, b) && Before(b, a)) && !Before(a, a)
  {
    if a != [] && b != [] {
      BeforeIsTotal(a[1..], b[1..]);
      assert a == [a[0]] + a[1..] && b == [b[0]] + b[1..];
    }
    if a != [] { BeforeIsTotal(a[1..], a[1..]); }
  }

  lemma {:induction false} BeforeIsTransitive(a: Bytes, b: Bytes, c: Bytes)
    requires Before(a, b) && Before(b, c)
    ensures Before(a, c)
  {
    if a != [] && a[0] == b[0] == c[0] {
      BeforeIsTransitive(a[1..], b[1..], c[1..]);
    }
  }

  lemma BelowIsTotal(a: RowKey, b: RowKey)
    ensures Below(a, b) || a == b || Below(b, a)
    ensures !(Below(a, b) && Below(b, a)) && !Below(a, a)
  {
    BeforeIsTotal(a.startedAt, b.startedAt);
    BeforeIsTotal(a.entryId, b.entryId);
    BeforeIsTotal(a.startedAt, a.startedAt);
    BeforeIsTotal(a.entryId, a.entryId);
  }

  lemma BelowIsTransitive(a: RowKey, b: RowKey, c: RowKey)
    requires Below(a, b) && Below(b, c)
    ensures Below(a, c)
  {
    if Before(a.startedAt, b.startedAt) && Before(b.startedAt, c.startedAt) {
      BeforeIsTransitive(a.startedAt, b.startedAt, c.startedAt);
    } else if a.startedAt == b.startedAt == c.startedAt {
      BeforeIsTransitive(a.entryId, b.entryId, c.entryId);
    }
  }

  // ---- One page ----

  predicate Under(cursor: Option<RowKey>, r: Row) {
    cursor == None || Below(r.key, cursor.value)
  }

  ghost predicate Descends(rows: seq<Row>) {
    forall i, j | 0 <= i < j < |rows| :: Below(rows[j].key, rows[i].key)
  }

  /** The query's answer: the first rows, at most `limit`, of those selected, in descending order. */
  ghost predicate Answers(table: set<Row>, f: Filter, cursor: Option<RowKey>, limit: nat, rows: seq<Row>) {
    && |rows| <= limit && Descends(rows)
    && (forall i | 0 <= i < |rows| :: rows[i] in table && Matches(f, rows[i]) && Under(cursor, rows[i]))
    && forall r | r in table && Matches(f, r) && Under(cursor, r) ::
         r in rows || (|rows| == limit && forall i | 0 <= i < |rows| :: Below(r.key, rows[i].key))
  }

  /** One row more than the page shows tells whether there is a next page. */
  function PageOf(rows: seq<Row>, limit: nat): Page
    requires limit > 0
  {
    var visible := if |rows| > limit then rows[..limit] else rows;
    Page(visible, if |rows| > limit then Some(EncodeCursor(visible[|visible| - 1].key)) else None)
  }

  ghost predicate ValidTable(utf8: Bytes -> bool, table: set<Row>) {
    && (forall r | r in table :: CanBeCursor(r.key) && utf8(r.key.startedAt + [0] + r.key.entryId))
    && forall r, q | r in table && q in table && r.key == q.key :: r == q
  }

  /** The page that a request with this cursor gets from this table. */
  ghost predicate Shows(utf8: Bytes -> bool, table: set<Row>, f: Filter, cursor: Option<string>, limit: nat, page: Page)
    requires limit > 0
  {
    && (cursor.Some? ==> DecodeCursor(utf8, cursor.value).Some?)
    && exists rows :: Answers(table, f, if cursor == None then None else DecodeCursor(utf8, cursor.value), limit + 1, rows)
                      && page == PageOf(rows, limit)
  }

  function LastKey(page: Page): RowKey
    requires page.entries != []
  {
    page.entries[|page.entries| - 1].key
  }

  /** What a page is: the highest selected rows, all of them unless it names a next page, whose cursor is its last row. */
  ghost predicate Complete(utf8: Bytes -> bool, table: set<Row>, f: Filter, from: Option<RowKey>, limit: nat, page: Page) {
    && |page.entries| <= limit && Descends(page.entries)
    && (forall i | 0 <= i < |page.entries| ::
          page.entries[i] in table && Matches(f, page.entries[i]) && Under(from, page.entries[i]))
    && (page.next.Some? ==> |page.entries| == limit && page.entries != [] && DecodeCursor(utf8, page.next.value) == Some(LastKey(page)))
    && forall r | r in table && Matches(f, r) && Under(from, r) ::
         r in page.entries || (page.next.Some? && page.entries != [] && Below(r.key, LastKey(page)))
  }

  lemma PageIsComplete(utf8: Bytes -> bool, table: set<Row>, f: Filter, from: Option<RowKey>, limit: nat, rows: seq<Row>)
    requires limit > 0 && ValidTable(utf8, table) && Answers(table, f, from, limit + 1, rows)
    ensures Complete(utf8, table, f, from, limit, PageOf(rows, limit))
  {
    var page := PageOf(rows, limit);
    if |rows| > limit {
      CursorReadsBack(utf8, LastKey(page));
      forall r | r in table && Matches(f, r) && Under(from, r)
        ensures r in page.entries || Below(r.key, LastKey(page))
      {
        if r in rows {
          var i :| 0 <= i < |rows| && rows[i] == r;
          assert i < limit ==> page.entries[i] == r;
        }
      }
    }
  }

  // ---- Following next_cursor ----

  /** A reader's walk: each page is asked for with the cursor of the one before, the table being whatever it is by then. */
  ghost predicate Walk(utf8: Bytes -> bool, f: Filter, limit: nat, tables: seq<set<Row>>, pages: seq<Page>)
    requires limit > 0
  {
    && |tables| == |pages| > 0
    && (forall k | 0 <= k < |pages| :: ValidTable(utf8, tables[k]))
    && Shows(utf8, tables[0], f, None, limit, pages[0])
    && forall k: nat | k + 1 < |pages| :: Follows(utf8, f, limit, pages[k], tables[k + 1], pages[k + 1])
  }

  ghost predicate Follows(utf8: Bytes -> bool, f: Filter, limit: nat, before: Page, table: set<Row>, page: Page)
    requires limit > 0
  {
    before.next.Some? && Shows(utf8, table, f, before.next, limit, page)
  }

  function From(pages: seq<Page>, k: nat): Option<RowKey>
    requires k <= |pages| && (k > 0 ==> pages[k - 1].entries != [])
  {
    if k == 0 then None else Some(LastKey(pages[k - 1]))
  }

  lemma {:induction false} PagesAreComplete(utf8: Bytes -> bool, f: Filter, limit: nat, tables: seq<set<Row>>, pages: seq<Page>, k: nat)
    requires limit > 0 && Walk(utf8, f, limit, tables, pages) && k < |pages|
    ensures k > 0 ==> pages[k - 1].next.Some? && pages[k - 1].entries != []
    ensures Complete(utf8, tables[k], f, From(pages, k), limit, pages[k])
  {
    hide Answers, PageOf, Matches;
    if k > 0 {
      PagesAreComplete(utf8, f, limit, tables, pages, k - 1);
      assert Follows(utf8, f, limit, pages[k - 1], tables[k - 1 + 1], pages[k - 1 + 1]);
      var rows :| Answers(tables[k], f, DecodeCursor(utf8, pages[k - 1].next.value), limit + 1, rows) && pages[k] == PageOf(rows, limit);
      PageIsComplete(utf8, tables[k], f, From(pages, k), limit, rows);
    } else {
      var rows :| Answers(tables[0], f, None, limit + 1, rows) && pages[0] == PageOf(rows, limit);
      PageIsComplete(utf8, tables[0], f, None, limit, rows);
    }
  }

  ghost predicate SameKeySameRow(rows: set<Row>) {
    forall r, q | r in rows && q in rows && r.key == q.key :: r == q
  }

  lemma HighestRow(rows: set<Row>) returns (highest: Row)
    requires rows != {} && SameKeySameRow(rows)
    ensures highest in rows && forall r | r in rows :: r == highest || Below(r.key, highest.key)
  {
    hide Below;
    var x :| x in rows;
    highest := x;
    if rows != {x} {
      var rest := rows - {x};
      assert rows == rest + {x};
      var h := HighestRow(rest);
      BelowIsTotal(h.key, x.key);
      if Below(x.key, h.key) {
        highest := h;
      } else {
        forall r | r in rest && r != h ensures Below(r.key, x.key) {
          BelowIsTransitive(r.key, h.key, x.key);
        }
      }
    }
  }

  /** Every finite table has an answer to every query. */
  lemma {:induction false} EveryQueryHasAnswer(table: set<Row>, f: Filter, cursor: Option<RowKey>, limit: nat) returns (rows: seq<Row>)
    requires SameKeySameRow(table)
    ensures Answers(table, f, cursor, limit, rows)
    decreases limit
  {
    hide Below, Matches;
    var selected := set r | r in table && Matches(f, r) && Under(cursor, r);
    rows := [];
    if limit > 0 && selected != {} {
      var first := HighestRow(selected);
      var rest := EveryQueryHasAnswer(table, f, Some(first.key), limit - 1);
      rows := [first] + rest;
      forall i | 0 <= i < |rest| ensures Under(cursor, rest[i]) && Below(rest[i].key, first.key) {
        if cursor.Some? {
          BelowIsTransitive(rest[i].key, first.key, cursor.value);
        }
      }
      forall r | r in table && Matches(f, r) && Under(cursor, r)
        ensures r in rows || (|rows| == limit && forall i | 0 <= i < |rows| :: Below(r.key, rows[i].key))
      {
        assert r in selected;
        if r != first {
          assert Under(Some(first.key), r);
          assert r in rest ==> r in rows;
        }
      }
    } else if selected != {} {
      assert limit == 0;
    } else {
      assert forall r | r in table && Matches(f, r) && Under(cursor, r) :: r in selected;
    }
  }

  /** So a walk can always start, and go on wherever a page names a next one, on any table there is by then. */
  lemma WalksGoOn(utf8: Bytes -> bool, f: Filter, limit: nat, tables: seq<set<Row>>, pages: seq<Page>, table: set<Row>) returns (page: Page)
    requires limit > 0 && ValidTable(utf8, table)
    requires (pages == [] && tables == []) || (Walk(utf8, f, limit, tables, pages) && pages[|pages| - 1].next.Some?)
    ensures Walk(utf8, f, limit, tables + [table], pages + [page])
  {
    hide Answers, Matches, Below, DecodeCursor, PageOf;
    if pages == [] {
      var rows := EveryQueryHasAnswer(table, f, None, limit + 1);
      page := PageOf(rows, limit);
      assert Shows(utf8, table, f, None, limit, page);
    } else {
      var last := pages[|pages| - 1];
      LastCursorDecodes(utf8, f, limit, tables, pages);
      var rows := EveryQueryHasAnswer(table, f, DecodeCursor(utf8, last.next.value), limit + 1);
      page := PageOf(rows, limit);
      assert Shows(utf8, table, f, last.next, limit, page);
      var more, shown := tables + [table], pages + [page];
      forall k: nat | k + 1 < |shown| ensures Follows(utf8, f, limit, shown[k], more[k + 1], shown[k + 1]) {
        if k + 1 < |pages| {
          assert Follows(utf8, f, limit, pages[k], tables[k + 1], pages[k + 1]);
        }
      }
    }
  }

  lemma LastCursorDecodes(utf8: Bytes -> bool, f: Filter, limit: nat, tables: seq<set<Row>>, pages: seq<Page>)
    requires limit > 0 && Walk(utf8, f, limit, tables, pages) && pages[|pages| - 1].next.Some?
    ensures DecodeCursor(utf8, pages[|pages| - 1].next.value).Some?
  {
    hide Walk, DecodeCursor, Matches, Below, ValidTable;
    WalkLengths(utf8, f, limit, tables, pages);
    PagesAreComplete(utf8, f, limit, tables, pages, |pages| - 1);
  }

  /** Every row of a later page is below every row of an earlier one. */
  lemma {:induction false} PagesDescend(utf8: Bytes -> bool, f: Filter, limit: nat, tables: seq<set<Row>>, pages: seq<Page>,
                                        j: nat, k: nat, i: nat, m: nat)
    requires limit > 0 && Walk(utf8, f, limit, tables, pages) && j < k < |pages| && i < |pages[j].entries| && m < |pages[k].entries|
    ensures Below(pages[k].entries[m].key, pages[j].entries[i].key)
    decreases k
  {
    hide Walk, Shows, Matches, ValidTable, Below, DecodeCursor;
    WalkLengths(utf8, f, limit, tables, pages);
    PagesAreComplete(utf8, f, limit, tables, pages, k);
    PagesAreComplete(utf8, f, limit, tables, pages, k - 1);
    var last: nat := |pages[k - 1].entries| - 1;
    assert Under(From(pages, k), pages[k].entries[m]);
    if j < k - 1 {
      PagesDescend(utf8, f, limit, tables, pages, j, k - 1, i, last);
      BelowIsTransitive(pages[k].entries[m].key, LastKey(pages[k - 1]), pages[j].entries[i].key);
    } else if i < last {
      BelowIsTransitive(pages[k].entries[m].key, LastKey(pages[k - 1]), pages[j].entries[i].key);
    }
  }

  lemma WalkLengths(utf8: Bytes -> bool, f: Filter, limit: nat, tables: seq<set<Row>>, pages: seq<Page>)
    requires limit > 0 && Walk(utf8, f, limit, tables, pages)
    ensures |tables| == |pages| > 0
  {
  }

  /** A key is shown at most once in a whole walk. */
  lemma ShownAtMostOnce(utf8: Bytes -> bool, f: Filter, limit: nat, tables: seq<set<Row>>, pages: seq<Page>,
                        j: nat, k: nat, i: nat, m: nat)
    requires limit > 0 && Walk(utf8, f, limit, tables, pages) && j <= k < |pages| && i < |pages[j].entries| && m < |pages[k].entries|
    requires pages[j].entries[i].key == pages[k].entries[m].key
    ensures j == k && i == m
  {
    hide Walk, Shows, Matches, ValidTable;
    WalkLengths(utf8, f, limit, tables, pages);
    BelowIsTotal(pages[j].entries[i].key, pages[k].entries[m].key);
    if j < k {
      PagesDescend(utf8, f, limit, tables, pages, j, k, i, m);
    } else {
      PagesAreComplete(utf8, f, limit, tables, pages, k);
    }
  }

  /** The row, by its key, is there and matches whenever a page is read. */
  ghost predicate PresentThroughout(f: Filter, tables: seq<set<Row>>, key: RowKey, n: nat)
    requires n <= |tables|
  {
    forall k | 0 <= k < n :: PresentIn(f, tables[k], key)
  }

  ghost predicate PresentIn(f: Filter, table: set<Row>, key: RowKey) {
    exists r :: r in table && Matches(f, r) && r.key == key
  }

  ghost predicate ShownOn(page: Page, key: RowKey) {
    exists i | 0 <= i < |page.entries| :: page.entries[i].key == key
  }

  lemma {:induction false} ShownOrBelow(utf8: Bytes -> bool, f: Filter, limit: nat, tables: seq<set<Row>>, pages: seq<Page>,
                                        key: RowKey, k: nat) returns (at: Option<nat>)
    requires limit > 0 && Walk(utf8, f, limit, tables, pages) && k < |pages| && PresentThroughout(f, tables, key, k + 1)
    ensures at.Some? ==> at.value <= k && ShownOn(pages[at.value], key)
    ensures at == None ==> pages[k].next.Some? && pages[k].entries != [] && Below(key, LastKey(pages[k]))
  {
    hide Walk, Shows, Matches, ValidTable;
    WalkLengths(utf8, f, limit, tables, pages);
    at := None;
    if k > 0 {
      at := ShownOrBelow(utf8, f, limit, tables, pages, key, k - 1);
    }
    if at == None {
      PagesAreComplete(utf8, f, limit, tables, pages, k);
      var r :| r in tables[k] && Matches(f, r) && r.key == key;
      assert Under(From(pages, k), r);
      if r in pages[k].entries {
        at := Some(k);
      }
    }
  }

  /** Once the walk has ended, every row that was there throughout has been shown, whatever happened to other rows. */
  lemma NothingIsMissed(utf8: Bytes -> bool, f: Filter, limit: nat, tables: seq<set<Row>>, pages: seq<Page>, key: RowKey)
    requires limit > 0 && Walk(utf8, f, limit, tables, pages) && pages[|pages| - 1].next == None
    requires PresentThroughout(f, tables, key, |tables|)
    ensures exists k: nat :: k < |pages| && ShownOn(pages[k], key)
  {
    var at := ShownOrBelow(utf8, f, limit, tables, pages, key, |pages| - 1);
    assert at.Some?;
  }

  // ---- A table that stays as it is ----

  ghost predicate Still(tables: seq<set<Row>>) {
    forall k | 0 <= k < |tables| :: tables[k] == tables[0]
  }

  /** The first rows of the pages before the k-th are k different rows. */
  lemma {:induction false} FirstRows(utf8: Bytes -> bool, f: Filter, limit: nat, tables: seq<set<Row>>, pages: seq<Page>, k: nat)
    returns (firsts: set<Row>)
    requires limit > 0 && Walk(utf8, f, limit, tables, pages) && Still(tables) && k < |pages|
    ensures firsts <= tables[0] && |firsts| == k
    ensures forall r | r in firsts :: exists j: nat :: j < k && pages[j].entries != [] && r == pages[j].entries[0]
  {
    hide Walk, Matches;
    WalkLengths(utf8, f, limit, tables, pages);
    firsts := {};
    if k > 0 {
      firsts := FirstRows(utf8, f, limit, tables, pages, k - 1);
      PagesAreComplete(utf8, f, limit, tables, pages, k);
      PagesAreComplete(utf8, f, limit, tables, pages, k - 1);
      var r := pages[k - 1].entries[0];
      if r in firsts {
        var j: nat :| j < k - 1 && pages[j].entries != [] && r == pages[j].entries[0];
        ShownAtMostOnce(utf8, f, limit, tables, pages, j, k - 1, 0, 0);
      }
      assert r in tables[k - 1] && tables[k - 1] == tables[0];
      firsts := firsts + {r};
    }
  }

  lemma {:induction false} SubsetSize<T>(a: set<T>, b: set<T>)
    requires a <= b
    ensures |a| <= |b|
  {
    if a != {} {
      var x :| x in a;
      SubsetSize(a - {x}, b - {x});
    }
  }

  /** On a table that does not change, the walk ends: there are no more pages with a next one than there are rows. */
  lemma WalksEnd(utf8: Bytes -> bool, f: Filter, limit: nat, tables: seq<set<Row>>, pages: seq<Page>)
    requires limit > 0 && Walk(utf8, f, limit, tables, pages) && Still(tables)
    ensures |pages| <= |tables[0]| + 1
  {
    var firsts := FirstRows(utf8, f, limit, tables, pages, |pages| - 1);
    SubsetSize(firsts, tables[0]);
  }

  /** And then it has shown exactly the matching rows. */
  lemma WalksShowExactlyTheMatches(utf8: Bytes -> bool, f: Filter, limit: nat, tables: seq<set<Row>>, pages: seq<Page>, r: Row)
    requires limit > 0 && Walk(utf8, f, limit, tables, pages) && Still(tables) && pages[|pages| - 1].next == None
    ensures r in tables[0] && Matches(f, r) <==> exists k: nat :: k < |pages| && r in pages[k].entries
  {
    hide Shows, Matches, DecodeCursor;
    if r in tables[0] && Matches(f, r) {
      assert PresentThroughout(f, tables, r.key, |tables|);
      NothingIsMissed(utf8, f, limit, tables, pages, r.key);
      var k: nat :| k < |pages| && ShownOn(pages[k], r.key);
      var i :| 0 <= i < |pages[k].entries| && pages[k].entries[i].key == r.key;
      PagesAreComplete(utf8, f, limit, tables, pages, k);
      assert pages[k].entries[i] in tables[k] && tables[k] == tables[0];
      assert ValidTable(utf8, tables[0]);
      assert pages[k].entries[i] == r;
    }
    if exists k: nat :: k < |pages| && r in pages[k].entries {
      var k: nat :| k < |pages| && r in pages[k].entries;
      PagesAreComplete(utf8, f, limit, tables, pages, k);
    }
  }
}
