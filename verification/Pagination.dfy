/** Keyset pagination of trigger events and alerts: listing a page, the next cursor, and following cursors. */
module Pagination {
  import opened Wrappers

  const PAGE_SIZE: nat := 20

  /** A listed row: its trigger or user, its time, its id, and the sender's key for it. */
  datatype Row = Row(owner: string, time: int, id: nat, key: string)

  datatype Cursor = Cursor(time: int, id: nat)

  function CursorOf(r: Row): Cursor {
    Cursor(r.time, r.id)
  }

  predicate Before(a: Cursor, b: Cursor) {
    a.time < b.time || (a.time == b.time && a.id < b.id)
  }

  /** `a` is listed before `b`: newest first, ties by id. */
  predicate Above(a: Row, b: Row) {
    Before(CursorOf(b), CursorOf(a))
  }

  /** The WHERE clause of the list query. */
  predicate Matches(r: Row, owner: string, cursor: Option<Cursor>) {
    r.owner == owner && (cursor.Some? ==> Before(CursorOf(r), cursor.value))
  }

  ghost predicate DistinctIds(rows: seq<Row>) {
    forall i, j | 0 <= i < j < |rows| :: rows[i].id != rows[j].id
  }

  ghost predicate Descending(page: seq<Row>) {
    forall i, j | 0 <= i < j < |page| :: Above(page[i], page[j])
  }

  ghost predicate AllAbove(page: seq<Row>, r: Row) {
    forall p | p in page :: Above(p, r)
  }

  /** What ORDER BY ... LIMIT returns: the first `size` matching rows in listing order. */
  ghost predicate IsPage(rows: seq<Row>, owner: string, cursor: Option<Cursor>, size: nat, page: seq<Row>) {
    && |page| <= size
    && Descending(page)
    && (forall r | r in page :: r in rows && Matches(r, owner, cursor))
    && (forall r | r in rows && Matches(r, owner, cursor) && r !in page :: |page| == size && AllAbove(page, r))
  }

  /** A next cursor is emitted only after a full page. */
  function NextCursor(page: seq<Row>, size: nat): Option<Cursor> {
    if |page| == size && page != [] then Some(CursorOf(page[|page| - 1])) else None
  }

  /** Along a page times never increase, and among rows of one time the ids decrease; every row is older than the cursor. */
  lemma PageOrder(rows: seq<Row>, owner: string, cursor: Option<Cursor>, size: nat, page: seq<Row>, i: nat, j: nat)
    requires IsPage(rows, owner, cursor, size, page) && i < j < |page|
    ensures page[i].owner == owner && page[j].owner == owner
    ensures page[j].time <= page[i].time && (page[j].time == page[i].time ==> page[j].id < page[i].id)
    ensures cursor.Some? ==>
              page[i].time <= cursor.value.time && (page[i].time == cursor.value.time ==> page[i].id < cursor.value.id)
  {
    assert page[i] in page && page[j] in page && Above(page[i], page[j]);
  }

  // ---- The tables -------------------------------------------------------------------------------

  class Table {
    var rows: seq<Row>
    var nextId: nat

    ghost predicate Valid()
      reads this
    {
      DistinctIds(rows) && forall r | r in rows :: r.id < nextId
    }

    constructor ()
      ensures Valid() && rows == []
    {
      rows, nextId := [], 0;
    }

    /** An alert is always inserted. */
    method Create(owner: string, time: int, key: string) returns (r: Row)
      requires Valid()
      modifies this
      ensures Valid()
      ensures rows == old(rows) + [r] && r == Row(owner, time, r.id, key)
    {
      r := Row(owner, time, nextId, key);
      rows := rows + [r];
      nextId := nextId + 1;
    }

    /** A trigger event whose key is known already leaves the table as it is and is answered with the stored row. */
    method Ingest(owner: string, time: int, key: string) returns (r: Row)
      requires Valid()
      modifies this
      ensures Valid()
      ensures r in rows && r.key == key
      ensures if exists q :: q in old(rows) && q.key == key then rows == old(rows)
              else rows == old(rows) + [r] && r == Row(owner, time, r.id, key)
    {
      var i := 0;
      while i < |rows|
        invariant i <= |rows| && rows == old(rows) && Valid()
        invariant forall k | 0 <= k < i :: rows[k].key != key
      {
        if rows[i].key == key {
          return rows[i];
        }
        i := i + 1;
      }
      r := Create(owner, time, key);
    }

    /** The first matching row in listing order. */
    method First(owner: string, cursor: Option<Cursor>) returns (first: Option<Row>)
      requires Valid()
      ensures first.Some? ==> first.value in rows && Matches(first.value, owner, cursor)
      ensures first.Some? ==> forall r | r in rows && Matches(r, owner, cursor) && r != first.value :: Above(first.value, r)
      ensures first.None? ==> forall r | r in rows :: !Matches(r, owner, cursor)
    {
      first := None;
      for i := 0 to |rows|
        invariant first.Some? ==> first.value in rows[..i] && Matches(first.value, owner, cursor)
        invariant first.Some? ==> forall k | 0 <= k < i && Matches(rows[k], owner, cursor) && rows[k] != first.value :: Above(first.value, rows[k])
        invariant first.None? ==> forall k | 0 <= k < i :: !Matches(rows[k], owner, cursor)
      {
        if Matches(rows[i], owner, cursor) && (first.None? || Above(rows[i], first.value)) {
          first := Some(rows[i]);
        }
      }
    }

    method ListCursor(owner: string, cursor: Option<Cursor>, size: nat) returns (page: seq<Row>)
      requires Valid()
      ensures IsPage(rows, owner, cursor, size, page)
    {
      page := [];
      var next := First(owner, cursor);
      while |page| < size && next.Some?
        invariant |page| <= size && Descending(page)
        invariant forall r | r in page :: r in rows && Matches(r, owner, cursor)
        invariant forall r | r in rows && Matches(r, owner, cursor) && r !in page :: AllAbove(page, r)
        invariant next.Some? ==> next.value in rows && Matches(next.value, owner, cursor) && next.value !in page
        invariant next.Some? ==> forall r | r in rows && Matches(r, owner, cursor) && r !in page && r != next.value :: Above(next.value, r)
        invariant next.None? ==> forall r | r in rows && Matches(r, owner, cursor) :: r in page
      {
        page := page + [next.value];
        next := First(owner, Some(CursorOf(next.value)));
      }
    }

    /** One request: a page, and the cursor of the following one if there may be one. */
    method ServePage(owner: string, cursor: Option<Cursor>) returns (page: seq<Row>, next: Option<Cursor>)
      requires Valid()
      ensures IsPage(rows, owner, cursor, PAGE_SIZE, page) && next == NextCursor(page, PAGE_SIZE)
    {
      page := ListCursor(owner, cursor, PAGE_SIZE);
      next := None;
      if |page| == PAGE_SIZE {
        var last := page[|page| - 1];
        next := Some(Cursor(last.time, last.id));
      }
    }
  }

  // ---- Following the cursors --------------------------------------------------------------------

  /** The table at each of a series of requests; between requests rows are only inserted. */
  ghost predicate Growing(tables: seq<seq<Row>>) {
    && (forall k | 0 <= k < |tables| :: DistinctIds(tables[k]))
    && (forall j, k, r | 0 <= j <= k < |tables| && r in tables[j] :: r in tables[k])
  }

  /** Requests that follow the next cursor from `cursor` until there is none. */
  ghost predicate IsWalk(tables: seq<seq<Row>>, owner: string, cursor: Option<Cursor>, size: nat, pages: seq<seq<Row>>)
    decreases |pages|
  {
    && |pages| == |tables| > 0
    && IsPage(tables[0], owner, cursor, size, pages[0])
    && match NextCursor(pages[0], size)
       case None => |pages| == 1
       case Some(next) => IsWalk(tables[1..], owner, Some(next), size, pages[1..])
  }

  function Flatten(pages: seq<seq<Row>>): seq<Row> {
    if pages == [] then [] else pages[0] + Flatten(pages[1..])
  }

  /** A full page is followed by everything that matches and lies below its last row. */
  lemma BelowFullPage(rows: seq<Row>, owner: string, cursor: Option<Cursor>, size: nat, page: seq<Row>, r: Row)
    requires DistinctIds(rows) && IsPage(rows, owner, cursor, size, page) && NextCursor(page, size).Some?
    requires r in rows && Matches(r, owner, cursor)
    ensures r in page <==> !Matches(r, owner, NextCursor(page, size))
  {
    var last := page[|page| - 1];
    if r in page {
      var i :| 0 <= i < |page| && page[i] == r;
      assert r == last || Above(r, last);
    } else {
      assert AllAbove(page, r) && last in page;
    }
  }

  lemma DescendingConcat(a: seq<Row>, b: seq<Row>)
    requires Descending(a) && Descending(b)
    requires a != [] && forall r | r in b :: Above(a[|a| - 1], r)
    ensures Descending(a + b)
  {
    var last := a[|a| - 1];
    forall i, j | 0 <= i < |a| && 0 <= j < |b| ensures Above(a[i], b[j]) {
      assert b[j] in b;
      assert i == |a| - 1 || Above(a[i], last);
    }
  }

  lemma GrowingTail(tables: seq<seq<Row>>)
    requires tables != [] && Growing(tables)
    ensures Growing(tables[1..])
  {
    var rest := tables[1..];
    forall j, k, r | 0 <= j <= k < |rest| && r in rest[j] ensures r in rest[k] {
      assert r in tables[j + 1];
      assert r in tables[k + 1];
    }
  }

  /** From any cursor on, a walk lists in order exactly the rows that match and were there when it started. */
  lemma {:induction false} WalkLists(tables: seq<seq<Row>>, owner: string, cursor: Option<Cursor>, size: nat, pages: seq<seq<Row>>)
    requires size > 0 && Growing(tables) && IsWalk(tables, owner, cursor, size, pages)
    ensures Descending(Flatten(pages))
    ensures forall r | r in Flatten(pages) :: r in tables[|tables| - 1] && Matches(r, owner, cursor)
    ensures forall r | r in tables[0] :: r in Flatten(pages) <==> Matches(r, owner, cursor)
    decreases |pages|
  {
    var page, next := pages[0], NextCursor(pages[0], size);
    assert Flatten(pages) == page + Flatten(pages[1..]);
    if next.None? {
      assert Flatten(pages[1..]) == [];
      assert Flatten(pages) == page;
    } else {
      var rest := Flatten(pages[1..]);
      GrowingTail(tables);
      WalkLists(tables[1..], owner, next, size, pages[1..]);
      forall r | r in rest ensures Above(page[|page| - 1], r) && Matches(r, owner, cursor) {
        assert Matches(r, owner, next);
        assert page[|page| - 1] in page;
      }
      DescendingConcat(page, rest);
      forall r | r in tables[0] ensures r in Flatten(pages) <==> Matches(r, owner, cursor) {
        if Matches(r, owner, cursor) {
          BelowFullPage(tables[0], owner, cursor, size, page, r);
          assert r in tables[1];
        }
      }
    }
  }

  /** A row inserted between two requests of a walk is listed exactly when it lies below the cursor in use. */
  lemma {:induction false} InsertedDuringWalk(tables: seq<seq<Row>>, owner: string, cursor: Option<Cursor>, size: nat, pages: seq<seq<Row>>, k: nat, r: Row)
    requires size > 0 && Growing(tables) && IsWalk(tables, owner, cursor, size, pages)
    requires 0 < k < |tables| && r in tables[k] && r !in tables[k - 1]
    ensures NextCursor(pages[k - 1], size).Some?
    ensures r in Flatten(pages) <==> Matches(r, owner, NextCursor(pages[k - 1], size))
    decreases k
  {
    assert r !in pages[0] by {
      assert forall q | q in pages[0] :: q in tables[0];
      assert forall q | q in tables[0] :: q in tables[k - 1];
    }
    assert Flatten(pages) == pages[0] + Flatten(pages[1..]);
    GrowingTail(tables);
    var next := NextCursor(pages[0], size);
    if k == 1 {
      WalkLists(tables[1..], owner, next, size, pages[1..]);
    } else {
      InsertedDuringWalk(tables[1..], owner, next, size, pages[1..], k - 1, r);
    }
  }

  /**
   * Pagination under inserts: whatever is inserted between the requests, every row of the owner that was there
   * at the start is listed, nothing is listed twice or out of order, and nothing else than the owner's rows.
   */
  lemma WalkUnderInserts(tables: seq<seq<Row>>, owner: string, pages: seq<seq<Row>>)
    requires Growing(tables) && IsWalk(tables, owner, None, PAGE_SIZE, pages)
    ensures Descending(Flatten(pages))
    ensures forall r | r in tables[0] :: multiset(Flatten(pages))[r] == if r.owner == owner then 1 else 0
    ensures forall r | r in Flatten(pages) :: r in tables[|tables| - 1] && r.owner == owner
  {
    WalkLists(tables, owner, None, PAGE_SIZE, pages);
    forall r | r in tables[0] ensures multiset(Flatten(pages))[r] == if r.owner == owner then 1 else 0 {
      DescendingOnce(Flatten(pages), r);
    }
  }

  lemma {:induction false} DescendingOnce(rows: seq<Row>, r: Row)
    requires Descending(rows)
    ensures multiset(rows)[r] == if r in rows then 1 else 0
    decreases |rows|
  {
    if rows != [] {
      var front, last := rows[..|rows| - 1], rows[|rows| - 1];
      assert rows == front + [last];
      DescendingOnce(front, r);
      assert forall i | 0 <= i < |front| :: Above(front[i], last);
      assert last !in front;
    }
  }

  /** The owner's rows, in any order. */
  function Owned(rows: seq<Row>, owner: string): (owned: seq<Row>)
    ensures forall r :: r in owned <==> r in rows && r.owner == owner
  {
    if rows == [] then []
    else
      var rest := Owned(rows[..|rows| - 1], owner);
      var last := rows[|rows| - 1];
      assert rows == rows[..|rows| - 1] + [last];
      if last.owner == owner then rest + [last] else rest
  }

  lemma {:induction false} OwnedOnce(rows: seq<Row>, owner: string, r: Row)
    requires DistinctIds(rows)
    ensures multiset(Owned(rows, owner))[r] == if r in Owned(rows, owner) then 1 else 0
    decreases |rows|
  {
    if rows != [] {
      var front, last := rows[..|rows| - 1], rows[|rows| - 1];
      OwnedOnce(front, owner, r);
      assert forall i | 0 <= i < |front| :: front[i].id != last.id;
      assert last !in Owned(front, owner);
    }
  }

  function Same(rows: seq<Row>, n: nat): (tables: seq<seq<Row>>)
    ensures |tables| == n
  {
    if n == 0 then [] else [rows] + Same(rows, n - 1)
  }

  lemma {:induction false} SameGrows(rows: seq<Row>, n: nat)
    requires DistinctIds(rows)
    ensures forall k | 0 <= k < n :: Same(rows, n)[k] == rows
    ensures Growing(Same(rows, n))
  {
    if n > 0 {
      SameGrows(rows, n - 1);
    }
  }

  /** All pages but the last are full. */
  lemma {:induction false} WalkLength(tables: seq<seq<Row>>, owner: string, cursor: Option<Cursor>, size: nat, pages: seq<seq<Row>>)
    requires size > 0 && IsWalk(tables, owner, cursor, size, pages)
    ensures size * (|pages| - 1) <= |Flatten(pages)| < size * |pages|
    decreases |pages|
  {
    assert Flatten(pages) == pages[0] + Flatten(pages[1..]);
    var next := NextCursor(pages[0], size);
    if next.None? {
      assert Flatten(pages[1..]) == [];
      assert |pages| == 1;
    } else {
      var m := |pages| - 1;
      WalkLength(tables[1..], owner, next, size, pages[1..]);
      assert size * m == size * (m - 1) + size && size * |pages| == size * m + size;
    }
  }

  lemma SameElements(listed: seq<Row>, rows: seq<Row>, owner: string)
    requires Descending(listed) && DistinctIds(rows)
    requires forall r :: r in listed <==> r in rows && r.owner == owner
    ensures multiset(listed) == multiset(Owned(rows, owner))
    ensures |listed| == |Owned(rows, owner)|
  {
    var owned := Owned(rows, owner);
    forall r ensures multiset(listed)[r] == multiset(owned)[r] {
      DescendingOnce(listed, r);
      OwnedOnce(rows, owner, r);
    }
    assert |listed| == |multiset(listed)| && |owned| == |multiset(owned)|;
  }

  /**
   * Pagination is exact: on a table that does not change, the pages add up to the owner's n rows, each once,
   * newest first, in exactly n / PAGE_SIZE + 1 requests.
   */
  lemma FixedTableWalk(rows: seq<Row>, owner: string, pages: seq<seq<Row>>)
    requires DistinctIds(rows) && IsWalk(Same(rows, |pages|), owner, None, PAGE_SIZE, pages)
    ensures Descending(Flatten(pages))
    ensures multiset(Flatten(pages)) == multiset(Owned(rows, owner))
    ensures |pages| == |Owned(rows, owner)| / PAGE_SIZE + 1
  {
    SameGrows(rows, |pages|);
    WalkLists(Same(rows, |pages|), owner, None, PAGE_SIZE, pages);
    var tables := Same(rows, |pages|);
    assert tables[0] == rows && tables[|tables| - 1] == rows;
    SameElements(Flatten(pages), rows, owner);
    WalkLength(tables, owner, None, PAGE_SIZE, pages);
  }
}
