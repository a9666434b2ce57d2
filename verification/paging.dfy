/** Keyset paging over the finding groups of a pull request (backend/app/services/github_finding_reconcile.py). */
module Paging {
  import opened Options

  datatype Row = Row(createdAt: int, id: nat, superseded: bool)

  datatype Cursor = Cursor(createdAt: int, id: nat)

  datatype Page = Page(items: seq<Row>, next: Option<Cursor>)

  function CursorOf(r: Row): Cursor { Cursor(r.createdAt, r.id) }

  /** The row comes after the cursor in (created_at, id) descending order. */
  predicate Below(r: Row, c: Cursor) {
    r.createdAt < c.createdAt || (r.createdAt == c.createdAt && r.id < c.id)
  }

  /** The rows of the pull request as the ordered query would scan them; ids are unique. */
  predicate Descending(rows: seq<Row>) {
    forall i, j | 0 <= i < j < |rows| :: Below(rows[j], CursorOf(rows[i]))
  }

  /** Newer rows come first, and of rows as old as each other those with the higher id. */
  lemma NewestFirst(a: Row, b: Row)
    ensures Descending([a, b]) <==> b.createdAt < a.createdAt || (b.createdAt == a.createdAt && b.id < a.id)
  {
    if b.createdAt < a.createdAt || (b.createdAt == a.createdAt && b.id < a.id) {
      assert Descending([a, b]);
    } else {
      assert [a, b][0] == a && [a, b][1] == b;
    }
  }

  predicate Matches(r: Row, cursor: Option<Cursor>) {
    !r.superseded && (cursor.Some? ==> Below(r, cursor.value))
  }

  function Matching(rows: seq<Row>, cursor: Option<Cursor>): (m: seq<Row>)
    ensures |m| <= |rows|
    ensures forall r | r in m :: r in rows
  {
    if rows == [] then []
    else (if Matches(rows[0], cursor) then [rows[0]] else []) + Matching(rows[1..], cursor)
  }

  /** At most `limit` matching rows, and a cursor when there are more. */
  function PageOf(rows: seq<Row>, cursor: Option<Cursor>, limit: nat): Page {
    var m := Matching(rows, cursor);
    if |m| > limit then Page(m[..limit], if limit > 0 then Some(CursorOf(m[limit - 1])) else None)
    else Page(m, None)
  }

  lemma PageFromRead(rows: seq<Row>, cursor: Option<Cursor>, limit: nat, read: seq<Row>, i: nat)
    requires i <= |rows| && |read| <= limit + 1 && (i == |rows| || |read| == limit + 1)
    requires Matching(rows, cursor) == read + Matching(rows[i..], cursor)
    ensures PageOf(rows, cursor, limit)
         == if |read| > limit
            then Page(read[..limit], if limit > 0 then Some(CursorOf(read[limit - 1])) else None)
            else Page(read, None)
  {
    hide Matches;
    if i == |rows| {
      assert rows[i..] == [];
      assert Matching(rows, cursor) == read;
    } else {
      assert Matching(rows, cursor)[..limit] == read[..limit];
    }
  }

  lemma MatchingStep(rows: seq<Row>, cursor: Option<Cursor>, i: nat, read: seq<Row>)
    requires i < |rows|
    ensures read + Matching(rows[i..], cursor)
         == (if Matches(rows[i], cursor) then read + [rows[i]] else read) + Matching(rows[i + 1..], cursor)
  {
    hide Matches;
    assert rows[i..][1..] == rows[i + 1..];
  }

  /** One row more than the limit is read to see whether a next page exists. */
  method ListReconciledFindingGroups(rows: seq<Row>, cursor: Option<Cursor>, limit: nat) returns (page: Page)
    ensures page == PageOf(rows, cursor, limit)
  {
    hide Matches, PageOf, Descending, Below, Matching;
    assert rows[0..] == rows;
    var read: seq<Row> := [];
    var i := 0;
    while i < |rows| && |read| < limit + 1
      invariant 0 <= i <= |rows| && |read| <= limit + 1
      invariant Matching(rows, cursor) == read + Matching(rows[i..], cursor)
    {
      MatchingStep(rows, cursor, i, read);
      if Matches(rows[i], cursor) {
        read := read + [rows[i]];
      }
      i := i + 1;
    }
    PageFromRead(rows, cursor, limit, read, i);
    var items := read;
    var hasNext := |read| > limit;
    if hasNext {
      items := read[..limit];
    }
    var next := None;
    if hasNext && items != [] {
      next := Some(CursorOf(items[|items| - 1]));
    }
    page := Page(items, next);
  }

  lemma {:induction false} MatchingDescends(rows: seq<Row>, cursor: Option<Cursor>)
    requires Descending(rows)
    ensures Descending(Matching(rows, cursor))
  {
    if rows != [] {
      var m := Matching(rows[1..], cursor);
      MatchingDescends(rows[1..], cursor);
      forall i | 0 <= i < |m| ensures Below(m[i], CursorOf(rows[0])) {
        assert m[i] in m && m[i] in rows[1..];
      }
    }
  }

  lemma {:induction false} MatchingExact(rows: seq<Row>, cursor: Option<Cursor>, r: Row)
    ensures r in Matching(rows, cursor) <==> r in rows && Matches(r, cursor)
  {
    if rows != [] {
      MatchingExact(rows[1..], cursor, r);
      assert r in rows <==> r == rows[0] || r in rows[1..];
    }
  }

  /** Moving the cursor down to a matching row leaves exactly the matching rows after it. */
  lemma {:induction false} MatchingAfter(rows: seq<Row>, cursor: Option<Cursor>, k: nat)
    requires Descending(rows) && k < |Matching(rows, cursor)|
    ensures Matching(rows, Some(CursorOf(Matching(rows, cursor)[k]))) == Matching(rows, cursor)[k + 1..]
  {
    var rest, m := rows[1..], Matching(rows[1..], cursor);
    var all := Matching(rows, cursor);
    var c := CursorOf(all[k]);
    assert !Below(rows[0], CursorOf(rows[0]));
    if Matches(rows[0], cursor) && k == 0 {
      AllBelow(rest, cursor, c);
      assert Matching(rows, Some(c)) == Matching(rest, Some(c));
      assert all[1..] == m;
    } else {
      var j := if Matches(rows[0], cursor) then k - 1 else k;
      assert all[k] == m[j] && all[k + 1..] == m[j + 1..];
      MatchingAfter(rest, cursor, j);
      assert m[j] in m && m[j] in rest;
      RestIsBelow(rows, m[j]);
      hide Below, Matching, Descending;
      SkipFirst(rows, Some(c));
    }
  }

  lemma RestIsBelow(rows: seq<Row>, r: Row)
    requires rows != [] && Descending(rows) && r in rows[1..]
    ensures Below(r, CursorOf(rows[0])) && !Below(rows[0], CursorOf(r))
  {
    var i :| 0 <= i < |rows| - 1 && rows[1..][i] == r;
    assert rows[i + 1] == r;
  }

  lemma SkipFirst(rows: seq<Row>, cursor: Option<Cursor>)
    requires rows != [] && cursor.Some? && !Below(rows[0], cursor.value)
    ensures Matching(rows, cursor) == Matching(rows[1..], cursor)
  {
  }

  lemma {:induction false} AllBelow(rows: seq<Row>, cursor: Option<Cursor>, c: Cursor)
    requires forall r | r in rows :: Below(r, c)
    requires cursor.Some? ==> Below(Row(c.createdAt, c.id, false), cursor.value)
    ensures Matching(rows, Some(c)) == Matching(rows, cursor)
  {
    if rows != [] {
      AllBelow(rows[1..], cursor, c);
      assert Below(rows[0], c);
    }
  }

  /** A page followed by everything below its cursor is everything the page was asked for. */
  lemma PageSplits(rows: seq<Row>, cursor: Option<Cursor>, limit: nat)
    requires Descending(rows) && limit >= 1
    ensures var page := PageOf(rows, cursor, limit);
      && |page.items| <= limit
      && (page.next == None ==> page.items == Matching(rows, cursor))
      && (page.next.Some? ==> |page.items| == limit && page.items + Matching(rows, page.next) == Matching(rows, cursor))
  {
    hide Matching, Descending;
    var m := Matching(rows, cursor);
    if |m| > limit {
      MatchingAfter(rows, cursor, limit - 1);
      assert m == m[..limit] + m[limit..];
    }
  }

  /**
   * Following the cursors from the start, for any limit of at least one, ends and yields every group that is not
   * superseded exactly once, newest first.
   */
  method FollowCursors(rows: seq<Row>, limit: nat) returns (all: seq<Row>, pages: nat)
    requires Descending(rows) && limit >= 1
    ensures all == Matching(rows, None)
    ensures Descending(all) && forall r :: r in all <==> r in rows && !r.superseded
    ensures (pages - 1) * limit <= |all| <= pages * limit
  {
    hide Matching, Descending, PageOf;
    PageSplits(rows, None, limit);
    var page := ListReconciledFindingGroups(rows, None, limit);
    all, pages := page.items, 1;
    while page.next.Some?
      invariant Matching(rows, None) == if page.next.Some? then all + Matching(rows, page.next) else all
      invariant pages >= 1 && |all| <= pages * limit
      invariant if page.next.Some? then |all| == pages * limit else (pages - 1) * limit <= |all|
      decreases page.next.Some?, |Matching(rows, None)| - |all|
    {
      ghost var cursor := page.next;
      PageSplits(rows, cursor, limit);
      page := ListReconciledFindingGroups(rows, page.next, limit);
      assert page.next.Some? ==>
        all + (page.items + Matching(rows, page.next)) == (all + page.items) + Matching(rows, page.next);
      PagesGrow(pages, limit);
      all, pages := all + page.items, pages + 1;
    }
    MatchingDescends(rows, None);
    forall r ensures r in all <==> r in rows && !r.superseded {
      MatchingExact(rows, None, r);
    }
  }

  lemma PagesGrow(pages: nat, limit: nat)
    ensures (pages + 1) * limit == pages * limit + limit
  {
  }
}
