/**
 Listing an organization's runs page by page: the keyset query, its cursor, which is cut to whole milliseconds,
 and what a client collects that follows the cursor until there is none.
 */
module Pagination {
  import opened Wrappers

  /** Creation time in microseconds, as the database stores it; identifiers by their order. */
  datatype Run = Run(created: int, id: nat)

  datatype Page = Page(items: seq<Run>, next: Option<Run>)

  /** The row comparison `(created_at, id) < (...)`. */
  predicate Less(x: Run, y: Run) {
    x.created < y.created || (x.created == y.created && x.id < y.id)
  }

  /** A JavaScript date keeps whole milliseconds. */
  function CursorOf(x: Run): Run {
    Run(x.created - x.created % 1000, x.id)
  }

  predicate Descending(rows: seq<Run>) {
    forall i, j | 0 <= i < j < |rows| :: Less(rows[j], rows[i])
  }

  predicate DistinctIds(rows: seq<Run>) {
    forall i, j | 0 <= i < j < |rows| :: rows[i].id != rows[j].id
  }

  /******* The query *******/

  function InsertDescending(x: Run, rows: seq<Run>): seq<Run> {
    if rows == [] || Less(rows[0], x) then [x] + rows else [rows[0]] + InsertDescending(x, rows[1..])
  }

  function Listing(table: seq<Run>): seq<Run> {
    if table == [] then [] else InsertDescending(table[0], Listing(table[1..]))
  }

  function Below(rows: seq<Run>, cursor: Run): seq<Run> {
    if rows == [] then []
    else (if Less(rows[0], cursor) then [rows[0]] else []) + Below(rows[1..], cursor)
  }

  function Take<T>(rows: seq<T>, n: nat): seq<T> {
    if |rows| <= n then rows else rows[..n]
  }

  function Query(table: seq<Run>, cursor: Option<Run>, n: nat): seq<Run> {
    var all := Listing(table);
    Take(if cursor.None? then all else Below(all, cursor.value), n)
  }

  method ListRuns(table: seq<Run>, cursor: Option<Run>, limit: int) returns (reply: Reply<Page>)
    ensures reply.Ok? <==> 1 <= limit <= 200
    ensures reply.Ok? ==> reply.value == PageOf(table, cursor, limit)
  {
    if limit < 1 || limit > 200 {
      return Refused(ConfigInvalid);
    }
    var rows := Query(table, cursor, limit + 1);
    var items := Take(rows, limit);
    if |rows| > limit {
      return Ok(Page(items, Some(CursorOf(items[|items| - 1]))));
    }
    reply := Ok(Page(items, None));
  }

  function PageOf(table: seq<Run>, cursor: Option<Run>, limit: nat): Page
    requires limit >= 1
  {
    var rows := Query(table, cursor, limit + 1);
    if |rows| <= limit then Page(rows, None) else Page(rows[..limit], Some(CursorOf(rows[limit - 1])))
  }

  /******* Its meaning on the sorted listing *******/

  lemma {:induction false} InsertKeepsOrder(x: Run, rows: seq<Run>)
    requires Descending(rows) && forall i | 0 <= i < |rows| :: rows[i].id != x.id
    ensures Descending(InsertDescending(x, rows))
    ensures multiset(InsertDescending(x, rows)) == multiset(rows) + multiset{x}
  {
    if rows == [] || Less(rows[0], x) {
    } else {
      InsertKeepsOrder(x, rows[1..]);
      var rest := InsertDescending(x, rows[1..]);
      assert rows == [rows[0]] + rows[1..];
      forall i | 0 <= i < |rest| ensures Less(rest[i], rows[0]) {
        assert rest[i] in multiset(rest);
        assert rest[i] == x || rest[i] in rows[1..];
      }
    }
  }

  /** The listing holds the table's rows, latest first. */
  lemma {:induction false} ListingSorted(table: seq<Run>)
    requires DistinctIds(table)
    ensures Descending(Listing(table)) && multiset(Listing(table)) == multiset(table)
  {
    if table != [] {
      var rest := Listing(table[1..]);
      ListingSorted(table[1..]);
      forall i | 0 <= i < |rest| ensures rest[i].id != table[0].id {
        assert rest[i] in multiset(rest);
        assert rest[i] in table[1..];
      }
      InsertKeepsOrder(table[0], rest);
      assert table == [table[0]] + table[1..];
    }
  }

  /** How many rows at the head of a descending list are not below the cursor. */
  function Skipped(rows: seq<Run>, cursor: Run): (k: nat)
    ensures k <= |rows| && (k < |rows| ==> Less(rows[k], cursor))
    ensures forall i | 0 <= i < k :: !Less(rows[i], cursor)
  {
    if rows == [] || Less(rows[0], cursor) then 0 else 1 + Skipped(rows[1..], cursor)
  }

  lemma {:induction false} BelowAll(rows: seq<Run>, cursor: Run)
    requires forall i | 0 <= i < |rows| :: Less(rows[i], cursor)
    ensures Below(rows, cursor) == rows
  {
    if rows != [] { BelowAll(rows[1..], cursor); }
  }

  /** On a descending list the query condition selects a suffix. */
  lemma {:induction false} BelowIsSuffix(rows: seq<Run>, cursor: Run)
    requires Descending(rows)
    ensures Below(rows, cursor) == rows[Skipped(rows, cursor)..]
  {
    if rows != [] {
      if Less(rows[0], cursor) {
        BelowAll(rows, cursor);
      } else {
        BelowIsSuffix(rows[1..], cursor);
      }
    }
  }

  lemma {:induction false} BelowTwice(rows: seq<Run>, c: Run, d: Run)
    requires !Less(c, d) || c == d
    ensures Below(Below(rows, c), d) == Below(rows, d)
  {
    if rows != [] {
      BelowTwice(rows[1..], c, d);
      assert Less(rows[0], d) ==> Less(rows[0], c);
      var rest := Below(rows[1..], c);
      if Less(rows[0], c) {
        assert ([rows[0]] + rest)[1..] == rest;
      } else {
        assert [] + rest == rest && [] + Below(rows[1..], d) == Below(rows[1..], d);
      }
    }
  }

  /******* Following the cursor *******/

  /** What a client collects from `rows`, the part of the listing below its present cursor. */
  function Collected(rows: seq<Run>, limit: nat): seq<Run>
    requires limit >= 1 && Descending(rows)
    decreases |rows|
  {
    if |rows| <= limit then rows
    else
      BelowIsSuffix(rows, CursorOf(rows[limit - 1]));
      CursorExcludes(rows, limit);
      rows[..limit] + Collected(Below(rows, CursorOf(rows[limit - 1])), limit)
  }

  /** The cursor never lies above the row it was made from, so no row comes twice and each page moves on. */
  lemma CursorExcludes(rows: seq<Run>, limit: nat)
    requires 1 <= limit < |rows| && Descending(rows)
    ensures Skipped(rows, CursorOf(rows[limit - 1])) >= limit
  {
  }

  /** The client's loop over pages, for a table that does not change. */
  ghost function FollowPages(table: seq<Run>, cursor: Option<Run>, limit: nat): seq<Run>
    requires limit >= 1 && DistinctIds(table)
    decreases |Query(table, cursor, |table|)|
  {
    var page := PageOf(table, cursor, limit);
    if page.next.None? then page.items
    else
      NextPageSmaller(table, cursor, limit);
      page.items + FollowPages(table, page.next, limit)
  }

  function Remaining(table: seq<Run>, cursor: Option<Run>): seq<Run> {
    if cursor.None? then Listing(table) else Below(Listing(table), cursor.value)
  }

  lemma {:induction false} BelowShorter(rows: seq<Run>, cursor: Run)
    ensures |Below(rows, cursor)| <= |rows|
  {
    if rows != [] { BelowShorter(rows[1..], cursor); }
  }

  lemma RemainingFits(table: seq<Run>, cursor: Option<Run>)
    requires DistinctIds(table)
    ensures Query(table, cursor, |table|) == Remaining(table, cursor) && Descending(Remaining(table, cursor))
  {
    ListingSorted(table);
    var all := Listing(table);
    assert |multiset(all)| == |multiset(table)|;
    if cursor.Some? {
      BelowShorter(all, cursor.value);
      BelowIsSuffix(all, cursor.value);
    }
  }

  lemma {:induction false} BelowLess(rows: seq<Run>, c: Run, k: nat)
    requires k < |Below(rows, c)|
    ensures Less(Below(rows, c)[k], c)
    decreases |rows|
  {
    if !Less(rows[0], c) {
      BelowLess(rows[1..], c, k);
    } else if k > 0 {
      BelowLess(rows[1..], c, k - 1);
    }
  }

  lemma CursorNotAbove(x: Run, c: Run)
    requires Less(x, c)
    ensures !Less(c, CursorOf(x))
  {
  }

  /** The query below the next cursor sees what lies below it in the present remainder. */
  lemma NextRemaining(table: seq<Run>, cursor: Option<Run>, limit: nat)
    requires DistinctIds(table) && 1 <= limit < |Remaining(table, cursor)|
    ensures var rows := Remaining(table, cursor);
            Remaining(table, Some(CursorOf(rows[limit - 1]))) == Below(rows, CursorOf(rows[limit - 1]))
  {
    var rows := Remaining(table, cursor);
    RemainingFits(table, cursor);
    if cursor.Some? {
      BelowLess(Listing(table), cursor.value, limit - 1);
      CursorNotAbove(rows[limit - 1], cursor.value);
      BelowTwice(Listing(table), cursor.value, CursorOf(rows[limit - 1]));
    }
  }

  lemma NextPageSmaller(table: seq<Run>, cursor: Option<Run>, limit: nat)
    requires limit >= 1 && DistinctIds(table) && PageOf(table, cursor, limit).next.Some?
    ensures |Query(table, PageOf(table, cursor, limit).next, |table|)| < |Query(table, cursor, |table|)|
  {
    var rows := Remaining(table, cursor);
    RemainingFits(table, cursor);
    RemainingFits(table, PageOf(table, cursor, limit).next);
    NextRemaining(table, cursor, limit);
    BelowIsSuffix(rows, CursorOf(rows[limit - 1]));
    CursorExcludes(rows, limit);
  }

  lemma PageOfRemaining(table: seq<Run>, cursor: Option<Run>, limit: nat)
    requires limit >= 1
    ensures var rows := Remaining(table, cursor);
            PageOf(table, cursor, limit) ==
            if |rows| <= limit then Page(rows, None) else Page(rows[..limit], Some(CursorOf(rows[limit - 1])))
  {
  }

  lemma {:induction false} FollowCollects(table: seq<Run>, cursor: Option<Run>, limit: nat)
    requires limit >= 1 && DistinctIds(table)
    ensures Descending(Remaining(table, cursor))
    ensures FollowPages(table, cursor, limit) == Collected(Remaining(table, cursor), limit)
    decreases |Query(table, cursor, |table|)|
  {
    RemainingFits(table, cursor);
    PageOfRemaining(table, cursor, limit);
    var next := PageOf(table, cursor, limit).next;
    if next.Some? {
      NextPageSmaller(table, cursor, limit);
      FollowCollects(table, next, limit);
      NextRemaining(table, cursor, limit);
    }
  }

  /******* What the client gets *******/

  /** The next round of collecting starts from a suffix of the present one. */
  lemma CollectedNext(rows: seq<Run>, limit: nat) returns (k: nat)
    requires limit >= 1 && Descending(rows) && |rows| > limit
    ensures limit <= k <= |rows| && Collected(rows, limit) == rows[..limit] + Collected(rows[k..], limit)
  {
    var c := CursorOf(rows[limit - 1]);
    k := Skipped(rows, c);
    BelowIsSuffix(rows, c);
    CursorExcludes(rows, limit);
  }

  lemma {:induction false} CollectedMembers(rows: seq<Run>, limit: nat, x: Run)
    requires limit >= 1 && Descending(rows)
    ensures x in Collected(rows, limit) ==> x in rows
    ensures |Collected(rows, limit)| <= |rows|
    decreases |rows|
  {
    if |rows| > limit {
      var k := CollectedNext(rows, limit);
      CollectedMembers(rows[k..], limit, x);
    }
  }

  lemma DescendingConcat(rows: seq<Run>, k: nat, rest: seq<Run>)
    requires k <= |rows| && Descending(rows) && Descending(rest)
    requires forall j | 0 <= j < |rest| :: rest[j] in rows[k..]
    ensures Descending(rows[..k] + rest)
  {
  }

  lemma {:induction false} CollectedDescends(rows: seq<Run>, limit: nat)
    requires limit >= 1 && Descending(rows)
    ensures Descending(Collected(rows, limit))
    decreases |rows|
  {
    if |rows| > limit {
      var k := CollectedNext(rows, limit);
      var rest := Collected(rows[k..], limit);
      CollectedDescends(rows[k..], limit);
      forall j | 0 <= j < |rest| ensures rest[j] in rows[limit..] {
        CollectedMembers(rows[k..], limit, rest[j]);
        assert rows[k..] == rows[limit..][k - limit..];
      }
      DescendingConcat(rows, limit, rest);
    }
  }

  /** Whatever the page size and the time stamps, no run is listed twice and the order is kept. */
  lemma PagesNeverRepeat(table: seq<Run>, limit: nat, x: Run)
    requires limit >= 1 && DistinctIds(table)
    ensures Descending(FollowPages(table, None, limit))
    ensures x in FollowPages(table, None, limit) ==> x in table
  {
    FollowCollects(table, None, limit);
    CollectedDescends(Listing(table), limit);
    CollectedMembers(Listing(table), limit, x);
    ListingSorted(table);
    assert x in Listing(table) <==> x in multiset(table);
  }

  /** Every earlier run is below the cursor made from a later one. */
  predicate Separated(rows: seq<Run>) {
    forall i, j | 0 <= i < |rows| && 0 <= j < |rows| && Less(rows[j], rows[i]) :: Less(rows[j], CursorOf(rows[i]))
  }

  lemma NothingHidden(rows: seq<Run>, limit: nat)
    requires 1 <= limit < |rows| && Descending(rows) && Separated(rows)
    ensures Below(rows, CursorOf(rows[limit - 1])) == rows[limit..]
    ensures Descending(rows[limit..]) && Separated(rows[limit..])
  {
    BelowIsSuffix(rows, CursorOf(rows[limit - 1]));
    CursorExcludes(rows, limit);
    assert Less(rows[limit], rows[limit - 1]);
  }

  lemma {:induction false} SeparatedComplete(rows: seq<Run>, limit: nat)
    requires limit >= 1 && Descending(rows) && Separated(rows)
    ensures Collected(rows, limit) == rows
    decreases |rows|
  {
    if |rows| > limit {
      NothingHidden(rows, limit);
      SeparatedComplete(rows[limit..], limit);
      assert rows[..limit] + rows[limit..] == rows;
    }
  }

  /** With pages of one run, a run that is not below the cursor of an earlier listed one is lost. */
  lemma {:induction false} SinglePagesLose(rows: seq<Run>, i: nat, j: nat)
    requires Descending(rows) && i < j < |rows| && !Less(rows[j], CursorOf(rows[i]))
    ensures |Collected(rows, 1)| < |rows|
    decreases |rows|
  {
    var c := CursorOf(rows[0]);
    var k := Skipped(rows, c);
    BelowIsSuffix(rows, c);
    CursorExcludes(rows, 1);
    CollectedMembers(rows[k..], 1, rows[0]);
    if i == 0 {
      assert k > j by { if k <= j { AboveCursor(rows, k, j, c); } }
    } else if k == 1 {
      SinglePagesLose(rows[1..], i - 1, j - 1);
    }
  }

  lemma AboveCursor(rows: seq<Run>, k: nat, j: nat, c: Run)
    requires Descending(rows) && k <= j < |rows| && Less(rows[k], c)
    ensures Less(rows[j], c)
  {
  }

  lemma {:induction false} SeparatedAnyOrder(a: seq<Run>, b: seq<Run>)
    requires multiset(a) == multiset(b)
    ensures Separated(a) ==> Separated(b)
  {
    forall i, j | 0 <= i < |b| && 0 <= j < |b| && Less(b[j], b[i])
      ensures Separated(a) ==> Less(b[j], CursorOf(b[i]))
    {
      assert b[i] in multiset(a) && b[j] in multiset(a);
    }
  }

  lemma HiddenPair(rows: seq<Run>) returns (i: nat, j: nat)
    requires Descending(rows) && !Separated(rows)
    ensures i < j < |rows| && !Less(rows[j], CursorOf(rows[i]))
  {
    i, j :| i < |rows| && j < |rows| && Less(rows[j], rows[i]) && !Less(rows[j], CursorOf(rows[i]));
  }

  /**
   Following the cursor yields the whole listing for every page size exactly when the cut-off microseconds never
   hide an earlier run: each run must also be below the cursor of every later run.
   */
  lemma PagesCompleteExactlyIf(table: seq<Run>)
    requires DistinctIds(table)
    ensures (forall limit: nat | 1 <= limit <= 200 :: FollowPages(table, None, limit) == Listing(table))
            <==> Separated(table)
  {
    var all := Listing(table);
    ListingSorted(table);
    SeparatedAnyOrder(table, all);
    SeparatedAnyOrder(all, table);
    if Separated(table) {
      forall limit: nat | 1 <= limit <= 200 ensures FollowPages(table, None, limit) == all {
        FollowCollects(table, None, limit);
        SeparatedComplete(all, limit);
      }
    } else {
      var i, j := HiddenPair(all);
      SinglePagesLose(all, i, j);
      FollowCollects(table, None, 1);
    }
  }

  /** Time stamps in whole milliseconds are enough. */
  lemma WholeMillisecondsComplete(table: seq<Run>, limit: nat)
    requires DistinctIds(table) && 1 <= limit <= 200
    requires forall i | 0 <= i < |table| :: table[i].created % 1000 == 0
    ensures FollowPages(table, None, limit) == Listing(table)
    ensures Descending(Listing(table)) && multiset(Listing(table)) == multiset(table)
  {
    forall i | 0 <= i < |table| ensures CursorOf(table[i]) == table[i] { }
    PagesCompleteExactlyIf(table);
    ListingSorted(table);
  }

  lemma TwoListed(later: Run, earlier: Run)
    requires Less(earlier, later)
    ensures Listing([later, earlier]) == [later, earlier]
  {
    assert [later, earlier][1..] == [earlier] && [earlier][1..] == [];
    assert Listing([earlier]) == [earlier];
  }

  /** Two runs created within one millisecond: a page break between them loses the earlier one. */
  lemma SameMillisecondLost(later: Run, earlier: Run)
    requires Less(earlier, later) && earlier.id != later.id
    requires earlier.created / 1000 == later.created / 1000 && earlier.created % 1000 > 0
    ensures FollowPages([later, earlier], None, 1) != [later, earlier] == Listing([later, earlier])
  {
    TwoListed(later, earlier);
    FollowCollects([later, earlier], None, 1);
    SinglePagesLose([later, earlier], 0, 1);
  }
}
