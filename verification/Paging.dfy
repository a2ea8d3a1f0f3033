/** Keyset paging, shared by the list of open public rooms (internal/rooms/service.go) and a user's match history
    (internal/matches/service.go): newest first, one row more than asked to see whether another page follows. */
module Paging {
  import opened Basics

  const DEFAULT_PAGE_SIZE: nat := 20
  const MAX_PAGE_SIZE: nat := 50

  /** A row's position in the order; the id is the row's primary key, and neither column ever changes. */
  datatype Key = Key(createdAt: int, id: Id)

  /** ORDER BY created_at DESC, id DESC. */
  predicate Newer(a: Key, b: Key) {
    a.createdAt > b.createdAt || (a.createdAt == b.createdAt && a.id > b.id)
  }

  predicate IsNewest(s: set<Key>, x: Key) {
    x in s && forall y :: y in s && y != x ==> Newer(x, y)
  }

  lemma {:induction false} NewestExists(s: set<Key>)
    requires s != {}
    ensures exists x :: IsNewest(s, x)
    decreases |s|
  {
    var x :| x in s;
    if s == {x} {
      assert IsNewest(s, x);
    } else {
      NewestExists(s - {x});
      var y :| IsNewest(s - {x}, y);
      assert forall z :: z in s && z != x ==> z in s - {x};
      assert IsNewest(s, if Newer(x, y) then x else y);
    }
  }

  lemma NewestThenRest(s: set<Key>, x: Key, rest: seq<Key>)
    requires IsNewest(s, x) && Sorted(rest, Newer) && Elements(rest) == s - {x}
    ensures Sorted([x] + rest, Newer) && Elements([x] + rest) == s
  {
    forall j | 0 <= j < |rest| ensures Newer(x, rest[j]) {
      assert rest[j] in Elements(rest);
    }
    assert Elements([x] + rest) == {x} + Elements(rest);
  }

  /** A set of rows in order. */
  ghost function Listing(s: set<Key>): seq<Key>
    decreases |s|
  {
    if s == {} then []
    else
      NewestExists(s);
      var x :| IsNewest(s, x);
      [x] + Listing(s - {x})
  }

  lemma {:induction false} ListingLists(s: set<Key>)
    ensures Sorted(Listing(s), Newer) && Elements(Listing(s)) == s && |Listing(s)| == |s|
    decreases |s|
  {
    if s != {} {
      NewestExists(s);
      var x :| IsNewest(s, x) && Listing(s) == [x] + Listing(s - {x});
      ListingLists(s - {x});
      NewestThenRest(s, x, Listing(s - {x}));
    }
  }

  function Matching(table: set<Key>, cursor: Option<Key>): set<Key> {
    set x | x in table && (cursor.None? || Newer(cursor.value, x))
  }

  ghost function Take(rows: seq<Key>, n: nat): seq<Key> {
    if |rows| <= n then rows else rows[..n]
  }

  /** The query's answer. */
  ghost function Answer(table: set<Key>, cursor: Option<Key>, limit: nat): seq<Key> {
    Take(Listing(Matching(table, cursor)), limit)
  }

  function PageSize(limit: int): (n: nat)
    ensures n == if 1 <= limit <= 50 then limit else 20
  {
    if limit <= 0 || limit > MAX_PAGE_SIZE then DEFAULT_PAGE_SIZE else limit
  }

  datatype Page = Page(items: seq<Key>, next: Option<Key>)

  /** A page must hold the first rows after its cursor, and name its last row exactly when more rows follow. */
  ghost function PageAt(table: set<Key>, cursor: Option<Key>, size: nat): Page
    requires size >= 1
  {
    var all := Listing(Matching(table, cursor));
    if |all| > size then Page(all[..size], Some(all[size - 1])) else Page(all, None)
  }

  class Table {
    var rows: set<Key>

    /** ... WHERE (created_at, id) < cursor ORDER BY created_at DESC, id DESC LIMIT limit. */
    method Select(cursor: Option<Key>, limit: nat) returns (out: seq<Key>)
      ensures out == Answer(rows, cursor, limit)
    {
      var left := Matching(rows, cursor);
      ghost var all := Listing(left);
      out := [];
      while |out| < limit && left != {}
        invariant |out| <= limit && all == out + Listing(left)
        decreases |left|
      {
        var x := Newest(left);
        NewestComesFirst(left, x);
        out := out + [x];
        left := left - {x};
      }
    }

    method Newest(s: set<Key>) returns (x: Key)
      requires s != {}
      ensures IsNewest(s, x)
    {
      NewestExists(s);
      x :| IsNewest(s, x);
    }

    /** ListPublicOpen and ListForUser with the cursor decoded: normalise the limit, fetch one row more, truncate. */
    method ListPage(cursor: Option<Key>, asked: int) returns (items: seq<Key>, next: Option<Key>)
      ensures Page(items, next) == PageAt(rows, cursor, PageSize(asked))
      ensures |items| <= if 1 <= asked <= 50 then asked else 20
      ensures next.Some? ==> |items| == if 1 <= asked <= 50 then asked else 20
    {
      var limit := asked;
      if limit <= 0 || limit > MAX_PAGE_SIZE {
        limit := DEFAULT_PAGE_SIZE;
      }
      items := Select(cursor, limit + 1);
      next := None;
      if |items| > limit {
        var last := items[limit - 1];
        next := Some(last);
        items := items[..limit];
      }
    }
  }

  /** Any sorted sequence of a set's elements is its listing. */
  lemma ListingIs(s: set<Key>, rows: seq<Key>)
    requires Sorted(rows, Newer) && Elements(rows) == s
    ensures rows == Listing(s)
  {
    ListingLists(s);
    SortedListingIsUnique(rows, Listing(s), Newer);
  }

  lemma NewestComesFirst(s: set<Key>, x: Key)
    requires IsNewest(s, x)
    ensures Listing(s) == [x] + Listing(s - {x})
  {
    ListingLists(s - {x});
    NewestThenRest(s, x, Listing(s - {x}));
    ListingIs(s, [x] + Listing(s - {x}));
  }

  // ---------------------------------------------------------------- following the cursor

  type Size = n: nat | n >= 1 witness 1

  /** One call of a traversal: the rows listed at that moment (rooms open and close between calls) and the page size. */
  datatype Visit = Visit(table: set<Key>, size: Size)

  datatype Place = Start | After(key: Key) | Done {
    function Cursor(): Option<Key> { if After? then Some(key) else None }
  }

  /** A client following nextCursor: where it has got to, every row returned so far, and how many pages it took. */
  datatype Trip = Trip(place: Place, returned: seq<Key>, pages: nat)

  ghost function Visited(t: Trip, v: Visit): Trip {
    var page := PageAt(v.table, t.place.Cursor(), v.size);
    Trip(if page.next.Some? then After(page.next.value) else Done, t.returned + page.items, t.pages + 1)
  }

  /** The calls made one after another, until no cursor comes back. */
  ghost function Travel(visits: seq<Visit>): Trip {
    if visits == [] then Trip(Start, [], 0)
    else
      var t := Travel(visits[..|visits| - 1]);
      if t.place.Done? then t else Visited(t, visits[|visits| - 1])
  }

  /** One page, relative to its cursor: sorted, all of it after the cursor and before the next one, and nothing listed
      in between left out. */
  lemma PageCovers(table: set<Key>, cursor: Option<Key>, size: Size)
    ensures var page := PageAt(table, cursor, size);
            && Sorted(page.items, Newer)
            && (forall x :: x in page.items ==> x in Matching(table, cursor))
            && (page.next.Some? ==> |page.items| == size && page.items[size - 1] == page.next.value)
            && (page.next.None? ==> |page.items| <= size)
            && (forall x :: x in Matching(table, cursor) ==>
                  x in page.items || (page.next.Some? && Newer(page.next.value, x)))
  {
    var all := Listing(Matching(table, cursor));
    ListingLists(Matching(table, cursor));
    forall x | x in Matching(table, cursor)
      ensures var page := PageAt(table, cursor, size); x in page.items || (page.next.Some? && Newer(page.next.value, x))
    {
      assert x in Elements(all);
      var k :| 0 <= k < |all| && all[k] == x;
      if |all| > size && k >= size {
        assert Newer(all[size - 1], all[k]);
      }
    }
    forall x | x in PageAt(table, cursor, size).items ensures x in Matching(table, cursor) {
      assert x in Elements(all);
    }
  }

  /** What every traversal keeps. */
  ghost predicate TripOk(t: Trip) {
    && Sorted(t.returned, Newer)
    && (t.place.Start? ==> t.returned == [])
    && (t.place.After? ==> t.returned != [] && t.returned[|t.returned| - 1] == t.place.key)
  }

  lemma NewerTransitive(a: Key, b: Key, c: Key)
    requires Newer(a, b) && Newer(b, c)
    ensures Newer(a, c)
  {
  }

  lemma SortedParts(a: seq<Key>, b: seq<Key>)
    requires Sorted(a, Newer) && Sorted(b, Newer)
    requires a != [] ==> forall y :: y in b ==> Newer(a[|a| - 1], y)
    ensures Sorted(a + b, Newer)
  {
    forall i, j | 0 <= i < |a| && 0 <= j < |b| ensures Newer(a[i], b[j]) {
      assert b[j] in b;
      if i < |a| - 1 { NewerTransitive(a[i], a[|a| - 1], b[j]); }
    }
  }

  lemma VisitKeeps(t: Trip, v: Visit)
    requires TripOk(t) && !t.place.Done?
    ensures TripOk(Visited(t, v))
  {
    PageCovers(v.table, t.place.Cursor(), v.size);
    SortedParts(t.returned, PageAt(v.table, t.place.Cursor(), v.size).items);
  }

  lemma {:induction false} TravelKeeps(visits: seq<Visit>)
    ensures TripOk(Travel(visits))
  {
    if visits != [] {
      TravelKeeps(visits[..|visits| - 1]);
      var t := Travel(visits[..|visits| - 1]);
      if !t.place.Done? { VisitKeeps(t, visits[|visits| - 1]); }
    }
  }

  // ---------------------------------------------------------------- main theorems

  /** Whatever rows come and go between pages, rows are returned latest first, the larger id first among equals, and
      none of them twice. */
  lemma NoRowTwice(visits: seq<Visit>)
    ensures var rows := Travel(visits).returned;
            && NoDuplicates(rows)
            && (forall i, j | 0 <= i < j < |rows| ::
                  rows[i].createdAt > rows[j].createdAt ||
                  (rows[i].createdAt == rows[j].createdAt && rows[i].id > rows[j].id))
  {
    TravelKeeps(visits);
    SortedHasNoDuplicates(Travel(visits).returned, Newer);
  }

  /** A row listed throughout has been returned, or still lies ahead of the cursor. */
  lemma {:induction false} LastingRowsAhead(visits: seq<Visit>, x: Key)
    requires forall k | 0 <= k < |visits| :: x in visits[k].table
    ensures var t := Travel(visits);
            x in t.returned || t.place.Start? || (t.place.After? && Newer(t.place.key, x))
  {
    if visits != [] {
      var t, v := Travel(visits[..|visits| - 1]), visits[|visits| - 1];
      LastingRowsAhead(visits[..|visits| - 1], x);
      if !t.place.Done? { PageCovers(v.table, t.place.Cursor(), v.size); }
    }
  }

  ghost function Occurrences(s: seq<Key>, x: Key): nat {
    multiset(s)[x]
  }

  lemma {:induction false} NoDuplicatesCount(s: seq<Key>, x: Key)
    requires NoDuplicates(s)
    ensures Occurrences(s, x) == if x in s then 1 else 0
  {
    if s != [] {
      NoDuplicatesCount(s[1..], x);
      assert s == [s[0]] + s[1..];
      assert x in s[1..] ==> x != s[0];
    }
  }

  /** When the cursor runs out, every row listed throughout has been returned exactly once. */
  lemma LastingRowsOnce(visits: seq<Visit>, x: Key)
    requires Travel(visits).place.Done? && forall k | 0 <= k < |visits| :: x in visits[k].table
    ensures Occurrences(Travel(visits).returned, x) == 1
  {
    LastingRowsAhead(visits, x);
    NoRowTwice(visits);
    NoDuplicatesCount(Travel(visits).returned, x);
  }

  /** And nothing was returned that was not listed when its page was fetched. */
  lemma {:induction false} OnlyListedRows(visits: seq<Visit>, x: Key)
    requires x in Travel(visits).returned
    ensures exists k | 0 <= k < |visits| :: x in visits[k].table
  {
    var t, v := Travel(visits[..|visits| - 1]), visits[|visits| - 1];
    if x in t.returned {
      OnlyListedRows(visits[..|visits| - 1], x);
    } else {
      PageCovers(v.table, t.place.Cursor(), v.size);
      assert x in visits[|visits| - 1].table;
    }
  }

  // ---------------------------------------------------------------- a table that does not change

  function Steady(table: set<Key>, size: Size, pages: nat): seq<Visit> {
    seq(pages, _ => Visit(table, size))
  }

  /** What follows the i-th row is the rest of the listing. */
  lemma MatchingAfter(table: set<Key>, i: nat)
    requires 0 < i <= |Listing(table)|
    ensures Listing(Matching(table, Some(Listing(table)[i - 1]))) == Listing(table)[i..]
  {
    var all := Listing(table);
    ListingLists(table);
    var c := all[i - 1];
    forall x | x in Elements(all[i..]) ensures x in Matching(table, Some(c)) {
      assert x in Elements(all);
    }
    forall x | x in Matching(table, Some(c)) ensures x in Elements(all[i..]) {
      assert x in Elements(all);
      var k :| 0 <= k < |all| && all[k] == x;
      assert k < i - 1 ==> Newer(all[k], all[i - 1]);
      assert all[i..][k - i] == x;
    }
    ListingIs(Matching(table, Some(c)), all[i..]);
  }

  /** c is max(1, ceil(n / size)). */
  predicate IsPageCount(n: nat, size: Size, c: nat) {
    if n == 0 then c == 1 else c * size - size < n <= c * size
  }

  function PageCount(n: nat, size: Size): nat {
    if n == 0 then 1 else (n + size - 1) / size
  }

  lemma PageCountIs(n: nat, size: Size)
    ensures IsPageCount(n, size, PageCount(n, size))
  {
    var q, r := (n + size - 1) / size, (n + size - 1) % size;
    assert n + size - 1 == q * size + r && 0 <= r < size;
  }

  lemma OneTimeFewer(k: int, size: int)
    ensures (k - 1) * size == k * size - size
  {
  }

  lemma NoMoreTimes(j: int, k: int, size: int)
    requires j <= k && size >= 1
    ensures j * size <= k * size
  {
  }

  lemma BeforeLastPage(n: nat, size: Size, c: nat, k: nat)
    requires IsPageCount(n, size, c) && k <= c
    ensures k <= 1 || k * size - size < n
    ensures k < c <==> k == 0 || k * size < n
  {
    NoMoreTimes(k, c, size);
    if k < c {
      OneTimeFewer(c, size);
      NoMoreTimes(k, c - 1, size);
    }
  }

  /** The trip after i rows of an unchanging table, with more to come. */
  ghost predicate Underway(t: Trip, all: seq<Key>, i: nat) {
    && i <= |all| && t.returned == all[..i]
    && t.place == if i == 0 then Start else After(all[i - 1])
  }

  lemma RestOfListing(t: Trip, table: set<Key>, i: nat)
    requires Underway(t, Listing(table), i)
    ensures Listing(Matching(table, t.place.Cursor())) == Listing(table)[i..]
  {
    if i == 0 {
      assert Matching(table, None) == table;
    } else {
      MatchingAfter(table, i);
    }
  }

  lemma SlicesOfRest(all: seq<Key>, i: nat, size: Size)
    requires i <= |all|
    ensures all[..i] + all[i..] == all
    ensures i + size < |all| ==> all[..i] + all[i..][..size] == all[..i + size]
    ensures i + size < |all| ==> all[i..][size - 1] == all[i + size - 1]
  {
  }

  lemma SteadyVisit(t: Trip, table: set<Key>, size: Size, i: nat)
    requires Underway(t, Listing(table), i)
    ensures var t', all := Visited(t, Visit(table, size)), Listing(table);
            if i + size < |all| then Underway(t', all, i + size) else t'.place.Done? && t'.returned == all
  {
    RestOfListing(t, table, i);
    SlicesOfRest(Listing(table), i, size);
  }

  lemma TravelOneMore(table: set<Key>, size: Size, k: nat)
    requires k > 0
    ensures var t := Travel(Steady(table, size, k - 1));
            Travel(Steady(table, size, k)) == if t.place.Done? then t else Visited(t, Visit(table, size))
  {
    assert Steady(table, size, k)[..k - 1] == Steady(table, size, k - 1);
  }

  /** The trip after k pages and i rows. */
  ghost predicate SteadyAt(t: Trip, all: seq<Key>, k: nat, i: nat) {
    && t.pages == k
    && if k == 0 || i < |all| then Underway(t, all, i) else t.place.Done? && t.returned == all
  }

  lemma SteadyNext(t: Trip, table: set<Key>, size: Size, k: nat, i: nat)
    requires k > 0 && SteadyAt(t, Listing(table), k - 1, i) && (k == 1 || i < |Listing(table)|) && (k == 1 ==> i == 0)
    ensures !t.place.Done? && SteadyAt(Visited(t, Visit(table, size)), Listing(table), k, i + size)
  {
    SteadyVisit(t, table, size, i);
  }

  lemma {:induction false} SteadyTravel(table: set<Key>, size: Size, k: nat, i: nat)
    requires i == k * size && (k <= 1 || i - size < |Listing(table)|)
    ensures SteadyAt(Travel(Steady(table, size, k)), Listing(table), k, i)
    decreases k
  {
    if k > 0 {
      var before := i - size;
      assert before == (k - 1) * size;
      SteadyTravel(table, size, k - 1, before);
      TravelOneMore(table, size, k);
      SteadyNext(Travel(Steady(table, size, k - 1)), table, size, k, before);
    }
  }

  /** The client has fetched k pages, holds the first k pages' worth of the listing, and is done or not; if it is done
      that is the whole listing. */
  ghost predicate FirstPages(t: Trip, all: seq<Key>, size: Size, k: nat, done: bool) {
    && t.pages == k && (t.place.Done? <==> done)
    && t.returned == Take(all, k * size) && (done ==> t.returned == all)
  }

  lemma SteadyShape(t: Trip, all: seq<Key>, size: Size, k: nat, i: nat, done: bool)
    requires SteadyAt(t, all, k, i) && i == k * size && (k == 0 ==> i == 0)
    requires done <==> !(k == 0 || i < |all|)
    ensures FirstPages(t, all, size, k, done)
  {
  }

  lemma WithinPages(table: set<Key>, size: Size, k: nat, c: nat)
    requires IsPageCount(|table|, size, c) && k <= c
    ensures IsPageCount(|Listing(table)|, size, c)
    ensures k <= 1 || k * size - size < |Listing(table)|
  {
    ListingLists(table);
    BeforeLastPage(|table|, size, c, k);
  }

  lemma PagesShape(t: Trip, all: seq<Key>, size: Size, k: nat, c: nat)
    requires SteadyAt(t, all, k, k * size) && IsPageCount(|all|, size, c) && k <= c
    ensures FirstPages(t, all, size, k, k == c)
  {
    BeforeLastPage(|all|, size, c, k);
    SteadyShape(t, all, size, k, k * size, k == c);
  }

  /** On an unchanging table of n rows the traversal ends after exactly max(1, ceil(n / size)) pages, the listing
      returned page by page. */
  lemma SteadyTrip(table: set<Key>, size: Size, k: nat, c: nat)
    requires IsPageCount(|table|, size, c) && k <= c
    ensures FirstPages(Travel(Steady(table, size, k)), Listing(table), size, k, k == c)
  {
    WithinPages(table, size, k, c);
    SteadyTravel(table, size, k, k * size);
    PagesShape(Travel(Steady(table, size, k)), Listing(table), size, k, c);
  }

  /** So following the cursor ends, the whole listing returned. */
  lemma SteadyTripEnds(table: set<Key>, size: Size)
    ensures var t := Travel(Steady(table, size, PageCount(|table|, size)));
            t.place.Done? && t.pages == PageCount(|table|, size) && t.returned == Listing(table)
  {
    var c := PageCount(|table|, size);
    PageCountIs(|table|, size);
    SteadyTrip(table, size, c, c);
  }
}
