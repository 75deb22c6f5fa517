/** Walking a listing table page by page while it changes.

    A table is a sequence of rows and a row's id is its position; a page is the newest visible rows
    strictly below the cursor. */
module ListingPages {
  import opened Core
  import opened ListingCursors

  /** `visible`: the row has the owner and lifecycle status asked for. */
  datatype Row = Row(updatedAt: Time, visible: bool)

  type Key = Cursor

  predicate Less(a: Key, b: Key) {
    a.updatedAt < b.updatedAt || (a.updatedAt == b.updatedAt && a.listing < b.listing)
  }

  predicate Below(k: Key, after: Option<Key>) {
    after.Some? ==> Less(k, after.value)
  }

  function KeyOf(rows: seq<Row>, id: Id): Key
    requires id < |rows|
  {
    Cursor(rows[id].updatedAt, id)
  }

  predicate Candidate(rows: seq<Row>, after: Option<Key>, id: Id) {
    id < |rows| && rows[id].visible && Below(KeyOf(rows, id), after)
  }

  /** ORDER BY updated_at DESC, id DESC LIMIT 1, among the first `n` rows. */
  function Newest(rows: seq<Row>, after: Option<Key>, n: nat): (r: Option<Id>)
    requires n <= |rows|
    ensures r.Some? ==> r.value < n && Candidate(rows, after, r.value)
                        && forall i: Id | i < n && Candidate(rows, after, i) && i != r.value ::
                            Less(KeyOf(rows, i), KeyOf(rows, r.value))
    ensures r.None? ==> forall i: Id | i < n :: !Candidate(rows, after, i)
  {
    if n == 0 then None
    else
      var rest := Newest(rows, after, n - 1);
      if Candidate(rows, after, n - 1) && (rest.None? || Less(KeyOf(rows, rest.value), KeyOf(rows, n - 1)))
          then Some(n - 1) else rest
  }

  /** The repository query: at most `limit` rows, newest first. */
  function Query(rows: seq<Row>, after: Option<Key>, limit: nat): seq<Key>
    decreases limit
  {
    if limit == 0 then []
    else
      var first := Newest(rows, after, |rows|);
      if first.None? then []
      else [KeyOf(rows, first.value)] + Query(rows, Some(KeyOf(rows, first.value)), limit - 1)
  }

  datatype Page = Page(items: seq<Key>, next: Option<Key>)

  /** One row more than the page holds is fetched, to see whether there is a next page. */
  function ListOwned(rows: seq<Row>, after: Option<Key>, limit: nat): Page {
    var fetched := Query(rows, after, limit + 1);
    var items := if |fetched| > limit then fetched[..limit] else fetched;
    Page(items, if |fetched| > limit && items != [] then Some(items[|items| - 1]) else None)
  }

  // -------------------------------------------------------------------- what a page is

  lemma LessTransitive(a: Key, b: Key, c: Key)
    requires Less(a, b) && Less(b, c)
    ensures Less(a, c)
  {}

  ghost predicate Descending(keys: seq<Key>) {
    forall i, j | 0 <= i < j < |keys| :: Less(keys[j], keys[i])
  }

  ghost predicate AllRows(rows: seq<Row>, after: Option<Key>, keys: seq<Key>) {
    forall i | 0 <= i < |keys| :: Candidate(rows, after, keys[i].listing) && keys[i] == KeyOf(rows, keys[i].listing)
  }

  lemma {:induction false} QueryRows(rows: seq<Row>, after: Option<Key>, limit: nat)
    ensures var keys := Query(rows, after, limit); |keys| <= limit && Descending(keys) && AllRows(rows, after, keys)
    decreases limit
  {
    if limit > 0 {
      var first := Newest(rows, after, |rows|);
      if first.Some? {
        var top := KeyOf(rows, first.value);
        var rest := Query(rows, Some(top), limit - 1);
        QueryRows(rows, Some(top), limit - 1);
        forall i | 0 <= i < |rest| ensures Candidate(rows, after, rest[i].listing) && Less(rest[i], top) {
          if after.Some? { LessTransitive(rest[i], top, after.value); }
        }
        assert Query(rows, after, limit) == [top] + rest;
        hide Query, Candidate;
      }
    }
  }

  lemma {:induction false} QueryLeavesOut(rows: seq<Row>, after: Option<Key>, limit: nat, other: Id)
    requires Candidate(rows, after, other) && KeyOf(rows, other) !in Query(rows, after, limit)
    ensures var keys := Query(rows, after, limit);
            |keys| == limit && forall i | 0 <= i < |keys| :: Less(KeyOf(rows, other), keys[i])
    decreases limit
  {
    if limit > 0 {
      var top := KeyOf(rows, Newest(rows, after, |rows|).value);
      var rest := Query(rows, Some(top), limit - 1);
      assert Query(rows, after, limit) == [top] + rest;
      assert top in [top] + rest && forall k | k in rest :: k in [top] + rest;
      QueryLeavesOut(rows, Some(top), limit - 1, other);
      hide Query;
    }
  }

  /** A page is the newest rows below the cursor; it has a next page exactly when it is full and
      something is left, and then continues right after its last row. */
  lemma PageMeaning(rows: seq<Row>, after: Option<Key>, limit: nat, other: Id)
    requires limit >= 1
    ensures var p := ListOwned(rows, after, limit);
            && |p.items| <= limit && Descending(p.items) && AllRows(rows, after, p.items)
            && (p.next.Some? ==> |p.items| == limit && p.next.value == p.items[limit - 1])
            && (p.next.Some? ==> exists k: Id :: Candidate(rows, after, k) && KeyOf(rows, k) !in p.items)
            && (Candidate(rows, after, other) && KeyOf(rows, other) !in p.items ==>
                  p.next.Some? && Less(KeyOf(rows, other), p.next.value))
  {
    var fetched := Query(rows, after, limit + 1);
    QueryRows(rows, after, limit + 1);
    if Candidate(rows, after, other) && KeyOf(rows, other) !in fetched {
      QueryLeavesOut(rows, after, limit + 1, other);
    }
    hide Query, Candidate, KeyOf;
    if |fetched| > limit {
      TakeKeeps(rows, after, fetched, limit);
      OneIsLeft(rows, after, fetched, limit);
      hide AllRows;
      assert fetched[..limit][limit - 1] == fetched[limit - 1];
      assert Less(fetched[limit], fetched[limit - 1]);
    }
    hide Descending, AllRows, Less;
  }

  lemma OneIsLeft(rows: seq<Row>, after: Option<Key>, keys: seq<Key>, n: nat)
    requires n < |keys| && Descending(keys) && AllRows(rows, after, keys)
    ensures exists k: Id :: Candidate(rows, after, k) && KeyOf(rows, k) !in keys[..n]
  {
    var k := keys[n].listing;
    assert Candidate(rows, after, k) && keys[n] == KeyOf(rows, k);
    hide Candidate, AllRows, KeyOf;
    assert forall i | 0 <= i < n :: Less(keys[n], keys[i]);
    assert keys[n] !in keys[..n];
  }

  lemma TakeKeeps(rows: seq<Row>, after: Option<Key>, keys: seq<Key>, n: nat)
    requires n < |keys| && Descending(keys) && AllRows(rows, after, keys)
    ensures Descending(keys[..n]) && AllRows(rows, after, keys[..n])
    ensures |keys| == n + 1 ==> forall k | k in keys :: k in keys[..n] || k == keys[n]
  {
    assert forall i | 0 <= i < n :: keys[..n][i] == keys[i];
    hide Candidate;
  }

  // -------------------------------------------------------------------- walking

  /** All items seen when page number `i` is read from `tables[i]`. */
  function Walk(tables: seq<seq<Row>>, after: Option<Key>, limit: nat): seq<Key>
    decreases |tables|
  {
    if tables == [] then []
    else
      var p := ListOwned(tables[0], after, limit);
      p.items + (if p.next.Some? then Walk(tables[1..], p.next, limit) else [])
  }

  /** The walk has come to a page without a next one. */
  predicate Ends(tables: seq<seq<Row>>, after: Option<Key>, limit: nat)
    decreases |tables|
  {
    tables != [] &&
    var p := ListOwned(tables[0], after, limit);
    p.next.None? || Ends(tables[1..], p.next, limit)
  }

  /** No row's key goes back. */
  ghost predicate KeysGrow(a: seq<Row>, b: seq<Row>) {
    |a| <= |b| && forall i: Id | i < |a| :: !Less(KeyOf(b, i), KeyOf(a, i))
  }

  /** A new row is newer than every row there was. */
  ghost predicate NewRowsAreNewer(a: seq<Row>, b: seq<Row>) {
    forall i: Id, j: Id | i < |a| <= j < |b| :: Less(KeyOf(a, i), KeyOf(b, j))
  }

  ghost predicate Growing(tables: seq<seq<Row>>) {
    forall i | 0 <= i < |tables| - 1 :: KeysGrow(tables[i], tables[i + 1])
  }

  ghost predicate Listed(keys: seq<Key>, id: Id) {
    exists i :: 0 <= i < |keys| && keys[i].listing == id
  }

  ghost predicate Once(keys: seq<Key>) {
    forall i, j | 0 <= i < j < |keys| :: keys[i].listing != keys[j].listing
  }

  /** Keys only go down as pages are followed. */
  lemma {:induction false} WalkDescends(tables: seq<seq<Row>>, after: Option<Key>, limit: nat)
    requires limit >= 1
    ensures Descending(Walk(tables, after, limit))
    ensures forall i | 0 <= i < |Walk(tables, after, limit)| :: Below(Walk(tables, after, limit)[i], after)
    decreases |tables|
  {
    if tables != [] {
      var p := ListOwned(tables[0], after, limit);
      PageMeaning(tables[0], after, limit, 0);
      if p.next.Some? {
        WalkDescends(tables[1..], p.next, limit);
        var rest := Walk(tables[1..], p.next, limit);
        hide ListOwned, Walk;
        forall i | 0 <= i < |rest| ensures Below(rest[i], after) && forall k | 0 <= k < limit ::
            Less(rest[i], p.items[k]) {
          forall k | 0 <= k < limit ensures Less(rest[i], p.items[k]) {
            if k < limit - 1 { LessTransitive(rest[i], p.next.value, p.items[k]); }
          }
          if after.Some? { LessTransitive(rest[i], p.items[0], after.value); }
        }
      }
    }
  }

  /** A row at or above the cursor is not met again, however it and others are updated. */
  lemma {:induction false} PassedIsPassed(tables: seq<seq<Row>>, after: Option<Key>, limit: nat, id: Id)
    requires limit >= 1 && Growing(tables)
    requires tables != [] ==> id < |tables[0]| && !Below(KeyOf(tables[0], id), after)
    ensures !Listed(Walk(tables, after, limit), id)
    decreases |tables|
  {
    if tables != [] {
      var p := ListOwned(tables[0], after, limit);
      PageMeaning(tables[0], after, limit, id);
      var rest := tables[1..];
      if p.next.Some? {
        if rest != [] {
          assert KeysGrow(tables[0], tables[1]) && rest[0] == tables[1];
          assert Growing(rest) by { forall i | 0 <= i < |rest| - 1
              ensures KeysGrow(rest[i], rest[i + 1]) { assert KeysGrow(tables[i + 1], tables[i + 2]); } }
          assert Less(p.next.value, after.value);
        }
        PassedIsPassed(rest, p.next, limit, id);
      }
      hide ListOwned;
    }
  }

  lemma GrowingTail(tables: seq<seq<Row>>)
    requires Growing(tables) && tables != []
    ensures Growing(tables[1..]) && (|tables| > 1 ==> KeysGrow(tables[0], tables[1]))
  {
    var rest := tables[1..];
    forall i | 0 <= i < |rest| - 1 ensures KeysGrow(rest[i], rest[i + 1]) {
      assert KeysGrow(tables[i + 1], tables[i + 2]);
    }
  }

  /** No listing is shown twice, however rows are updated, added or hidden between pages, as long
      as no row's (updated_at, id) goes back. */
  lemma {:induction false} NothingTwice(tables: seq<seq<Row>>, after: Option<Key>, limit: nat)
    requires limit >= 1 && Growing(tables)
    ensures Once(Walk(tables, after, limit))
    decreases |tables|
  {
    if tables != [] {
      var p := ListOwned(tables[0], after, limit);
      PageMeaning(tables[0], after, limit, 0);
      if p.next.Some? {
        var rest := tables[1..];
        GrowingTail(tables);
        NothingTwice(rest, p.next, limit);
        forall i | 0 <= i < |p.items| ensures !Listed(Walk(rest, p.next, limit), p.items[i].listing) {
          ItemIsPassed(tables, after, limit, i);
        }
        hide ListOwned, Walk;
        var tail := Walk(rest, p.next, limit);
        assert forall j | 0 <= j < |tail| :: Listed(tail, tail[j].listing);
      }
    }
  }

  lemma ItemIsPassed(tables: seq<seq<Row>>, after: Option<Key>, limit: nat, i: nat)
    requires limit >= 1 && Growing(tables) && tables != []
    requires var p := ListOwned(tables[0], after, limit); p.next.Some? && i < |p.items|
    ensures var p := ListOwned(tables[0], after, limit); !Listed(Walk(tables[1..], p.next, limit), p.items[i].listing)
  {
    var p := ListOwned(tables[0], after, limit);
    PageMeaning(tables[0], after, limit, 0);
    GrowingTail(tables);
    hide ListOwned;
    var rest := tables[1..];
    if rest != [] {
      var id := p.items[i].listing;
      assert !Less(p.items[i], p.next.value);
      assert !Less(KeyOf(tables[1], id), KeyOf(tables[0], id));
      assert !Below(KeyOf(rest[0], id), p.next);
    }
    PassedIsPassed(rest, p.next, limit, p.items[i].listing);
  }

  /** Visible all along, and never updated. */
  ghost predicate Untouched(tables: seq<seq<Row>>, id: Id, at: Time) {
    forall i | 0 <= i < |tables| :: id < |tables[i]| && tables[i][id] == Row(at, true)
  }

  /** A listing nobody touched while the pages were followed to the end has been shown. */
  lemma {:induction false} UntouchedIsShown(tables: seq<seq<Row>>, after: Option<Key>, limit: nat, id: Id, at: Time)
    requires limit >= 1 && Untouched(tables, id, at) && Ends(tables, after, limit) && Below(Cursor(at, id), after)
    ensures Cursor(at, id) in Walk(tables, after, limit)
    decreases |tables|
  {
    var p := ListOwned(tables[0], after, limit);
    PageMeaning(tables[0], after, limit, id);
    if Cursor(at, id) !in p.items {
      assert Candidate(tables[0], after, id) && KeyOf(tables[0], id) == Cursor(at, id);
      UntouchedIsShown(tables[1..], p.next, limit, id, at);
    }
  }

  /** Followed to the end from the first page: each untouched listing exactly once, and newest
      first overall. */
  lemma WholeWalk(tables: seq<seq<Row>>, limit: nat, id: Id, at: Time)
    requires limit >= 1 && Growing(tables) && Untouched(tables, id, at) && Ends(tables, None, limit)
    ensures var shown := Walk(tables, None, limit);
            && Descending(shown) && Once(shown)
            && exists i :: 0 <= i < |shown| && shown[i] == Cursor(at, id)
                           && forall j | 0 <= j < |shown| && shown[j].listing == id :: j == i
  {
    WalkDescends(tables, None, limit);
    NothingTwice(tables, None, limit);
    UntouchedIsShown(tables, None, limit, id, at);
    hide Walk;
    var shown := Walk(tables, None, limit);
    var i :| 0 <= i < |shown| && shown[i] == Cursor(at, id);
  }

  /** Whatever a walk shows was, in the table its page was read from, a row of the asked owner and
      status with the shown time; so a row that never has them is never shown. */
  lemma {:induction false} ShownIsVisible(tables: seq<seq<Row>>, after: Option<Key>, limit: nat, k: nat)
    requires limit >= 1 && k < |Walk(tables, after, limit)|
    ensures var shown := Walk(tables, after, limit)[k];
            && Below(shown, after)
            && exists i :: 0 <= i < |tables| && shown.listing < |tables[i]|
                           && tables[i][shown.listing] == Row(shown.updatedAt, true)
    decreases |tables|
  {
    WalkDescends(tables, after, limit);
    var p := ListOwned(tables[0], after, limit);
    PageMeaning(tables[0], after, limit, 0);
    var shown := Walk(tables, after, limit)[k];
    if k < |p.items| {
      assert shown == p.items[k] && Candidate(tables[0], after, shown.listing);
    } else {
      ShownIsVisible(tables[1..], p.next, limit, k - |p.items|);
      hide *;
      var i :| 0 <= i < |tables[1..]| && shown.listing < |tables[1..][i]|
               && tables[1..][i][shown.listing] == Row(shown.updatedAt, true);
      assert tables[i + 1] == tables[1..][i];
    }
  }

  // -------------------------------------------------------------------- the walk comes to an end

  function RowsBelow(rows: seq<Row>, after: Option<Key>, n: nat): (below: set<Id>)
    requires n <= |rows|
    ensures forall i: Id :: i in below <==> i < n && Below(KeyOf(rows, i), after)
  {
    if n == 0 then {}
    else RowsBelow(rows, after, n - 1) + (if Below(KeyOf(rows, n - 1), after) then {n - 1} else {})
  }

  function Ids(keys: seq<Key>): (ids: set<Id>)
    ensures forall i: Id :: i in ids <==> exists k :: 0 <= k < |keys| && keys[k].listing == i
  {
    if keys == [] then {}
    else
      var n := |keys| - 1;
      var ids := Ids(keys[..n]) + {keys[n].listing};
      assert forall i: Id | i in ids :: exists k :: 0 <= k < |keys| && keys[k].listing == i by {
        forall i: Id | i in ids ensures exists k :: 0 <= k < |keys| && keys[k].listing == i {
          if i in Ids(keys[..n]) {
            var k :| 0 <= k < n && keys[..n][k].listing == i;
            assert keys[k].listing == i;
          } else {
            assert keys[n].listing == i;
          }
        }
      }
      assert forall k | 0 <= k < n :: keys[..n][k] == keys[k];
      ids
  }

  lemma {:induction false} DistinctIds(keys: seq<Key>)
    requires Once(keys)
    ensures |Ids(keys)| == |keys|
  {
    if keys != [] {
      var n := |keys| - 1;
      DistinctIds(keys[..n]);
      assert keys[n].listing !in Ids(keys[..n]);
    }
  }

  /** Rows that are below the cursor in `b` and were not in `a`: inserted there, or moved down. */
  function Arrived(a: seq<Row>, b: seq<Row>, after: Option<Key>, n: nat): (arrived: set<Id>)
    requires n <= |b|
    ensures forall i: Id :: i in arrived <==>
              i < n && Below(KeyOf(b, i), after) && (i >= |a| || !Below(KeyOf(a, i), after))
  {
    if n == 0 then {}
    else
      var i := n - 1;
      Arrived(a, b, after, i)
      + (if Below(KeyOf(b, i), after) && (i >= |a| || !Below(KeyOf(a, i), after)) then {i} else {})
  }

  /** What a page shows is below the cursor before it and not below the one after it. */
  lemma PageUsesUpRows(rows: seq<Row>, after: Option<Key>, limit: nat)
    requires limit >= 1 && ListOwned(rows, after, limit).next.Some?
    ensures |RowsBelow(rows, ListOwned(rows, after, limit).next, |rows|)| + limit <= |RowsBelow(rows, after, |rows|)|
  {
    var p := ListOwned(rows, after, limit);
    PageMeaning(rows, after, limit, 0);
    hide ListOwned;
    var used, later, before := Ids(p.items), RowsBelow(rows, p.next, |rows|), RowsBelow(rows, after, |rows|);
    DescendingOnce(rows, after, p.items);
    DistinctIds(p.items);
    forall i: Id | i in later ensures i in before && i !in used { BelowNextIsLeft(rows, p, after, limit, i); }
    forall i: Id | i in used ensures i in before {
      var k :| 0 <= k < |p.items| && p.items[k].listing == i;
    }
    hide RowsBelow, Ids;
    DisjointParts(later, used, before);
  }

  lemma DescendingOnce(rows: seq<Row>, after: Option<Key>, keys: seq<Key>)
    requires Descending(keys) && AllRows(rows, after, keys)
    ensures Once(keys)
  {
    forall i, j | 0 <= i < j < |keys| ensures keys[i].listing != keys[j].listing {
      assert Less(keys[j], keys[i]);
    }
  }

  lemma BelowNextIsLeft(rows: seq<Row>, p: Page, after: Option<Key>, limit: nat, i: Id)
    requires limit >= 1 && Descending(p.items) && AllRows(rows, after, p.items)
    requires p.next.Some? && |p.items| == limit && p.next.value == p.items[limit - 1]
    requires i < |rows| && Below(KeyOf(rows, i), p.next)
    ensures Below(KeyOf(rows, i), after) && i !in Ids(p.items)
  {
    var last := p.items[limit - 1];
    assert Candidate(rows, after, last.listing);
    if after.Some? { LessTransitive(KeyOf(rows, i), last, after.value); }
    forall k | 0 <= k < |p.items| ensures p.items[k].listing != i {
      assert !Less(p.items[k], last) && p.items[k] == KeyOf(rows, p.items[k].listing);
    }
  }

  /** Between two pages the rows below the cursor grow by what arrives there, and by no more. */
  lemma ArrivalsCounted(a: seq<Row>, b: seq<Row>, after: Option<Key>)
    ensures |RowsBelow(b, after, |b|)| <= |RowsBelow(a, after, |a|)| + |Arrived(a, b, after, |b|)|
  {
    var before, arrived := RowsBelow(a, after, |a|), Arrived(a, b, after, |b|);
    Larger(RowsBelow(b, after, |b|), before + arrived);
    assert |before + arrived| == |before| + |arrived| - |before * arrived|;
  }

  lemma DisjointParts(x: set<Id>, y: set<Id>, whole: set<Id>)
    requires forall i: Id | i in x :: i in whole && i !in y
    requires forall i: Id | i in y :: i in whole
    ensures |x| + |y| <= |whole|
  {
    assert x + y <= whole && x * y == {};
    Larger(x + y, whole);
    assert |x + y| == |x| + |y|;
  }

  lemma {:induction false} Larger(x: set<Id>, y: set<Id>)
    requires x <= y
    ensures |x| <= |y|
    decreases |x|
  {
    if x != {} {
      var i :| i in x;
      Larger(x - {i}, y - {i});
    }
  }

  /** All rows that arrived below the walk's cursor while it went on. */
  function Arrivals(tables: seq<seq<Row>>, after: Option<Key>, limit: nat): nat
    decreases |tables|
  {
    if |tables| < 2 then 0
    else
      var p := ListOwned(tables[0], after, limit);
      if p.next.None? then 0
      else |Arrived(tables[0], tables[1], p.next, |tables[1]|)| + Arrivals(tables[1..], p.next, limit)
  }

  /** Following pages cannot go on for ever: a walk that has not ended after n pages has used up n
      full pages of the rows that were below its cursor at the start or arrived there since. */
  lemma {:induction false} WalkIsBounded(tables: seq<seq<Row>>, after: Option<Key>, limit: nat)
    requires limit >= 1 && tables != [] && !Ends(tables, after, limit)
    ensures |tables| * limit <= |RowsBelow(tables[0], after, |tables[0]|)| + Arrivals(tables, after, limit)
    decreases |tables|
  {
    hide RowsBelow, ListOwned, Arrived;
    var p := ListOwned(tables[0], after, limit);
    assert p.next.Some? && !Ends(tables[1..], p.next, limit);
    PageUsesUpRows(tables[0], after, limit);
    hide Ends;
    var rest := tables[1..];
    if rest != [] {
      WalkIsBounded(rest, p.next, limit);
      ArrivalsCounted(tables[0], tables[1], p.next);
      OneMorePage(|rest|, limit);
    }
  }

  lemma OneMorePage(pages: nat, limit: nat)
    ensures (pages + 1) * limit == pages * limit + limit
  {}

  ghost predicate OnlyNewer(tables: seq<seq<Row>>) {
    forall i | 0 <= i < |tables| - 1 :: NewRowsAreNewer(tables[i], tables[i + 1])
  }

  lemma NewerTail(tables: seq<seq<Row>>)
    requires OnlyNewer(tables) && |tables| > 1
    ensures OnlyNewer(tables[1..]) && NewRowsAreNewer(tables[0], tables[1])
  {
    var rest := tables[1..];
    forall i | 0 <= i < |rest| - 1 ensures NewRowsAreNewer(rest[i], rest[i + 1]) {
      assert NewRowsAreNewer(tables[i + 1], tables[i + 2]);
    }
  }

  lemma NobodyArrives(a: seq<Row>, b: seq<Row>, after: Option<Key>, limit: nat)
    requires limit >= 1 && KeysGrow(a, b) && NewRowsAreNewer(a, b) && ListOwned(a, after, limit).next.Some?
    ensures Arrived(a, b, ListOwned(a, after, limit).next, |b|) == {}
  {
    var p := ListOwned(a, after, limit);
    PageMeaning(a, after, limit, 0);
    hide ListOwned;
    var last := p.items[limit - 1];
    assert Candidate(a, after, last.listing);
    forall i: Id | i < |b| && Below(KeyOf(b, i), p.next) ensures i < |a| && Below(KeyOf(a, i), p.next) {
      NotNewer(a, b, last.listing, i);
      assert !Less(KeyOf(b, i), KeyOf(a, i));
    }
  }

  lemma NotNewer(a: seq<Row>, b: seq<Row>, k: Id, i: Id)
    requires NewRowsAreNewer(a, b) && k < |a| && i < |b| && !Less(KeyOf(a, k), KeyOf(b, i))
    ensures i < |a|
  {}

  /** While keys do not go back and new rows are newer than the rows there were, nothing arrives:
      the rows at the start are all a walk can use up. */
  lemma {:induction false} NoArrivals(tables: seq<seq<Row>>, after: Option<Key>, limit: nat)
    requires limit >= 1 && Growing(tables) && OnlyNewer(tables)
    ensures Arrivals(tables, after, limit) == 0
    decreases |tables|
  {
    hide ListOwned, Arrived, KeysGrow, NewRowsAreNewer, Growing, OnlyNewer;
    if |tables| >= 2 {
      var p := ListOwned(tables[0], after, limit);
      GrowingTail(tables);
      NewerTail(tables);
      NoArrivals(tables[1..], p.next, limit);
      if p.next.Some? { NobodyArrives(tables[0], tables[1], after, limit); }
    }
  }

  // -------------------------------------------------------------------- keys that go back

  /** While a row is untouched, whatever is shown of it carries its key. */
  lemma {:induction false} ShownWithItsKey(tables: seq<seq<Row>>, after: Option<Key>, limit: nat, id: Id, at: Time)
    requires limit >= 1 && Untouched(tables, id, at) && Listed(Walk(tables, after, limit), id)
    ensures Cursor(at, id) in Walk(tables, after, limit)
    decreases |tables|
  {
    var p := ListOwned(tables[0], after, limit);
    PageMeaning(tables[0], after, limit, id);
    hide ListOwned, Descending, Less;
    var all := Walk(tables, after, limit);
    var k :| 0 <= k < |all| && all[k].listing == id;
    if k < |p.items| {
      assert all[k] == p.items[k] && KeyOf(tables[0], id) == Cursor(at, id);
      hide Candidate;
    } else {
      hide AllRows, Candidate;
      var rest := Walk(tables[1..], p.next, limit);
      assert rest[k - |p.items|] == all[k];
      ShownWithItsKey(tables[1..], p.next, limit, id, at);
    }
  }

  /** Followed to the end, a walk from any cursor shows an untouched row exactly when its key is
      below the cursor. */
  lemma UntouchedExactly(tables: seq<seq<Row>>, after: Option<Key>, limit: nat, id: Id, at: Time)
    requires limit >= 1 && Untouched(tables, id, at) && Ends(tables, after, limit)
    ensures Listed(Walk(tables, after, limit), id) <==> Below(Cursor(at, id), after)
  {
    hide Walk, Ends, Untouched;
    var all := Walk(tables, after, limit);
    if Below(Cursor(at, id), after) { UntouchedIsShown(tables, after, limit, id, at); }
    if Listed(all, id) {
      ShownWithItsKey(tables, after, limit, id, at);
      WalkDescends(tables, after, limit);
      var k :| 0 <= k < |all| && all[k] == Cursor(at, id);
    }
  }

  /** When a row is shown again: it was shown on a page with a next one, then written, and then
      left alone until the walk came to its end. It is shown once more exactly when that write put
      its key below the last key of the page it had been on. */
  lemma ShownAgainExactly(tables: seq<seq<Row>>, after: Option<Key>, limit: nat, id: Id, at: Time)
    requires limit >= 1 && tables != []
    requires var p := ListOwned(tables[0], after, limit);
             Listed(p.items, id) && p.next.Some? && Ends(tables[1..], p.next, limit)
    requires Untouched(tables[1..], id, at)
    ensures var p := ListOwned(tables[0], after, limit);
            && Walk(tables, after, limit) == p.items + Walk(tables[1..], p.next, limit)
            && (Listed(Walk(tables[1..], p.next, limit), id) <==> Less(Cursor(at, id), p.next.value))
  {
    UntouchedExactly(tables[1..], ListOwned(tables[0], after, limit).next, limit, id, at);
    hide ListOwned, Ends, Listed;
  }

  /** For instance: row 1 is shown on the first page and then written by a transaction that began
      before the row's last update, which takes `updated_at` from 5 back to 4. */
  lemma KeyGoingBackIsShownTwice()
    ensures var before, after := [Row(3, true), Row(5, true)], [Row(3, true), Row(4, true)];
            var p := ListOwned(before, None, 1);
            && p == Page([Cursor(5, 1)], Some(Cursor(5, 1)))
            && Ends([after, after], p.next, 1) && Listed(Walk([after, after], p.next, 1), 1)
            && !Once(Walk([before, after, after], None, 1))
  {
    var before, after := [Row(3, true), Row(5, true)], [Row(3, true), Row(4, true)];
    var top, again, low := Cursor(5, 1), Cursor(4, 1), Cursor(3, 0);
    var tables := [before, after, after];
    assert tables[1..] == [after, after] && [after, after][1..] == [after];
    PageOfTwo(before, None, top, low);
    PageOfTwo(after, Some(top), again, low);
    PageOfOne(after, again, low);
    hide ListOwned;
    assert Ends([after], Some(again), 1);
    assert Ends([after, after], Some(top), 1);
    assert [top][0].listing == 1 && Listed([top], 1);
    ShownAgainExactly(tables, None, 1, 1, 4);
    var rest := Walk([after, after], Some(top), 1);
    var k :| 0 <= k < |rest| && rest[k].listing == 1;
    assert ([top] + rest)[0].listing == ([top] + rest)[k + 1].listing;
  }

  /** Two rows are left and one fits. */
  lemma PageOfTwo(rows: seq<Row>, after: Option<Key>, first: Key, second: Key)
    requires |rows| == 2 && rows[0].visible && rows[1].visible && first == KeyOf(rows, 1) && second == KeyOf(rows, 0)
    requires Less(second, first) && Below(first, after) && Below(second, after)
    ensures ListOwned(rows, after, 1) == Page([first], Some(first))
  {
    assert Candidate(rows, after, 0) && Candidate(rows, after, 1);
    assert Newest(rows, after, 2) == Some(1);
    assert Candidate(rows, Some(first), 0) && Newest(rows, Some(first), 2) == Some(0);
    assert Query(rows, Some(second), 0) == [];
    assert Query(rows, Some(first), 1) == [second];
    assert Query(rows, after, 2) == [first, second];
  }

  lemma PageOfOne(rows: seq<Row>, after: Key, last: Key)
    requires |rows| == 2 && rows[0].visible && after == KeyOf(rows, 1) && last == KeyOf(rows, 0) && Less(last, after)
    ensures ListOwned(rows, Some(after), 1) == Page([last], None)
  {
    assert Candidate(rows, Some(after), 0) && Newest(rows, Some(after), 2) == Some(0);
    assert Newest(rows, Some(last), 2) == None;
    assert Query(rows, Some(last), 1) == [];
    assert Query(rows, Some(after), 2) == [last];
  }

  // -------------------------------------------------------------------- tokens

  datatype Answer = CursorInvalid | Listed(items: seq<Key>, token: Option<string>)

  /** The endpoint: an absent or empty token asks for the first page. */
  function ListPage(codec: Codec, rows: seq<Row>, token: Option<string>, filter: string, limit: nat,
      now: Time): Answer {
    var first := token.None? || token.value == "";
    var after := if first then None else codec.Decode(token.value, filter, now);
    if !first && after.None? then CursorInvalid
    else
      var p := ListOwned(rows, after, limit);
      Answer.Listed(p.items, if p.next.Some? then Some(codec.Encode(p.next.value, filter, now)) else None)
  }

  /** A page asked for with the token of the page before it, in time and with the same filter, is
      the page that comes next; with another filter or too late it is refused. */
  lemma TokenLeadsToNextPage(codec: Codec, key: Key, filter: string, issued: Time, rows: seq<Row>, asked: string,
      limit: nat, now: Time)
    requires codec.Valid() && limit >= 1
    ensures var token := codec.Encode(key, filter, issued);
            var answer := ListPage(codec, rows, Some(token), asked, limit, now);
            && token != ""
            && (answer.CursorInvalid? <==> asked != filter || now > issued + codec.ttl)
            && (answer.Listed? ==>
                  && answer.items == ListOwned(rows, Some(key), limit).items
                  && (answer.token.Some? <==> ListOwned(rows, Some(key), limit).next.Some?))
  {
    CursorRoundTrip(codec, key, filter, issued, asked, now);
    TokenIsNotEmpty(codec, key, filter, issued);
    hide codec.Encode, codec.Decode, ListOwned;
  }

  lemma TokenIsNotEmpty(codec: Codec, key: Key, filter: string, issued: Time)
    requires codec.Valid()
    ensures codec.Encode(key, filter, issued) != ""
  {
    hide Base64Url.Encode, Base64Url.StripPadding;
    var raw := codec.render(Payload(key.updatedAt, key.listing, filter, issued + codec.ttl));
    assert |codec.sign(raw)| == SIGNATURE;
    Base64Url.EmptyText(raw + codec.sign(raw));
  }
}
