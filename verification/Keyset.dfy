/**
 Keyset paging with nulls last, in either direction (the cursor and the row loop of listItems in
 internal/api/sxq.go): rows after a cursor, one more than the limit, and a cursor only when that one is there.
 */
module Keyset {
  import opened Wrappers
  import opened Sql

  /** The sort value and the id of a row; the id breaks ties. */
  datatype Key = Key(sort: Datum, id: Datum)

  datatype Entry = Entry(key: Key, item: Record)

  /** A direction over the database's order of values. */
  datatype Order = Order(less: (Datum, Datum) -> bool, desc: bool)

  ghost predicate Total(less: (Datum, Datum) -> bool) {
    && (forall a :: !less(a, a))
    && (forall a, b, c :: less(a, b) && less(b, c) ==> less(a, c))
    && (forall a: Datum, b: Datum :: !a.Null? && !b.Null? ==> a == b || less(a, b) || less(b, a))
  }

  /** ORDER BY sort NULLS LAST, id ASC. */
  predicate Before(o: Order, a: Key, b: Key) {
    if a.sort == b.sort then o.less(a.id, b.id)
    else if a.sort.Null? || b.sort.Null? then b.sort.Null?
    else if o.desc then o.less(b.sort, a.sort) else o.less(a.sort, b.sort)
  }

  /** Whether a row lies after the cursor of a request. */
  predicate IsAfter(o: Order, cursor: Option<Key>, k: Key) {
    cursor.None? || Before(o, cursor.value, k)
  }

  ghost predicate Sorted(o: Order, s: seq<Entry>) {
    forall i, j | 0 <= i < j < |s| :: Before(o, s[i].key, s[j].key)
  }

  /** No two rows share an id, and none lacks one. */
  ghost predicate DistinctIds(s: seq<Entry>) {
    && (forall i | 0 <= i < |s| :: !s[i].key.id.Null?)
    && forall i, j | 0 <= i < j < |s| :: s[i].key.id != s[j].key.id
  }

  lemma BeforeIsOrder(o: Order, a: Key, b: Key, c: Key)
    requires Total(o.less)
    ensures !Before(o, a, a)
    ensures Before(o, a, b) && Before(o, b, c) ==> Before(o, a, c)
    ensures !(Before(o, a, b) && Before(o, b, a))
    ensures !a.id.Null? && !b.id.Null? && a.id != b.id ==> Before(o, a, b) || Before(o, b, a)
  {
  }

  /* ---------- ORDER BY ---------- */

  function Insert(o: Order, e: Entry, sorted: seq<Entry>): (r: seq<Entry>)
    ensures multiset(r) == multiset(sorted) + multiset{e}
  {
    if sorted == [] || Before(o, e.key, sorted[0].key) then [e] + sorted
    else
      assert sorted == [sorted[0]] + sorted[1..];
      [sorted[0]] + Insert(o, e, sorted[1..])
  }

  function OrderBy(o: Order, rows: seq<Entry>): (r: seq<Entry>)
    ensures multiset(r) == multiset(rows)
  {
    if rows == [] then []
    else
      assert rows == rows[..|rows| - 1] + [rows[|rows| - 1]];
      Insert(o, rows[|rows| - 1], OrderBy(o, rows[..|rows| - 1]))
  }

  lemma {:induction false} InsertSorts(o: Order, e: Entry, sorted: seq<Entry>)
    requires Total(o.less) && Sorted(o, sorted)
    requires forall x | x in sorted :: Before(o, e.key, x.key) || Before(o, x.key, e.key)
    ensures Sorted(o, Insert(o, e, sorted))
  {
    if sorted != [] {
      BeforeAll(o, e, sorted);
      if !Before(o, e.key, sorted[0].key) {
        InsertSorts(o, e, sorted[1..]);
        var r := Insert(o, e, sorted[1..]);
        forall x | x in r ensures Before(o, sorted[0].key, x.key) {
          assert x in multiset(r);
          assert x in sorted[1..] || x == e;
        }
        assert Insert(o, e, sorted) == [sorted[0]] + r;
      }
    }
  }

  lemma BeforeAll(o: Order, e: Entry, sorted: seq<Entry>)
    requires Total(o.less) && Sorted(o, sorted) && sorted != []
    ensures Before(o, e.key, sorted[0].key) ==> forall x | x in sorted :: Before(o, e.key, x.key)
  {
    forall x | x in sorted && Before(o, e.key, sorted[0].key) ensures Before(o, e.key, x.key) {
      BeforeIsOrder(o, e.key, sorted[0].key, x.key);
    }
  }

  /** ORDER BY really sorts rows with distinct ids, strictly. */
  lemma {:induction false} OrderBySorts(o: Order, rows: seq<Entry>)
    requires Total(o.less) && DistinctIds(rows)
    ensures Sorted(o, OrderBy(o, rows))
  {
    if rows != [] {
      var n := |rows| - 1;
      OrderBySorts(o, rows[..n]);
      forall x | x in OrderBy(o, rows[..n])
        ensures Before(o, rows[n].key, x.key) || Before(o, x.key, rows[n].key)
      {
        assert x in multiset(OrderBy(o, rows[..n]));
        var i :| 0 <= i < n && rows[i] == x;
        BeforeIsOrder(o, rows[n].key, x.key, x.key);
      }
      InsertSorts(o, rows[n], OrderBy(o, rows[..n]));
    }
  }

  /** A set of rows has only one sorted listing. */
  lemma {:induction false} SortedIsUnique(o: Order, a: seq<Entry>, b: seq<Entry>)
    requires Total(o.less) && Sorted(o, a) && Sorted(o, b) && multiset(a) == multiset(b)
    ensures a == b
  {
    if a == [] {
      assert |multiset(a)| == 0;
    } else {
      assert a[0] in multiset(b) && |b| == |a| by { assert |multiset(a)| == |a|; assert |multiset(b)| == |b|; }
      assert b[0] in multiset(a);
      if a[0] != b[0] { BeforeIsOrder(o, a[0].key, b[0].key, a[0].key); }
      hide Before, Total;
      assert a == [a[0]] + a[1..] && b == [b[0]] + b[1..];
      assert multiset(a[1..]) == multiset(a) - multiset{a[0]};
      SortedIsUnique(o, a[1..], b[1..]);
    }
  }

  /* ---------- WHERE ---------- */

  function Filter(rows: seq<Entry>, p: Entry -> bool): seq<Entry> {
    if rows == [] then []
    else Filter(rows[..|rows| - 1], p) + if p(rows[|rows| - 1]) then [rows[|rows| - 1]] else []
  }

  /** Filtering keeps exactly the rows that pass, as often as they occur. */
  lemma {:induction false} FilterCounts(rows: seq<Entry>, p: Entry -> bool)
    ensures forall x :: multiset(Filter(rows, p))[x] == if p(x) then multiset(rows)[x] else 0
  {
    if rows != [] {
      assert rows == rows[..|rows| - 1] + [rows[|rows| - 1]];
      FilterCounts(rows[..|rows| - 1], p);
    }
  }

  lemma {:induction false} FilterOrigin(rows: seq<Entry>, p: Entry -> bool, i: nat, j: nat) returns (a: nat, b: nat)
    requires i < j < |Filter(rows, p)|
    ensures a < b < |rows| && rows[a] == Filter(rows, p)[i] && rows[b] == Filter(rows, p)[j]
  {
    var n := |rows| - 1;
    var front := Filter(rows[..n], p);
    if j < |front| {
      a, b := FilterOrigin(rows[..n], p, i, j);
    } else {
      b := n;
      FilterCounts(rows[..n], p);
      var x := front[i];
      assert x in multiset(front);
      assert x in multiset(rows[..n]);
      a :| 0 <= a < n && rows[..n][a] == x;
    }
  }

  lemma FilterSorted(o: Order, rows: seq<Entry>, p: Entry -> bool)
    requires Sorted(o, rows)
    ensures Sorted(o, Filter(rows, p))
  {
    forall i, j | 0 <= i < j < |Filter(rows, p)| ensures Before(o, Filter(rows, p)[i].key, Filter(rows, p)[j].key) {
      var a, b := FilterOrigin(rows, p, i, j);
    }
  }

  lemma FilterDistinct(rows: seq<Entry>, p: Entry -> bool)
    requires DistinctIds(rows)
    ensures DistinctIds(Filter(rows, p))
  {
    var r := Filter(rows, p);
    FilterCounts(rows, p);
    forall i | 0 <= i < |r| ensures !r[i].key.id.Null? {
      assert r[i] in multiset(r);
      assert r[i] in multiset(rows);
    }
    forall i, j | 0 <= i < j < |r| ensures r[i].key.id != r[j].key.id {
      var a, b := FilterOrigin(rows, p, i, j);
    }
  }

  /** Filtering first or sorting first makes no difference. */
  lemma FilterThenOrder(o: Order, rows: seq<Entry>, p: Entry -> bool)
    requires Total(o.less) && DistinctIds(rows)
    ensures OrderBy(o, Filter(rows, p)) == Filter(OrderBy(o, rows), p)
  {
    FilterDistinct(rows, p);
    FilterCounts(rows, p);
    FilterCounts(OrderBy(o, rows), p);
    OrderBySorts(o, rows);
    OrderBySorts(o, Filter(rows, p));
    FilterSorted(o, OrderBy(o, rows), p);
    var a, b := OrderBy(o, Filter(rows, p)), Filter(OrderBy(o, rows), p);
    assert multiset(a) == multiset(b) by {
      forall x: Entry ensures multiset(a)[x] == multiset(b)[x] {
        assert multiset(a)[x] == multiset(Filter(rows, p))[x];
      }
    }
    SortedIsUnique(o, a, b);
  }

  /* ---------- one page ---------- */

  datatype Page = Page(data: seq<Entry>, next: Option<Key>)

  function Take(s: seq<Entry>, n: nat): seq<Entry> {
    if n <= |s| then s[..n] else s
  }

  /** PageLimit: 50 unless the request says otherwise. */
  type Limit = n: nat | 1 <= n <= 200 witness 50

  /** The page that a request with this cursor and limit gets from the sorted result. */
  function PageOf(o: Order, all: seq<Entry>, cursor: Option<Key>, limit: Limit): Page
  {
    var rows := Take(Filter(all, (e: Entry) => IsAfter(o, cursor, e.key)), limit + 1);
    Page(Take(rows, limit), if |rows| > limit then Some(rows[limit - 1].key) else None)
  }

  /** The row loop of listItems. */
  method ReadRows(rows: seq<Entry>, limit: Limit) returns (page: Page)
    ensures page == Page(Take(rows, limit), if |rows| > limit then Some(rows[limit - 1].key) else None)
  {
    var data, after := [], None;
    for i := 0 to |rows|
      invariant i <= limit && data == rows[..i]
      invariant i > 0 ==> after == Some(rows[i - 1].key)
    {
      if |data| == limit { return Page(data, after); }
      data := data + [rows[i]];
      after := Some(rows[i].key);
    }
    page := Page(data, None);
  }

  /** The cursor after the first k rows. */
  function CursorAt(all: seq<Entry>, k: nat): Option<Key>
    requires k <= |all|
  {
    if k == 0 then None else Some(all[k - 1].key)
  }

  lemma {:induction false} FilterAppend(a: seq<Entry>, b: seq<Entry>, p: Entry -> bool)
    ensures Filter(a + b, p) == Filter(a, p) + Filter(b, p)
  {
    if b == [] {
      assert a + b == a;
    } else {
      var n := |b| - 1;
      assert (a + b)[..|a| + n] == a + b[..n] && (a + b)[|a| + n] == b[n];
      FilterAppend(a, b[..n], p);
    }
  }

  lemma {:induction false} FilterAll(b: seq<Entry>, p: Entry -> bool)
    requires forall x | x in b :: p(x)
    ensures Filter(b, p) == b
  {
    if b != [] {
      var n := |b| - 1;
      FilterAll(b[..n], p);
      assert b == b[..n] + [b[n]];
    }
  }

  lemma {:induction false} FilterNone(a: seq<Entry>, p: Entry -> bool)
    requires forall x | x in a :: !p(x)
    ensures Filter(a, p) == []
  {
    if a != [] { FilterNone(a[..|a| - 1], p); }
  }

  /** The rows after the k-th cursor are exactly the rows from k on. */
  lemma AfterIsSuffix(o: Order, all: seq<Entry>, k: nat)
    requires Total(o.less) && Sorted(o, all) && k <= |all|
    ensures Filter(all, (e: Entry) => IsAfter(o, CursorAt(all, k), e.key)) == all[k..]
  {
    hide Total, Sorted, IsAfter;
    var p := (e: Entry) => IsAfter(o, CursorAt(all, k), e.key);
    CursorSplits(o, all, k);
    assert all == all[..k] + all[k..];
    FilterAppend(all[..k], all[k..], p);
    FilterNone(all[..k], p);
    FilterAll(all[k..], p);
  }

  lemma CursorSplits(o: Order, all: seq<Entry>, k: nat)
    requires Total(o.less) && Sorted(o, all) && k <= |all|
    ensures forall x | x in all[..k] :: !IsAfter(o, CursorAt(all, k), x.key)
    ensures forall x | x in all[k..] :: IsAfter(o, CursorAt(all, k), x.key)
  {
    hide Total, Before;
    forall x | x in all[..k] ensures !IsAfter(o, CursorAt(all, k), x.key) {
      var i :| 0 <= i < k && all[i] == x;
      BeforeIsOrder(o, all[k - 1].key, x.key, all[k - 1].key);
    }
  }

  /** A page is a slice, and its cursor is missing exactly when nothing remains. */
  lemma PageIsSlice(o: Order, all: seq<Entry>, k: nat, limit: Limit)
    requires Total(o.less) && Sorted(o, all) && k <= |all|
    ensures var end := if k + limit <= |all| then k + limit else |all|;
            PageOf(o, all, CursorAt(all, k), limit)
            == Page(all[k..end], if end < |all| then CursorAt(all, end) else None)
  {
    AfterIsSuffix(o, all, k);
  }

  /* ---------- a walk over pages ---------- */

  datatype Rest = Finished | More | Rejected

  function Sum(limits: seq<Limit>): nat {
    if limits == [] then 0 else limits[0] + Sum(limits[1..])
  }

  /**
   Requests with the given limits, each with the cursor of the page before.  A cursor whose token does
   not fit the limit of DecodeCursor is refused.
   */
  function Walk(o: Order, all: seq<Entry>, fits: Key -> bool, cursor: Option<Key>, limits: seq<Limit>)
    : (seq<Entry>, Rest)
    decreases |limits|
  {
    if limits == [] then ([], More)
    else if cursor.Some? && !fits(cursor.value) then ([], Rejected)
    else
      var page := PageOf(o, all, cursor, limits[0]);
      if page.next.None? then (page.data, Finished)
      else
        var rest := Walk(o, all, fits, page.next, limits[1..]);
        (page.data + rest.0, rest.1)
  }

  /** Every boundary at which the walk continues has a cursor that fits. */
  ghost predicate BoundariesFit(all: seq<Entry>, fits: Key -> bool, k: nat, limits: seq<Limit>)
    decreases |limits|
  {
    limits != [] && k <= |all| ==>
      && (k == 0 || fits(all[k - 1].key))
      && (k + limits[0] < |all| ==> BoundariesFit(all, fits, k + limits[0], limits[1..]))
  }

  lemma {:induction false} WalkFrom(o: Order, all: seq<Entry>, fits: Key -> bool, k: nat, limits: seq<Limit>)
    requires Total(o.less) && Sorted(o, all)
    requires k < |all| || (k == 0 && all == [])
    ensures var (data, rest) := Walk(o, all, fits, CursorAt(all, k), limits);
            && (rest == Rejected <==> !BoundariesFit(all, fits, k, limits))
            && (rest == Finished <==> limits != [] && BoundariesFit(all, fits, k, limits) && k + Sum(limits) >= |all|)
            && data <= all[k..]
            && (rest == Finished ==> data == all[k..])
            && (rest == More ==> |data| == Sum(limits))
    decreases |limits|
  {
    hide Total, Sorted, PageOf;
    if limits != [] && (k == 0 || fits(all[k - 1].key)) {
      PageIsSlice(o, all, k, limits[0]);
      if k + limits[0] < |all| {
        WalkFrom(o, all, fits, k + limits[0], limits[1..]);
        assert all[k..] == all[k..k + limits[0]] + all[k + limits[0]..];
      }
    }
  }

  /**
   Paging is exact: for any limits the pages joined are a prefix of the whole result, no row missed or
   repeated; the walk finishes exactly when the limits reach the end and every cursor it needed fitted
   its token, and then the pages are the whole result.
   */
  lemma WalkIsExact(o: Order, rows: seq<Entry>, fits: Key -> bool, limits: seq<Limit>)
    requires Total(o.less) && DistinctIds(rows)
    ensures var all := OrderBy(o, rows);
            var (data, rest) := Walk(o, all, fits, None, limits);
            && data <= all
            && (rest == Finished ==> data == all)
            && (rest == Finished <==> limits != [] && BoundariesFit(all, fits, 0, limits) && Sum(limits) >= |all|)
            && (rest == Rejected <==> !BoundariesFit(all, fits, 0, limits))
            && (rest == More ==> |data| == Sum(limits))
  {
    OrderBySorts(o, rows);
    var all := OrderBy(o, rows);
    WalkFrom(o, all, fits, 0, limits);
    assert all[0..] == all;
  }

  /** When the first row's cursor does not fit its token, the rows behind it are out of reach page by page. */
  lemma LongCursorStops(o: Order, all: seq<Entry>, fits: Key -> bool)
    requires Total(o.less) && Sorted(o, all) && |all| >= 2 && !fits(all[0].key)
    ensures Walk(o, all, fits, None, [1, 1]) == (all[..1], Rejected)
  {
    PageIsSlice(o, all, 0, 1);
    assert all[0..1] == all[..1];
    assert Walk(o, all, fits, Some(all[0].key), [1]) == ([], Rejected);
    assert [1 as Limit, 1][1..] == [1];
    assert all[..1] + [] == all[..1];
  }
}
