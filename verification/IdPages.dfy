/**
 Paging by id while rows come and go (projectedPage in internal/api/pages.go).  Every statement sees
 its own snapshot; a snapshot is the ascending list of the ids it shows.
 */
module IdPages {
  import opened Wrappers
  import opened Keyset

  const ZERO: nat := 0      // the all-zero id, which no row has

  datatype Cursor = Cursor(after: nat, upper: nat)

  datatype IdPage = IdPage(data: seq<nat>, next: Option<Cursor>)

  ghost predicate Ascending(s: seq<nat>) {
    && (forall i | 0 <= i < |s| :: s[i] > ZERO)
    && forall i, j | 0 <= i < j < |s| :: s[i] < s[j]
  }

  /** The upper bound that the first request takes: the greatest id of its snapshot. */
  function Upper(snapshot: seq<nat>): nat {
    if snapshot == [] then ZERO else snapshot[|snapshot| - 1]
  }

  /** WHERE id > after AND id <= upper. */
  function Within(s: seq<nat>, c: Cursor): seq<nat> {
    if s == [] then []
    else Within(s[..|s| - 1], c) + if c.after < s[|s| - 1] <= c.upper then [s[|s| - 1]] else []
  }

  function FirstOf(s: seq<nat>, n: nat): seq<nat> {
    if n <= |s| then s[..n] else s
  }

  function PageFor(snapshot: seq<nat>, c: Cursor, limit: Limit): IdPage {
    var rows := FirstOf(Within(snapshot, c), limit + 1);
    if |rows| > limit then IdPage(rows[..limit], Some(Cursor(rows[limit - 1], c.upper))) else IdPage(rows, None)
  }

  /** The row loop. */
  method ReadPage(snapshot: seq<nat>, c: Cursor, limit: Limit) returns (page: IdPage)
    ensures page == PageFor(snapshot, c, limit) && |page.data| <= limit
  {
    var rows := FirstOf(Within(snapshot, c), limit + 1);
    var data, at := [], c;
    for i := 0 to |rows|
      invariant i <= limit && data == rows[..i]
      invariant at == if i == 0 then c else Cursor(rows[i - 1], c.upper)
    {
      if |data| == limit { return IdPage(data, Some(at)); }
      data := data + [rows[i]];
      at := at.(after := rows[i]);
    }
    page := IdPage(data, None);
  }

  /** Pages over one snapshot after another, following the cursor. */
  function Walk(snapshots: seq<seq<nat>>, c: Cursor, limits: seq<Limit>): (seq<nat>, Option<Cursor>)
    requires |snapshots| == |limits|
  {
    if limits == [] then ([], Some(c))
    else
      var page := PageFor(snapshots[0], c, limits[0]);
      if page.next.None? then (page.data, None)
      else
        var rest := Walk(snapshots[1..], page.next.value, limits[1..]);
        (page.data + rest.0, rest.1)
  }

  lemma {:induction false} WithinIs(s: seq<nat>, c: Cursor)
    requires Ascending(s)
    ensures Ascending(Within(s, c))
    ensures forall x :: x in Within(s, c) <==> x in s && c.after < x <= c.upper
  {
    if s != [] {
      var n := |s| - 1;
      assert s == s[..n] + [s[n]];
      WithinIs(s[..n], c);
      forall x | x in Within(s[..n], c) ensures x < s[n] {
        assert x in s[..n];
        var i :| 0 <= i < n && s[..n][i] == x;
      }
      if c.after < s[n] <= c.upper { AscendingJoin(Within(s[..n], c), [s[n]], s[n] - 1); }
    }
  }

  /** One page: ascending, within the bounds, and complete up to its last row (or the upper bound). */
  lemma PageIsExact(s: seq<nat>, c: Cursor, limit: Limit)
    requires Ascending(s)
    ensures var page := PageFor(s, c, limit);
            && Ascending(page.data) && (forall x | x in page.data :: x in s && c.after < x <= c.upper)
            && (page.next.Some? ==>
                  && |page.data| == limit && page.next.value == Cursor(page.data[limit - 1], c.upper)
                  && forall x | x in page.data :: x <= page.next.value.after)
            && forall x | x in s && c.after < x <= (if page.next.Some? then page.next.value.after else c.upper)
                :: x in page.data
  {
    WithinIs(s, c);
    var rows := Within(s, c);
    var page := PageFor(s, c, limit);
    assert page.data == FirstOf(rows, limit);
    forall x | x in s && c.after < x <= (if page.next.Some? then page.next.value.after else c.upper)
        ensures x in page.data {
      assert page.next.Some? ==> page.next.value.after == rows[limit - 1] && rows[limit - 1] in rows;
      assert x in rows;
      var i :| 0 <= i < |rows| && rows[i] == x;
      assert page.next.Some? ==> i < limit;
      assert page.data[i] == x;
    }
  }

  lemma AscendingJoin(a: seq<nat>, b: seq<nat>, m: nat)
    requires Ascending(a) && Ascending(b) && (forall x | x in a :: x <= m) && forall x | x in b :: x > m
    ensures Ascending(a + b)
  {
    forall i, j | 0 <= i < j < |a + b| ensures (a + b)[i] < (a + b)[j] {
      if i < |a| <= j { assert a[i] in a && b[j - |a|] in b; }
    }
  }

  /**
   However rows come and go between the requests, the pages joined together are strictly ascending (so
   no id twice) and stay within the bounds, and every id present in all snapshots and passed by the
   cursor is there; when the walk has ended that is every such id up to the upper bound.
   */
  lemma {:induction false} WalkIsExact(snapshots: seq<seq<nat>>, c: Cursor, limits: seq<Limit>)
    requires |snapshots| == |limits| && forall i | 0 <= i < |snapshots| :: Ascending(snapshots[i])
    ensures var (data, end) := Walk(snapshots, c, limits);
            && Ascending(data) && (forall x | x in data :: c.after < x <= c.upper)
            && (end.Some? ==> end.value.upper == c.upper && end.value.after >= c.after
                              && forall x | x in data :: x <= end.value.after)
            && (forall x | x in data :: exists i :: 0 <= i < |snapshots| && x in snapshots[i])
            && forall x | c.after < x <= (if end.Some? then end.value.after else c.upper)
                          && forall i | 0 <= i < |snapshots| :: x in snapshots[i] :: x in data
  {
    if limits != [] {
      PageIsExact(snapshots[0], c, limits[0]);
      var page := PageFor(snapshots[0], c, limits[0]);
      if page.next.Some? {
        WalkIsExact(snapshots[1..], page.next.value, limits[1..]);
        var rest := Walk(snapshots[1..], page.next.value, limits[1..]);
        assert page.data[limits[0] - 1] in page.data;
        AscendingJoin(page.data, rest.0, page.next.value.after);
        forall x | x in rest.0 ensures exists i :: 0 <= i < |snapshots| && x in snapshots[i] {
          var i :| 0 <= i < |snapshots[1..]| && x in snapshots[1..][i];
          assert x in snapshots[i + 1];
        }
        forall x | c.after < x <= (if rest.1.Some? then rest.1.value.after else c.upper)
                   && forall i | 0 <= i < |snapshots| :: x in snapshots[i]
          ensures x in page.data + rest.0
        {
          if x <= page.next.value.after {
            assert x in snapshots[0];
          } else {
            forall i | 0 <= i < |snapshots[1..]| ensures x in snapshots[1..][i] { assert x in snapshots[i + 1]; }
          }
        }
      } else {
        forall x | x in page.data ensures exists i :: 0 <= i < |snapshots| && x in snapshots[i] {
          assert x in snapshots[0];
        }
      }
    }
  }

  /** How often an id occurs. */
  function Count(s: seq<nat>, x: nat): nat {
    if s == [] then 0 else Count(s[..|s| - 1], x) + if s[|s| - 1] == x then 1 else 0
  }

  lemma {:induction false} AscendingCounts(s: seq<nat>, x: nat)
    requires Ascending(s)
    ensures Count(s, x) == if x in s then 1 else 0
  {
    if s != [] {
      assert s == s[..|s| - 1] + [s[|s| - 1]];
      AscendingCounts(s[..|s| - 1], x);
    }
  }

  /**
   A finished walk from the first page returns every row present throughout exactly once, and none
   beyond what the first request saw.
   */
  lemma FinishedWalk(first: seq<nat>, snapshots: seq<seq<nat>>, limits: seq<Limit>, x: nat)
    requires Ascending(first) && |snapshots| == |limits| && forall i | 0 <= i < |snapshots| :: Ascending(snapshots[i])
    requires Walk(snapshots, Cursor(ZERO, Upper(first)), limits).1 == None
    ensures var data := Walk(snapshots, Cursor(ZERO, Upper(first)), limits).0;
            && Count(data, x) <= 1
            && ((forall y | y in first :: x > y) ==> Count(data, x) == 0)
            && (x in first && (forall i | 0 <= i < |snapshots| :: x in snapshots[i]) ==> Count(data, x) == 1)
            && ((forall i | 0 <= i < |snapshots| :: x !in snapshots[i]) ==> Count(data, x) == 0)
  {
    var c := Cursor(ZERO, Upper(first));
    WalkIsExact(snapshots, c, limits);
    AscendingCounts(Walk(snapshots, c, limits).0, x);
    hide Walk;
    if first != [] { assert Upper(first) in first; }
    if x in first {
      var i :| 0 <= i < |first| && first[i] == x;
      assert x <= Upper(first);
    }
  }
}
