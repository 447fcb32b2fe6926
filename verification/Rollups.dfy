/**
 Rollups (internal/store/rollup.go, internal/store/gen/rollup.sql.go): the item_rollup table is a
 cache of an aggregate over each item's live descendants.
 */
module Rollups {
  import opened Wrappers
  import opened Uuids
  import opened Paths
  import opened Items

  /** What the aggregate reads of one descendant. */
  datatype Facts = Facts(points: Option<int>, start: Option<int>, due: Option<int>, done: bool)

  datatype Rollup = Rollup(descendants: nat, done: nat, pointsTotal: Option<int>, pointsDone: Option<int>,
                           earliest: Option<int>, latest: Option<int>)

  type Cache = map<Id, Rollup>

  /** A freshly inserted row: zero counts and NULL for the rest. */
  const ZERO: Rollup := Rollup(0, 0, None, None, None, None)

  function FactsOf(it: Item): Facts {
    Facts(it.points, it.start, it.due, it.category == Done)
  }

  /** The WITH clause of RecomputeRollup: rows at or below x's path, other than x, not deleted. */
  function Live(items: Table, x: Id): map<Id, Facts>
    requires x in items
  {
    map d | d in items && items[x].path <= items[d].path && d != x && !items[d].deleted :: FactsOf(items[d])
  }

  /* SQL sum, min and max skip NULLs and are NULL over no values. */

  function SumOf(a: Option<int>, b: Option<int>): Option<int> {
    if a.None? then b else if b.None? then a else Some(a.value + b.value)
  }

  function MinOf(a: Option<int>, b: Option<int>): Option<int> {
    if a.None? then b else if b.None? then a else Some(Min(a.value, b.value))
  }

  function MaxOf(a: Option<int>, b: Option<int>): Option<int> {
    if a.None? then b else if b.None? then a else Some(Max(a.value, b.value))
  }

  function Add(r: Rollup, f: Facts): Rollup {
    Rollup(r.descendants + 1,
           r.done + (if f.done then 1 else 0),
           SumOf(r.pointsTotal, f.points),
           if f.done then SumOf(r.pointsDone, f.points) else r.pointsDone,
           MinOf(r.earliest, f.start),
           MaxOf(r.latest, f.due))
  }

  ghost function Aggregate(rows: map<Id, Facts>): Rollup {
    if rows == map[] then ZERO
    else
      var d :| d in rows;
      Add(Aggregate(rows - {d}), rows[d])
  }

  /** The aggregate does not depend on the order in which rows are visited. */
  lemma {:induction false} AggregateStep(rows: map<Id, Facts>, d: Id)
    requires d in rows
    ensures Aggregate(rows) == Add(Aggregate(rows - {d}), rows[d])
    decreases |rows|
  {
    var e :| e in rows && Aggregate(rows) == Add(Aggregate(rows - {e}), rows[e]);
    if e != d {
      assert rows - {d} - {e} == rows - {e} - {d};
      AggregateStep(rows - {e}, d);
      AggregateStep(rows - {d}, e);
      AddCommutes(Aggregate(rows - {d} - {e}), rows[d], rows[e]);
    }
  }

  lemma AddCommutes(r: Rollup, a: Facts, b: Facts)
    ensures Add(Add(r, a), b) == Add(Add(r, b), a)
  {
  }

  /** m is the least of the values that are present, or absent when none is. */
  ghost predicate IsLeast(m: Option<int>, rows: map<Id, Facts>, get: Facts -> Option<int>) {
    && (m.None? <==> forall d | d in rows :: get(rows[d]) == None)
    && (m.Some? ==> (exists d :: d in rows && get(rows[d]) == m)
                    && forall d | d in rows && get(rows[d]).Some? :: m.value <= get(rows[d]).value)
  }

  ghost predicate IsGreatest(m: Option<int>, rows: map<Id, Facts>, get: Facts -> Option<int>) {
    && (m.None? <==> forall d | d in rows :: get(rows[d]) == None)
    && (m.Some? ==> (exists d :: d in rows && get(rows[d]) == m)
                    && forall d | d in rows && get(rows[d]).Some? :: m.value >= get(rows[d]).value)
  }

  function DoneIds(rows: map<Id, Facts>): set<Id> {
    set d | d in rows && rows[d].done
  }

  /** What the columns mean: row counts, and the extreme dates among the rows that have one. */
  lemma {:induction false} AggregateMeaning(rows: map<Id, Facts>)
    ensures Aggregate(rows).descendants == |rows|
    ensures Aggregate(rows).done == |DoneIds(rows)|
    ensures IsLeast(Aggregate(rows).earliest, rows, (f: Facts) => f.start)
    ensures IsGreatest(Aggregate(rows).latest, rows, (f: Facts) => f.due)
    decreases |rows|
  {
    if rows == map[] {
      assert DoneIds(rows) == {};
    } else {
      var d :| d in rows;
      AggregateStep(rows, d);
      var rest := rows - {d};
      CountStep(rows, d);
      AggregateMeaning(rest);
      hide Aggregate, IsLeast, IsGreatest, DoneIds;
      LeastStep(rows, d, Aggregate(rest).earliest, (f: Facts) => f.start);
      GreatestStep(rows, d, Aggregate(rest).latest, (f: Facts) => f.due);
    }
  }

  lemma CountStep(rows: map<Id, Facts>, d: Id)
    requires d in rows
    ensures |rows| == |rows - {d}| + 1
    ensures |DoneIds(rows)| == |DoneIds(rows - {d})| + if rows[d].done then 1 else 0
  {
    var rest := rows - {d};
    assert rest.Keys == rows.Keys - {d};
    assert |rest.Keys| == |rest| && |rows.Keys| == |rows|;
    if rows[d].done {
      assert DoneIds(rows) == DoneIds(rest) + {d};
    } else {
      assert DoneIds(rows) == DoneIds(rest);
    }
  }

  lemma LeastStep(rows: map<Id, Facts>, d: Id, m: Option<int>, get: Facts -> Option<int>)
    requires d in rows && IsLeast(m, rows - {d}, get)
    ensures IsLeast(MinOf(m, get(rows[d])), rows, get)
  {
    var rest := rows - {d};
    assert forall e | e in rows :: e == d || (e in rest && rest[e] == rows[e]);
    assert forall e | e in rest :: e in rows && rest[e] == rows[e];
  }

  lemma GreatestStep(rows: map<Id, Facts>, d: Id, m: Option<int>, get: Facts -> Option<int>)
    requires d in rows && IsGreatest(m, rows - {d}, get)
    ensures IsGreatest(MaxOf(m, get(rows[d])), rows, get)
  {
    var rest := rows - {d};
    assert forall e | e in rows :: e == d || (e in rest && rest[e] == rows[e]);
    assert forall e | e in rest :: e in rows && rest[e] == rows[e];
  }

  /** The rows that a points sum counts: those with points, of all or of the done ones. */
  function PointIds(rows: map<Id, Facts>, onlyDone: bool): set<Id> {
    set d | d in rows && rows[d].points.Some? && (onlyDone ==> rows[d].done)
  }

  /** The ids of a set, each once, in some order. */
  ghost predicate Lists(order: seq<Id>, ids: set<Id>) {
    && (forall d :: d in order <==> d in ids)
    && forall i, j | 0 <= i < j < |order| :: order[i] != order[j]
  }

  /** The points of rows, added up one after another. */
  function PointsAlong(rows: map<Id, Facts>, order: seq<Id>): int
    requires forall d | d in order :: d in rows && rows[d].points.Some?
  {
    if order == [] then 0
    else PointsAlong(rows, order[..|order| - 1]) + rows[order[|order| - 1]].points.value
  }

  lemma {:induction false} PointsElsewhere(rows: map<Id, Facts>, order: seq<Id>, d: Id)
    requires d !in order && forall e | e in order :: e in rows && rows[e].points.Some?
    ensures forall e | e in order :: e in rows - {d}
    ensures PointsAlong(rows - {d}, order) == PointsAlong(rows, order)
  {
    if order != [] { PointsElsewhere(rows, order[..|order| - 1], d); }
  }

  lemma ListsShorter(rows: map<Id, Facts>, order: seq<Id>, onlyDone: bool)
    requires Lists(order, PointIds(rows, onlyDone)) && order != []
    ensures var n := |order| - 1;
            order[n] in PointIds(rows, onlyDone) && order[n] !in order[..n]
            && Lists(order[..n], PointIds(rows - {order[n]}, onlyDone))
  {
    var n := |order| - 1;
    var d := order[n];
    assert d in order;
    assert order == order[..n] + [d];
    forall e ensures e in order[..n] <==> e in PointIds(rows - {d}, onlyDone) {
      assert e in order <==> e in order[..n] || e == d;
    }
  }

  lemma ListsNothing(rows: map<Id, Facts>, onlyDone: bool, d: Id)
    requires Lists([], PointIds(rows, onlyDone)) && d in rows
    ensures d !in PointIds(rows, onlyDone) && Lists([], PointIds(rows - {d}, onlyDone))
  {
    assert d !in [];
    forall e ensures e !in PointIds(rows - {d}, onlyDone) { assert e !in []; }
  }

  /**
   The points columns are sums: in whatever order the live (done) rows with points are listed, their
   points add up to the column, which is null when there is none.
   */
  lemma {:induction false} PointsMeaning(rows: map<Id, Facts>, order: seq<Id>, onlyDone: bool)
    requires Lists(order, PointIds(rows, onlyDone))
    ensures forall d | d in order :: d in rows && rows[d].points.Some?
    ensures (if onlyDone then Aggregate(rows).pointsDone else Aggregate(rows).pointsTotal)
         == if order == [] then None else Some(PointsAlong(rows, order))
    decreases |rows|
  {
    hide Aggregate;
    assert forall d | d in order :: d in PointIds(rows, onlyDone);
    hide Lists, PointIds;
    if order != [] {
      var n := |order| - 1;
      ListsShorter(rows, order, onlyDone);
      PointsMeaning(rows - {order[n]}, order[..n], onlyDone);
      PointsStep(rows, order, onlyDone);
    } else if rows != map[] {
      var d :| d in rows;
      ListsNothing(rows, onlyDone, d);
      PointsMeaning(rows - {d}, [], onlyDone);
      AggregateStep(rows, d);
      assert rows[d].points == None || (onlyDone && !rows[d].done) by { NotCounted(rows, onlyDone, d); }
    } else {
      NothingAggregated();
    }
  }

  lemma PointsStep(rows: map<Id, Facts>, order: seq<Id>, onlyDone: bool)
    requires order != [] && Lists(order, PointIds(rows, onlyDone))
    ensures var n := |order| - 1;
            && order[n] in rows && rows[order[n]].points.Some? && (onlyDone ==> rows[order[n]].done)
            && Aggregate(rows) == Add(Aggregate(rows - {order[n]}), rows[order[n]])
            && PointsAlong(rows, order) == PointsAlong(rows - {order[n]}, order[..n]) + rows[order[n]].points.value
  {
    hide Aggregate;
    var n := |order| - 1;
    ListsShorter(rows, order, onlyDone);
    AggregateStep(rows, order[n]);
    PointsElsewhere(rows, order[..n], order[n]);
  }

  lemma NotCounted(rows: map<Id, Facts>, onlyDone: bool, d: Id)
    requires d in rows && d !in PointIds(rows, onlyDone)
    ensures rows[d].points == None || (onlyDone && !rows[d].done)
  {
  }

  lemma NothingAggregated()
    ensures Aggregate(map[]) == ZERO
  {
  }

  /* ---------- which rollups a change can affect ---------- */

  /** x is a strict ancestor of one of the touched paths. */
  ghost predicate Dirty(touched: set<Path>, x: Id) {
    exists p | p in touched && p != [] :: x in p[..|p| - 1]
  }

  lemma CleanInSubset(touched: set<Path>, more: set<Path>, x: Id)
    requires touched <= more && !Dirty(more, x)
    ensures !Dirty(touched, x)
  {
  }

  lemma AncestorIsDirty(items: Table, touched: set<Path>, x: Id, d: Id)
    requires Forest(items) && x in items && d in items && x != d
    requires items[x].path <= items[d].path && items[d].path in touched
    ensures Dirty(touched, x)
  {
    OnPathIsPrefix(items, x, d);
    var p := items[d].path;
    assert p != [] && p[|p| - 1] == d by { assert Rooted(items, d); }
    hide Forest;
    var k :| 0 <= k < |p| && p[k] == x;
    assert p[..|p| - 1][k] == x;
  }

  lemma NotAbove(items: Table, touched: set<Path>, x: Id, d: Id)
    requires Forest(items) && x in items && d in items
    requires items[d].path in touched && !Dirty(touched, x)
    ensures x == d || !(items[x].path <= items[d].path)
  {
    if x != d && items[x].path <= items[d].path { AncestorIsDirty(items, touched, x, d); }
  }

  /** Changing one row without moving it affects only the rollups above it. */
  lemma UpdateKeepsLive(items: Table, u: Id, it: Item, x: Id, touched: set<Path>)
    requires Forest(items) && u in items && it.path == items[u].path && x in items
    requires it.path in touched && !Dirty(touched, x)
    ensures Live(items[u := it], x) == Live(items, x)
  {
    NotAbove(items, touched, x, u);
    hide Forest, Dirty, FactsOf;
    SameLive(items, items[u := it], x);
  }

  /** Live rows agree when path order, deletion and facts of every row do. */
  lemma SameLive(items: Table, after: Table, x: Id)
    requires x in items && x in after
    requires forall d | d != x && d in items && items[x].path <= items[d].path && !items[d].deleted ::
               d in after && after[x].path <= after[d].path && !after[d].deleted
                   && FactsOf(after[d]) == FactsOf(items[d])
    requires forall d | d != x && d in after && after[x].path <= after[d].path && !after[d].deleted ::
               d in items && items[x].path <= items[d].path && !items[d].deleted
    ensures Live(after, x) == Live(items, x)
  {
    hide FactsOf;
    assert Live(after, x).Keys == Live(items, x).Keys;
  }

  lemma InsertKeepsLive(items: Table, u: Id, it: Item, x: Id, touched: set<Path>)
    requires Forest(items[u := it]) && u !in items && x in items
    requires it.path in touched && !Dirty(touched, x)
    ensures Live(items[u := it], x) == Live(items, x)
  {
    NotAbove(items[u := it], touched, x, u);
    hide Forest, Dirty, FactsOf;
    SameLive(items, items[u := it], x);
  }

  /** A new item has no descendants yet. */
  lemma InsertedHasNone(items: Table, u: Id, it: Item)
    requires Forest(items) && Forest(items[u := it]) && u !in items
    ensures Live(items[u := it], u) == map[]
  {
    var after := items[u := it];
    forall d | d in items ensures !(it.path <= after[d].path) {
      assert Rooted(items, d);
      OnPathIsPrefix(after, u, d);
    }
  }

  lemma DeleteKeepsLive(items: Table, u: Id, x: Id, touched: set<Path>)
    requires Forest(items) && u in items && x in items && x != u
    requires items[u].path in touched && !Dirty(touched, x)
    ensures Live(Removed(items, u), x) == Live(items, x)
  {
    NotAbove(items, touched, x, u);
    hide Forest, Dirty, FactsOf;
    SameLive(items, Removed(items, u), x);
  }

  lemma MoveKeepsFacts(it: Item, isTop: bool, newParent: Option<Id>, top: Path, prior: Path, changeSeq: nat)
    requires prior != []
    ensures var now := MovedRow(it, isTop, newParent, top, prior, changeSeq);
            FactsOf(now) == FactsOf(it) && now.deleted == it.deleted
  {
  }

  /**
   A subtree move affects only the rollups above the old place of the moved item and above the new
   places of the rows it moved.
   */
  lemma MoveKeepsLive(items: Table, id: Id, newParent: Option<Id>, changeSeq: nat, x: Id, touched: set<Path>)
    requires Forest(items) && id in items && MoveAllowed(items, id, newParent) && x in items
    requires items[id].path != [] && items[id].path in touched && !Dirty(touched, x)
    requires var after := ReparentRows(items, id, newParent, ParentPath(items, newParent), items[id].path, changeSeq);
             forall d | d in items && items[id].path <= items[d].path :: after[d].path in touched
    ensures var after := ReparentRows(items, id, newParent, ParentPath(items, newParent), items[id].path, changeSeq);
            Live(after, x) == Live(items, x)
  {
    var prior, top := items[id].path, ParentPath(items, newParent);
    var after := ReparentRows(items, id, newParent, top, prior, changeSeq);
    MoveKeepsForest(items, id, newParent, changeSeq);
    forall d | d in items && d != x
      ensures items[x].path <= items[d].path <==> after[x].path <= after[d].path
      ensures FactsOf(after[d]) == FactsOf(items[d]) && after[d].deleted == items[d].deleted
    {
      MoveKeepsFacts(items[d], d == id, newParent, top, prior, changeSeq);
      if prior <= items[x].path || !(prior <= items[d].path) {
        MoveKeepsSubtreeShape(items, id, newParent, changeSeq, x, d);
      } else {
        StayerAbove(items, after, prior, id, x, d, touched);
      }
    }
    hide Forest, MoveAllowed, ReparentRows, TriggerAccepts, FactsOf, Dirty;
    SameLive(items, after, x);
  }

  lemma StayerAbove(items: Table, after: Table, prior: Path, id: Id, x: Id, d: Id, touched: set<Path>)
    requires Forest(items) && Forest(after) && items.Keys == after.Keys
    requires x in items && d in items && id in items && items[id].path == prior && x != d
    requires !(prior <= items[x].path) && prior <= items[d].path
    requires prior in touched && after[d].path in touched && !Dirty(touched, x)
    ensures !(items[x].path <= items[d].path) && !(after[x].path <= after[d].path)
  {
    if after[x].path <= after[d].path { AncestorIsDirty(after, touched, x, d); }
    if items[x].path <= items[d].path {
      PrefixesCompare(items[x].path, prior, items[d].path);
      AncestorIsDirty(items, touched, x, id);
    }
  }

  lemma PrefixesCompare(a: Path, b: Path, c: Path)
    requires a <= c && b <= c
    ensures a <= b || b <= a
  {
  }

  /* ---------- the store's loops ---------- */

  /** RecomputeRollup's aggregate, row by row. */
  method ComputeRollup(items: Table, id: Id) returns (r: Rollup)
    requires id in items
    ensures r == Aggregate(Live(items, id))
  {
    r := ZERO;
    var todo := items.Keys;
    var path := items[id].path;
    ghost var rows := Live(items, id);
    assert rows - todo == map[];
    while todo != {}
      invariant todo <= items.Keys
      invariant r == Aggregate(rows - todo)
      decreases |todo|
    {
      var d :| d in todo;
      ghost var before := rows - todo;
      todo := todo - {d};
      if path <= items[d].path && d != id && !items[d].deleted {
        assert rows - todo == before[d := rows[d]];
        assert before[d := rows[d]] - {d} == before;
        AggregateStep(rows - todo, d);
        r := Add(r, FactsOf(items[d]));
      } else {
        assert rows - todo == before;
      }
    }
    assert rows - todo == rows;
  }

  ghost predicate IsTextOf(text: string, touched: set<Path>) {
    exists p :: p in touched && p != [] && text == Dotted(p)
  }

  /** The texts m.touchedPaths holds, for a set of touched paths. */
  ghost predicate TextsOf(texts: seq<string>, touched: set<Path>) {
    && (forall i | 0 <= i < |texts| :: IsTextOf(texts[i], touched))
    && (forall p | p in touched :: p != [] && Dotted(p) in texts)
  }

  /** Some label before the last of some text parses to x. */
  ghost predicate NamedAbove(texts: seq<string>, x: Id) {
    exists i, k :: 0 <= i < |texts| && 0 <= k < |SplitDots(texts[i])| - 1 && Parse(SplitDots(texts[i])[k]) == Some(x)
  }

  lemma NamedAboveIsDirty(texts: seq<string>, touched: set<Path>, x: Id)
    requires TextsOf(texts, touched)
    ensures NamedAbove(texts, x) <==> Dirty(touched, x)
  {
    hide Dotted, SplitDots, Parse;
    if NamedAbove(texts, x) {
      var i, k :| 0 <= i < |texts| && 0 <= k < |SplitDots(texts[i])| - 1 && Parse(SplitDots(texts[i])[k]) == Some(x);
      assert IsTextOf(texts[i], touched);
      var p :| p in touched && p != [] && texts[i] == Dotted(p);
      SplitInvertsDotted(p);
      assert p[..|p| - 1][k] == x;
    }
    if Dirty(touched, x) {
      var p :| p in touched && p != [] && x in p[..|p| - 1];
      SplitInvertsDotted(p);
      var k :| 0 <= k < |p| - 1 && p[..|p| - 1][k] == x;
      var i :| 0 <= i < |texts| && texts[i] == Dotted(p);
      assert Parse(SplitDots(texts[i])[k]) == Some(x);
    }
  }

  /** Seen labels and the ids they gave agree. */
  ghost predicate SeenAgree(seen: set<string>, out: seq<Id>) {
    && (forall i | 0 <= i < |out| :: Text(out[i]) in seen)
    && (forall l | l in seen && Parse(l).Some? :: Parse(l).value in out)
    && (forall i, j | 0 <= i < j < |out| :: out[i] != out[j])
  }

  lemma ParsedText(l: string)
    requires Parse(l).Some?
    ensures Text(Parse(l).value) == l
  {
    TextInvertsParse(l);
  }

  /** Every strict ancestor of every touched path, each once. */
  method DirtyAncestors(texts: seq<string>) returns (out: seq<Id>)
    ensures forall x :: x in out <==> NamedAbove(texts, x)
    ensures forall i, j | 0 <= i < j < |out| :: out[i] != out[j]
  {
    hide SplitDots, Parse, Text;
    var seen: set<string> := {};
    out := [];
    for i := 0 to |texts|
      invariant SeenAgree(seen, out)
      invariant forall x | x in out :: NamedAbove(texts, x)
      invariant forall a, b | 0 <= a < i && 0 <= b < |SplitDots(texts[a])| - 1 :: SplitDots(texts[a])[b] in seen
    {
      var labels := SplitDots(texts[i]);
      for k := 0 to |labels| - 1
        invariant SeenAgree(seen, out)
        invariant forall x | x in out :: NamedAbove(texts, x)
        invariant forall b | 0 <= b < k :: labels[b] in seen
        invariant forall a, b | 0 <= a < i && 0 <= b < |SplitDots(texts[a])| - 1 :: SplitDots(texts[a])[b] in seen
      {
        var name := labels[k];
        if name !in seen {
          var id := Parse(name);
          ghost var was := out;
          if id.Some? {
            assert NamedAbove(texts, id.value);
            ParsedText(name);
            out := out + [id.value];
          }
          seen := seen + {name};
          forall l | l in seen && Parse(l).Some? ensures Parse(l).value in out {
            if l != name { assert Parse(l).value in was; }
          }
          assert SeenAgree(seen, out);
        }
      }
    }
  }
}
