/**
 The item table and the SQL statements that write it (internal/store/gen/item.sql.go), with the
 checks the database itself makes (migrations/0005_item.sql, migrations/0008_invariants.sql).
 */
module Items {
  import opened Wrappers
  import opened Uuids
  import opened Paths

  const MAX_DEPTH: nat := 8

  datatype Category = Open | Active | Done | Cancelled

  /** A row of item, without the columns no invariant here depends on. */
  datatype Item = Item(project: Id, parent: Option<Id>, path: Path, category: Category,
                       points: Option<int>, start: Option<int>, due: Option<int>,
                       deleted: bool, version: nat, changeSeq: nat)

  type Table = map<Id, Item>

  /** Row-level trigger item_path_check: depth, own id last, parent id before it. */
  predicate PathCheck(id: Id, parent: Option<Id>, path: Path) {
    && 0 < |path| <= MAX_DEPTH
    && path[|path| - 1] == id
    && parent == (if |path| == 1 then None else Some(path[|path| - 2]))
  }

  /** An item's path is its parent's path plus its own id, all within one project. */
  ghost predicate Rooted(items: Table, id: Id)
    requires id in items
  {
    var it := items[id];
    && PathCheck(id, it.parent, it.path)
    && forall k | 0 <= k < |it.path| ::
         it.path[k] in items && items[it.path[k]].path == it.path[..k + 1] && items[it.path[k]].project == it.project
  }

  ghost predicate Forest(items: Table) {
    forall id | id in items :: Rooted(items, id)
  }

  /** x lies on d's path exactly when x's own path is a prefix of it. */
  lemma OnPathIsPrefix(items: Table, x: Id, d: Id)
    requires Forest(items) && x in items && d in items
    ensures x in items[d].path <==> items[x].path <= items[d].path
  {
    assert Rooted(items, x) && Rooted(items, d);
    if x in items[d].path {
      var k :| 0 <= k < |items[d].path| && items[d].path[k] == x;
    }
    if items[x].path <= items[d].path {
      assert items[d].path[|items[x].path| - 1] == x;
    }
  }

  /** No id occurs twice on a path, so no item is its own ancestor. */
  lemma LabelsAreDistinct(items: Table, d: Id, i: nat, j: nat)
    requires Forest(items) && d in items && i < j < |items[d].path|
    ensures items[d].path[i] != items[d].path[j]
  {
    assert Rooted(items, d);
    assert |items[d].path[..i + 1]| != |items[d].path[..j + 1]|;
  }

  /* ---------- subtree moves ---------- */

  /** new_parent_path || subpath(path, nlevel(old) - 1). */
  function Rewritten(path: Path, prior: Path, newParentPath: Path): Path
    requires prior != [] && prior <= path
  {
    newParentPath + path[|prior| - 1..]
  }

  /** What the UPDATE of ReparentSubtree makes of one row. */
  function MovedRow(it: Item, isTop: bool, newParent: Option<Id>, newParentPath: Path, prior: Path,
      changeSeq: nat): Item
    requires prior != []
  {
    if prior <= it.path
    then it.(parent := if isTop then newParent else it.parent,
             path := Rewritten(it.path, prior, newParentPath),
             changeSeq := changeSeq, version := it.version + 1)
    else it
  }

  /** The one UPDATE of ReparentSubtree, before the trigger's verdict. */
  function ReparentRows(items: Table, id: Id, newParent: Option<Id>, newParentPath: Path, prior: Path,
      changeSeq: nat): (r: Table)
    requires prior != []
    ensures r.Keys == items.Keys
  {
    map d | d in items :: MovedRow(items[d], d == id, newParent, newParentPath, prior, changeSeq)
  }

  /** Whether the trigger lets every rewritten row of the statement through. */
  ghost predicate TriggerAccepts(items: Table, id: Id, newParent: Option<Id>, newParentPath: Path, prior: Path)
    requires prior != []
  {
    && (forall d | d in items && prior <= items[d].path ::
          PathCheck(d, if d == id then newParent else items[d].parent, Rewritten(items[d].path, prior, newParentPath)))
    && (newParent.Some? && id in items && newParent != items[id].parent ==>
          newParent.value in items ==> !(prior <= items[newParent.value].path))
  }

  function MaxOf(s: set<nat>): (m: nat)
    requires s != {}
    ensures m in s && forall x | x in s :: x <= m
  {
    Greatest(s);
    var m :| m in s && forall x | x in s :: x <= m;
    m
  }

  lemma {:induction false} Greatest(s: set<nat>)
    requires s != {}
    ensures exists m :: m in s && forall x | x in s :: x <= m
  {
    var y :| y in s;
    if s != {y} {
      var rest := s - {y};
      Greatest(rest);
      var m :| m in rest && forall x | x in rest :: x <= m;
      var top := if m < y then y else m;
      assert top in s;
      forall x | x in s ensures x <= top { assert x == y || x in rest; }
    } else {
      assert y in s && forall x | x in s :: x <= y;
    }
  }

  /** max(nlevel(path)) - nlevel(prior) + 1 over the subtree at prior. */
  function Height(items: Table, prior: Path): int
    requires exists d :: d in items && prior <= items[d].path
  {
    var levels := set d | d in items && prior <= items[d].path :: |items[d].path|;
    assert levels != {} by {
      var d :| d in items && prior <= items[d].path;
      assert |items[d].path| in levels;
    }
    MaxOf(levels) - |prior| + 1
  }

  lemma HeightBounds(items: Table, prior: Path, d: Id)
    requires d in items && prior <= items[d].path
    ensures |items[d].path| - |prior| + 1 <= Height(items, prior)
  {
    var levels := set d | d in items && prior <= items[d].path :: |items[d].path|;
    assert |items[d].path| in levels;
  }

  /** The tests applyReparent makes on a move of item id under newParent. */
  ghost predicate MoveAllowed(items: Table, id: Id, newParent: Option<Id>)
    requires id in items
  {
    && (newParent.Some? ==>
          && newParent.value in items
          && items[newParent.value].project == items[id].project
          && !items[newParent.value].deleted
          && !(items[id].path <= items[newParent.value].path))
    && |ParentPath(items, newParent)| + Height(items, items[id].path) <= MAX_DEPTH
  }

  function ParentPath(items: Table, parent: Option<Id>): Path {
    if parent.Some? && parent.value in items then items[parent.value].path else []
  }

  /** What holds of a subtree member d before the move, for the position where the old prefix ends. */
  lemma BelowMoved(items: Table, id: Id, d: Id)
    requires Forest(items) && id in items && d in items && items[id].path <= items[d].path
    ensures var m := |items[id].path|; 0 < m <= |items[d].path| && items[d].path[m - 1] == id
    ensures d == id <==> |items[d].path| == |items[id].path|
    ensures items[d].project == items[id].project
  {
    assert Rooted(items, id) && Rooted(items, d);
  }

  /** A label of a rewritten path, above the moved item: an untouched ancestor of the new parent. */
  lemma LabelAbove(items: Table, newParent: Id, prior: Path, tail: Path, k: nat)
    requires Forest(items) && newParent in items && !(prior <= items[newParent].path)
    requires k < |items[newParent].path|
    ensures var top := items[newParent].path;
            && top[k] in items && items[top[k]].path == (top + tail)[..k + 1]
            && !(prior <= items[top[k]].path) && items[top[k]].project == items[newParent].project
  {
    assert Rooted(items, newParent);
    var top := items[newParent].path;
    PrefixOfPrefix(prior, top, k + 1);
    assert (top + tail)[..k + 1] == top[..k + 1];
  }

  /** A label of a rewritten path, from the moved item on: a member of the subtree, itself rewritten. */
  lemma LabelWithin(items: Table, prior: Path, d: Id, top: Path, j: nat)
    requires Forest(items) && d in items && prior != [] && prior <= items[d].path
    requires |prior| - 1 <= j < |items[d].path|
    ensures var was := items[d].path;
            && was[j] in items && prior <= items[was[j]].path && items[was[j]].project == items[d].project
            && Rewritten(items[was[j]].path, prior, top) == Rewritten(was, prior, top)[..|top| + j - (|prior| - 1) + 1]
  {
    assert Rooted(items, d);
    hide Forest, PathCheck;
    var was := items[d].path;
    assert items[was[j]].path == was[..j + 1];
    RewrittenPrefix(was, prior, top, j);
  }

  lemma RewrittenPrefix(was: Path, prior: Path, top: Path, j: nat)
    requires prior != [] && prior <= was && |prior| - 1 <= j < |was|
    ensures prior <= was[..j + 1]
    ensures Rewritten(was[..j + 1], prior, top) == Rewritten(was, prior, top)[..|top| + j - (|prior| - 1) + 1]
  {
  }

  lemma RewrittenLabel(items: Table, id: Id, newParent: Option<Id>, changeSeq: nat, d: Id, k: nat)
    requires Forest(items) && id in items && d in items
    requires newParent.Some? ==> newParent.value in items && items[newParent.value].project == items[id].project
    requires newParent.Some? ==> !(items[id].path <= items[newParent.value].path)
    requires items[id].path <= items[d].path && items[id].path != []
    requires k < |Rewritten(items[d].path, items[id].path, ParentPath(items, newParent))|
    ensures var after := ReparentRows(items, id, newParent, ParentPath(items, newParent), items[id].path, changeSeq);
            var now := after[d].path;
            now[k] in after && after[now[k]].path == now[..k + 1] && after[now[k]].project == after[d].project
  {
    var prior, top, was := items[id].path, ParentPath(items, newParent), items[d].path;
    BelowMoved(items, id, d);
    MovedOrNot(items, id, newParent, top, prior, changeSeq, d);
    hide ReparentRows, PathCheck, Rooted;
    if k < |top| {
      LabelAbove(items, newParent.value, prior, was[|prior| - 1..], k);
      MovedOrNot(items, id, newParent, top, prior, changeSeq, top[k]);
    } else {
      var j := k - |top| + |prior| - 1;
      LabelWithin(items, prior, d, top, j);
      MovedOrNot(items, id, newParent, top, prior, changeSeq, was[j]);
      assert Rewritten(was, prior, top)[k] == was[j];
    }
  }

  /** Path and project of one row after the statement. */
  lemma MovedOrNot(items: Table, id: Id, newParent: Option<Id>, top: Path, prior: Path, changeSeq: nat, x: Id)
    requires prior != [] && x in items
    ensures var after := ReparentRows(items, id, newParent, top, prior, changeSeq)[x];
            && after.project == items[x].project
            && after.path == if prior <= items[x].path then Rewritten(items[x].path, prior, top) else items[x].path
  {
  }

  lemma RewrittenPassesCheck(items: Table, id: Id, newParent: Option<Id>, d: Id)
    requires Forest(items) && id in items && d in items
    requires newParent.Some? ==> newParent.value in items
    requires items[id].path <= items[d].path && items[id].path != []
    requires |ParentPath(items, newParent)| + |items[d].path| - |items[id].path| + 1 <= MAX_DEPTH
    ensures PathCheck(d, if d == id then newParent else items[d].parent,
                      Rewritten(items[d].path, items[id].path, ParentPath(items, newParent)))
  {
    BelowMoved(items, id, d);
    PathIsChecked(items, d);
    if newParent.Some? { PathIsChecked(items, newParent.value); }
    hide Forest, PathCheck, Rewritten;
    RewrittenChecks(d, items[d].parent, items[d].path, items[id].path, newParent,
                    if newParent.Some? then items[newParent.value].parent else None, ParentPath(items, newParent));
  }

  lemma PathIsChecked(items: Table, x: Id)
    requires Forest(items) && x in items
    ensures PathCheck(x, items[x].parent, items[x].path)
  {
    assert Rooted(items, x);
  }

  lemma RewrittenChecks(d: Id, parent: Option<Id>, was: Path, prior: Path, newParent: Option<Id>, above: Option<Id>,
      top: Path)
    requires prior != [] && prior <= was && PathCheck(d, parent, was)
    requires if newParent.None? then top == [] else PathCheck(newParent.value, above, top)
    requires |top| + |was| - |prior| + 1 <= MAX_DEPTH
    ensures PathCheck(d, if |was| == |prior| then newParent else parent, Rewritten(was, prior, top))
  {
    RewrittenEnds(was, prior, top);
    hide Rewritten;
  }

  /** The last two labels of a rewritten path. */
  lemma RewrittenEnds(was: Path, prior: Path, top: Path)
    requires prior != [] && prior <= was
    ensures var now := Rewritten(was, prior, top);
            && |now| == |top| + |was| - |prior| + 1 && now[|now| - 1] == was[|was| - 1]
            && (|was| > |prior| ==> now[|now| - 2] == was[|was| - 2])
            && (|was| == |prior| && top != [] ==> now[|now| - 2] == top[|top| - 1])
  {
  }

  lemma RewrittenIsRooted(items: Table, id: Id, newParent: Option<Id>, changeSeq: nat, d: Id)
    requires Forest(items) && id in items && d in items
    requires newParent.Some? ==> newParent.value in items && items[newParent.value].project == items[id].project
    requires newParent.Some? ==> !(items[id].path <= items[newParent.value].path)
    requires items[id].path <= items[d].path && items[id].path != []
    requires |ParentPath(items, newParent)| + |items[d].path| - |items[id].path| + 1 <= MAX_DEPTH
    ensures Rooted(ReparentRows(items, id, newParent, ParentPath(items, newParent), items[id].path, changeSeq), d)
  {
    var prior, top := items[id].path, ParentPath(items, newParent);
    var after := ReparentRows(items, id, newParent, top, prior, changeSeq);
    BelowMoved(items, id, d);
    RewrittenPassesCheck(items, id, newParent, d);
    hide Forest, Rewritten;
    forall k | 0 <= k < |after[d].path|
      ensures after[d].path[k] in after && after[after[d].path[k]].path == after[d].path[..k + 1]
      ensures after[after[d].path[k]].project == after[d].project
    {
      RewrittenLabel(items, id, newParent, changeSeq, d, k);
    }
  }

  lemma StayerIsRooted(items: Table, id: Id, newParent: Option<Id>, changeSeq: nat, d: Id)
    requires Forest(items) && id in items && d in items && !(items[id].path <= items[d].path)
    ensures items[id].path != []
    ensures Rooted(ReparentRows(items, id, newParent, ParentPath(items, newParent), items[id].path, changeSeq), d)
  {
    assert Rooted(items, id) && Rooted(items, d);
    var prior := items[id].path;
    var after := ReparentRows(items, id, newParent, ParentPath(items, newParent), prior, changeSeq);
    forall k | 0 <= k < |items[d].path|
      ensures after[items[d].path[k]].path == items[d].path[..k + 1]
    {
      PrefixOfPrefix(prior, items[d].path, k + 1);
    }
  }

  lemma PrefixOfPrefix(a: Path, b: Path, n: nat)
    requires n <= |b|
    ensures a <= b[..n] ==> a <= b
  {
  }

  /**
   Every move the Go checks allow keeps the whole forest well formed, and the trigger would not have
   refused any row of it; in particular no moved item ends deeper than 8.
   */
  lemma MoveKeepsForest(items: Table, id: Id, newParent: Option<Id>, changeSeq: nat)
    requires Forest(items) && id in items && MoveAllowed(items, id, newParent)
    ensures items[id].path != []
    ensures var top := ParentPath(items, newParent);
            && Forest(ReparentRows(items, id, newParent, top, items[id].path, changeSeq))
            && TriggerAccepts(items, id, newParent, top, items[id].path)
  {
    assert Rooted(items, id);
    var prior, top := items[id].path, ParentPath(items, newParent);
    var after := ReparentRows(items, id, newParent, top, prior, changeSeq);
    forall d | d in items
      ensures Rooted(after, d)
    {
      if prior <= items[d].path {
        HeightBounds(items, prior, d);
        RewrittenIsRooted(items, id, newParent, changeSeq, d);
      } else {
        StayerIsRooted(items, id, newParent, changeSeq, d);
      }
    }
    forall d | d in items && prior <= items[d].path
      ensures PathCheck(d, after[d].parent, after[d].path)
    {
      assert Rooted(after, d);
    }
  }

  lemma InsideKeepsShape(a: Item, b: Item, top: Path, prior: Path)
    requires prior != [] && prior <= a.path && prior <= b.path
    ensures a.path <= b.path <==> Rewritten(a.path, prior, top) <= Rewritten(b.path, prior, top)
  {
    PrefixTails(a.path, b.path, |prior| - 1, top);
  }

  /** Within the moved subtree, and outside it, who is below whom does not change. */
  lemma MoveKeepsSubtreeShape(items: Table, id: Id, newParent: Option<Id>, changeSeq: nat, x: Id, d: Id)
    requires Forest(items) && id in items && MoveAllowed(items, id, newParent)
    requires x in items && d in items && items[id].path != []
    requires items[id].path <= items[x].path || !(items[id].path <= items[d].path)
    ensures var after := ReparentRows(items, id, newParent, ParentPath(items, newParent), items[id].path, changeSeq);
            items[x].path <= items[d].path <==> after[x].path <= after[d].path
  {
    var prior, top := items[id].path, ParentPath(items, newParent);
    MoveKeepsForest(items, id, newParent, changeSeq);
    hide MoveAllowed, Forest, TriggerAccepts, ParentPath;
    var after := ReparentRows(items, id, newParent, top, prior, changeSeq);
    if prior <= items[x].path {
      if prior <= items[d].path {
        InsideKeepsShape(items[x], items[d], top, prior);
        hide Rewritten;
      } else {
        hide Rewritten;
        OutsideNotBelow(items, after, prior, x, d);
      }
    } else {
      hide Rewritten;
    }
  }

  lemma OutsideNotBelow(items: Table, after: Table, prior: Path, x: Id, d: Id)
    requires Forest(items) && Forest(after) && x in items && d in items && x in after && d in after
    requires prior <= items[x].path && !(prior <= items[d].path) && after[d].path == items[d].path
    ensures !(items[x].path <= items[d].path) && !(after[x].path <= after[d].path)
  {
    OnPathIsPrefix(items, x, d);
    OnPathIsPrefix(after, x, d);
  }

  lemma PrefixTails(a: Path, b: Path, m: nat, top: Path)
    requires m <= |a| && m <= |b| && a[..m] == b[..m]
    ensures a <= b <==> top + a[m..] <= top + b[m..]
  {
    if a <= b {
      assert forall i | 0 <= i < |a[m..]| :: a[m..][i] == b[m..][i];
    }
    if top + a[m..] <= top + b[m..] {
      forall i | 0 <= i < |a| ensures i < |b| && a[i] == b[i] {
        if i < m {
          assert a[..m][i] == b[..m][i];
        } else {
          assert |a| <= |b|;
          assert (top + a[m..])[|top| + i - m] == (top + b[m..])[|top| + i - m];
        }
      }
    }
  }

  /* ---------- inserts and deletes ---------- */

  /** A new item under an existing parent of its project keeps the forest, given the trigger's check. */
  lemma InsertKeepsForest(items: Table, id: Id, it: Item)
    requires Forest(items) && id !in items
    requires it.parent.Some? ==> it.parent.value in items && items[it.parent.value].project == it.project
    requires it.path == ParentPath(items, it.parent) + [id] && |it.path| <= MAX_DEPTH
    ensures Forest(items[id := it])
  {
    var after := items[id := it];
    var top := ParentPath(items, it.parent);
    if it.parent.Some? { assert Rooted(items, it.parent.value); }
    assert PathCheck(id, it.parent, it.path);
    forall k | 0 <= k < |it.path|
      ensures it.path[k] in after && after[it.path[k]].path == it.path[..k + 1]
              && after[it.path[k]].project == it.project
    {
      if k < |top| {
        assert it.path[k] == top[k];
        assert it.path[..k + 1] == top[..k + 1];
      } else {
        assert it.path[..k + 1] == it.path;
      }
    }
    forall d | d in items ensures Rooted(after, d) {
      assert Rooted(items, d);
      assert after[d] == items[d];
    }
    assert Rooted(after, id);
  }

  /** The next item down a path is a child of the one above it. */
  lemma ParentOnPath(items: Table, d: Id, k: nat)
    requires Forest(items) && d in items && k + 1 < |items[d].path|
    ensures items[d].path[k + 1] in items && items[items[d].path[k + 1]].parent == Some(items[d].path[k])
  {
    assert Rooted(items, d);
    assert Rooted(items, items[d].path[k + 1]);
  }

  /** DELETE FROM item WHERE id = $1. */
  function Removed(items: Table, id: Id): (r: Table)
    ensures r.Keys == items.Keys - {id}
  {
    map d | d in items && d != id :: items[d]
  }

  /** Removing a childless item keeps the forest. */
  lemma DeleteKeepsForest(items: Table, id: Id)
    requires Forest(items) && id in items
    requires forall d | d in items :: items[d].parent != Some(id)
    ensures Forest(Removed(items, id))
    ensures forall d | d in items && d != id :: id !in items[d].path
  {
    forall d | d in items && d != id
      ensures id !in items[d].path
    {
      assert Rooted(items, d);
      if id in items[d].path {
        var k :| 0 <= k < |items[d].path| && items[d].path[k] == id;
        ParentOnPath(items, d, k);
      }
    }
    var after := Removed(items, id);
    forall d | d in after
      ensures Rooted(after, d)
    {
      assert Rooted(items, d);
    }
  }
}
