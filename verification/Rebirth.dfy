/**
 A test on the list of changes alone under which the rollup cache stays right even though an id is
 hard-deleted and inserted again in the same mutation (the hardDeled filter of internal/store/mutate.go).
 */
module Rebirth {
  import opened Wrappers
  import opened Uuids
  import opened Items
  import opened Changes
  import opened UnitOfWork
  import R = Rollups
  import RL = RankList

  /** The parent that a change names for its item. */
  function NamedParent(op: Op): Option<Id> {
    match op
    case Insert(_, parent, _, _, _, _) => parent
    case Reparent(newParent, _, _) => newParent
    case _ => None
  }

  /** Change i deletes an id for good and change j inserts it again. */
  predicate RebornAt(changes: seq<Change>, i: nat, j: nat, x: Id)
    requires i < j < |changes|
  {
    && changes[i].op.HardDelete? && changes[i].itemId == x
    && changes[j].op.Insert? && changes[j].itemId == x
  }

  /** No change after a reinsertion puts anything under the reborn id. */
  predicate LeavesRebornAlone(changes: seq<Change>) {
    forall i, j, k | 0 <= i < j < k < |changes| && RebornAt(changes, i, j, changes[j].itemId) ::
      NamedParent(changes[k].op) != Some(changes[j].itemId)
  }

  /** One change gives a new parent to its own item only, and then the one it names, which exists. */
  ghost predicate ParentsFramed(before: Table, after: Table, id: Id, op: Op) {
    && (forall d | d in after ::
          (d in before && after[d].parent == before[d].parent) || (d == id && after[d].parent == NamedParent(op)))
    && (NamedParent(op).Some? ==> NamedParent(op).value in before)
  }

  lemma InsertParents(p: Progress, id: Id, op: Op, changeSeq: nat)
    requires op.Insert? && ApplyInsert(p, id, op, changeSeq).Ok?
    ensures ParentsFramed(p.db.items, ApplyInsert(p, id, op, changeSeq).value.db.items, id, op)
  {
    hide RL.Append, PathCheck, ParentPath;
  }

  lemma ReparentParents(p: Progress, id: Id, op: Op, changeSeq: nat)
    requires op.Reparent? && ApplyReparent(p, id, op, changeSeq).Ok?
    ensures ParentsFramed(p.db.items, ApplyReparent(p, id, op, changeSeq).value.db.items, id, op)
  {
    hide RL.Move, MoveAllowed, TriggerAccepts, MovedPaths, ParentPath, Rewritten, RowsOf;
    var top, prior := ParentPath(p.db.items, op.newParent), p.db.items[id].path;
    var after := ReparentRows(p.db.items, id, op.newParent, top, prior, changeSeq);
    assert ParentsFramed(p.db.items, after, id, op);
    hide ReparentRows;
  }

  lemma OpParents(p: Progress, id: Id, op: Op, changeSeq: nat)
    requires ApplyOp(p, id, op, changeSeq).Ok?
    ensures ParentsFramed(p.db.items, ApplyOp(p, id, op, changeSeq).value.db.items, id, op)
  {
    hide ApplyInsert, ApplyReparent, Referenced, LinkRefused, RL.Without;
    match op
    case Insert(_, _, _, _, _, _) => InsertParents(p, id, op, changeSeq);
    case Reparent(_, _, _) => ReparentParents(p, id, op, changeSeq);
    case _ =>
  }

  /** A hard delete goes through only for an item without children. */
  lemma DeletedHadNoChild(p: Progress, id: Id)
    requires ApplyHardDelete(p, id).Ok?
    ensures forall d | d in ApplyHardDelete(p, id).value.db.items
            :: ApplyHardDelete(p, id).value.db.items[d].parent != Some(id)
  {
    hide RL.Without;
  }

  ghost predicate Reborn(changes: seq<Change>, k: nat, x: Id)
    requires k <= |changes|
  {
    exists i, j :: 0 <= i < j < k && RebornAt(changes, i, j, x)
  }

  /** What is known of a deleted id after k changes: it is gone or reborn, and nothing hangs under it. */
  ghost predicate ChildlessAfter(changes: seq<Change>, k: nat, x: Id, items: Table)
    requires k <= |changes|
  {
    DeletedBefore(changes, k, x) ==>
      && (x in items ==> Reborn(changes, k, x))
      && forall d | d in items :: items[d].parent != Some(x)
  }

  lemma ChildlessStep(changes: seq<Change>, k: nat, x: Id, stamp: nat, before: Progress, after: Progress)
    requires 0 < k <= |changes| && LeavesRebornAlone(changes) && ChildlessAfter(changes, k - 1, x, before.db.items)
    requires ApplyOp(before, changes[k - 1].itemId, changes[k - 1].op, stamp) == Ok(after)
    ensures ChildlessAfter(changes, k, x, after.db.items)
  {
    var c := changes[k - 1];
    OpParents(before, c.itemId, c.op, stamp);
    OpFrame(before, c.itemId, c.op, stamp);
    DeletedStep(changes, k, x);
    if c.op.HardDelete? && c.itemId == x { DeletedHadNoChild(before, x); }
    hide ApplyOp, ApplyHardDelete;
    if DeletedBefore(changes, k - 1, x) {
      if x in before.db.items {
        var i, j :| 0 <= i < j < k - 1 && RebornAt(changes, i, j, x);
        assert RebornAt(changes, i, j, changes[j].itemId);
        assert NamedParent(c.op) != Some(x);
        assert Reborn(changes, k, x);
      } else if x in after.db.items {
        var i :| 0 <= i < k - 1 && changes[i].op.HardDelete? && changes[i].itemId == x;
        assert RebornAt(changes, i, k - 1, x);
      }
    }
  }

  lemma {:induction false} AllChildless(db: Db, changes: seq<Change>, k: nat, x: Id)
    requires k <= |changes| && ApplyAll(db, changes, k).Ok? && LeavesRebornAlone(changes)
    ensures ChildlessAfter(changes, k, x, ApplyAll(db, changes, k).value.db.items)
  {
    hide ApplyOp, ApplyAll, ChildlessAfter, LeavesRebornAlone, StampOf;
    if k > 0 {
      LastStep(db, changes, k);
      AllChildless(db, changes, k - 1, x);
      var before, after := ApplyAll(db, changes, k - 1).value, ApplyAll(db, changes, k).value;
      ChildlessStep(changes, k, x, StampOf(db, changes, k - 1), before, after);
    } else {
      NothingDeleted(changes, x, ApplyAll(db, changes, 0).value.db.items);
    }
  }

  lemma NothingDeleted(changes: seq<Change>, x: Id, items: Table)
    ensures ChildlessAfter(changes, 0, x, items)
  {
  }

  lemma OwnLabelIsLast(items: Table, x: Id)
    requires Forest(items) && x in items
    ensures items[x].path != [] && items[x].path[|items[x].path| - 1] == x
  {
    assert Rooted(items, x);
  }

  /** Whoever has a descendant has a child. */
  lemma DescendantMeansChild(items: Table, x: Id, d: Id)
    requires Forest(items) && x in items && d in items && d != x && items[x].path <= items[d].path
    ensures exists c :: c in items && items[c].parent == Some(x)
  {
    OwnLabelIsLast(items, x);
    OwnLabelIsLast(items, d);
    hide Forest;
    var k := |items[x].path| - 1;
    assert items[d].path[k] == x;
    assert k + 1 < |items[d].path|;
    ParentOnPath(items, d, k);
  }

  /** An item without children has no live descendants. */
  lemma ChildlessIsLeaf(items: Table, x: Id)
    requires Forest(items) && x in items && forall d | d in items :: items[d].parent != Some(x)
    ensures R.Live(items, x) == map[]
  {
    hide Forest;
    forall d | d in items && d != x ensures !(items[x].path <= items[d].path) {
      if items[x].path <= items[d].path { DescendantMeansChild(items, x, d); }
    }
  }

  /** The list test keeps every rollup right, whatever is deleted and inserted again. */
  lemma CacheRightWithoutAdoption(db: Db, changes: seq<Change>, expected: map<Id, int>)
    requires Sound(db) && Mutated(db, changes, expected).Ok? && LeavesRebornAlone(changes)
    ensures var after := Mutated(db, changes, expected).value; CacheCorrect(after.items, after.cache)
  {
    var after := Mutated(db, changes, expected).value;
    hide ApplyAll, Refreshed, EventRows, Recomputed, CacheCorrect, Mutated, DeletedBefore, R.Live, Tracking, Sound,
         Forest, LeavesRebornAlone;
    Committed(db, changes, expected);
    var p := ApplyAll(db, changes, |changes|).value;
    AllTrack(db, changes, |changes|);
    TrackedForest(p);
    forall x | x in after.items && DeletedBefore(changes, |changes|, x) ensures R.Live(after.items, x) == map[] {
      AllChildless(db, changes, |changes|, x);
      ChildlessIsLeaf(after.items, x);
    }
    MutatedCacheIff(db, changes, expected);
  }

  /** The list without any reinsertion is the simplest that passes. */
  lemma NoRebirthLeavesAlone(changes: seq<Change>)
    requires NoRebirth(changes)
    ensures LeavesRebornAlone(changes)
  {
  }
}
