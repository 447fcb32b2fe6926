/**
 What a mutation does to each table, said column by column: which mutations are refused and why, and
 what every kind of change writes (the switch in flush and its helpers, internal/store/mutate.go).
 */
module Outcomes {
  import opened Wrappers
  import opened Uuids
  import opened Paths
  import opened Items
  import opened Changes
  import opened UnitOfWork
  import R = Rollups
  import RL = RankList
  import K = RankKeys

  /* ---------- refusals ---------- */

  lemma OpNeverConflicts(p: Progress, id: Id, op: Op, changeSeq: nat)
    ensures ApplyOp(p, id, op, changeSeq) != Err(VersionConflict)
    ensures ApplyOp(p, id, op, changeSeq) != Err(EmptyMutation)
    ensures ApplyOp(p, id, op, changeSeq) != Err(NoEvents)
  {
    hide RL.Append, RL.Move, MoveAllowed, TriggerAccepts, Referenced, LinkRefused, PathCheck;
  }

  lemma {:induction false} AllNeverConflict(db: Db, changes: seq<Change>, k: nat)
    requires k <= |changes|
    ensures ApplyAll(db, changes, k) != Err(VersionConflict)
    ensures ApplyAll(db, changes, k) != Err(EmptyMutation)
    ensures ApplyAll(db, changes, k) != Err(NoEvents)
  {
    hide ApplyOp, ItemSeq;
    if k > 0 {
      AllNeverConflict(db, changes, k - 1);
      if ApplyAll(db, changes, k - 1).Ok? {
        NextStep(db, changes, k - 1);
        OpNeverConflicts(ApplyAll(db, changes, k - 1).value, changes[k - 1].itemId, changes[k - 1].op,
                         StampOf(db, changes, k - 1));
        hide ApplyAll;
      }
    }
  }

  /** The refusals that come before any change, each with its exact condition. */
  lemma RefusedIff(db: Db, changes: seq<Change>, expected: map<Id, int>)
    ensures Mutated(db, changes, expected) == Err(EmptyMutation) <==> changes == []
    ensures Mutated(db, changes, expected) == Err(NoEvents)
       <==> changes != [] && exists i :: 0 <= i < |changes| && changes[i].events == []
    ensures Mutated(db, changes, expected) == Err(VersionConflict)
       <==> && changes != [] && (forall i | 0 <= i < |changes| :: changes[i].events != [])
            && exists id :: id in expected
                            && (id !in db.items || db.items[id].deleted || db.items[id].version != expected[id])
  {
    AllNeverConflict(db, changes, |changes|);
    hide ApplyAll, Refreshed, EventRows, Recomputed;
  }

  /* ---------- what each kind of change writes ---------- */

  /** A row keeps everything but its version, which does not fall (a respread raises it). */
  ghost predicate OnlyVersion(before: Item, after: Item) {
    after.version >= before.version && after == before.(version := after.version)
  }

  /** Tables that no change of an item's row touches. */
  ghost predicate RestKept(p: Progress, q: Progress) {
    && q.db.links == p.db.links && q.db.comments == p.db.comments
    && q.db.counter == p.db.counter && q.db.events == p.db.events
  }

  /** A new row stands under its parent with the columns given, live, at version 1. */
  lemma InsertWrites(p: Progress, id: Id, op: Op, changeSeq: nat)
    requires op.Insert? && ApplyOp(p, id, op, changeSeq).Ok?
    ensures var q := ApplyOp(p, id, op, changeSeq).value;
            && id !in p.db.items && q.db.items.Keys == p.db.items.Keys + {id}
            && RestKept(p, q) && q.db.cache == p.db.cache
            && var it := q.db.items[id];
            && it.project == op.project && it.parent == op.parent && it.category == op.category
            && it.points == op.points && it.start == op.start && it.due == op.due
            && !it.deleted && it.version == 1 && it.changeSeq == changeSeq
            && it.path == (if op.parent.None? then [] else p.db.items[op.parent.value].path) + [id]
            && forall d | d in p.db.items :: OnlyVersion(p.db.items[d], q.db.items[d])
  {
    hide RL.Append;
  }

  /** When an insert is refused. */
  lemma InsertFailsIff(p: Progress, id: Id, op: Op, changeSeq: nat)
    requires op.Insert? && Forest(p.db.items)
    ensures ApplyOp(p, id, op, changeSeq).Err? <==>
            || id in p.db.items
            || (op.parent.Some? && op.parent.value !in p.db.items)
            || (op.parent.Some? && p.db.items[op.parent.value].project != op.project)
            || (op.parent.Some? && |p.db.items[op.parent.value].path| >= 8)
            || RL.Append(RowsOf(p.db, op.project), id).Err?
  {
    hide RL.Append;
    if op.parent.Some? ==> op.parent.value in p.db.items { NewPathFits(p.db.items, id, op.parent); }
    hide Forest, PathCheck, ParentPath, WithRanks;
  }

  lemma NewPathFits(items: Table, id: Id, parent: Option<Id>)
    requires Forest(items) && (parent.Some? ==> parent.value in items)
    ensures PathCheck(id, parent, ParentPath(items, parent) + [id])
       <==> parent.None? || |items[parent.value].path| < 8
  {
    if parent.Some? { assert Rooted(items, parent.value); }
  }

  /** An update writes exactly the columns it was given. */
  lemma UpdateWrites(p: Progress, id: Id, op: Op, changeSeq: nat)
    requires op.Update?
    ensures ApplyOp(p, id, op, changeSeq).Err? <==> id !in p.db.items
    ensures id in p.db.items ==>
              var q := ApplyOp(p, id, op, changeSeq).value;
              && q.db.items.Keys == p.db.items.Keys && RestKept(p, q)
              && q.db.cache == p.db.cache && q.db.ranks == p.db.ranks
              && (forall d | d in p.db.items && d != id :: q.db.items[d] == p.db.items[d])
              && var was, it := p.db.items[id], q.db.items[id];
              && it.category == (if op.newCategory.Some? then op.newCategory.value else was.category)
              && it.points == (if op.setPoints.Some? then op.setPoints.value else was.points)
              && it.start == (if op.setStart.Some? then op.setStart.value else was.start)
              && it.due == (if op.setDue.Some? then op.setDue.value else was.due)
              && it.project == was.project && it.parent == was.parent
              && it.path == was.path && it.deleted == was.deleted
              && it.version == was.version + 1 && it.changeSeq == changeSeq
  {
  }

  /** A soft delete marks the row, once. */
  lemma SoftDeleteWrites(p: Progress, id: Id, changeSeq: nat)
    ensures var r := ApplyOp(p, id, SoftDelete, changeSeq);
            && (r.Err? <==> id !in p.db.items || p.db.items[id].deleted)
            && (r.Ok? ==>
                  var q := r.value; var was, it := p.db.items[id], q.db.items[id];
                  && q.db.items.Keys == p.db.items.Keys && RestKept(p, q) && q.db.cache == p.db.cache
                  && q.db.ranks == p.db.ranks
                  && (forall d | d in p.db.items && d != id :: q.db.items[d] == p.db.items[d])
                  && it.deleted && it == was.(deleted := true, version := was.version + 1, changeSeq := changeSeq))
  {
  }

  /** A hard delete removes the row, unless something still refers to it. */
  lemma HardDeleteWrites(p: Progress, id: Id, changeSeq: nat)
    ensures var r := ApplyOp(p, id, HardDelete, changeSeq);
            && (r.Err? <==>
                || id !in p.db.items
                || (exists d :: d in p.db.items && p.db.items[d].parent == Some(id))
                || (exists l :: l in p.db.links && (p.db.links[l].from == id || p.db.links[l].to == id))
                || (exists c :: c in p.db.comments && p.db.comments[c].itemId == id))
            && (r.Ok? ==>
                  var q := r.value;
                  && q.db.items.Keys == p.db.items.Keys - {id} && RestKept(p, q)
                  && (forall d | d in q.db.items :: q.db.items[d] == p.db.items[d])
                  && q.db.cache.Keys == p.db.cache.Keys - {id}
                  && forall d | d in q.db.cache :: q.db.cache[d] == p.db.cache[d])
  {
    hide RL.Without;
  }

  /** What a link or comment change does to the item it is about: a version and a stamp. */
  ghost predicate OnlyStamped(p: Progress, q: Progress, id: Id, changeSeq: nat) {
    && q.db.items.Keys == p.db.items.Keys && q.db.cache == p.db.cache && q.db.ranks == p.db.ranks
    && q.db.counter == p.db.counter && q.db.events == p.db.events
    && (forall d | d in p.db.items && d != id :: q.db.items[d] == p.db.items[d])
    && (id in p.db.items ==>
          q.db.items[id] == p.db.items[id].(version := p.db.items[id].version + 1, changeSeq := changeSeq))
  }

  /** A link is added from the item to another, once per kind. */
  lemma LinkWrites(p: Progress, id: Id, link: Id, to: Id, kind: string, changeSeq: nat)
    ensures var r := ApplyOp(p, id, AddLink(link, to, kind), changeSeq);
            && (r.Err? <==>
                || link in p.db.links || id !in p.db.items || to !in p.db.items || id == to
                || kind !in {"blocks", "duplicates", "relates", "implements", "discovered_from"}
                || exists l :: l in p.db.links && p.db.links[l].from == id && p.db.links[l].to == to
                               && p.db.links[l].kind == kind)
            && (r.Ok? ==>
                  var q := r.value;
                  && OnlyStamped(p, q, id, changeSeq) && q.db.comments == p.db.comments
                  && q.db.links.Keys == p.db.links.Keys + {link}
                  && q.db.links[link].from == id && q.db.links[link].to == to && q.db.links[link].kind == kind
                  && forall l | l in p.db.links :: q.db.links[l] == p.db.links[l])
  {
    forall l | l in p.db.links
      ensures p.db.links[l] == Link(id, to, kind)
         <==> p.db.links[l].from == id && p.db.links[l].to == to && p.db.links[l].kind == kind
    {
    }
  }

  /** A link is taken away by its own id, whether it is there or not. */
  lemma UnlinkWrites(p: Progress, id: Id, link: Id, changeSeq: nat)
    ensures var r := ApplyOp(p, id, DropLink(link), changeSeq);
            && r.Ok? && OnlyStamped(p, r.value, id, changeSeq) && r.value.db.comments == p.db.comments
            && r.value.db.links.Keys == p.db.links.Keys - {link}
            && forall l | l in r.value.db.links :: r.value.db.links[l] == p.db.links[l]
  {
  }

  /** A comment of the item that is not deleted. */
  predicate LiveComment(p: Progress, id: Id, comment: Id) {
    comment in p.db.comments && p.db.comments[comment].itemId == id && !p.db.comments[comment].deleted
  }

  /** A comment is added live; the others stay. */
  lemma CommentWrites(p: Progress, id: Id, comment: Id, changeSeq: nat)
    ensures var r := ApplyOp(p, id, AddComment(comment), changeSeq);
            && (r.Err? <==> comment in p.db.comments || id !in p.db.items)
            && (r.Ok? ==>
                  var q := r.value;
                  && OnlyStamped(p, q, id, changeSeq) && q.db.links == p.db.links
                  && q.db.comments.Keys == p.db.comments.Keys + {comment} && LiveComment(q, id, comment)
                  && forall c | c in p.db.comments :: q.db.comments[c] == p.db.comments[c])
  {
  }

  /** Only a live comment of the item can be edited or deleted; an edit leaves the table's rows, a delete marks one. */
  lemma CommentEditWrites(p: Progress, id: Id, comment: Id, changeSeq: nat)
    ensures var r := ApplyOp(p, id, EditComment(comment), changeSeq);
            && (r.Err? <==> !LiveComment(p, id, comment))
            && (r.Ok? ==> OnlyStamped(p, r.value, id, changeSeq) && r.value.db.links == p.db.links
                          && r.value.db.comments == p.db.comments)
  {
  }

  lemma CommentDeleteWrites(p: Progress, id: Id, comment: Id, changeSeq: nat)
    ensures var r := ApplyOp(p, id, DropComment(comment), changeSeq);
            && (r.Err? <==> !LiveComment(p, id, comment))
            && (r.Ok? ==>
                  var q := r.value;
                  && OnlyStamped(p, q, id, changeSeq) && q.db.links == p.db.links
                  && q.db.comments.Keys == p.db.comments.Keys
                  && q.db.comments[comment].deleted && q.db.comments[comment].itemId == id
                  && forall c | c in p.db.comments && c != comment :: q.db.comments[c] == p.db.comments[c])
  {
  }

  /* ---------- moves ---------- */

  /** The height of a subtree is what its deepest item needs. */
  lemma HeightIff(items: Table, id: Id, top: nat)
    requires Forest(items) && id in items
    ensures top + Height(items, items[id].path) <= 8 <==>
            forall d | d in items && id in items[d].path :: top + |items[d].path| - |items[id].path| + 1 <= 8
  {
    forall d | d in items
      ensures id in items[d].path ==> |items[d].path| - |items[id].path| + 1 <= Height(items, items[id].path)
    {
      OnPathIsPrefix(items, id, d);
      if id in items[d].path { HeightBounds(items, items[id].path, d); }
    }
    var d := Deepest(items, id);
    OnPathIsPrefix(items, id, d);
    hide Forest, Height;
  }

  /**
   The tests before a move: the new parent is live, in the same project and not at or below the item,
   and no moved item ends deeper than 8.
   */
  lemma MoveAllowedIff(items: Table, id: Id, newParent: Option<Id>)
    requires Forest(items) && id in items
    ensures MoveAllowed(items, id, newParent) <==>
            && (newParent.Some? ==>
                  && newParent.value in items && items[newParent.value].project == items[id].project
                  && !items[newParent.value].deleted && id !in items[newParent.value].path)
            && forall d | d in items && id in items[d].path ::
                 (if newParent.Some? && newParent.value in items then |items[newParent.value].path| else 0)
                 + |items[d].path| - |items[id].path| + 1 <= 8
  {
    HeightIff(items, id, if newParent.Some? && newParent.value in items then |items[newParent.value].path| else 0);
    if newParent.Some? && newParent.value in items { OnPathIsPrefix(items, id, newParent.value); }
    hide Forest, Height;
  }

  /** Some item of the subtree reaches its height. */
  lemma Deepest(items: Table, id: Id) returns (d: Id)
    requires id in items
    ensures d in items && items[id].path <= items[d].path
    ensures |items[d].path| - |items[id].path| + 1 == Height(items, items[id].path)
  {
    var prior := items[id].path;
    var levels := set e | e in items && prior <= items[e].path :: |items[e].path|;
    assert |items[id].path| in levels;
    d :| d in items && prior <= items[d].path && |items[d].path| == MaxOf(levels);
  }

  /** What the subtree statement does to each row. */
  lemma MovedRows(items: Table, id: Id, newParent: Option<Id>, top: Path, changeSeq: nat, d: Id)
    requires Forest(items) && id in items && d in items && items[id].path != []
    ensures var after := ReparentRows(items, id, newParent, top, items[id].path, changeSeq);
            && after.Keys == items.Keys
            && (id !in items[d].path ==> after[d] == items[d])
            && (id in items[d].path ==>
                  && after[d].path == top + items[d].path[|items[id].path| - 1..]
                  && after[d].parent == (if d == id then newParent else items[d].parent)
                  && after[d].changeSeq == changeSeq && after[d].version == items[d].version + 1
                  && after[d] == items[d].(path := after[d].path, parent := after[d].parent,
                                           changeSeq := changeSeq, version := after[d].version))
  {
    OnPathIsPrefix(items, id, d);
    hide Forest;
  }

  /** The rows after a whole move: those of the statement, with versions raised by respreads. */
  lemma MoveItems(p: Progress, id: Id, op: Op, changeSeq: nat)
    requires op.Reparent? && ApplyOp(p, id, op, changeSeq).Ok?
    ensures id in p.db.items && p.db.items[id].path != []
    ensures op.newParent.Some? ==> op.newParent.value in p.db.items
    ensures var q := ApplyOp(p, id, op, changeSeq).value; var items := p.db.items;
            var top := if op.newParent.None? then [] else items[op.newParent.value].path;
            var after := ReparentRows(items, id, op.newParent, top, items[id].path, changeSeq);
            && RestKept(p, q) && q.db.cache == p.db.cache && q.db.items.Keys == after.Keys == items.Keys
            && forall d | d in after :: OnlyVersion(after[d], q.db.items[d])
  {
    hide RL.Move, MoveAllowed, TriggerAccepts, MovedPaths, ReparentRows;
  }

  /**
   Where a move puts each item: those at or below the moved one under the new parent with their tails,
   all others where they were.
   */
  lemma MoveWrites(p: Progress, id: Id, op: Op, changeSeq: nat, d: Id)
    requires op.Reparent? && Forest(p.db.items) && ApplyOp(p, id, op, changeSeq).Ok? && d in p.db.items
    ensures id in p.db.items && (op.newParent.Some? ==> op.newParent.value in p.db.items)
    ensures var q := ApplyOp(p, id, op, changeSeq).value; var items := p.db.items;
            var top := if op.newParent.None? then [] else items[op.newParent.value].path;
            && q.db.items.Keys == items.Keys && RestKept(p, q) && q.db.cache == p.db.cache
            && var was, it := items[d], q.db.items[d];
            && (id !in was.path ==> OnlyVersion(was, it))
            && (id in was.path ==>
                  && it.path == top + was.path[|items[id].path| - 1..]
                  && it.parent == (if d == id then op.newParent else was.parent)
                  && it.changeSeq == changeSeq && it.version > was.version
                  && it == was.(path := it.path, parent := it.parent, changeSeq := changeSeq, version := it.version))
  {
    MoveItems(p, id, op, changeSeq);
    hide ApplyOp, ReparentRows, Forest;
    var items := p.db.items;
    var top := if op.newParent.None? then [] else items[op.newParent.value].path;
    MovedRows(items, id, op.newParent, top, changeSeq, d);
    assert d in ReparentRows(items, id, op.newParent, top, items[id].path, changeSeq);
  }

  /** A move with a rank that goes through puts the item where the rank list says. */
  lemma MoveRanks(p: Progress, id: Id, op: Op, changeSeq: nat)
    requires op.Reparent? && ApplyOp(p, id, op, changeSeq).Ok?
    ensures id in p.db.items
    ensures var q := ApplyOp(p, id, op, changeSeq).value; var project := p.db.items[id].project;
            && (!op.setRank ==> q.db.ranks == p.db.ranks)
            && (op.setRank ==>
                  var m := RL.Move(RowsOf(p.db, project), id, op.rankAfter, 0);
                  m.Ok? && q.db.ranks == p.db.ranks[project := m.value.rows])
  {
    hide RL.Move, MoveAllowed, TriggerAccepts, MovedPaths, ReparentRows;
  }

  /** Each respread raises the version of every item of the project by one, on top of what an insert writes. */
  lemma InsertVersions(p: Progress, id: Id, op: Op, changeSeq: nat, d: Id)
    requires op.Insert? && ApplyOp(p, id, op, changeSeq).Ok? && d in p.db.items
    ensures var placed := RL.Append(RowsOf(p.db, op.project), id); var q := ApplyOp(p, id, op, changeSeq).value;
            && placed.Ok? && q.db.ranks == p.db.ranks[op.project := placed.value.rows] && d in q.db.items
            && q.db.items[d].version == p.db.items[d].version
                 + if p.db.items[d].project == op.project then placed.value.respreads else 0
  {
    hide RL.Append, PathCheck, ParentPath;
  }

  /** The same for a move, whose subtree also goes up by one. */
  lemma MoveVersions(p: Progress, id: Id, op: Op, changeSeq: nat, d: Id)
    requires op.Reparent? && Forest(p.db.items) && ApplyOp(p, id, op, changeSeq).Ok? && d in p.db.items
    ensures id in p.db.items
    ensures var items, q := p.db.items, ApplyOp(p, id, op, changeSeq).value;
            var moved := RL.Move(RowsOf(p.db, items[id].project), id, op.rankAfter, 0);
            && (op.setRank ==> moved.Ok?) && d in q.db.items
            && q.db.items[d].version == items[d].version + (if id in items[d].path then 1 else 0)
                 + if op.setRank && items[d].project == items[id].project then moved.value.respreads else 0
  {
    hide RL.Move, MoveAllowed, TriggerAccepts, MovedPaths;
    OnPathIsPrefix(p.db.items, id, d);
    hide Forest;
  }

  /* ---------- the event log ---------- */

  /** Change k stamps with the number of the last event that any change of its item registers. */
  lemma StampIsLast(db: Db, changes: seq<Change>, k: nat)
    requires k < |changes| && changes[k].events != []
    ensures exists j :: && k <= j < |changes| && changes[j].itemId == changes[k].itemId && changes[j].events != []
                        && StampOf(db, changes, k) == db.counter + Offset(changes, j + 1)
                        && forall i | j < i < |changes| ::
                             changes[i].itemId != changes[k].itemId || changes[i].events == []
  {
    var j := LastOwn(changes, db.counter, |changes|, k);
    hide ItemSeq;
  }

  lemma {:induction false} LastOwn(changes: seq<Change>, base: nat, n: nat, k: nat) returns (j: nat)
    requires k < n <= |changes| && changes[k].events != []
    ensures k <= j < n && changes[j].itemId == changes[k].itemId && changes[j].events != []
    ensures ItemSeq(changes, base, n, changes[k].itemId) == base + Offset(changes, j + 1)
    ensures forall i | j < i < n :: changes[i].itemId != changes[k].itemId || changes[i].events == []
  {
    if changes[n - 1].itemId == changes[k].itemId && changes[n - 1].events != [] {
      j := n - 1;
    } else {
      j := LastOwn(changes, base, n - 1, k);
    }
  }

  lemma {:induction false} RowsStand(changes: seq<Change>, base: nat, k: nat, j: nat, i: nat)
    requires j < k <= |changes| && i < |changes[j].events|
    ensures |EventRows(changes, base, k)| == Offset(changes, k)
    ensures Offset(changes, j) + i < Offset(changes, k)
    ensures EventRows(changes, base, k)[Offset(changes, j) + i]
         == Event(base + Offset(changes, j) + i + 1, changes[j].itemId, changes[j].events[i])
  {
    EventRowsNumbered(changes, base, k);
    EventRowsNumbered(changes, base, k - 1);
    if j < k - 1 { RowsStand(changes, base, k - 1, j, i); }
  }

  /** The events before change k, counted. */
  lemma {:induction false} OffsetCounts(changes: seq<Change>, k: nat)
    requires k < |changes|
    ensures Offset(changes, 0) == 0 && Offset(changes, k + 1) == Offset(changes, k) + |changes[k].events|
  {
  }

  /**
   A committed mutation appends its events to the log, change by change in order and each about the
   item of its change; nothing that was there is altered.
   */
  lemma EventsAreLogged(db: Db, changes: seq<Change>, expected: map<Id, int>, j: nat, i: nat)
    requires Sound(db) && Mutated(db, changes, expected).Ok? && j < |changes| && i < |changes[j].events|
    ensures var log, at := Mutated(db, changes, expected).value.events, |db.events| + Offset(changes, j) + i;
            && |log| == |db.events| + Offset(changes, |changes|) && log[..|db.events|] == db.events
            && at < |log| && log[at].itemId == changes[j].itemId && log[at].body == changes[j].events[i]
            && log[at].seqNo == at + 1
  {
    hide Sound, Mutated, ApplyAll, Refreshed, FramedAfter, EventRows, LogSound, Recomputed, VersionsMatch, Offset;
    LogIs(db, changes, expected);
    RowsStand(changes, db.counter, |changes|, j, i);
    LogAppended(db, changes, Mutated(db, changes, expected).value);
  }

  lemma LogIs(db: Db, changes: seq<Change>, expected: map<Id, int>)
    requires Sound(db) && Mutated(db, changes, expected).Ok?
    ensures |db.events| == db.counter
    ensures Mutated(db, changes, expected).value.events == db.events + EventRows(changes, db.counter, |changes|)
  {
    Committed(db, changes, expected);
    AllFrame(db, changes, |changes|);
    SoundLog(db);
    hide Sound, Mutated, ApplyAll, Refreshed, EventRows, Recomputed, VersionsMatch, DeletedBefore;
  }

  lemma LogAppended(db: Db, changes: seq<Change>, after: Db)
    requires after.events == db.events + EventRows(changes, db.counter, |changes|)
    ensures after.events[..|db.events|] == db.events
    ensures after.events[|db.events|..] == EventRows(changes, db.counter, |changes|)
  {
    hide EventRows;
  }

  /* ---------- a sound database ---------- */

  /** Where each item of a sound database hangs. */
  lemma SoundTree(db: Db, x: Id)
    requires Sound(db) && x in db.items
    ensures var it := db.items[x];
            && 0 < |it.path| <= 8 && it.path[|it.path| - 1] == x
            && (it.parent.None? ==> it.path == [x])
            && (it.parent.Some? ==>
                  && it.parent.value in db.items && it.parent.value != x
                  && it.path == db.items[it.parent.value].path + [x]
                  && db.items[it.parent.value].project == it.project)
  {
    hide Ranked, CacheCorrect, LogSound;
    TreePlace(db.items, x);
  }

  lemma TreePlace(items: Table, x: Id)
    requires Forest(items) && x in items
    ensures var it := items[x];
            && 0 < |it.path| <= 8 && it.path[|it.path| - 1] == x
            && (it.parent.None? ==> it.path == [x])
            && (it.parent.Some? ==>
                  && it.parent.value in items && it.parent.value != x
                  && it.path == items[it.parent.value].path + [x]
                  && items[it.parent.value].project == it.project)
  {
    assert Rooted(items, x);
    hide Forest;
    if items[x].parent.Some? {
      LabelsAreDistinct(items, x, |items[x].path| - 2, |items[x].path| - 1);
      BelowParent(items, x);
    }
  }

  lemma BelowParent(items: Table, x: Id)
    requires x in items && Rooted(items, x) && items[x].parent.Some?
    ensures |items[x].path| >= 2
    ensures var it, k := items[x], |items[x].path| - 2;
            && it.path[k] == it.parent.value && it.parent.value in items
            && it.path == items[it.parent.value].path + [x] && items[it.parent.value].project == it.project
  {
    var it, k := items[x], |items[x].path| - 2;
    assert items[it.path[k]].path == it.path[..k + 1];
    assert it.path == it.path[..k + 1] + [x];
  }

  /** The ranks of a sound database: each project lists exactly its items, each once, in the order their texts sort. */
  lemma SoundRanks(db: Db, project: Id)
    requires Sound(db)
    ensures var rows := RowsOf(db, project);
            && (forall x :: (exists i :: 0 <= i < |rows| && rows[i].id == x) <==>
                  x in db.items && db.items[x].project == project)
            && forall i, j | 0 <= i < j < |rows| :: rows[i].id != rows[j].id && K.TextLess(rows[i].rank, rows[j].rank)
  {
    hide Forest, CacheCorrect, LogSound, RL.Ascending, K.TextLess;
    RowsAscend(db, project);
    hide Sound, Ranked;
    RanksAscend(RowsOf(db, project));
    forall x ensures x in RL.Ids(RowsOf(db, project)) <==>
                       exists i :: 0 <= i < |RowsOf(db, project)| && RowsOf(db, project)[i].id == x
    {
      ListedIds(RowsOf(db, project), x);
    }
  }

  lemma RanksAscend(rows: seq<RL.Row>)
    requires RL.Ascending(rows)
    ensures forall i, j | 0 <= i < j < |rows| :: rows[i].id != rows[j].id && K.TextLess(rows[i].rank, rows[j].rank)
  {
    hide K.Below, K.Positive, K.TextLess;
    forall i, j | 0 <= i < j < |rows| ensures K.TextLess(rows[i].rank, rows[j].rank) {
      K.BelowSortsFirst(rows[i].rank, rows[j].rank);
    }
  }

  lemma ListedIds(rows: seq<RL.Row>, x: Id)
    ensures x in RL.Ids(rows) <==> exists i :: 0 <= i < |rows| && rows[i].id == x
  {
    if x in RL.Ids(rows) {
      var i :| 0 <= i < |rows| && RL.Ids(rows)[i] == x;
    }
    if i :| 0 <= i < |rows| && rows[i].id == x { assert RL.Ids(rows)[i] == x; }
  }
}
