/** The store as code: Mutate and flush with their loops (internal/store/mutate.go). */
module Store {
  import opened Wrappers
  import opened Uuids
  import opened Paths
  import opened Items
  import opened Changes
  import opened UnitOfWork
  import R = Rollups
  import RL = RankList

  /** What a mutation reports: its block of sequence numbers. */
  datatype Receipt = Receipt(lowest: nat, highest: nat, eventCount: nat)

  /** The events of a mutation, counted change by change. */
  method CountEvents(changes: seq<Change>) returns (n: nat)
    ensures n == EventCount(changes)
  {
    n := 0;
    for ci := 0 to |changes|
      invariant n == Offset(changes, ci)
    {
      n := n + |changes[ci].events|;
    }
  }

  /** Numbers the events in registration order and records each item's highest number. */
  method AssignSeqs(changes: seq<Change>, base: nat) returns (rows: seq<Event>, itemSeq: map<Id, nat>)
    ensures rows == EventRows(changes, base, |changes|)
    ensures forall id :: (if id in itemSeq then itemSeq[id] else 0) == ItemSeq(changes, base, |changes|, id)
  {
    var next := base + 1;
    rows, itemSeq := [], map[];
    for ci := 0 to |changes|
      invariant next == base + Offset(changes, ci) + 1
      invariant rows == EventRows(changes, base, ci)
      invariant forall id :: (if id in itemSeq then itemSeq[id] else 0) == ItemSeq(changes, base, ci, id)
      invariant forall id | id in itemSeq :: itemSeq[id] < next
    {
      var c := changes[ci];
      ghost var before, was := rows, itemSeq;
      for ei := 0 to |c.events|
        invariant next == base + Offset(changes, ci) + ei + 1
        invariant rows == before + RowsFor(c, base + Offset(changes, ci))[..ei]
        invariant itemSeq == if ei == 0 then was else was[c.itemId := next - 1]
        invariant forall id | id in itemSeq :: itemSeq[id] < next
      {
        rows := rows + [Event(next, c.itemId, c.events[ei])];
        if next > (if c.itemId in itemSeq then itemSeq[c.itemId] else 0) {
          itemSeq := itemSeq[c.itemId := next];
        }
        next := next + 1;
      }
      assert RowsFor(c, base + Offset(changes, ci))[..|c.events|] == RowsFor(c, base + Offset(changes, ci));
    }
  }

  /** SELECT max(nlevel(path)) - nlevel($1) + 1 over the subtree. */
  method SubtreeHeight(items: Table, prior: Path) returns (h: int)
    requires exists d :: d in items && prior <= items[d].path
    ensures h == Height(items, prior)
  {
    var deepest := -1;
    var todo := items.Keys;
    while todo != {}
      invariant todo <= items.Keys
      invariant forall d | d in items && d !in todo && prior <= items[d].path :: |items[d].path| <= deepest
      invariant deepest == -1 || exists d :: d in items && prior <= items[d].path && |items[d].path| == deepest
      decreases |todo|
    {
      var d :| d in todo;
      todo := todo - {d};
      if prior <= items[d].path && |items[d].path| > deepest { deepest := |items[d].path|; }
    }
    h := deepest - |prior| + 1;
    HeightIs(items, prior, deepest);
  }

  lemma HeightIs(items: Table, prior: Path, deepest: int)
    requires exists d :: d in items && prior <= items[d].path
    requires forall d | d in items && prior <= items[d].path :: |items[d].path| <= deepest
    requires deepest == -1 || exists d :: d in items && prior <= items[d].path && |items[d].path| == deepest
    ensures Height(items, prior) == deepest - |prior| + 1
  {
    var d :| d in items && prior <= items[d].path;
    if deepest != -1 {
      var e :| e in items && prior <= items[e].path && |items[e].path| == deepest;
      HeightBounds(items, prior, e);
    }
  }

  ghost predicate IsMovedText(items: Table, after: Table, prior: Path, t: string)
    requires items.Keys == after.Keys
  {
    exists d :: d in items && prior <= items[d].path && t == Dotted(after[d].path)
  }

  /** The new path texts of the moved rows, as RETURNING gives them. */
  method MovedTexts(items: Table, after: Table, prior: Path) returns (texts: seq<string>)
    requires items.Keys == after.Keys && prior != []
    requires forall d | d in items && prior <= items[d].path :: after[d].path != []
    ensures R.TextsOf([Dotted(prior)] + texts, MovedPaths(items, after, prior))
  {
    hide Dotted;
    texts := [];
    var todo := items.Keys;
    while todo != {}
      invariant todo <= items.Keys
      invariant forall i | 0 <= i < |texts| :: IsMovedText(items, after, prior, texts[i])
      invariant forall d | d in items && d !in todo && prior <= items[d].path :: Dotted(after[d].path) in texts
      decreases |todo|
    {
      var d :| d in todo;
      todo := todo - {d};
      if prior <= items[d].path {
        assert IsMovedText(items, after, prior, Dotted(after[d].path));
        texts := texts + [Dotted(after[d].path)];
      }
    }
    AllMovedTexts(items, after, prior, texts);
  }

  lemma AllMovedTexts(items: Table, after: Table, prior: Path, texts: seq<string>)
    requires items.Keys == after.Keys && prior != []
    requires forall d | d in items && prior <= items[d].path :: after[d].path != []
    requires forall i | 0 <= i < |texts| :: IsMovedText(items, after, prior, texts[i])
    requires forall d | d in items && prior <= items[d].path :: Dotted(after[d].path) in texts
    ensures R.TextsOf([Dotted(prior)] + texts, MovedPaths(items, after, prior))
  {
    hide Dotted;
    var all := [Dotted(prior)] + texts;
    forall i | 0 <= i < |all|
      ensures R.IsTextOf(all[i], MovedPaths(items, after, prior))
    {
      if i == 0 {
        assert prior in MovedPaths(items, after, prior) && all[0] == Dotted(prior);
      } else {
        assert IsMovedText(items, after, prior, texts[i - 1]);
        var d :| d in items && prior <= items[d].path && texts[i - 1] == Dotted(after[d].path);
        assert after[d].path in MovedPaths(items, after, prior) && all[i] == Dotted(after[d].path);
      }
    }
    forall p | p in MovedPaths(items, after, prior) ensures p != [] && Dotted(p) in all {
      if p == prior {
        assert all[0] == Dotted(p);
      } else {
        var d :| d in items && prior <= items[d].path && after[d].path == p;
        var i :| 0 <= i < |texts| && texts[i] == Dotted(after[d].path);
        assert all[i + 1] == Dotted(p);
      }
    }
  }

  /** The tests of applyReparent, on the dotted texts the code sees. */
  method MoveChecks(items: Table, id: Id, newParent: Option<Id>) returns (ok: bool)
    requires Forest(items) && id in items && (newParent.Some? ==> newParent.value in items)
    ensures ok <==> MoveAllowed(items, id, newParent)
  {
    assert Rooted(items, id);
    var newParentPath := "";
    if newParent.Some? {
      assert Rooted(items, newParent.value);
      var parent := items[newParent.value];
      if parent.project != items[id].project || parent.deleted { return false; }
      TextTestIsAncestry(parent.path, items[id].path);
      if IsDescendantOrSelf(Dotted(parent.path), Dotted(items[id].path)) { return false; }
      newParentPath := Dotted(parent.path);
      DotsGiveDepth(parent.path);
    }
    var height := SubtreeHeight(items, items[id].path);
    var depth := 0;
    if newParentPath != "" { depth := CountDots(newParentPath) + 1; }
    ok := depth + height <= MAX_DEPTH;
  }

  /** applyReparent up to the subtree rewrite. */
  method MoveSubtree(tx: Db, id: Id, op: Op, changeSeq: nat, ghost p: Progress)
      returns (r: Result<Db, Error>, texts: seq<string>)
    requires op.Reparent? && Tracking(p) && p.db == tx
    ensures Did(p, ApplyReparent(p, id, op.(setRank := false), changeSeq), r, texts)
  {
    TrackedForest(p);
    hide Tracking, R.TextsOf;
    if id !in tx.items { return Err(NotFound), []; }
    if op.newParent.Some? && op.newParent.value !in tx.items { return Err(NotFound), []; }
    var ok := MoveChecks(tx.items, id, op.newParent);
    hide MoveAllowed;
    if !ok { return Err(InvalidMove), []; }
    var prior, top := tx.items[id].path, ParentPath(tx.items, op.newParent);
    MoveKeepsForest(tx.items, id, op.newParent, changeSeq);
    var after := ReparentRows(tx.items, id, op.newParent, top, prior, changeSeq);
    assert forall d | d in after :: Rooted(after, d) && after[d].path != [];
    hide Forest, TriggerAccepts, ReparentRows, MovedPaths, Dotted, ParentPath, Rooted;
    ghost var q := p.(db := p.db.(items := after), touched := p.touched + MovedPaths(tx.items, after, prior));
    assert ApplyReparent(p, id, op.(setRank := false), changeSeq) == Ok(q);
    hide ApplyReparent, Did;
    var rest := MovedTexts(tx.items, after, prior);
    texts := [Dotted(prior)] + rest;
    TouchedMany(p, q, MovedPaths(tx.items, after, prior), texts);
    r := Ok(tx.(items := after));
  }

  /** applyReparent: the subtree, then the rank of the moved item. */
  method ReparentRow(tx: Db, id: Id, op: Op, changeSeq: nat, ghost p: Progress)
      returns (r: Result<Db, Error>, texts: seq<string>)
    requires op.Reparent? && Tracking(p) && p.db == tx
    ensures Did(p, ApplyReparent(p, id, op, changeSeq), r, texts)
  {
    hide MoveAllowed, TriggerAccepts, ParentPath, ReparentRows, MovedPaths, R.TextsOf, RL.Move, Ranked, Tracking;
    r, texts := MoveSubtree(tx, id, op, changeSeq, p);
    if r.Err? || !op.setRank { return; }
    var project := tx.items[id].project;
    ProjectAscends(p, project);
    var placed := RL.MoveRank(RowsOf(tx, project), id, op.rankAfter);
    if placed.Err? {
      return Err(if placed.error == RL.InvalidMove then InvalidMove else Rank(placed.error)), [];
    }
    r := Ok(WithRanks(r.value, project, placed.value));
  }

  lemma ProjectAscends(p: Progress, project: Id)
    requires Tracking(p)
    ensures RL.Ascending(RowsOf(p.db, project))
  {
  }

  lemma TextsAppend(a: seq<string>, b: seq<string>, left: set<Path>, right: set<Path>)
    requires R.TextsOf(a, left) && R.TextsOf(b, right)
    ensures R.TextsOf(a + b, left + right)
  {
    hide Dotted;
    var texts, touched := a + b, left + right;
    forall i | 0 <= i < |texts| ensures R.IsTextOf(texts[i], touched) {
      if i < |a| {
        assert texts[i] == a[i] && R.IsTextOf(a[i], left);
      } else {
        assert texts[i] == b[i - |a|] && R.IsTextOf(b[i - |a|], right);
      }
    }
    forall p | p in touched ensures p != [] && Dotted(p) in texts {
      if p in left { assert Dotted(p) in a; } else { assert Dotted(p) in b; }
    }
  }

  lemma OneText(p: Path)
    requires p != []
    ensures R.TextsOf([Dotted(p)], {p})
  {
    hide Dotted;
  }

  lemma NoTexts()
    ensures R.TextsOf([], {})
  {
  }

  lemma ItemPathNonEmpty(p: Progress, id: Id)
    requires Tracking(p) && id in p.db.items
    ensures p.db.items[id].path != []
  {
    assert Rooted(p.db.items, id);
  }

  /** What a change did, as the code sees it: the new tables and the touched texts. */
  ghost predicate Did(p: Progress, applied: Result<Progress, Error>, r: Result<Db, Error>, texts: seq<string>) {
    match applied
    case Err(e) => r == Err(e)
    case Ok(q) => r == Ok(q.db) && exists touched :: q.touched == p.touched + touched && R.TextsOf(texts, touched)
  }

  lemma TouchedMany(p: Progress, q: Progress, touched: set<Path>, texts: seq<string>)
    requires q.touched == p.touched + touched && R.TextsOf(texts, touched)
    ensures Did(p, Ok(q), Ok(q.db), texts)
  {
  }

  lemma TouchedOne(p: Progress, q: Progress, path: Path)
    requires q.touched == p.touched + {path} && path != []
    ensures Did(p, Ok(q), Ok(q.db), [Dotted(path)])
  {
    hide Dotted, R.TextsOf;
    OneText(path);
  }

  /** applyInsert: the parent, the path, a rank at the end of the project, the row. */
  method InsertRow(tx: Db, id: Id, op: Op, changeSeq: nat, ghost p: Progress)
      returns (r: Result<Db, Error>, texts: seq<string>)
    requires op.Insert? && Tracking(p) && p.db == tx
    ensures Did(p, ApplyInsert(p, id, op, changeSeq), r, texts)
  {
    ProjectAscends(p, op.project);
    hide Tracking, RL.Append, Dotted, R.TextsOf, RL.Ascending;
    if op.parent.Some? {
      if op.parent.value !in tx.items { return Err(NotFound), []; }
      if tx.items[op.parent.value].project != op.project { return Err(OtherProject), []; }
    }
    var labels := ParentPath(tx.items, op.parent) + [id];
    var placed := RL.RankForNewItem(RowsOf(tx, op.project), id);
    if placed.Err? { return Err(Rank(placed.error)), []; }
    if id in tx.items || !PathCheck(id, op.parent, labels) { return Err(Constraint), []; }
    var db := WithRanks(tx, op.project, placed.value);
    var it := Item(op.project, op.parent, labels, op.category, op.points, op.start, op.due, false, 1, changeSeq);
    r, texts := Ok(db.(items := db.items[id := it])), [Dotted(labels)];
    ghost var q := ApplyInsert(p, id, op, changeSeq).value;
    assert r.value == q.db && q.touched == p.touched + {labels};
    hide Did, WithRanks, ApplyInsert, ParentPath, PathCheck;
    TouchedOne(p, q, labels);
  }

  method UpdateRow(tx: Db, id: Id, op: Op, changeSeq: nat, ghost p: Progress)
      returns (r: Result<Db, Error>, texts: seq<string>)
    requires Tracking(p) && p.db == tx && op.Update?
    ensures Did(p, ApplyUpdate(p, id, op, changeSeq), r, texts)
  {
    hide R.TextsOf, Patched, Tracking;
    if id !in tx.items { return Err(NotFound), []; }
    ItemPathNonEmpty(p, id);
    var it := Patched(tx.items[id], op, changeSeq);
    PatchedPath(tx.items[id], op, changeSeq);
    TouchedOne(p, WithRow(p, id, it), it.path);
    hide Did;
    r, texts := Ok(tx.(items := tx.items[id := it])), [Dotted(it.path)];
  }

  lemma PatchedPath(it: Item, op: Op, changeSeq: nat)
    requires op.Update?
    ensures Patched(it, op, changeSeq).path == it.path
  {
  }

  method SoftDeleteRow(tx: Db, id: Id, changeSeq: nat, ghost p: Progress)
      returns (r: Result<Db, Error>, texts: seq<string>)
    requires Tracking(p) && p.db == tx
    ensures Did(p, ApplySoftDelete(p, id, changeSeq), r, texts)
  {
    hide R.TextsOf, Tracking;
    if id !in tx.items || tx.items[id].deleted { return Err(NotFound), []; }
    ItemPathNonEmpty(p, id);
    var it := tx.items[id].(deleted := true, changeSeq := changeSeq, version := tx.items[id].version + 1);
    TouchedOne(p, WithRow(p, id, it), it.path);
    hide Did;
    r, texts := Ok(tx.(items := tx.items[id := it])), [Dotted(it.path)];
  }

  method HardDeleteRow(tx: Db, id: Id, ghost p: Progress) returns (r: Result<Db, Error>, texts: seq<string>)
    requires Tracking(p) && p.db == tx
    ensures Did(p, ApplyHardDelete(p, id), r, texts)
  {
    hide R.TextsOf, Tracking, RL.Without, Referenced;
    if id !in tx.items { return Err(NotFound), []; }
    ItemPathNonEmpty(p, id);
    if Referenced(tx, id) { return Err(Constraint), []; }
    var it := tx.items[id];
    var rows := RL.Without(RowsOf(tx, it.project), id);
    r := Ok(tx.(items := Removed(tx.items, id), cache := tx.cache - {id}, ranks := tx.ranks[it.project := rows]));
    texts := [Dotted(it.path)];
    TouchedOne(p, ApplyHardDelete(p, id).value, it.path);
  }

  method Attach(tx: Db, id: Id, op: Op, changeSeq: nat, ghost p: Progress)
      returns (r: Result<Db, Error>, texts: seq<string>)
    requires p.db == tx && (op.AddLink? || op.DropLink? || op.AddComment? || op.EditComment? || op.DropComment?)
    ensures Did(p, ApplyOp(p, id, op, changeSeq), r, texts)
  {
    texts := [];
    NoTexts();
    hide R.TextsOf, ApplyAttachment;
    var db := ApplyAttachment(tx, id, op);
    match db {
      case Err(e) => r := Err(e);
      case Ok(done) =>
        var stamped := Stamp(Progress(done, {}, {}, {}), id, changeSeq);
        r := Ok(stamped.db);
        assert p.touched + {} == p.touched;
    }
  }

  method ApplyChange(tx: Db, c: Change, changeSeq: nat, ghost p: Progress)
      returns (r: Result<Db, Error>, texts: seq<string>)
    requires Tracking(p) && p.db == tx
    ensures Did(p, ApplyOp(p, c.itemId, c.op, changeSeq), r, texts)
  {
    hide Tracking, Did, ApplyInsert, ApplyReparent, ApplyUpdate, ApplySoftDelete, ApplyHardDelete, ApplyAttachment;
    match c.op {
      case Insert(_, _, _, _, _, _) =>
        r, texts := InsertRow(tx, c.itemId, c.op, changeSeq, p);
      case Reparent(_, _, _) => r, texts := ReparentRow(tx, c.itemId, c.op, changeSeq, p);
      case Update(_, _, _, _) => r, texts := UpdateRow(tx, c.itemId, c.op, changeSeq, p);
      case SoftDelete => r, texts := SoftDeleteRow(tx, c.itemId, changeSeq, p);
      case HardDelete => r, texts := HardDeleteRow(tx, c.itemId, p);
      case _ => r, texts := Attach(tx, c.itemId, c.op, changeSeq, p);
    }
  }

  /** What flush has gathered when its loop over the changes ends. */
  datatype Gathered = Gathered(tx: Db, touchedPaths: seq<string>, created: seq<Id>, hardDeleted: set<Id>)

  ghost predicate Gathers(g: Gathered, p: Progress) {
    && g.tx == p.db && R.TextsOf(g.touchedPaths, p.touched) && g.hardDeleted == p.hardDeleted
    && forall x :: x in g.created <==> x in p.created
  }

  lemma GatherStep(g: Gathered, h: Gathered, p: Progress, q: Progress, c: Change, changeSeq: nat,
                   r: Result<Db, Error>, texts: seq<string>)
    requires Gathers(g, p) && Did(p, ApplyOp(p, c.itemId, c.op, changeSeq), r, texts)
    requires ApplyOp(p, c.itemId, c.op, changeSeq) == Ok(q) && OpFramed(p, q, c.itemId, c.op)
    requires h == Gathered(q.db, g.touchedPaths + texts, if c.op.Insert? then g.created + [c.itemId] else g.created,
                           if c.op.HardDelete? then g.hardDeleted + {c.itemId} else g.hardDeleted)
    ensures Gathers(h, q)
  {
    hide ApplyOp, R.TextsOf;
    var touched :| q.touched == p.touched + touched && R.TextsOf(texts, touched);
    TextsAppend(g.touchedPaths, texts, p.touched, touched);
  }

  /** One turn of the loop over the changes. */
  method GatherChange(g: Gathered, c: Change, stamp: nat, ghost p: Progress) returns (r: Result<Gathered, Error>)
    requires Tracking(p) && Gathers(g, p)
    ensures match ApplyOp(p, c.itemId, c.op, stamp)
            case Err(e) => r == Err(e)
            case Ok(q) => r.Ok? && Gathers(r.value, q)
  {
    hide ApplyOp, Tracking, Did, Gathers, OpFramed, R.TextsOf;
    GatheredTables(g, p);
    var done, texts := ApplyChange(g.tx, c, stamp, p);
    DidTables(p, ApplyOp(p, c.itemId, c.op, stamp), done, texts);
    if done.Err? { return Err(done.error); }
    var h := Gathered(done.value, g.touchedPaths + texts, if c.op.Insert? then g.created + [c.itemId] else g.created,
                      if c.op.HardDelete? then g.hardDeleted + {c.itemId} else g.hardDeleted);
    OpFrame(p, c.itemId, c.op, stamp);
    GatherStep(g, h, p, ApplyOp(p, c.itemId, c.op, stamp).value, c, stamp, done, texts);
    r := Ok(h);
  }

  lemma NothingGathered(db: Db, changes: seq<Change>)
    ensures ApplyAll(db, changes, 0) == Ok(Progress(db, {}, {}, {}))
    ensures Gathers(Gathered(db, [], [], {}), Progress(db, {}, {}, {}))
  {
    NoTexts();
  }

  /** The loop over the changes. */
  method ApplyChanges(db: Db, changes: seq<Change>, itemSeq: map<Id, nat>) returns (r: Result<Gathered, Error>)
    requires Sound(db)
    requires forall id :: (if id in itemSeq then itemSeq[id] else 0) == ItemSeq(changes, db.counter, |changes|, id)
    ensures match ApplyAll(db, changes, |changes|)
            case Err(e) => r == Err(e)
            case Ok(p) => r.Ok? && Gathers(r.value, p)
  {
    hide ApplyOp, ApplyAll, Sound, Tracking, Gathers, ItemSeq;
    var g := Gathered(db, [], [], {});
    NothingGathered(db, changes);
    for ci := 0 to |changes|
      invariant ApplyAll(db, changes, ci).Ok? && Gathers(g, ApplyAll(db, changes, ci).value)
    {
      var c := changes[ci];
      var stamp := if c.itemId in itemSeq then itemSeq[c.itemId] else 0;
      assert stamp == StampOf(db, changes, ci);
      AllTrack(db, changes, ci);
      NextStep(db, changes, ci);
      var next := GatherChange(g, c, stamp, ApplyAll(db, changes, ci).value);
      if next.Err? {
        AllErr(db, changes, ci + 1, |changes|);
        return Err(next.error);
      }
      g := next.value;
    }
    r := Ok(g);
  }

  lemma GatheredTables(g: Gathered, p: Progress)
    requires Gathers(g, p)
    ensures g.tx == p.db && g.hardDeleted == p.hardDeleted
  {
  }

  lemma DidTables(p: Progress, applied: Result<Progress, Error>, r: Result<Db, Error>, texts: seq<string>)
    requires Did(p, applied, r, texts)
    ensures match applied case Err(e) => r == Err(e) case Ok(q) => r == Ok(q.db)
  {
  }

  /** The first error ends the flush. */
  lemma {:induction false} AllErr(db: Db, changes: seq<Change>, j: nat, k: nat)
    requires j <= k <= |changes| && ApplyAll(db, changes, j).Err?
    ensures ApplyAll(db, changes, k) == ApplyAll(db, changes, j)
  {
    hide ApplyOp;
    if j < k { AllErr(db, changes, j, k - 1); }
  }

  /** Step (e): a zero row for every created item; the foreign key refuses one whose item is gone. */
  method InsertRollupRows(cache: R.Cache, items: Table, created: seq<Id>) returns (r: Result<R.Cache, Error>)
    ensures r.Err? <==> exists x :: x in created && x !in items
    ensures r.Err? ==> r.error == Constraint
    ensures r.Ok? ==> forall x :: x in r.value <==> x in cache || x in created
    ensures r.Ok? ==> forall x | x in r.value :: r.value[x] == Stored(cache, x)
  {
    var rows := cache;
    for i := 0 to |created|
      invariant forall k | 0 <= k < i :: created[k] in items
      invariant forall x :: x in rows <==> x in cache || x in created[..i]
      invariant forall x | x in rows :: rows[x] == Stored(cache, x)
    {
      if created[i] !in items { return Err(Constraint); }
      assert created[..i + 1] == created[..i] + [created[i]];
      if created[i] !in rows { rows := rows[created[i] := R.ZERO]; }
    }
    assert created[..|created|] == created;
    r := Ok(rows);
  }

  /** Step (f): each dirty ancestor that was not hard-deleted, once. */
  method RecomputeRollups(cache: R.Cache, items: Table, dirty: seq<Id>, hardDeleted: set<Id>)
      returns (r: Result<R.Cache, Error>)
    ensures r.Err? <==> exists x :: x in dirty && x !in hardDeleted && x !in items
    ensures r.Err? ==> r.error == Constraint
    ensures r.Ok? ==> forall x :: x in r.value <==> x in cache || (x in dirty && x !in hardDeleted)
    ensures r.Ok? ==> forall x | x in dirty && x !in hardDeleted :: r.value[x] == R.Aggregate(R.Live(items, x))
    ensures r.Ok? ==> forall x | x in cache && (x !in dirty || x in hardDeleted) :: r.value[x] == cache[x]
  {
    hide R.Aggregate, R.Live;
    var rows := cache;
    for i := 0 to |dirty|
      invariant forall k | 0 <= k < i && dirty[k] !in hardDeleted :: dirty[k] in items
      invariant forall x :: x in rows <==> x in cache || (x in dirty[..i] && x !in hardDeleted)
      invariant forall x | x in dirty[..i] && x !in hardDeleted ::
                  x in items && rows[x] == R.Aggregate(R.Live(items, x))
      invariant forall x | x in cache && (x !in dirty[..i] || x in hardDeleted) :: rows[x] == cache[x]
    {
      assert dirty[..i + 1] == dirty[..i] + [dirty[i]];
      if dirty[i] !in hardDeleted {
        if dirty[i] !in items { return Err(Constraint); }
        var rollup := R.ComputeRollup(items, dirty[i]);
        rows := rows[dirty[i] := rollup];
      }
    }
    assert dirty[..|dirty|] == dirty;
    r := Ok(rows);
  }

  method RefreshCache(g: Gathered, ghost p: Progress) returns (r: Result<R.Cache, Error>)
    requires Tracking(p) && Gathers(g, p)
    ensures (exists x :: (x in p.created || Recomputed(p, x)) && x !in p.db.items) ==> r == Err(Constraint)
    ensures !(exists x :: (x in p.created || Recomputed(p, x)) && x !in p.db.items) ==> r == Ok(Refreshed(p))
  {
    hide R.Dirty, R.TextsOf, Forest, Ranked, Fresh, R.Aggregate, R.Live, R.NamedAbove;
    var inserted := InsertRollupRows(g.tx.cache, g.tx.items, g.created);
    if inserted.Err? { return inserted; }
    var dirty := R.DirtyAncestors(g.touchedPaths);
    forall x ensures x in dirty <==> R.Dirty(p.touched, x) { R.NamedAboveIsDirty(g.touchedPaths, p.touched, x); }
    r := RecomputeRollups(inserted.value, g.tx.items, dirty, g.hardDeleted);
    if r.Ok? {
      assert r.value.Keys == Refreshed(p).Keys;
      assert r.value == Refreshed(p);
    }
  }

  lemma FlushedIs(db: Db, changes: seq<Change>, expected: map<Id, int>)
    requires VersionsMatch(db.items, expected)
    ensures ApplyAll(db, changes, |changes|).Err? ==>
              Flushed(db, changes, expected) == Err(ApplyAll(db, changes, |changes|).error)
    ensures ApplyAll(db, changes, |changes|).Ok? ==>
              Flushed(db, changes, expected) == Finish(ApplyAll(db, changes, |changes|).value, changes)
  {
    hide ApplyAll, Finish, VersionsMatch;
  }

  /** One transaction; an error leaves the caller's database as it was. */
  method Flush(db: Db, changes: seq<Change>, expected: map<Id, int>) returns (r: Result<Db, Error>, receipt: Receipt)
    requires Sound(db)
    ensures r == Flushed(db, changes, expected)
    ensures receipt == Receipt(db.counter + 1, db.counter + EventCount(changes), EventCount(changes))
  {
    hide ApplyAll, Sound, Tracking, Refreshed, Recomputed, EventRows, Gathers, ItemSeq, Offset;
    var n := CountEvents(changes);
    var highest := db.counter + n;
    var lowest := highest - n + 1;
    receipt := Receipt(lowest, highest, n);
    if !VersionsMatch(db.items, expected) { return Err(VersionConflict), receipt; }
    FlushedIs(db, changes, expected);
    hide Flushed;
    var rows, itemSeq := AssignSeqs(changes, lowest - 1);
    var applied := ApplyChanges(db, changes, itemSeq);
    if applied.Err? { return Err(applied.error), receipt; }
    ghost var p := ApplyAll(db, changes, |changes|).value;
    AllTrack(db, changes, |changes|);
    AllFrame(db, changes, |changes|);
    GatheredTables(applied.value, p);
    var cache := RefreshCache(applied.value, p);
    if cache.Err? { return Err(cache.error), receipt; }
    r := Ok(applied.value.tx.(cache := cache.value, counter := highest, events := applied.value.tx.events + rows));
  }

  lemma MutatedIs(db: Db, changes: seq<Change>, expected: map<Id, int>)
    requires changes != []
    ensures (forall i | 0 <= i < |changes| :: changes[i].events != [])
            ==> Mutated(db, changes, expected) == Flushed(db, changes, expected)
    ensures (exists i :: 0 <= i < |changes| && changes[i].events == [])
            ==> Mutated(db, changes, expected) == Err(NoEvents)
  {
    hide Flushed;
  }

  lemma CommitKeepsSound(db: Db, changes: seq<Change>, expected: map<Id, int>)
    requires Sound(db)
    ensures Mutated(db, changes, expected).Ok? ==>
              Mutated(db, changes, expected).value.counter == db.counter + EventCount(changes)
    ensures Mutated(db, changes, expected).Ok? && NoRebirth(changes) ==> Sound(Mutated(db, changes, expected).value)
  {
    hide Sound, Mutated, ApplyAll;
    if Mutated(db, changes, expected).Ok? {
      Committed(db, changes, expected);
      AllFrame(db, changes, |changes|);
      if NoRebirth(changes) { MutatedIsSound(db, changes, expected); }
    }
  }

  /** Mutate up to the commit: the checks, then the flush. */
  method RunMutation(db: Db, changes: seq<Change>, expected: map<Id, int>)
      returns (r: Result<Db, Error>, receipt: Receipt)
    requires Sound(db)
    ensures r == Mutated(db, changes, expected)
    ensures receipt == Receipt(db.counter + 1, db.counter + EventCount(changes), EventCount(changes))
  {
    receipt := Receipt(db.counter + 1, db.counter + EventCount(changes), EventCount(changes));
    if |changes| == 0 { return Err(EmptyMutation), receipt; }
    MutatedIs(db, changes, expected);
    hide Flushed, Sound, Mutated;
    for i := 0 to |changes|
      invariant forall k | 0 <= k < i :: changes[k].events != []
    {
      if |changes[i].events| == 0 { return Err(NoEvents), receipt; }
    }
    r, receipt := Flush(db, changes, expected);
  }

  /** The only writer of items: every change goes through Mutate. */
  class Store {
    var db: Db

    ghost predicate Valid()
      reads this
    {
      Sound(db)
    }

    constructor ()
      ensures Valid() && db == Db(map[], map[], map[], map[], map[], 0, [])
    {
      db := Db(map[], map[], map[], map[], map[], 0, []);
    }

    /** Commits the whole mutation or nothing, and tells the caller its block of numbers. */
    method Mutate(changes: seq<Change>, expected: map<Id, int>) returns (r: Result<Receipt, Error>)
      requires Valid()
      modifies this
      ensures match Mutated(old(db), changes, expected)
              case Ok(after) => db == after && r == Ok(Receipt(old(db.counter) + 1, db.counter, EventCount(changes)))
              case Err(e) => db == old(db) && r == Err(e)
      ensures NoRebirth(changes) ==> Valid()
    {
      hide Sound, Mutated, NoRebirth, EventCount;
      CommitKeepsSound(db, changes, expected);
      var result, receipt := RunMutation(db, changes, expected);
      if result.Err? { return Err(result.error); }
      db := result.value;
      r := Ok(receipt);
    }
  }
}
