/**
 The row changes a mutation carries and what each does inside its transaction (the switch in flush,
 with applyInsert, applyUpdate, applyReparent and applyComment, internal/store/mutate.go).
 */
module Changes {
  import opened Wrappers
  import opened Uuids
  import opened Paths
  import opened Items
  import R = Rollups
  import RL = RankList

  datatype Op =
    | Insert(project: Id, parent: Option<Id>, category: Category,
             points: Option<int>, start: Option<int>, due: Option<int>)
    | Update(newCategory: Option<Category>, setPoints: Option<Option<int>>,
             setStart: Option<Option<int>>, setDue: Option<Option<int>>)
    | Reparent(newParent: Option<Id>, setRank: bool, rankAfter: Option<Id>)
    | SoftDelete
    | HardDelete
    | AddLink(link: Id, to: Id, kind: string)
    | DropLink(link: Id)
    | AddComment(comment: Id)
    | EditComment(comment: Id)
    | DropComment(comment: Id)

  /** A pending row change and the events that describe it, all about one item. */
  datatype Change = Change(itemId: Id, op: Op, events: seq<string>)

  datatype Event = Event(seqNo: nat, itemId: Id, body: string)

  datatype Link = Link(from: Id, to: Id, kind: string)

  datatype Comment = Comment(itemId: Id, deleted: bool)

  /** The tables of one workspace; ranks holds each project's rows in rank order. */
  datatype Db = Db(items: Table, cache: R.Cache, ranks: map<Id, seq<RL.Row>>, links: map<Id, Link>,
                   comments: map<Id, Comment>, counter: nat, events: seq<Event>)

  datatype Error = EmptyMutation | NoEvents | VersionConflict | NotFound | OtherProject | InvalidMove
                 | Constraint | Rank(failure: RL.RankFailure)

  const LINK_KINDS: set<string> := {"blocks", "duplicates", "relates", "implements", "discovered_from"}

  /** The tables part-way through a flush, with what it has collected so far. */
  datatype Progress = Progress(db: Db, touched: set<Path>, created: set<Id>, hardDeleted: set<Id>)

  function RowsOf(db: Db, project: Id): seq<RL.Row> {
    if project in db.ranks then db.ranks[project] else []
  }

  /** A respread raises the version of every item of the project. */
  function BumpProject(items: Table, project: Id, times: nat): (r: Table)
    ensures r.Keys == items.Keys
  {
    map d | d in items ::
      if items[d].project == project then items[d].(version := items[d].version + times) else items[d]
  }

  function WithRanks(db: Db, project: Id, placed: RL.Placed): Db {
    db.(ranks := db.ranks[project := placed.rows], items := BumpProject(db.items, project, placed.respreads))
  }

  ghost function ApplyInsert(p: Progress, id: Id, op: Op, changeSeq: nat): Result<Progress, Error>
    requires op.Insert?
  {
    var items := p.db.items;
    if op.parent.Some? && op.parent.value !in items then Err(NotFound)
    else if op.parent.Some? && items[op.parent.value].project != op.project then Err(OtherProject)
    else
      var path := ParentPath(items, op.parent) + [id];
      match RL.Append(RowsOf(p.db, op.project), id)
      case Err(e) => Err(Rank(e))
      case Ok(placed) =>
        if id in items || !PathCheck(id, op.parent, path) then Err(Constraint)
        else
          var db := WithRanks(p.db, op.project, placed);
          var it := Item(op.project, op.parent, path, op.category, op.points, op.start, op.due, false, 1, changeSeq);
          Ok(Progress(db.(items := db.items[id := it]), p.touched + {path}, p.created + {id}, p.hardDeleted))
  }

  function Patched(it: Item, op: Op, changeSeq: nat): Item
    requires op.Update?
  {
    it.(category := if op.newCategory.Some? then op.newCategory.value else it.category,
        points := if op.setPoints.Some? then op.setPoints.value else it.points,
        start := if op.setStart.Some? then op.setStart.value else it.start,
        due := if op.setDue.Some? then op.setDue.value else it.due,
        changeSeq := changeSeq, version := it.version + 1)
  }

  /** An UPDATE of one row that leaves it where it is. */
  function WithRow(p: Progress, id: Id, it: Item): Progress {
    p.(db := p.db.(items := p.db.items[id := it]), touched := p.touched + {it.path})
  }

  function ApplyUpdate(p: Progress, id: Id, op: Op, changeSeq: nat): Result<Progress, Error>
    requires op.Update?
  {
    if id !in p.db.items then Err(NotFound) else Ok(WithRow(p, id, Patched(p.db.items[id], op, changeSeq)))
  }

  /** The paths a move touches: the old one, and the new one of every moved row. */
  function MovedPaths(items: Table, after: Table, prior: Path): set<Path>
    requires items.Keys == after.Keys
  {
    {prior} + set d | d in items && prior <= items[d].path :: after[d].path
  }

  ghost function ApplyReparent(p: Progress, id: Id, op: Op, changeSeq: nat): Result<Progress, Error>
    requires op.Reparent?
  {
    var items := p.db.items;
    if id !in items then Err(NotFound)
    else if op.newParent.Some? && op.newParent.value !in items then Err(NotFound)
    else if !MoveAllowed(items, id, op.newParent) then Err(InvalidMove)
    else
      var prior, top := items[id].path, ParentPath(items, op.newParent);
      if prior == [] || !TriggerAccepts(items, id, op.newParent, top, prior) then Err(Constraint)
      else
        var after := ReparentRows(items, id, op.newParent, top, prior, changeSeq);
        var moved := p.(db := p.db.(items := after), touched := p.touched + MovedPaths(items, after, prior));
        if !op.setRank then Ok(moved)
        else match RL.Move(RowsOf(p.db, items[id].project), id, op.rankAfter, 0)
          case Err(e) => Err(if e == RL.InvalidMove then InvalidMove else Rank(e))
          case Ok(placed) => Ok(moved.(db := WithRanks(moved.db, items[id].project, placed)))
  }

  function ApplySoftDelete(p: Progress, id: Id, changeSeq: nat): Result<Progress, Error> {
    if id !in p.db.items || p.db.items[id].deleted then Err(NotFound)
    else
      var it := p.db.items[id];
      Ok(WithRow(p, id, it.(deleted := true, changeSeq := changeSeq, version := it.version + 1)))
  }

  /** The foreign keys that keep a row from being deleted. */
  predicate Referenced(db: Db, id: Id) {
    || (exists d :: d in db.items && db.items[d].parent == Some(id))
    || (exists l :: l in db.links && (db.links[l].from == id || db.links[l].to == id))
    || (exists c :: c in db.comments && db.comments[c].itemId == id)
  }

  function ApplyHardDelete(p: Progress, id: Id): Result<Progress, Error> {
    if id !in p.db.items then Err(NotFound)
    else if Referenced(p.db, id) then Err(Constraint)
    else
      var it := p.db.items[id];
      Ok(Progress(p.db.(items := Removed(p.db.items, id), cache := p.db.cache - {id},
                        ranks := p.db.ranks[it.project := RL.Without(RowsOf(p.db, it.project), id)]),
                  p.touched + {it.path}, p.created, p.hardDeleted + {id}))
  }

  /** UPDATE item SET version=version+1,change_seq=$2 WHERE id=$1, which may match no row. */
  function Stamp(p: Progress, id: Id, changeSeq: nat): Progress {
    if id in p.db.items
    then
      var it := p.db.items[id];
      p.(db := p.db.(items := p.db.items[id := it.(version := it.version + 1, changeSeq := changeSeq)]))
    else p
  }

  predicate LinkRefused(db: Db, id: Id, op: Op)
    requires op.AddLink?
  {
    || op.link in db.links || id !in db.items || op.to !in db.items || id == op.to || op.kind !in LINK_KINDS
    || exists l :: l in db.links && db.links[l] == Link(id, op.to, op.kind)
  }

  predicate CommentMatches(db: Db, id: Id, comment: Id) {
    comment in db.comments && db.comments[comment].itemId == id && !db.comments[comment].deleted
  }

  /** A link or comment change, before the stamp on its item. */
  function ApplyAttachment(db: Db, id: Id, op: Op): Result<Db, Error> {
    match op
    case AddLink(link, to, kind) =>
      if LinkRefused(db, id, op) then Err(Constraint) else Ok(db.(links := db.links[link := Link(id, to, kind)]))
    case DropLink(link) => Ok(db.(links := db.links - {link}))
    case AddComment(comment) =>
      if comment in db.comments || id !in db.items then Err(Constraint)
      else Ok(db.(comments := db.comments[comment := Comment(id, false)]))
    case EditComment(comment) => if CommentMatches(db, id, comment) then Ok(db) else Err(NotFound)
    case DropComment(comment) =>
      if CommentMatches(db, id, comment)
      then Ok(db.(comments := db.comments[comment := Comment(id, true)]))
      else Err(NotFound)
    case _ => Ok(db)
  }

  ghost function ApplyOp(p: Progress, id: Id, op: Op, changeSeq: nat): Result<Progress, Error> {
    match op
    case Insert(_, _, _, _, _, _) => ApplyInsert(p, id, op, changeSeq)
    case Update(_, _, _, _) => ApplyUpdate(p, id, op, changeSeq)
    case Reparent(_, _, _) => ApplyReparent(p, id, op, changeSeq)
    case SoftDelete => ApplySoftDelete(p, id, changeSeq)
    case HardDelete => ApplyHardDelete(p, id)
    case _ =>
      match ApplyAttachment(p.db, id, op)
      case Err(e) => Err(e)
      case Ok(db) => Ok(Stamp(p.(db := db), id, changeSeq))
  }

  /* ---------- what every step of a flush keeps ---------- */

  /** Each project's rank list is ascending and lists exactly the project's items. */
  ghost predicate Ranked(items: Table, ranks: map<Id, seq<RL.Row>>) {
    && (forall p | p in ranks :: RL.Ascending(ranks[p]))
    && (forall p, d | p in ranks && d in RL.Ids(ranks[p]) :: d in items && items[d].project == p)
    && (forall d | d in items :: items[d].project in ranks && d in RL.Ids(ranks[items[d].project]))
  }

  function Stored(cache: R.Cache, x: Id): R.Rollup {
    if x in cache then cache[x] else R.ZERO
  }

  ghost predicate Fresh(items: Table, cache: R.Cache, x: Id)
    requires x in items
  {
    Stored(cache, x) == R.Aggregate(R.Live(items, x))
  }

  /**
   The invariant of the loop over changes: every rollup that is not above a touched path is right,
   a missing one counting as the zero row its item will get.
   */
  ghost predicate Tracking(p: Progress) {
    && Forest(p.db.items)
    && Ranked(p.db.items, p.db.ranks)
    && (forall x | x in p.db.cache :: x in p.db.items)
    && (forall x | x in p.db.items :: x in p.db.cache || x in p.created)
    && (forall x | x in p.db.items && !R.Dirty(p.touched, x) :: Fresh(p.db.items, p.db.cache, x))
    && (forall x | R.Dirty(p.touched, x) :: x in p.db.items || x in p.hardDeleted)
  }

  lemma BumpKeepsForest(items: Table, project: Id, times: nat)
    requires Forest(items)
    ensures Forest(BumpProject(items, project, times))
  {
    var after := BumpProject(items, project, times);
    forall d | d in after ensures Rooted(after, d) { assert Rooted(items, d); }
  }

  lemma BumpKeepsLive(items: Table, project: Id, times: nat, x: Id)
    requires x in items
    ensures R.Live(BumpProject(items, project, times), x) == R.Live(items, x)
  {
    R.SameLive(items, BumpProject(items, project, times), x);
  }

  lemma DirtyOfUnion(a: set<Path>, b: set<Path>, x: Id)
    requires R.Dirty(a + b, x)
    ensures R.Dirty(a, x) || R.Dirty(b, x)
  {
    var p :| p in a + b && p != [] && x in p[..|p| - 1];
    if p in a { assert R.Dirty(a, x); } else { assert R.Dirty(b, x); }
  }

  /** The strict ancestors of an item's path are items. */
  lemma AncestorsExist(items: Table, d: Id, x: Id)
    requires Forest(items) && d in items && R.Dirty({items[d].path}, x)
    ensures x in items && x != d
  {
    var p := items[d].path;
    assert Rooted(items, d);
    var k :| 0 <= k < |p| - 1 && p[..|p| - 1][k] == x;
    assert p[k] == x;
    LabelsAreDistinct(items, d, k, |p| - 1);
  }

  /** What a step has to show: untouched rollups keep their live rows, and new rows have none. */
  lemma StepTracks(p: Progress, q: Progress)
    requires Tracking(p)
    requires Forest(q.db.items) && Ranked(q.db.items, q.db.ranks)
    requires p.touched <= q.touched && p.created <= q.created && p.hardDeleted <= q.hardDeleted
    requires forall x | x in q.db.cache :: x in q.db.items && x in p.db.cache && q.db.cache[x] == p.db.cache[x]
    requires forall x | x in q.db.items && x in p.db.items :: x in p.db.cache ==> x in q.db.cache
    requires forall x | x in q.db.items && x !in p.db.items :: x in q.created && R.Live(q.db.items, x) == map[]
    requires forall x | x in q.db.items && x in p.db.items && !R.Dirty(q.touched, x) ::
               R.Live(q.db.items, x) == R.Live(p.db.items, x)
    requires forall x | R.Dirty(q.touched, x) && !R.Dirty(p.touched, x) :: x in q.db.items
    requires forall x | x in p.db.items && x !in q.db.items :: x in q.hardDeleted
    ensures Tracking(q)
  {
    hide Forest, Ranked, R.Live, R.Aggregate;
    forall x | x in q.db.items && !R.Dirty(q.touched, x)
      ensures Fresh(q.db.items, q.db.cache, x)
    {
      R.CleanInSubset(p.touched, q.touched, x);
      if x in p.db.items {
        assert Fresh(p.db.items, p.db.cache, x);
      } else {
        EmptyAggregate();
        assert x !in q.db.cache;
      }
    }
  }

  lemma EmptyAggregate()
    ensures R.Aggregate(map[]) == R.ZERO
  {
  }

  /* ---------- rank lists and the item table stay in step ---------- */

  lemma RowsAscend(db: Db, project: Id)
    requires Ranked(db.items, db.ranks)
    ensures RL.Ascending(RowsOf(db, project))
    ensures forall d | d in RL.Ids(RowsOf(db, project)) :: d in db.items && db.items[d].project == project
    ensures forall d | d in db.items && db.items[d].project == project :: d in RL.Ids(RowsOf(db, project))
  {
    if project !in db.ranks { assert RL.Ids(RowsOf(db, project)) == []; }
    hide RL.Ascending;
  }

  lemma RankedNewRows(items: Table, after: Table, ranks: map<Id, seq<RL.Row>>, project: Id, rows: seq<RL.Row>)
    requires Ranked(items, ranks) && RL.Ascending(rows)
    requires forall d | d in RL.Ids(rows) :: d in after && after[d].project == project
    requires forall d | d in after && after[d].project == project :: d in RL.Ids(rows)
    requires forall d | d in after && after[d].project != project :: d in items && items[d].project == after[d].project
    requires forall d | d in items && items[d].project != project :: d in after && after[d].project == items[d].project
    ensures Ranked(after, ranks[project := rows])
  {
    hide RL.Ascending;
  }

  lemma RankedSameProjects(items: Table, after: Table, ranks: map<Id, seq<RL.Row>>)
    requires Ranked(items, ranks) && after.Keys == items.Keys
    requires forall d | d in items :: after[d].project == items[d].project
    ensures Ranked(after, ranks)
  {
    hide RL.Ascending;
  }

  /* ---------- each kind of change keeps the invariant ---------- */

  lemma InsertTracks(p: Progress, id: Id, op: Op, changeSeq: nat)
    requires Tracking(p) && op.Insert? && ApplyInsert(p, id, op, changeSeq).Ok?
    ensures Tracking(ApplyInsert(p, id, op, changeSeq).value)
  {
    var q := ApplyInsert(p, id, op, changeSeq).value;
    var rows := RowsOf(p.db, op.project);
    var placed := RL.Append(rows, id).value;
    var bumped := BumpProject(p.db.items, op.project, placed.respreads);
    var it := q.db.items[id];
    RowsAscend(p.db, op.project);
    RL.AppendPlaces(rows, id);
    BumpKeepsForest(p.db.items, op.project, placed.respreads);
    InsertKeepsForest(bumped, id, it);
    InsertRanked(p.db, bumped, id, it, placed.rows);
    R.InsertedHasNone(bumped, id, it);
    forall x | x in p.db.items && !R.Dirty(q.touched, x)
      ensures R.Live(q.db.items, x) == R.Live(p.db.items, x)
    {
      BumpKeepsLive(p.db.items, op.project, placed.respreads, x);
      R.InsertKeepsLive(bumped, id, it, x, q.touched);
    }
    forall x | R.Dirty(q.touched, x) && !R.Dirty(p.touched, x) ensures x in q.db.items {
      DirtyOfUnion(p.touched, {it.path}, x);
      AncestorsExist(q.db.items, id, x);
    }
    StepTracks(p, q);
  }

  lemma InsertRanked(db: Db, bumped: Table, id: Id, it: Item, rows: seq<RL.Row>)
    requires Ranked(db.items, db.ranks) && id !in db.items && bumped.Keys == db.items.Keys
    requires forall d | d in bumped :: bumped[d].project == db.items[d].project
    requires RL.Ascending(rows) && RL.Ids(rows) == RL.Ids(RowsOf(db, it.project)) + [id]
    ensures Ranked(bumped[id := it], db.ranks[it.project := rows])
  {
    RowsAscend(db, it.project);
    RankedNewRows(db.items, bumped[id := it], db.ranks, it.project, rows);
  }

  /** Updates and soft deletes rewrite one row in place. */
  lemma RowUpdateTracks(p: Progress, id: Id, it: Item)
    requires Tracking(p) && id in p.db.items
    requires it.path == p.db.items[id].path && it.parent == p.db.items[id].parent
             && it.project == p.db.items[id].project
    ensures Tracking(WithRow(p, id, it))
  {
    hide R.Live, R.Dirty, R.Aggregate, Rooted, RL.Ascending;
    var items, after, touched := p.db.items, p.db.items[id := it], p.touched + {it.path};
    RowUpdateKeepsForest(items, id, it);
    RankedSameProjects(items, after, p.db.ranks);
    hide Ranked;
    forall x | x in items && !R.Dirty(touched, x)
      ensures R.Live(after, x) == R.Live(items, x)
    {
      R.UpdateKeepsLive(items, id, it, x, touched);
    }
    forall x | R.Dirty(touched, x) && !R.Dirty(p.touched, x) ensures x in items {
      DirtyOfUnion(p.touched, {it.path}, x);
      AncestorsExist(items, id, x);
    }
    hide Forest;
    StepTracks(p, p.(db := p.db.(items := after), touched := touched));
  }

  lemma RowUpdateKeepsForest(items: Table, id: Id, it: Item)
    requires Forest(items) && id in items
    requires it.path == items[id].path && it.parent == items[id].parent && it.project == items[id].project
    ensures Forest(items[id := it])
  {
    forall d | d in items ensures Rooted(items[id := it], d) { RowUpdateKeepsRoots(items, id, it, d); }
    hide Rooted;
  }

  lemma RowUpdateKeepsRoots(items: Table, id: Id, it: Item, d: Id)
    requires id in items && d in items && Rooted(items, d)
    requires it.path == items[id].path && it.parent == items[id].parent && it.project == items[id].project
    ensures Rooted(items[id := it], d)
  {
    hide PathCheck;
    assert items[id := it][d].path == items[d].path;
  }

  /** Links and comments change nothing a rollup reads. */
  lemma StampTracks(p: Progress, id: Id, changeSeq: nat)
    requires Tracking(p)
    ensures Tracking(Stamp(p, id, changeSeq))
  {
    hide Tracking;
    if id in p.db.items {
      QuietRowTracks(p, id, p.db.items[id].(version := p.db.items[id].version + 1, changeSeq := changeSeq));
    }
  }

  lemma QuietRowTracks(p: Progress, id: Id, it: Item)
    requires Tracking(p) && id in p.db.items
    requires it == p.db.items[id].(version := it.version, changeSeq := it.changeSeq)
    ensures Tracking(p.(db := p.db.(items := p.db.items[id := it])))
  {
    hide R.Live, R.Dirty, R.Aggregate, Rooted, RL.Ascending;
    var items, after := p.db.items, p.db.items[id := it];
    RowUpdateKeepsForest(items, id, it);
    RankedSameProjects(items, after, p.db.ranks);
    hide Forest, Ranked;
    forall x | x in items ensures R.Live(after, x) == R.Live(items, x) {
      StampKeepsLive(items, id, it, x);
    }
    StepTracks(p, p.(db := p.db.(items := after)));
  }

  lemma StampKeepsLive(items: Table, id: Id, it: Item, x: Id)
    requires id in items && x in items
    requires it.path == items[id].path && it.deleted == items[id].deleted && R.FactsOf(it) == R.FactsOf(items[id])
    ensures R.Live(items[id := it], x) == R.Live(items, x)
  {
    R.SameLive(items, items[id := it], x);
  }

  lemma HardDeleteTracks(p: Progress, id: Id)
    requires Tracking(p) && ApplyHardDelete(p, id).Ok?
    ensures Tracking(ApplyHardDelete(p, id).value)
  {
    var q := ApplyHardDelete(p, id).value;
    var it := p.db.items[id];
    DeleteKeepsForest(p.db.items, id);
    RowsAscend(p.db, it.project);
    RL.WithoutAscends(RowsOf(p.db, it.project), id);
    RL.WithoutDrops(RowsOf(p.db, it.project), id);
    DropMembers(RL.Ids(RowsOf(p.db, it.project)), id);
    RankedNewRows(p.db.items, q.db.items, p.db.ranks, it.project, RL.Without(RowsOf(p.db, it.project), id));
    forall x | x in q.db.items && !R.Dirty(q.touched, x)
      ensures R.Live(q.db.items, x) == R.Live(p.db.items, x)
    {
      R.DeleteKeepsLive(p.db.items, id, x, q.touched);
    }
    forall x | R.Dirty(q.touched, x) && !R.Dirty(p.touched, x) ensures x in q.db.items {
      DirtyOfUnion(p.touched, {it.path}, x);
      AncestorsExist(p.db.items, id, x);
    }
    StepTracks(p, q);
  }

  lemma {:induction false} DropMembers(ids: seq<Id>, id: Id)
    ensures forall d :: d in RL.Drop(ids, id) <==> d in ids && d != id
  {
    if ids != [] { DropMembers(ids[1..], id); }
  }

  lemma MoveTracks(p: Progress, id: Id, op: Op, changeSeq: nat)
    requires Tracking(p) && op.Reparent? && ApplyReparent(p, id, op.(setRank := false), changeSeq).Ok?
    ensures Tracking(ApplyReparent(p, id, op.(setRank := false), changeSeq).value)
  {
    hide MoveAllowed, TriggerAccepts, R.Live, R.Dirty, R.Aggregate, Rooted, Rewritten, RL.Ascending;
    var items, prior := p.db.items, p.db.items[id].path;
    var after := ReparentRows(items, id, op.newParent, ParentPath(items, op.newParent), prior, changeSeq);
    MoveKeepsForest(items, id, op.newParent, changeSeq);
    assert forall d | d in items :: after[d].project == items[d].project;
    RankedSameProjects(items, after, p.db.ranks);
    var q := p.(db := p.db.(items := after), touched := p.touched + MovedPaths(items, after, prior));
    assert q == ApplyReparent(p, id, op.(setRank := false), changeSeq).value;
    hide ApplyReparent;
    MoveLive(p, id, op.newParent, changeSeq, q.touched);
    hide ReparentRows, MoveAllowed, TriggerAccepts, R.Live, MovedPaths, R.Dirty;
    forall x | R.Dirty(q.touched, x) && !R.Dirty(p.touched, x) ensures x in after {
      DirtyOfUnion(p.touched, MovedPaths(items, after, prior), x);
      MovedAncestorsExist(items, after, id, x);
    }
    hide Forest, Ranked;
    StepTracks(p, q);
  }

  lemma MoveLive(p: Progress, id: Id, newParent: Option<Id>, changeSeq: nat, touched: set<Path>)
    requires Forest(p.db.items) && id in p.db.items && MoveAllowed(p.db.items, id, newParent)
    requires p.db.items[id].path != []
    requires var items, prior := p.db.items, p.db.items[id].path;
             MovedPaths(items, ReparentRows(items, id, newParent, ParentPath(items, newParent), prior, changeSeq),
                 prior) <= touched
    ensures var items, prior := p.db.items, p.db.items[id].path;
            var after := ReparentRows(items, id, newParent, ParentPath(items, newParent), prior, changeSeq);
            forall x | x in items && !R.Dirty(touched, x) :: R.Live(after, x) == R.Live(items, x)
  {
    var items, prior := p.db.items, p.db.items[id].path;
    var after := ReparentRows(items, id, newParent, ParentPath(items, newParent), prior, changeSeq);
    assert prior in MovedPaths(items, after, prior);
    assert forall d | d in items && prior <= items[d].path :: after[d].path in MovedPaths(items, after, prior);
    hide ReparentRows, MoveAllowed, Forest, R.Live, R.Dirty, MovedPaths;
    forall x | x in items && !R.Dirty(touched, x)
      ensures R.Live(after, x) == R.Live(items, x)
    {
      R.MoveKeepsLive(items, id, newParent, changeSeq, x, touched);
    }
  }

  lemma DirtyOfMoved(items: Table, after: Table, prior: Path, x: Id) returns (d: Option<Id>)
    requires items.Keys == after.Keys && R.Dirty(MovedPaths(items, after, prior), x)
    ensures if d.None? then R.Dirty({prior}, x) else d.value in items && R.Dirty({after[d.value].path}, x)
  {
    var path :| path in MovedPaths(items, after, prior) && path != [] && x in path[..|path| - 1];
    if path == prior {
      d := None;
    } else {
      var e :| e in items && prior <= items[e].path && after[e].path == path;
      d := Some(e);
    }
  }

  lemma MovedAncestorsExist(items: Table, after: Table, id: Id, x: Id)
    requires Forest(items) && Forest(after) && items.Keys == after.Keys && id in items
    requires R.Dirty(MovedPaths(items, after, items[id].path), x)
    ensures x in items
  {
    hide Forest, R.Dirty, MovedPaths;
    var d := DirtyOfMoved(items, after, items[id].path, x);
    if d.None? { AncestorsExist(items, id, x); } else { AncestorsExist(after, d.value, x); }
  }

  /** A new rank for a moved item changes only the rank list and, after a respread, versions. */
  lemma RerankTracks(p: Progress, project: Id, id: Id, after: Option<Id>)
    requires Tracking(p) && id in p.db.items && p.db.items[id].project == project
    requires RL.Move(RowsOf(p.db, project), id, after, 0).Ok?
    ensures Tracking(p.(db := WithRanks(p.db, project, RL.Move(RowsOf(p.db, project), id, after, 0).value)))
  {
    var rows := RowsOf(p.db, project);
    var placed := RL.Move(rows, id, after, 0).value;
    var q := p.(db := WithRanks(p.db, project, placed));
    RowsAscend(p.db, project);
    RL.MoveAscends(rows, id, after, 0);
    MovedMembers(RL.Ids(rows), RL.Ids(placed.rows), id, after);
    BumpKeepsForest(p.db.items, project, placed.respreads);
    RankedNewRows(p.db.items, q.db.items, p.db.ranks, project, placed.rows);
    forall x | x in p.db.items ensures R.Live(q.db.items, x) == R.Live(p.db.items, x) {
      BumpKeepsLive(p.db.items, project, placed.respreads, x);
    }
    StepTracks(p, q);
  }

  lemma MovedMembers(before: seq<Id>, later: seq<Id>, self: Id, neighbour: Option<Id>)
    requires RL.MovedTo(before, later, self, neighbour) && self in before
    ensures forall d :: d in later <==> d in before
  {
    DropMembers(before, self);
    var others := RL.Drop(before, self);
    var k := RL.Slot(others, neighbour).value;
    assert others == others[..k] + others[k..];
    assert forall d :: d in later <==> d in others[..k] || d == self || d in others[k..];
    assert forall d :: d in others <==> d in others[..k] || d in others[k..];
  }

  lemma ReparentTracks(p: Progress, id: Id, op: Op, changeSeq: nat)
    requires Tracking(p) && op.Reparent? && ApplyReparent(p, id, op, changeSeq).Ok?
    ensures Tracking(ApplyReparent(p, id, op, changeSeq).value)
  {
    MoveTracks(p, id, op, changeSeq);
    if op.setRank {
      var moved := ApplyReparent(p, id, op.(setRank := false), changeSeq).value;
      assert moved.db.items[id].project == p.db.items[id].project;
      hide Tracking, MoveAllowed, TriggerAccepts, MovedPaths, ParentPath, ReparentRows, RL.Move;
      RerankTracks(moved, p.db.items[id].project, id, op.rankAfter);
    }
  }

  lemma AttachmentTracks(p: Progress, id: Id, op: Op, changeSeq: nat)
    requires Tracking(p) && ApplyAttachment(p.db, id, op).Ok?
    ensures Tracking(Stamp(p.(db := ApplyAttachment(p.db, id, op).value), id, changeSeq))
  {
    hide Stamp, Tracking;
    var db := ApplyAttachment(p.db, id, op).value;
    hide LinkRefused, CommentMatches;
    assert db.items == p.db.items && db.cache == p.db.cache && db.ranks == p.db.ranks;
    hide ApplyAttachment;
    SameTables(p, db);
    StampTracks(p.(db := db), id, changeSeq);
  }

  lemma SameTables(p: Progress, db: Db)
    requires Tracking(p) && db.items == p.db.items && db.cache == p.db.cache && db.ranks == p.db.ranks
    ensures Tracking(p.(db := db))
  {
  }

  /** Every change kind, applied anywhere in a flush, keeps the invariant. */
  lemma ApplyTracks(p: Progress, id: Id, op: Op, changeSeq: nat)
    requires Tracking(p) && ApplyOp(p, id, op, changeSeq).Ok?
    ensures Tracking(ApplyOp(p, id, op, changeSeq).value)
  {
    hide Tracking, ApplyInsert, ApplyReparent, ApplyHardDelete, ApplyAttachment, Stamp, WithRow;
    match op
    case Insert(_, _, _, _, _, _) => InsertTracks(p, id, op, changeSeq);
    case Update(_, _, _, _) => RowUpdateTracks(p, id, Patched(p.db.items[id], op, changeSeq));
    case Reparent(_, _, _) => ReparentTracks(p, id, op, changeSeq);
    case SoftDelete =>
      var it := p.db.items[id];
      RowUpdateTracks(p, id, it.(deleted := true, changeSeq := changeSeq, version := it.version + 1));
    case HardDelete => HardDeleteTracks(p, id);
    case _ => AttachmentTracks(p, id, op, changeSeq);
  }
}
