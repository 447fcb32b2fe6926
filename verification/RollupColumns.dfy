/**
 The columns of a stored rollup row, said in terms of the items alone (the query VerifyRollups,
 internal/store/gen/rollup.sql.go, as a reader would state it).
 */
module RollupColumns {
  import opened Wrappers
  import opened Uuids
  import opened Items
  import opened Changes
  import opened UnitOfWork
  import R = Rollups

  /** The items below x that are not deleted. */
  function LiveBelow(items: Table, x: Id): set<Id> {
    set d | d in items && d != x && x in items[d].path && !items[d].deleted
  }

  function DoneBelow(items: Table, x: Id): set<Id> {
    set d | d in LiveBelow(items, x) && items[d].category == Done
  }

  /** The points of some items, added up one after another. */
  function PointsOf(items: Table, order: seq<Id>): int
    requires forall d | d in order :: d in items && items[d].points.Some?
  {
    if order == [] then 0 else PointsOf(items, order[..|order| - 1]) + items[order[|order| - 1]].points.value
  }

  lemma LiveIds(items: Table, x: Id)
    requires Forest(items) && x in items
    ensures R.Live(items, x).Keys == LiveBelow(items, x)
  {
    forall d | d in items ensures x in items[d].path <==> items[x].path <= items[d].path {
      OnPathIsPrefix(items, x, d);
    }
  }

  lemma LiveFacts(items: Table, x: Id, d: Id)
    requires x in items && d in R.Live(items, x)
    ensures var f := R.Live(items, x)[d];
            f.points == items[d].points && f.start == items[d].start && f.due == items[d].due
            && (f.done <==> items[d].category == Done)
  {
  }

  lemma StoredIsAggregate(db: Db, x: Id)
    requires Sound(db) && x in db.items
    ensures Forest(db.items) && x in db.cache && db.cache[x] == R.Aggregate(R.Live(db.items, x))
  {
  }

  /** The counts: the live items below x, and the done ones among them. */
  lemma CountColumns(db: Db, x: Id)
    requires Sound(db) && x in db.items
    ensures x in db.cache && db.cache[x].descendants == |LiveBelow(db.items, x)|
    ensures db.cache[x].done == |DoneBelow(db.items, x)|
  {
    StoredIsAggregate(db, x);
    var rows := R.Live(db.items, x);
    LiveIds(db.items, x);
    R.AggregateMeaning(rows);
    DoneIdsAre(db.items, x);
    hide Sound, Forest, R.Aggregate, R.Live, LiveBelow, DoneBelow, R.DoneIds;
    assert |rows.Keys| == |rows|;
  }

  lemma DoneIdsAre(items: Table, x: Id)
    requires Forest(items) && x in items
    ensures R.DoneIds(R.Live(items, x)) == DoneBelow(items, x)
  {
    LiveIds(items, x);
    var rows := R.Live(items, x);
    forall d | d in rows ensures rows[d].done <==> items[d].category == Done { LiveFacts(items, x, d); }
    hide Forest, R.Live, LiveBelow;
    assert forall d :: d in rows <==> d in LiveBelow(items, x);
  }

  /** The dates: each the least start, or greatest due date, of the live items below, and null without any. */
  lemma DateColumns(db: Db, x: Id)
    requires Sound(db) && x in db.items
    ensures x in db.cache
    ensures var row, below := db.cache[x], LiveBelow(db.items, x);
            && (row.earliest.None? <==> forall d | d in below :: db.items[d].start.None?)
            && (row.earliest.Some? ==> exists d :: d in below && db.items[d].start == row.earliest)
            && (forall d | d in below && db.items[d].start.Some? ::
                  row.earliest.Some? && row.earliest.value <= db.items[d].start.value)
            && (row.latest.None? <==> forall d | d in below :: db.items[d].due.None?)
            && (row.latest.Some? ==> exists d :: d in below && db.items[d].due == row.latest)
            && (forall d | d in below && db.items[d].due.Some? ::
                  row.latest.Some? && row.latest.value >= db.items[d].due.value)
  {
    StoredIsAggregate(db, x);
    var rows := R.Live(db.items, x);
    var below := LiveBelow(db.items, x);
    LiveIds(db.items, x);
    assert below == rows.Keys;
    R.AggregateMeaning(rows);
    forall d | d in rows ensures rows[d].start == db.items[d].start && rows[d].due == db.items[d].due {
      LiveFacts(db.items, x, d);
    }
    hide Sound, Forest, R.Aggregate, R.Live, R.DoneIds, LiveBelow;
    assert forall d | d in below :: d in rows;
    assert forall d | d in rows :: d in below;
  }

  lemma {:induction false} SamePoints(items: Table, x: Id, order: seq<Id>)
    requires x in items && forall d | d in order :: d in R.Live(items, x) && R.Live(items, x)[d].points.Some?
    ensures forall d | d in order :: d in items && items[d].points.Some?
    ensures PointsOf(items, order) == R.PointsAlong(R.Live(items, x), order)
  {
    forall d | d in order ensures d in items && items[d].points == R.Live(items, x)[d].points {
      LiveFacts(items, x, d);
    }
    hide R.Live;
    if order != [] { SamePoints(items, x, order[..|order| - 1]); }
  }

  /**
   The points: in whatever order the live items below (or the done ones) that have points are listed,
   each once, their points add up to the column, which is null when there is none.
   */
  lemma PointsColumns(db: Db, x: Id, order: seq<Id>, onlyDone: bool)
    requires Sound(db) && x in db.items
    requires forall i, j | 0 <= i < j < |order| :: order[i] != order[j]
    requires forall d :: d in order <==>
               && d in db.items && d != x && x in db.items[d].path && !db.items[d].deleted && db.items[d].points.Some?
               && (onlyDone ==> db.items[d].category == Done)
    ensures x in db.cache
    ensures (if onlyDone then db.cache[x].pointsDone else db.cache[x].pointsTotal)
         == if order == [] then None else Some(PointsOf(db.items, order))
  {
    StoredIsAggregate(db, x);
    var rows := R.Live(db.items, x);
    LiveIds(db.items, x);
    forall d | d in rows
      ensures rows[d].points == db.items[d].points && (rows[d].done <==> db.items[d].category == Done)
    {
      LiveFacts(db.items, x, d);
    }
    hide Sound, Forest, R.Aggregate, R.Live;
    assert R.Lists(order, R.PointIds(rows, onlyDone)) by {
      forall d ensures d in order <==> d in R.PointIds(rows, onlyDone) {
        assert d in rows <==> d in LiveBelow(db.items, x);
      }
    }
    R.PointsMeaning(rows, order, onlyDone);
    SamePoints(db.items, x, order);
  }
}
