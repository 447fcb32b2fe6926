/**
 The item and rollup tables that the store leaves, as the item listing reads them: the schema clause
 the listing relies on is what every mutation keeps.
 */
module ItemTables {
  import opened Uuids
  import opened Changes
  import opened UnitOfWork
  import Sql
  import J = ItemJoins
  import R = Rollups

  function IdValue(id: Id): Sql.Datum {
    Sql.Typed(Sql.UuidType, id)
  }

  /** The rows of a table with one row per id, in some order. */
  ghost predicate Scans(table: seq<Sql.Record>, key: string, order: seq<Id>, ids: set<Id>) {
    && R.Lists(order, ids) && |table| == |order|
    && forall i | 0 <= i < |order| :: J.Field(table[i], key) == IdValue(order[i])
  }

  /** The listing's tables hold the rows of the store's. */
  ghost predicate Shows(t: J.Tables, db: Db, items: seq<Id>, rollups: seq<Id>) {
    Scans(t.items, "id", items, db.items.Keys) && Scans(t.rollups, "item_id", rollups, db.cache.Keys)
  }

  lemma ScanIsUnique(table: seq<Sql.Record>, key: string, order: seq<Id>, ids: set<Id>)
    requires Scans(table, key, order, ids)
    ensures J.Unique(table, key)
    ensures forall x | x in ids :: J.Present(table, key, IdValue(x))
    ensures forall i | 0 <= i < |table| :: order[i] in ids
  {
    forall x | x in ids ensures J.Present(table, key, IdValue(x)) {
      var i :| 0 <= i < |order| && order[i] == x;
      assert J.Field(table[i], key) == IdValue(x);
    }
    forall i | 0 <= i < |table| ensures order[i] in ids { assert order[i] in order; }
  }

  /** Over a sound database every item has exactly one rollup row for the listing to join. */
  lemma OneRollupRowPerItem(t: J.Tables, db: Db, items: seq<Id>, rollups: seq<Id>)
    requires Sound(db) && Shows(t, db, items, rollups)
    ensures J.Unique(t.items, "id") && J.Unique(t.rollups, "item_id")
    ensures forall i | 0 <= i < |t.items| :: J.Present(t.rollups, "item_id", J.Field(t.items[i], "id"))
    ensures forall i | 0 <= i < |t.items| :: |J.Matching(t.rollups, "item_id", J.Field(t.items[i], "id"))| == 1
  {
    ScanIsUnique(t.items, "id", items, db.items.Keys);
    ScanIsUnique(t.rollups, "item_id", rollups, db.cache.Keys);
    assert db.cache.Keys == db.items.Keys by { OneRowEach(db); }
    hide Sound, J.Present, J.Unique;
    forall i | 0 <= i < |t.items|
      ensures J.Present(t.rollups, "item_id", J.Field(t.items[i], "id"))
              && |J.Matching(t.rollups, "item_id", J.Field(t.items[i], "id"))| == 1
    {
      assert items[i] in db.items.Keys;
      J.MatchingUnique(t.rollups, "item_id", J.Field(t.items[i], "id"));
    }
  }

  lemma OneRowEach(db: Db)
    requires Sound(db)
    ensures db.cache.Keys == db.items.Keys
  {
  }
}
