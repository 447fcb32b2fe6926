/**
 The FROM clause of the item listing (internal/api/items.go).  A page is selected over only the joins
 whose aliases the filter mentions, and its items are then hydrated over all of them.
 */
module ItemJoins {
  import opened Wrappers
  import opened Sql

  datatype Tables = Tables(items: seq<Record>, projects: seq<Record>, statuses: seq<Record>, types: seq<Record>,
                           users: seq<Record>, rollups: seq<Record>)

  /** Joining one table to the item: the item's column, the table's key column, and whether it is a left join. */
  datatype Join = Join(alias: Alias, table: seq<Record>, reference: string, key: string, left: bool)

  function ProjectJoin(t: Tables): Join { Join(P, t.projects, "project_id", "id", false) }

  /** The optional joins, in the order they are written. */
  function OptionalJoins(t: Tables): seq<Join> {
    [Join(S, t.statuses, "status_id", "id", false),
     Join(T, t.types, "item_type_id", "id", false),
     Join(Par, t.items, "parent_id", "id", true),
     Join(U, t.users, "assignee_id", "id", true),
     Join(R, t.rollups, "id", "item_id", false)]
  }

  function AllJoins(t: Tables): seq<Join> {
    [ProjectJoin(t)] + OptionalJoins(t)
  }

  function Used(joins: seq<Join>, aliases: set<Alias>): (r: seq<Join>)
    ensures forall j | j in r :: j in joins && j.alias in aliases
    ensures forall j | j in joins && j.alias in aliases :: j in r
  {
    if joins == [] then []
    else
      var n := |joins| - 1;
      assert joins == joins[..n] + [joins[n]];
      Used(joins[..n], aliases) + if joins[n].alias in aliases then [joins[n]] else []
  }

  function PrunedJoins(t: Tables, aliases: set<Alias>): seq<Join> {
    [ProjectJoin(t)] + Used(OptionalJoins(t), aliases)
  }

  /** itemFilterJoins: the joins for the aliases found in the filter. */
  method FilterJoins(t: Tables, aliases: set<Alias>) returns (joins: seq<Join>)
    ensures joins == PrunedJoins(t, aliases)
  {
    hide OptionalJoins;
    joins := [ProjectJoin(t)];
    var pairs := OptionalJoins(t);
    for i := 0 to |pairs|
      invariant joins == [ProjectJoin(t)] + Used(pairs[..i], aliases)
    {
      assert pairs[..i + 1][..i] == pairs[..i];
      if pairs[i].alias in aliases { joins := joins + [pairs[i]]; }
    }
    assert pairs[..|pairs|] == pairs;
  }

  /* ---------- joining, row by row ---------- */

  function Field(r: Record, name: string): Datum {
    if name in r.columns then r.columns[name] else Null
  }

  /** The records of a table whose key equals a value; nothing equals a null. */
  function Matching(table: seq<Record>, key: string, d: Datum): seq<Record> {
    if table == [] then []
    else Matching(table[..|table| - 1], key, d)
         + if !d.Null? && Field(table[|table| - 1], key) == d then [table[|table| - 1]] else []
  }

  const NOTHING: Record := Record(map[], map[])

  /** The records that a row is paired with. */
  function Partners(row: Row, j: Join): seq<Record> {
    var found := Matching(j.table, j.key, ColumnOf(row, I, j.reference));
    if j.left && found == [] then [NOTHING] else found
  }

  function Paired(row: Row, alias: Alias, partners: seq<Record>): (r: seq<Row>)
    ensures |r| == |partners| && forall i | 0 <= i < |r| :: r[i] == row[alias := partners[i]]
  {
    seq(|partners|, i requires 0 <= i < |partners| => row[alias := partners[i]])
  }

  function JoinOne(rows: seq<Row>, j: Join): seq<Row> {
    if rows == [] then []
    else JoinOne(rows[..|rows| - 1], j) + Paired(rows[|rows| - 1], j.alias, Partners(rows[|rows| - 1], j))
  }

  function JoinAll(rows: seq<Row>, joins: seq<Join>): seq<Row> {
    if joins == [] then rows else JoinOne(JoinAll(rows, joins[..|joins| - 1]), joins[|joins| - 1])
  }

  function ItemRows(items: seq<Record>): (r: seq<Row>)
    ensures |r| == |items| && forall i | 0 <= i < |r| :: r[i] == map[I := items[i]]
  {
    seq(|items|, i requires 0 <= i < |items| => map[I := items[i]])
  }

  /* ---------- what the schema guarantees ---------- */

  ghost predicate Unique(table: seq<Record>, key: string) {
    forall a, b | 0 <= a < b < |table| :: Field(table[a], key) != Field(table[b], key)
  }

  ghost predicate Present(table: seq<Record>, key: string, d: Datum) {
    !d.Null? && exists i :: 0 <= i < |table| && Field(table[i], key) == d
  }

  /** Primary keys, foreign keys, and exactly one rollup row per item. */
  ghost predicate Referential(t: Tables) {
    && Unique(t.items, "id") && Unique(t.projects, "id") && Unique(t.statuses, "id") && Unique(t.types, "id")
    && Unique(t.users, "id") && Unique(t.rollups, "item_id")
    && forall i | 0 <= i < |t.items| ::
         && Present(t.projects, "id", Field(t.items[i], "project_id"))
         && Present(t.statuses, "id", Field(t.items[i], "status_id"))
         && Present(t.types, "id", Field(t.items[i], "item_type_id"))
         && Present(t.rollups, "item_id", Field(t.items[i], "id"))
  }

  /** The join gives the row exactly one partner. */
  predicate Single(row: Row, j: Join) {
    |Partners(row, j)| == 1
  }

  /** The one partner of a single join. */
  function Partner(row: Row, j: Join): Record {
    if Single(row, j) then Partners(row, j)[0] else NOTHING
  }

  lemma {:induction false} MatchingEmpty(table: seq<Record>, key: string, d: Datum)
    requires forall i | 0 <= i < |table| :: Field(table[i], key) != d
    ensures Matching(table, key, d) == []
  {
    if table != [] { MatchingEmpty(table[..|table| - 1], key, d); }
  }

  /** A unique key matches at most once, and once when it is present. */
  lemma {:induction false} MatchingUnique(table: seq<Record>, key: string, d: Datum)
    requires Unique(table, key)
    ensures |Matching(table, key, d)| <= 1
    ensures Present(table, key, d) ==> |Matching(table, key, d)| == 1
  {
    if table != [] {
      var n := |table| - 1;
      var front := table[..n];
      assert Unique(front, key) by {
        forall a, b | 0 <= a < b < |front| ensures Field(front[a], key) != Field(front[b], key) {
          assert front[a] == table[a] && front[b] == table[b];
        }
      }
      if Field(table[n], key) == d {
        forall i | 0 <= i < n ensures Field(front[i], key) != d { assert front[i] == table[i]; }
        MatchingEmpty(front, key, d);
      } else {
        MatchingUnique(front, key, d);
        if Present(table, key, d) {
          var i :| 0 <= i < |table| && Field(table[i], key) == d;
          assert front[i] == table[i];
        }
      }
    }
  }

  /** With the schema's constraints every join of every item is single. */
  lemma EveryJoinIsSingle(t: Tables, i: nat, j: Join)
    requires Referential(t) && i < |t.items| && j in AllJoins(t)
    ensures Single(map[I := t.items[i]], j)
  {
    var row: Row := map[I := t.items[i]];
    var d := Field(t.items[i], j.reference);
    assert ColumnOf(row, I, j.reference) == d;
    MatchingUnique(j.table, j.key, d);
  }

  /* ---------- single joins only add columns ---------- */

  ghost predicate DistinctAliases(joins: seq<Join>) {
    && (forall j | j in joins :: j.alias != I)
    && forall a, b | 0 <= a < b < |joins| :: joins[a].alias != joins[b].alias
  }

  /** The row with each join's one partner added. */
  function Grown(row: Row, joins: seq<Join>): Row {
    if joins == [] then row
    else
      var j := joins[|joins| - 1];
      var front := Grown(row, joins[..|joins| - 1]);
      if Single(row, j) then front[j.alias := Partner(row, j)] else front
  }

  /** Partners depend on the item alone. */
  lemma SameItemSamePartners(a: Row, b: Row, j: Join)
    requires AgreeOn({I}, a, b)
    ensures Partners(a, j) == Partners(b, j)
  {
    assert I in {I};
  }

  lemma {:induction false} GrownKeepsItem(row: Row, joins: seq<Join>)
    requires forall j | j in joins :: j.alias != I
    ensures AgreeOn({I}, Grown(row, joins), row)
  {
    if joins != [] {
      GrownKeepsItem(row, joins[..|joins| - 1]);
    }
  }

  lemma FrontIsOther(joins: seq<Join>)
    requires DistinctAliases(joins) && joins != []
    ensures forall j | j in joins[..|joins| - 1] :: j.alias != joins[|joins| - 1].alias
  {
  }

  /** What an alias shows after all joins: its join's partner, or what was there before. */
  lemma {:induction false} GrownAlias(row: Row, joins: seq<Join>, x: Alias)
    requires DistinctAliases(joins) && forall j | j in joins :: Single(row, j)
    ensures forall j | j in joins && j.alias == x :: x in Grown(row, joins) && Grown(row, joins)[x] == Partner(row, j)
    ensures (forall j | j in joins :: j.alias != x) ==> AgreeOn({x}, Grown(row, joins), row)
  {
    hide Partner, Single;
    if joins != [] {
      var n := |joins| - 1;
      var front := joins[..n];
      assert joins == front + [joins[n]];
      assert DistinctAliases(front);
      GrownAlias(row, front, x);
      FrontIsOther(joins);
    }
  }

  lemma {:induction false} JoinOneSingle(rows: seq<Row>, j: Join)
    requires forall k | 0 <= k < |rows| :: Single(rows[k], j)
    ensures |JoinOne(rows, j)| == |rows|
    ensures forall k | 0 <= k < |rows| :: JoinOne(rows, j)[k] == rows[k][j.alias := Partner(rows[k], j)]
  {
    if rows != [] { JoinOneSingle(rows[..|rows| - 1], j); }
  }

  /** Single joins keep the rows and their order. */
  lemma {:induction false} JoinAllSingle(rows: seq<Row>, joins: seq<Join>)
    requires forall j | j in joins :: j.alias != I
    requires forall k, j | 0 <= k < |rows| && j in joins :: Single(rows[k], j)
    ensures |JoinAll(rows, joins)| == |rows|
    ensures forall k | 0 <= k < |rows| :: JoinAll(rows, joins)[k] == Grown(rows[k], joins)
  {
    if joins != [] {
      var n := |joins| - 1;
      var front, j := joins[..n], joins[n];
      assert joins == front + [j];
      forall k, i | 0 <= k < |rows| && i in front ensures Single(rows[k], i) { assert i in joins; }
      JoinAllSingle(rows, front);
      var before := JoinAll(rows, front);
      forall k | 0 <= k < |rows| ensures Single(before[k], j) && Partners(before[k], j) == Partners(rows[k], j) {
        GrownKeepsItem(rows[k], front);
        SameItemSamePartners(before[k], rows[k], j);
        assert j in joins && Single(rows[k], j);
      }
      JoinOneSingle(before, j);
    }
  }

  /* ---------- pruning ---------- */

  lemma {:induction false} UsedIsDistinct(joins: seq<Join>, aliases: set<Alias>)
    requires DistinctAliases(joins)
    ensures DistinctAliases(Used(joins, aliases))
  {
    if joins != [] {
      var n := |joins| - 1;
      assert joins == joins[..n] + [joins[n]];
      assert forall j | j in joins[..n] :: j.alias != joins[n].alias;
      UsedIsDistinct(joins[..n], aliases);
    }
  }

  lemma OptionalIsDistinct(t: Tables)
    ensures DistinctAliases(OptionalJoins(t)) && forall j | j in OptionalJoins(t) :: j.alias != P
  {
    var joins := OptionalJoins(t);
    assert joins[0].alias == S && joins[1].alias == T && joins[2].alias == Par && joins[3].alias == U
           && joins[4].alias == R;
    assert |joins| == 5;
  }

  lemma OneMoreIsDistinct(j: Join, joins: seq<Join>)
    requires DistinctAliases(joins) && j.alias != I && forall i | i in joins :: i.alias != j.alias
    ensures DistinctAliases([j] + joins)
  {
  }

  lemma JoinsAreDistinct(t: Tables, aliases: set<Alias>)
    ensures DistinctAliases(AllJoins(t)) && DistinctAliases(PrunedJoins(t, aliases))
    ensures forall j | j in PrunedJoins(t, aliases) :: j in AllJoins(t)
    ensures forall j | j in AllJoins(t) && (j.alias == P || j.alias in aliases) :: j in PrunedJoins(t, aliases)
  {
    OptionalIsDistinct(t);
    hide OptionalJoins, DistinctAliases;
    UsedIsDistinct(OptionalJoins(t), aliases);
    OneMoreIsDistinct(ProjectJoin(t), OptionalJoins(t));
    OneMoreIsDistinct(ProjectJoin(t), Used(OptionalJoins(t), aliases));
  }

  /** Full and pruned joins give the same rows in the same order, as far as the filter's aliases show. */
  lemma PruningKeepsRows(t: Tables, aliases: set<Alias>)
    requires Referential(t)
    ensures var full, pruned := JoinAll(ItemRows(t.items), AllJoins(t)),
            JoinAll(ItemRows(t.items), PrunedJoins(t, aliases));
            && |full| == |pruned| == |t.items|
            && forall k | 0 <= k < |full| ::
                 AgreeOn({I, P} + aliases, full[k], pruned[k]) && AgreeOn({I}, full[k], map[I := t.items[k]])
  {
    hide Single, JoinAll, Grown, AgreeOn, AllJoins, PrunedJoins, DistinctAliases, Referential;
    var rows := ItemRows(t.items);
    JoinsAreDistinct(t, aliases);
    forall k, j | 0 <= k < |rows| && j in AllJoins(t) ensures Single(rows[k], j) { EveryJoinIsSingle(t, k, j); }
    NotTheItem(AllJoins(t));
    NotTheItem(PrunedJoins(t, aliases));
    JoinAllSingle(rows, AllJoins(t));
    JoinAllSingle(rows, PrunedJoins(t, aliases));
    SharedJoins(t, aliases);
    forall k | 0 <= k < |rows|
      ensures AgreeOn({I, P} + aliases, Grown(rows[k], AllJoins(t)), Grown(rows[k], PrunedJoins(t, aliases)))
              && AgreeOn({I}, Grown(rows[k], AllJoins(t)), rows[k])
    {
      GrownKeepsItem(rows[k], AllJoins(t));
      GrownAgree(rows[k], AllJoins(t), PrunedJoins(t, aliases), {I, P} + aliases);
    }
  }

  lemma NotTheItem(joins: seq<Join>)
    requires DistinctAliases(joins)
    ensures forall j | j in joins :: j.alias != I
  {
  }

  lemma SharedJoins(t: Tables, aliases: set<Alias>)
    requires DistinctAliases(AllJoins(t))
    ensures forall j | j in AllJoins(t) && j.alias in {I, P} + aliases :: j in PrunedJoins(t, aliases)
  {
    NotTheItem(AllJoins(t));
    JoinsAreDistinct(t, aliases);
    hide AllJoins, PrunedJoins, DistinctAliases;
  }

  /** Two lists of single joins that share the joins of some aliases agree on them. */
  lemma GrownAgree(row: Row, full: seq<Join>, pruned: seq<Join>, aliases: set<Alias>)
    requires DistinctAliases(full) && DistinctAliases(pruned)
    requires forall j | j in full :: Single(row, j)
    requires forall j | j in pruned :: j in full
    requires forall j | j in full && j.alias in aliases :: j in pruned
    ensures AgreeOn(aliases, Grown(row, full), Grown(row, pruned))
  {
    hide Single, Grown;
    forall x | x in aliases ensures AgreeOn({x}, Grown(row, full), Grown(row, pruned)) {
      GrownAlias(row, full, x);
      GrownAlias(row, pruned, x);
      assert x in {x};
      if j :| j in full && j.alias == x {
        assert j in pruned;
      }
    }
    assert forall x | x in aliases :: x in {x};
  }

  /* ---------- what a full row shows ---------- */

  /** The record that a row shows for an alias, and the column that made it the item's. */
  ghost predicate Shows(row: Row, alias: Alias, table: seq<Record>, key: string, d: Datum) {
    alias in row && row[alias] in table && !d.Null? && Field(row[alias], key) == d
  }

  lemma {:induction false} MatchingIs(table: seq<Record>, key: string, d: Datum)
    ensures forall r :: r in Matching(table, key, d) <==> r in table && !d.Null? && Field(r, key) == d
  {
    if table != [] {
      assert table == table[..|table| - 1] + [table[|table| - 1]];
      MatchingIs(table[..|table| - 1], key, d);
    }
  }

  /** A left join that finds no record shows no column. */
  ghost predicate MayShow(row: Row, alias: Alias, table: seq<Record>, key: string, d: Datum) {
    if exists r :: r in table && !d.Null? && Field(r, key) == d then Shows(row, alias, table, key, d)
    else alias in row && row[alias].columns == map[]
  }

  lemma PartnerShows(row: Row, j: Join, grown: Row)
    requires Single(row, j) && j.alias in grown && grown[j.alias] == Partner(row, j)
    ensures MayShow(grown, j.alias, j.table, j.key, ColumnOf(row, I, j.reference))
  {
    MatchingIs(j.table, j.key, ColumnOf(row, I, j.reference));
    hide Matching;
    assert Partner(row, j) in Partners(row, j);
  }

  lemma AliasShows(t: Tables, k: nat, j: Join)
    requires Referential(t) && k < |t.items| && j in AllJoins(t)
    ensures var rows := JoinAll(ItemRows(t.items), AllJoins(t));
            |rows| == |t.items| && MayShow(rows[k], j.alias, j.table, j.key, Field(t.items[k], j.reference))
  {
    hide Single, JoinAll, Grown, AllJoins, PrunedJoins, DistinctAliases, Referential, Matching, Partner, MayShow;
    var rows := ItemRows(t.items);
    JoinsAreDistinct(t, {});
    forall k, j | 0 <= k < |rows| && j in AllJoins(t) ensures Single(rows[k], j) { EveryJoinIsSingle(t, k, j); }
    NotTheItem(AllJoins(t));
    JoinAllSingle(rows, AllJoins(t));
    GrownAlias(rows[k], AllJoins(t), j.alias);
    PartnerShows(rows[k], j, Grown(rows[k], AllJoins(t)));
    assert ColumnOf(rows[k], I, j.reference) == Field(t.items[k], j.reference);
  }

  /**
   With the schema's constraints a listing's row shows the item's own project, status, type and rollup;
   and its parent and assignee when they exist, or else a record without columns.
   */
  lemma FullRowShows(t: Tables, k: nat)
    requires Referential(t) && k < |t.items|
    ensures var rows, item := JoinAll(ItemRows(t.items), AllJoins(t)), t.items[k];
            && |rows| == |t.items|
            && Shows(rows[k], P, t.projects, "id", Field(item, "project_id"))
            && Shows(rows[k], S, t.statuses, "id", Field(item, "status_id"))
            && Shows(rows[k], T, t.types, "id", Field(item, "item_type_id"))
            && Shows(rows[k], R, t.rollups, "item_id", Field(item, "id"))
            && MayShow(rows[k], Par, t.items, "id", Field(item, "parent_id"))
            && MayShow(rows[k], U, t.users, "id", Field(item, "assignee_id"))
  {
    var joins := AllJoins(t);
    assert joins[0] == Join(P, t.projects, "project_id", "id", false);
    assert joins[1] == Join(S, t.statuses, "status_id", "id", false);
    assert joins[2] == Join(T, t.types, "item_type_id", "id", false);
    assert joins[3] == Join(Par, t.items, "parent_id", "id", true);
    assert joins[4] == Join(U, t.users, "assignee_id", "id", true);
    assert joins[5] == Join(R, t.rollups, "id", "item_id", false);
    hide AllJoins, JoinAll, Shows, Unique;
    forall j | j in joins
      ensures var rows := JoinAll(ItemRows(t.items), joins);
              |rows| == |t.items| && MayShow(rows[k], j.alias, j.table, j.key, Field(t.items[k], j.reference))
    {
      AliasShows(t, k, j);
    }
    assert joins[0] in joins && joins[1] in joins && joins[2] in joins;
    assert joins[3] in joins && joins[4] in joins && joins[5] in joins;
  }
}
