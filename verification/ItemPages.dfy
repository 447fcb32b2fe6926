/**
 The item listing (listItems in internal/api/sxq.go): the compiled query, the caller's own arguments,
 the cursor predicate and the pruned joins put together into one SQL statement, page after page.
 */
module ItemPages {
  import opened Wrappers
  import opened Sql
  import opened ItemJoins
  import opened Keyset
  import C = SxqCompile
  import T = CursorTokens
  import N = SxqNarrow
  import Q = Sxq

  const ZERO_ID: string := "00000000-0000-0000-0000-000000000000"

  /** How the response writes an id and a sort value, and so how a cursor hands them back. */
  datatype Codec = Codec(idText: Datum -> string, sortArgument: Datum -> Datum)

  /** What stays the same over the pages of one listing; scope and at are the cursor's. */
  datatype Request = Request(workspace: string, project: string, upper: string, projection: seq<Datum>, scope: string,
      at: string)

  datatype Listing = Listing(w: World, codec: Codec, t: Tables, request: Request, plan: C.Plan)

  /** The placeholder of a sort value, with the cast of the field's kind. */
  function SortCast(kind: C.Kind, p: Scalar): Scalar {
    match kind
    case NumberKind => Cast(Cast(p, TextType), NumericType)
    case UuidKind => Cast(Cast(p, TextType), UuidType)
    case DateKind => Cast(Cast(p, TextType), DateType)
    case InstantKind => Cast(Cast(p, TextType), InstantType)
    case TextKind => Cast(p, TextType)
    case BoolKind => Cast(p, BoolType)
    case SearchKind => p
    case ArrayKind => p
  }

  const ItemId: Scalar := Column(I, "id")
  const AfterId: Scalar := Cast(Param(2), UuidType)

  /** The caller's five arguments. */
  function Leading(l: Listing, cursor: Option<Key>, limit: nat): seq<Datum> {
    var after := if cursor.None? then ZERO_ID else l.codec.idText(cursor.value.id);
    [Text(l.request.workspace), Text(after), Text(l.request.upper), Text(l.request.project), Int(limit + 1)]
  }

  function SortArguments(l: Listing, cursor: Option<Key>): seq<Datum> {
    if cursor.None? || cursor.value.sort.Null? then [] else [l.codec.sortArgument(cursor.value.sort)]
  }

  function Arguments(l: Listing, cursor: Option<Key>, limit: nat): seq<Datum> {
    Leading(l, cursor, limit) + l.plan.args + (l.request.projection + SortArguments(l, cursor))
  }

  /** The keyset predicate; last is the number of the last argument. */
  function CursorPredicate(p: C.Plan, cursor: Option<Key>, last: nat): Condition {
    if cursor.None? then True
    else if cursor.value.sort.Null? then Both(IsNull(p.order), Compared(Gt, ItemId, AfterId))
    else
      var v := SortCast(p.orderKind, Param(last));
      Either(Either(Compared(if p.desc then Lt else Gt, p.order, v),
          Both(Compared(Eq, p.order, v), Compared(Gt, ItemId, AfterId))),
             IsNull(p.order))
  }

  const InWorkspace: Condition := Compared(Eq, Column(I, "workspace_id"), Cast(Param(1), UuidType))
  const HasAfter: Condition := NotNull(AfterId)
  const NotLater: Condition := Compared(Le, ItemId, Cast(Param(3), UuidType))
  const AnyProject: Condition := Compared(Eq, Param(4), Constant(Text("")))
  const ThatProject: Condition := Compared(Eq, Column(P, "key_prefix"), Param(4))
  const Live: Condition := IsNull(Column(I, "deleted_at"))
  const Base: Condition := Both(Both(Both(Both(InWorkspace, HasAfter), NotLater), Either(AnyProject, ThatProject)),
      Live)

  function WhereClause(p: C.Plan, cursor: Option<Key>, last: nat): Condition {
    Both(Base, Both(p.where_, CursorPredicate(p, cursor, last)))
  }

  /** The aliases that the filter text mentions. */
  function FilterAliases(p: C.Plan, cursor: Option<Key>, last: nat): set<Alias> {
    Aliases(p.where_) + Aliases(CursorPredicate(p, cursor, last)) + ScalarAliases(p.order)
  }

  function ItemOf(row: Row): Record {
    if I in row then row[I] else NOTHING
  }

  function SelectedEntry(l: Listing, row: Row, args: seq<Datum>): Entry {
    Entry(Key(Value(l.w, l.plan.order, row, args), ColumnOf(row, I, "id")), ItemOf(row))
  }

  function Pick(rows: seq<Row>, keep: Row -> bool, entry: Row -> Entry): seq<Entry> {
    if rows == [] then []
    else Pick(rows[..|rows| - 1], keep, entry) + if keep(rows[|rows| - 1]) then [entry(rows[|rows| - 1])] else []
  }

  function OrderOf(l: Listing): Order {
    Order(l.w.less, l.plan.desc)
  }

  /** SELECT id and sort value FROM rows WHERE condition, before ORDER BY and LIMIT. */
  function Selection(l: Listing, condition: Condition, args: seq<Datum>, rows: seq<Row>): seq<Entry> {
    Pick(rows, row => Eval(l.w, condition, row, args) == Yes, row => SelectedEntry(l, row, args))
  }

  /** The statement as it is sent: pruned joins, ORDER BY with nulls last, LIMIT $5. */
  function SelectedPage(l: Listing, cursor: Option<Key>, limit: nat): seq<Entry> {
    var args := Arguments(l, cursor, limit);
    var joins := PrunedJoins(l.t, FilterAliases(l.plan, cursor, |args|));
    var rows := JoinAll(ItemRows(l.t.items), joins);
    Take(OrderBy(OrderOf(l), Selection(l, WhereClause(l.plan, cursor, |args|), args, rows)), limit + 1)
  }

  function RequestPage(l: Listing, cursor: Option<Key>, limit: Limit): Page {
    var rows := SelectedPage(l, cursor, limit);
    Page(Take(rows, limit), if |rows| > limit then Some(rows[limit - 1].key) else None)
  }

  /** listItems, from the compiled plan on. */
  method ListItems(l: Listing, cursor: Option<Key>, limit: Limit) returns (page: Page)
    ensures page == RequestPage(l, cursor, limit)
  {
    hide JoinAll, OrderBy, ItemRows, PrunedJoins;
    var after := ZERO_ID;
    if cursor.Some? { after := l.codec.idText(cursor.value.id); }
    var args := [Text(l.request.workspace), Text(after), Text(l.request.upper), Text(l.request.project),
        Int(limit + 1)] + l.plan.args;
    args := args + l.request.projection;
    var predicate_ := True;
    if cursor.Some? {
      if cursor.value.sort.Null? {
        predicate_ := Both(IsNull(l.plan.order), Compared(Gt, ItemId, AfterId));
      } else {
        args := args + [l.codec.sortArgument(cursor.value.sort)];
        var v := SortCast(l.plan.orderKind, Param(|args|));
        var op := if l.plan.desc then Lt else Gt;
        predicate_ := Either(Either(Compared(op, l.plan.order, v),
            Both(Compared(Eq, l.plan.order, v), Compared(Gt, ItemId, AfterId))),
                            IsNull(l.plan.order));
      }
    }
    assert args == Arguments(l, cursor, limit);
    var joins := FilterJoins(l.t, Aliases(l.plan.where_) + Aliases(predicate_) + ScalarAliases(l.plan.order));
    var condition := Both(Base, Both(l.plan.where_, predicate_));
    var selected := Selection(l, condition, args, JoinAll(ItemRows(l.t.items), joins));
    page := ReadRows(Take(OrderBy(OrderOf(l), selected), limit + 1), limit);
  }

  /* ---------- what the listing should show ---------- */

  /** The items a listing is about: of the workspace and project asked for, not deleted, and satisfying the query. */
  ghost predicate Listed(w: World, o: C.Options, q: Q.Query, r: Request, row: Row) {
    && Compare(w, Eq, ColumnOf(row, I, "workspace_id"), w.cast(UuidType, Text(r.workspace))) == Yes
    && ColumnOf(row, I, "deleted_at").Null?
    && N.PassesParameter(row, r.project)
    && C.Holds(w, o, q, row) == Yes
  }

  /** Created no later than the newest item at the time of the first page. */
  ghost predicate UpTo(w: World, r: Request, row: Row) {
    Compare(w, Le, ColumnOf(row, I, "id"), w.cast(UuidType, Text(r.upper))) == Yes
  }

  ghost function ListedEntry(w: World, o: C.Options, q: Q.Query, row: Row): Entry {
    Entry(Key(C.FieldValue(w, o, q.order, row), ColumnOf(row, I, "id")), ItemOf(row))
  }

  /** The listed rows of the full join, with nobody's field definitions left out. */
  ghost function Reference(w: World, o: C.Options, q: Q.Query, r: Request, t: Tables): seq<Entry> {
    Pick(JoinAll(ItemRows(t.items), AllJoins(t)),
         row => Listed(w, o, q, r, row) && UpTo(w, r, row),
         row => ListedEntry(w, o, q, row))
  }

  /* ---------- the assumptions on the database's types ---------- */

  /** Casts of values give values, and their order is total. */
  ghost predicate SoundWorld(w: World) {
    Total(w.less) && forall to: Type, d: Datum :: !d.Null? ==> !w.cast(to, d).Null?
  }

  /** The value a sort argument turns into under its cast. */
  function Restored(w: World, kind: C.Kind, d: Datum): Datum {
    match kind
    case NumberKind => CastTo(w, NumericType, CastTo(w, TextType, d))
    case UuidKind => CastTo(w, UuidType, CastTo(w, TextType, d))
    case DateKind => CastTo(w, DateType, CastTo(w, TextType, d))
    case InstantKind => CastTo(w, InstantType, CastTo(w, TextType, d))
    case TextKind => CastTo(w, TextType, d)
    case BoolKind => CastTo(w, BoolType, d)
    case SearchKind => d
    case ArrayKind => d
  }

  /** The cursor's JSON carries the id and the sort value of a row exactly. */
  ghost predicate Carries(l: Listing, k: Key) {
    && !k.id.Null? && l.w.cast(UuidType, Text(l.codec.idText(k.id))) == k.id
    && (!k.sort.Null? ==> Restored(l.w, l.plan.orderKind, l.codec.sortArgument(k.sort)) == k.sort)
  }

  /* ---------- the statement means what it should ---------- */

  lemma LeadingParams(l: Listing, cursor: Option<Key>, limit: nat, row: Row)
    ensures var args := Arguments(l, cursor, limit);
            && Value(l.w, Param(1), row, args) == Text(l.request.workspace)
            && Value(l.w, Param(2), row, args) == Text(if cursor.None? then ZERO_ID
                else l.codec.idText(cursor.value.id))
            && Value(l.w, Param(3), row, args) == Text(l.request.upper)
            && Value(l.w, Param(4), row, args) == Text(l.request.project)
  {
  }

  lemma SortParam(l: Listing, cursor: Option<Key>, limit: nat, row: Row)
    requires cursor.Some? && !cursor.value.sort.Null?
    ensures var args := Arguments(l, cursor, limit);
            Value(l.w, SortCast(l.plan.orderKind, Param(|args|)), row, args)
            == Restored(l.w, l.plan.orderKind, l.codec.sortArgument(cursor.value.sort))
  {
    var args := Arguments(l, cursor, limit);
    assert Value(l.w, Param(|args|), row, args) == l.codec.sortArgument(cursor.value.sort);
    hide Arguments;
  }

  /** The comparison of ids that breaks ties. */
  lemma TieMeans(l: Listing, k: Key, limit: nat, row: Row)
    requires Carries(l, k) && !ColumnOf(row, I, "id").Null?
    ensures var args := Arguments(l, Some(k), limit);
            Eval(l.w, Compared(Gt, ItemId, AfterId), row, args) == Known(l.w.less(k.id, ColumnOf(row, I, "id")))
  {
    var args := Arguments(l, Some(k), limit);
    LeadingParams(l, Some(k), limit, row);
    hide Arguments;
    assert Value(l.w, AfterId, row, args) == k.id;
  }

  /** The predicate for a cursor whose sort value is not null, in three-valued logic. */
  function KeysetTruth(w: World, desc: bool, sort: Datum, later: Truth, v: Datum): Truth {
    Or3(Or3(Compare(w, if desc then Lt else Gt, v, sort), And3(Compare(w, Eq, v, sort), later)), Known(v.Null?))
  }

  lemma KeysetTruthMeans(w: World, desc: bool, a: Key, b: Key)
    requires !a.sort.Null? && !w.less(a.sort, a.sort)
    ensures KeysetTruth(w, desc, a.sort, Known(w.less(a.id, b.id)), b.sort) == Yes
            <==> Before(Order(w.less, desc), a, b)
  {
  }

  /** The keyset predicate is true exactly of the rows that come after the cursor in the listing's order. */
  lemma PredicateMeans(l: Listing, cursor: Option<Key>, limit: nat, row: Row)
    requires SoundWorld(l.w) && (cursor.Some? ==> Carries(l, cursor.value))
    requires !ColumnOf(row, I, "id").Null?
    ensures var args := Arguments(l, cursor, limit);
            Eval(l.w, CursorPredicate(l.plan, cursor, |args|), row, args) == Yes
            <==> IsAfter(OrderOf(l), cursor, Key(Value(l.w, l.plan.order, row, args), ColumnOf(row, I, "id")))
  {
    if cursor.Some? {
      var args := Arguments(l, cursor, limit);
      var k, v := cursor.value, Value(l.w, l.plan.order, row, args);
      TieMeans(l, k, limit, row);
      if !k.sort.Null? {
        SortParam(l, cursor, limit, row);
        hide Arguments, Restored, SortCast;
        var ph := SortCast(l.plan.orderKind, Param(|args|));
        KeysetTruthMeans(l.w, l.plan.desc, k, Key(v, ColumnOf(row, I, "id")));
        PredicateTruth(l, ph, k.sort, row, args);
      } else {
        hide Arguments;
        BothNull(l, row, args);
      }
    }
  }

  lemma BothNull(l: Listing, row: Row, args: seq<Datum>)
    ensures Eval(l.w, Both(IsNull(l.plan.order), Compared(Gt, ItemId, AfterId)), row, args)
            == And3(Known(Value(l.w, l.plan.order, row, args).Null?),
                Eval(l.w, Compared(Gt, ItemId, AfterId), row, args))
  {
  }

  lemma PredicateTruth(l: Listing, ph: Scalar, sort: Datum, row: Row, args: seq<Datum>)
    requires Value(l.w, ph, row, args) == sort
    ensures var later := Compared(Gt, ItemId, AfterId); var e := l.plan.order;
            Eval(l.w, Either(Either(Compared(if l.plan.desc then Lt else Gt, e, ph),
                Both(Compared(Eq, e, ph), later)), IsNull(e)), row, args)
            == KeysetTruth(l.w, l.plan.desc, sort, Eval(l.w, later, row, args), Value(l.w, e, row, args))
  {
    var later := Compared(Gt, ItemId, AfterId);
    var e := l.plan.order;
    var first := Compared(if l.plan.desc then Lt else Gt, e, ph);
    var tie := Both(Compared(Eq, e, ph), later);
    assert Eval(l.w, tie, row, args) == And3(Compare(l.w, Eq, Value(l.w, e, row, args), sort),
           Eval(l.w, later, row, args));
    assert Eval(l.w, Either(first, tie), row, args) == Or3(Eval(l.w, first, row, args), Eval(l.w, tie, row, args));
  }

  lemma BothYes(w: World, a: Condition, b: Condition, row: Row, args: seq<Datum>)
    ensures Eval(w, Both(a, b), row, args) == Yes <==> Eval(w, a, row, args) == Yes && Eval(w, b, row, args) == Yes
  {
  }

  lemma ProjectTest(l: Listing, cursor: Option<Key>, limit: nat, row: Row)
    ensures Eval(l.w, Either(AnyProject, ThatProject), row, Arguments(l, cursor, limit)) == Yes
       <==> N.PassesParameter(row, l.request.project)
  {
    var args := Arguments(l, cursor, limit);
    LeadingParams(l, cursor, limit, row);
    hide Arguments;
    assert Eval(l.w, AnyProject, row, args) == Known(l.request.project == "");
    assert Eval(l.w, ThatProject, row, args) == Compare(l.w, Eq, N.RowProject(row), Text(l.request.project));
  }

  /** The fixed part of the WHERE clause. */
  lemma BaseMeans(l: Listing, cursor: Option<Key>, limit: nat, row: Row)
    requires SoundWorld(l.w)
    ensures var args := Arguments(l, cursor, limit);
            Eval(l.w, Base, row, args) == Yes
            <==>
            && Compare(l.w, Eq, ColumnOf(row, I, "workspace_id"), l.w.cast(UuidType, Text(l.request.workspace))) == Yes
            && UpTo(l.w, l.request, row)
            && ColumnOf(row, I, "deleted_at").Null?
            && N.PassesParameter(row, l.request.project)
  {
    var args := Arguments(l, cursor, limit);
    LeadingParams(l, cursor, limit, row);
    ProjectTest(l, cursor, limit, row);
    hide Arguments, Compare, N.PassesParameter;
    BothYes(l.w, InWorkspace, HasAfter, row, args);
    BothYes(l.w, Both(InWorkspace, HasAfter), NotLater, row, args);
    BothYes(l.w, Both(Both(InWorkspace, HasAfter), NotLater), Either(AnyProject, ThatProject), row, args);
    BothYes(l.w, Both(Both(Both(InWorkspace, HasAfter), NotLater), Either(AnyProject, ThatProject)), Live, row, args);
    assert Eval(l.w, HasAfter, row, args) == Yes;
    assert Eval(l.w, InWorkspace, row, args)
        == Compare(l.w, Eq, ColumnOf(row, I, "workspace_id"), l.w.cast(UuidType, Text(l.request.workspace)));
    assert Eval(l.w, NotLater, row, args) == Compare(l.w, Le, ColumnOf(row, I, "id"),
           l.w.cast(UuidType, Text(l.request.upper)));
    assert Eval(l.w, Live, row, args) == Known(ColumnOf(row, I, "deleted_at").Null?);
    hide Eval;
  }

  /* ---------- pruned joins ---------- */

  lemma {:induction false} PickEqual(a: seq<Row>, b: seq<Row>, keepA: Row -> bool, keepB: Row -> bool,
      entryA: Row -> Entry, entryB: Row -> Entry)
    requires |a| == |b|
    requires forall k | 0 <= k < |a| :: keepA(a[k]) == keepB(b[k]) && (keepA(a[k]) ==> entryA(a[k]) == entryB(b[k]))
    ensures Pick(a, keepA, entryA) == Pick(b, keepB, entryB)
  {
    if a != [] { PickEqual(a[..|a| - 1], b[..|b| - 1], keepA, keepB, entryA, entryB); }
  }

  lemma {:induction false} PickFilter(rows: seq<Row>, keep: Row -> bool, entry: Row -> Entry, p: Entry -> bool,
      both: Row -> bool)
    requires forall k | 0 <= k < |rows| :: both(rows[k]) == (keep(rows[k]) && p(entry(rows[k])))
    ensures Filter(Pick(rows, keep, entry), p) == Pick(rows, both, entry)
  {
    if rows != [] {
      var n := |rows| - 1;
      PickFilter(rows[..n], keep, entry, p, both);
      var front, e := Pick(rows[..n], keep, entry), entry(rows[n]);
      FilterLast(front, e, p);
      assert Pick(rows, keep, entry) == if keep(rows[n]) then front + [e] else front;
      assert Pick(rows, both, entry) == if both(rows[n]) then Filter(front, p) + [e] else Filter(front, p);
    }
  }

  lemma FilterLast(s: seq<Entry>, e: Entry, p: Entry -> bool)
    ensures Filter(s + [e], p) == Filter(s, p) + if p(e) then [e] else []
  {
    assert (s + [e])[..|s|] == s;
  }

  /** The statement mentions no alias beyond the item's, the project's and those found in the filter. */
  lemma StatementAliases(p: C.Plan, cursor: Option<Key>, last: nat)
    ensures Aliases(WhereClause(p, cursor, last)) + ScalarAliases(p.order) <= {I, P} + FilterAliases(p, cursor, last)
  {
    assert Aliases(Base) <= {I, P} by { BaseAliases(); }
    assert Aliases(Both(p.where_, CursorPredicate(p, cursor, last))) == Aliases(p.where_)
           + Aliases(CursorPredicate(p, cursor, last));
    hide CursorPredicate;
  }

  lemma BaseAliases()
    ensures Aliases(Base) <= {I, P}
  {
    assert ScalarAliases(AfterId) == {} by { assert ScalarAliases(Param(2)) == {}; }
    assert ScalarAliases(Cast(Param(1), UuidType)) == {} by { assert ScalarAliases(Param(1)) == {}; }
    assert ScalarAliases(Cast(Param(3), UuidType)) == {} by { assert ScalarAliases(Param(3)) == {}; }
    assert Aliases(Both(InWorkspace, HasAfter)) == {I};
    assert Aliases(Both(Both(InWorkspace, HasAfter), NotLater)) == {I};
    assert Aliases(Either(AnyProject, ThatProject)) == {P};
    assert Aliases(Both(Both(Both(InWorkspace, HasAfter), NotLater), Either(AnyProject, ThatProject))) == {I, P};
  }

  lemma AgreeingRows(l: Listing, cursor: Option<Key>, limit: nat, a: Row, b: Row)
    requires AgreeOn({I, P} + FilterAliases(l.plan, cursor, |Arguments(l, cursor, limit)|), a, b)
    ensures var args := Arguments(l, cursor, limit);
            && Eval(l.w, WhereClause(l.plan, cursor, |args|), a, args)
                == Eval(l.w, WhereClause(l.plan, cursor, |args|), b, args)
            && SelectedEntry(l, a, args) == SelectedEntry(l, b, args)
  {
    var args := Arguments(l, cursor, limit);
    StatementAliases(l.plan, cursor, |args|);
    var seen := {I, P} + FilterAliases(l.plan, cursor, |args|);
    assert I in seen;
    ConditionIsLocal(l.w, WhereClause(l.plan, cursor, |args|), a, b, args);
    ScalarIsLocal(l.w, l.plan.order, a, b, args);
    hide WhereClause, Eval, Value, Arguments;
  }

  /** Pruning the joins preserves the selection: the same entries in the same order. */
  lemma PruningPreservesSelection(l: Listing, cursor: Option<Key>, limit: nat)
    requires Referential(l.t)
    ensures var args := Arguments(l, cursor, limit);
            var condition := WhereClause(l.plan, cursor, |args|);
            var joins := PrunedJoins(l.t, FilterAliases(l.plan, cursor, |args|));
            Selection(l, condition, args, JoinAll(ItemRows(l.t.items), joins))
            == Selection(l, condition, args, JoinAll(ItemRows(l.t.items), AllJoins(l.t)))
  {
    hide Referential, JoinAll, ItemRows, AllJoins, PrunedJoins, FilterAliases, WhereClause, SelectedEntry, Arguments,
         AgreeOn;
    var args := Arguments(l, cursor, limit);
    var aliases := FilterAliases(l.plan, cursor, |args|);
    var full, pruned := JoinAll(ItemRows(l.t.items), AllJoins(l.t)),
        JoinAll(ItemRows(l.t.items), PrunedJoins(l.t, aliases));
    PruningKeepsRows(l.t, aliases);
    var keep := (row: Row) => Eval(l.w, WhereClause(l.plan, cursor, |args|), row, args) == Yes;
    var entry := (row: Row) => SelectedEntry(l, row, args);
    forall k | 0 <= k < |full| ensures keep(pruned[k]) == keep(full[k]) && entry(pruned[k]) == entry(full[k]) {
      AgreeingRows(l, cursor, limit, full[k], pruned[k]);
    }
    PickEqual(pruned, full, keep, keep, entry, entry);
  }

  /* ---------- a request shows the next page of the reference ---------- */

  /** The setting of a listing: its plan comes from the query with only the chosen projects' definitions loaded. */
  ghost predicate Compiled(l: Listing, q: Q.Query, some: C.Options, all: C.Options, defs: seq<N.Definition>) {
    && C.CompileQuery(q, some) == Ok(l.plan) && C.CompileQuery(q, all).Ok?
    && some.start == 6 && N.SameRequest(some, all)
    && N.Loaded(some, defs, N.ChosenProjects(l.request.project, q)) && N.Loaded(all, defs, [])
  }

  /** The full statement on a row of the full join: the row is listed, not too new, and after the cursor. */
  lemma RowPasses(l: Listing, q: Q.Query, some: C.Options, all: C.Options, defs: seq<N.Definition>,
      cursor: Option<Key>, limit: nat, row: Row)
    requires SoundWorld(l.w) && Compiled(l, q, some, all, defs) && N.Consistent(l.w, defs, row)
    requires cursor.Some? ==> Carries(l, cursor.value)
    requires !ColumnOf(row, I, "id").Null?
    ensures var args := Arguments(l, cursor, limit);
            var listed := Listed(l.w, all, q, l.request, row) && UpTo(l.w, l.request, row);
            && (Eval(l.w, WhereClause(l.plan, cursor, |args|), row, args) == Yes
                <==> listed && IsAfter(OrderOf(l), cursor, ListedEntry(l.w, all, q, row).key))
            && (listed ==> SelectedEntry(l, row, args) == ListedEntry(l.w, all, q, row))
  {
    var args := Arguments(l, cursor, limit);
    C.PlanMeans(l.w, some, q, Leading(l, cursor, limit), l.request.projection + SortArguments(l, cursor), row);
    BaseMeans(l, cursor, limit, row);
    PredicateMeans(l, cursor, limit, row);
    hide Arguments, Leading, SortArguments, SoundWorld, N.Consistent, N.Loaded, C.CompileQuery, C.Holds, C.FieldValue,
         Carries, CursorPredicate, UpTo, IsAfter, Value, Compare, ColumnOf;
    BothYes(l.w, Base, Both(l.plan.where_, CursorPredicate(l.plan, cursor, |args|)), row, args);
    BothYes(l.w, l.plan.where_, CursorPredicate(l.plan, cursor, |args|), row, args);
    if N.PassesParameter(row, l.request.project) {
      N.NarrowingPreservesResults(l.w, defs, l.request.project, q, some, all, row);
    }
    hide N.PassesParameter, Eval;
  }

  /** Everything a listing needs of its surroundings. */
  ghost predicate Setting(l: Listing, q: Q.Query, some: C.Options, all: C.Options, defs: seq<N.Definition>) {
    && SoundWorld(l.w) && Referential(l.t) && Compiled(l, q, some, all, defs)
    && (forall row | row in JoinAll(ItemRows(l.t.items), AllJoins(l.t)) :: N.Consistent(l.w, defs, row))
    && forall e | e in Reference(l.w, all, q, l.request, l.t) :: Carries(l, e.key)
  }

  /** The rows of the full join are the items, in order. */
  lemma FullRows(t: Tables)
    requires Referential(t)
    ensures var full := JoinAll(ItemRows(t.items), AllJoins(t));
            |full| == |t.items| && forall k | 0 <= k < |full| ::
              I in full[k] && full[k][I] == t.items[k] && ColumnOf(full[k], I, "id") == Field(t.items[k], "id")
              && !Field(t.items[k], "id").Null?
  {
    PruningKeepsRows(t, {});
    hide JoinAll, AllJoins, ItemRows;
    var full := JoinAll(ItemRows(t.items), AllJoins(t));
    forall k | 0 <= k < |full| ensures I in full[k] && full[k][I] == t.items[k] {
      assert AgreeOn({I}, full[k], map[I := t.items[k]]);
      assert I in {I};
    }
  }

  /** Over the full join the statement picks the reference's entries after the cursor. */
  lemma FullSelection(l: Listing, q: Q.Query, some: C.Options, all: C.Options, defs: seq<N.Definition>,
      cursor: Option<Key>, limit: nat)
    requires Setting(l, q, some, all, defs) && (cursor.Some? ==> Carries(l, cursor.value))
    ensures var args := Arguments(l, cursor, limit);
            Selection(l, WhereClause(l.plan, cursor, |args|), args, JoinAll(ItemRows(l.t.items), AllJoins(l.t)))
            == Filter(Reference(l.w, all, q, l.request, l.t), (e: Entry) => IsAfter(OrderOf(l), cursor, e.key))
  {
    FullRows(l.t);
    hide SoundWorld, Referential, Compiled, N.Consistent, JoinAll, ItemRows, AllJoins, Arguments, WhereClause,
         SelectedEntry, ListedEntry, Listed, UpTo, Carries, IsAfter;
    var args := Arguments(l, cursor, limit);
    var full := JoinAll(ItemRows(l.t.items), AllJoins(l.t));
    var keep := (row: Row) => Eval(l.w, WhereClause(l.plan, cursor, |args|), row, args) == Yes;
    var entry := (row: Row) => SelectedEntry(l, row, args);
    var listed := (row: Row) => Listed(l.w, all, q, l.request, row) && UpTo(l.w, l.request, row);
    var shown := (row: Row) => ListedEntry(l.w, all, q, row);
    var after := (e: Entry) => IsAfter(OrderOf(l), cursor, e.key);
    forall k | 0 <= k < |full|
      ensures keep(full[k]) == (listed(full[k]) && after(shown(full[k])))
              && (keep(full[k]) ==> entry(full[k]) == shown(full[k]))
    {
      assert full[k] in full;
      RowPasses(l, q, some, all, defs, cursor, limit, full[k]);
    }
    var both := (row: Row) => listed(row) && after(shown(row));
    PickEqual(full, full, keep, both, entry, shown);
    PickFilter(full, listed, shown, after, both);
  }

  lemma {:induction false} PickOrigin(rows: seq<Row>, keep: Row -> bool, entry: Row -> Entry, i: nat, j: nat)
      returns (a: nat, b: nat)
    requires i < j < |Pick(rows, keep, entry)|
    ensures a < b < |rows| && entry(rows[a]) == Pick(rows, keep, entry)[i]
            && entry(rows[b]) == Pick(rows, keep, entry)[j]
  {
    var n := |rows| - 1;
    var front := Pick(rows[..n], keep, entry);
    if j < |front| {
      a, b := PickOrigin(rows[..n], keep, entry, i, j);
    } else {
      b := n;
      a := PickOne(rows[..n], keep, entry, i);
    }
  }

  lemma {:induction false} PickOne(rows: seq<Row>, keep: Row -> bool, entry: Row -> Entry, i: nat) returns (a: nat)
    requires i < |Pick(rows, keep, entry)|
    ensures a < |rows| && keep(rows[a]) && entry(rows[a]) == Pick(rows, keep, entry)[i]
  {
    var n := |rows| - 1;
    var front := Pick(rows[..n], keep, entry);
    if i < |front| { a := PickOne(rows[..n], keep, entry, i); } else { a := n; }
  }

  /** No item is listed twice. */
  lemma ReferenceIsDistinct(w: World, o: C.Options, q: Q.Query, r: Request, t: Tables)
    requires Referential(t)
    ensures DistinctIds(Reference(w, o, q, r, t))
  {
    FullRows(t);
    assert Unique(t.items, "id");
    hide Referential, JoinAll, ItemRows, AllJoins, Listed, UpTo;
    var full := JoinAll(ItemRows(t.items), AllJoins(t));
    var listed := (row: Row) => Listed(w, o, q, r, row) && UpTo(w, r, row);
    var shown := (row: Row) => ListedEntry(w, o, q, row);
    var s := Pick(full, listed, shown);
    assert s == Reference(w, o, q, r, t);
    forall i | 0 <= i < |s| ensures !s[i].key.id.Null? {
      var a := PickOne(full, listed, shown, i);
    }
    forall i, j | 0 <= i < j < |s| ensures s[i].key.id != s[j].key.id {
      var a, b := PickOrigin(full, listed, shown, i, j);
    }
  }

  /** The result of the listing as a whole: every listed item, sorted, nulls last. */
  ghost function Answer(l: Listing, q: Q.Query, all: C.Options): seq<Entry> {
    OrderBy(OrderOf(l), Reference(l.w, all, q, l.request, l.t))
  }

  lemma PageSelects(l: Listing, q: Q.Query, some: C.Options, all: C.Options, defs: seq<N.Definition>,
      cursor: Option<Key>, limit: nat)
    requires Setting(l, q, some, all, defs) && (cursor.Some? ==> Carries(l, cursor.value))
    ensures SelectedPage(l, cursor, limit)
         == Take(Filter(Answer(l, q, all), (e: Entry) => IsAfter(OrderOf(l), cursor, e.key)), limit + 1)
  {
    FullSelection(l, q, some, all, defs, cursor, limit);
    ReferenceIsDistinct(l.w, all, q, l.request, l.t);
    PruningPreservesSelection(l, cursor, limit);
    SettingTotal(l, q, some, all, defs);
    hide Setting, Reference, Selection, Carries, DistinctIds, Total, JoinAll, ItemRows, AllJoins, PrunedJoins,
         FilterAliases, OrderBy, Filter, Arguments, IsAfter, OrderOf;
    FilterThenOrder(OrderOf(l), Reference(l.w, all, q, l.request, l.t),
        (e: Entry) => IsAfter(OrderOf(l), cursor, e.key));
  }

  /** A request with a cursor gets the page of the answer that the cursor calls for. */
  lemma RequestIsPage(l: Listing, q: Q.Query, some: C.Options, all: C.Options, defs: seq<N.Definition>,
      cursor: Option<Key>, limit: Limit)
    requires Setting(l, q, some, all, defs) && (cursor.Some? ==> Carries(l, cursor.value))
    ensures RequestPage(l, cursor, limit) == PageOf(OrderOf(l), Answer(l, q, all), cursor, limit)
  {
    hide Setting, Carries, SelectedPage, Filter, Answer;
    PageSelects(l, q, some, all, defs, cursor, limit);
  }

  lemma SettingTotal(l: Listing, q: Q.Query, some: C.Options, all: C.Options, defs: seq<N.Definition>)
    requires Setting(l, q, some, all, defs)
    ensures Total(OrderOf(l).less)
  {
  }

  /** The bytes of a sort value in the cursor's JSON. */
  function SortBytes(l: Listing, sort: Datum): nat {
    if sort.Null? then |"null"|
    else match l.codec.sortArgument(sort)
      case Text(t) => if l.plan.orderKind == C.NumberKind then |t| else T.JsonString(t)
      case Bool(b) => if b then |"true"| else |"false"|
      case _ => |"null"|
  }

  /** The cursor of a row comes back from its token. */
  predicate Fits(l: Listing, k: Key) {
    T.TokenFits(T.CursorBytes(l.codec.idText(k.id), SortBytes(l, k.sort), l.request.upper, l.request.scope,
        l.request.at))
  }

  function FitTest(l: Listing): Key -> bool {
    k => Fits(l, k)
  }

  /** Following the cursors, with one limit per request; a token that does not fit is refused. */
  function Browse(l: Listing, cursor: Option<Key>, limits: seq<Limit>): (seq<Entry>, Rest)
    decreases |limits|
  {
    if limits == [] then ([], More)
    else if cursor.Some? && !Fits(l, cursor.value) then ([], Rejected)
    else
      var page := RequestPage(l, cursor, limits[0]);
      if page.next.None? then (page.data, Finished)
      else
        var rest := Browse(l, page.next, limits[1..]);
        (page.data + rest.0, rest.1)
  }

  /** Every cursor that a page hands out is the key of a listed item. */
  lemma NextIsListed(o: Order, answer: seq<Entry>, cursor: Option<Key>, limit: Limit)
    ensures var next := PageOf(o, answer, cursor, limit).next;
            next.Some? ==> exists e :: e in answer && e.key == next.value
  {
    var p := (e: Entry) => IsAfter(o, cursor, e.key);
    var rows := Filter(answer, p);
    if |rows| > limit {
      FilterCounts(answer, p);
      assert rows[limit - 1] in multiset(rows);
      assert rows[limit - 1] in answer;
    }
  }

  lemma AnswerCarries(l: Listing, q: Q.Query, some: C.Options, all: C.Options, defs: seq<N.Definition>, e: Entry)
    requires Setting(l, q, some, all, defs) && e in Answer(l, q, all)
    ensures Carries(l, e.key)
  {
    hide Carries, Reference;
    assert e in multiset(Answer(l, q, all));
    assert e in multiset(Reference(l.w, all, q, l.request, l.t));
  }

  lemma {:induction false} BrowseIsWalk(l: Listing, q: Q.Query, some: C.Options, all: C.Options,
                                        defs: seq<N.Definition>, cursor: Option<Key>, limits: seq<Limit>)
    requires Setting(l, q, some, all, defs) && (cursor.Some? ==> Carries(l, cursor.value))
    ensures Browse(l, cursor, limits) == Walk(OrderOf(l), Answer(l, q, all), FitTest(l), cursor, limits)
    decreases |limits|
  {
    hide Setting, Carries, Answer, RequestPage, PageOf;
    if limits != [] && !(cursor.Some? && !Fits(l, cursor.value)) {
      RequestIsPage(l, q, some, all, defs, cursor, limits[0]);
      var page := RequestPage(l, cursor, limits[0]);
      if page.next.Some? {
        NextIsListed(OrderOf(l), Answer(l, q, all), cursor, limits[0]);
        var e :| e in Answer(l, q, all) && e.key == page.next.value;
        AnswerCarries(l, q, some, all, defs, e);
        BrowseIsWalk(l, q, some, all, defs, page.next, limits[1..]);
      }
    }
  }

  /**
   The listing is exact.  Over a fixed database, whatever the limits, the pages joined together are a
   prefix of the sorted list of exactly the items that satisfy the query (read off its syntax tree,
   with every field definition and every join); the walk finishes, with all of them, exactly when the
   limits reach the end and every cursor on the way fitted its token.
   */
  lemma ListingIsExact(l: Listing, q: Q.Query, some: C.Options, all: C.Options, defs: seq<N.Definition>,
      limits: seq<Limit>)
    requires Setting(l, q, some, all, defs)
    ensures var (data, rest) := Browse(l, None, limits); var answer := Answer(l, q, all);
            && data <= answer
            && (rest == Finished ==> data == answer)
            && (rest == Finished <==>
                limits != [] && BoundariesFit(answer, FitTest(l), 0, limits) && Sum(limits) >= |answer|)
            && (rest == Rejected <==> !BoundariesFit(answer, FitTest(l), 0, limits))
            && (rest == More ==> |data| == Sum(limits))
  {
    BrowseIsWalk(l, q, some, all, defs, None, limits);
    ReferenceIsDistinct(l.w, all, q, l.request, l.t);
    SettingTotal(l, q, some, all, defs);
    hide Setting, Reference, Browse;
    WalkIsExact(OrderOf(l), Reference(l.w, all, q, l.request, l.t), FitTest(l), limits);
    hide Walk, OrderBy, BoundariesFit;
  }

  /** The answer is the reference in another order. */
  lemma AnswerIsReference(l: Listing, q: Q.Query, all: C.Options)
    ensures var reference := Reference(l.w, all, q, l.request, l.t);
            |Answer(l, q, all)| == |reference| && forall e | e in Answer(l, q, all) :: e in reference
  {
    hide Reference, OrderBy;
    var reference, answer := Reference(l.w, all, q, l.request, l.t), Answer(l, q, all);
    assert |multiset(answer)| == |multiset(reference)|;
    forall e | e in answer ensures e in reference {
      assert e in multiset(answer);
      assert e in multiset(reference);
    }
  }

  /**
   The condition on cursors can fail: a listing by a text, of which the first item's has 6053
   characters or more, never gets past its first page of one item.
   */
  lemma LongSortStops(l: Listing, q: Q.Query, some: C.Options, all: C.Options, defs: seq<N.Definition>, text: string)
    requires Setting(l, q, some, all, defs) && |Answer(l, q, all)| >= 2
    requires var sort := Answer(l, q, all)[0].key.sort; !sort.Null? && l.codec.sortArgument(sort) == Text(text)
    requires l.plan.orderKind == C.TextKind && |text| >= 6053
    ensures Browse(l, None, [1, 1]) == (Answer(l, q, all)[..1], Rejected)
  {
    AnswerIsSorted(l, q, some, all, defs);
    LongKeyDoesNotFit(l, Answer(l, q, all)[0].key, text);
    hide Setting, Browse, Walk, Total, Sorted, Fits, FitTest, Carries, Answer;
    BrowseIsWalk(l, q, some, all, defs, None, [1, 1]);
    LongCursorStops(OrderOf(l), Answer(l, q, all), FitTest(l));
  }

  lemma LongKeyDoesNotFit(l: Listing, k: Key, text: string)
    requires !k.sort.Null? && l.codec.sortArgument(k.sort) == Text(text)
    requires l.plan.orderKind == C.TextKind && |text| >= 6053
    ensures !FitTest(l)(k)
  {
    T.LongTextDoesNotFit(l.codec.idText(k.id), text, l.request.upper, l.request.scope, l.request.at);
    hide T.TokenFits, T.CursorBytes, T.JsonString;
  }

  lemma AnswerIsSorted(l: Listing, q: Q.Query, some: C.Options, all: C.Options, defs: seq<N.Definition>)
    requires Setting(l, q, some, all, defs)
    ensures Total(OrderOf(l).less) && Sorted(OrderOf(l), Answer(l, q, all))
  {
    SettingTotal(l, q, some, all, defs);
    SettingReferential(l, q, some, all, defs);
    hide Setting, Reference, Total, Sorted, OrderBy, DistinctIds, Referential;
    ReferenceIsDistinct(l.w, all, q, l.request, l.t);
    OrderBySorts(OrderOf(l), Reference(l.w, all, q, l.request, l.t));
  }

  lemma SettingReferential(l: Listing, q: Q.Query, some: C.Options, all: C.Options, defs: seq<N.Definition>)
    requires Setting(l, q, some, all, defs)
    ensures Referential(l.t)
  {
  }

  /* ---------- the upper bound and the hydration ---------- */

  lemma NotLaterIsUpTo(w: World, r: Request, row: Row)
    requires SoundWorld(w) && !ColumnOf(row, I, "id").Null?
    requires !w.less(w.cast(UuidType, Text(r.upper)), ColumnOf(row, I, "id"))
    ensures UpTo(w, r, row)
  {
  }

  /** When no item of the workspace is newer than the upper bound, the bound leaves nothing out. */
  lemma NewestUpperShowsAll(w: World, o: C.Options, q: Q.Query, r: Request, t: Tables)
    requires SoundWorld(w) && Referential(t)
    requires forall i | 0 <= i < |t.items| :: !w.less(w.cast(UuidType, Text(r.upper)), Field(t.items[i], "id"))
    ensures var full := JoinAll(ItemRows(t.items), AllJoins(t));
            Reference(w, o, q, r, t) == Pick(full, row => Listed(w, o, q, r, row), row => ListedEntry(w, o, q, row))
  {
    FullRows(t);
    hide JoinAll, AllJoins, ItemRows, Listed, ListedEntry, Referential, SoundWorld, UpTo, ColumnOf, Field;
    var full := JoinAll(ItemRows(t.items), AllJoins(t));
    forall k | 0 <= k < |full| ensures UpTo(w, r, full[k]) { NotLaterIsUpTo(w, r, full[k]); }
    var shown := (row: Row) => ListedEntry(w, o, q, row);
    PickEqual(full, full, row => Listed(w, o, q, r, row) && UpTo(w, r, row), row => Listed(w, o, q, r, row),
              shown, shown);
  }

  /** The lateral join that hydrates one entry of a page: the rows of the full join with its id. */
  function WithId(rows: seq<Row>, id: Datum): seq<Row> {
    if rows == [] then []
    else WithId(rows[..|rows| - 1], id) + if HasId(rows[|rows| - 1], id) then [rows[|rows| - 1]] else []
  }

  predicate HasId(row: Row, id: Datum) {
    !id.Null? && ColumnOf(row, I, "id") == id
  }

  lemma {:induction false} OnlyOneWithId(rows: seq<Row>, a: nat)
    requires a < |rows| && !ColumnOf(rows[a], I, "id").Null?
    requires forall k | 0 <= k < |rows| && k != a :: ColumnOf(rows[k], I, "id") != ColumnOf(rows[a], I, "id")
    ensures WithId(rows, ColumnOf(rows[a], I, "id")) == [rows[a]]
  {
    var n := |rows| - 1;
    var id := ColumnOf(rows[a], I, "id");
    if a == n { NoneWithId(rows[..n], id); } else { OnlyOneWithId(rows[..n], a); }
  }

  lemma {:induction false} NoneWithId(rows: seq<Row>, id: Datum)
    requires forall k | 0 <= k < |rows| :: ColumnOf(rows[k], I, "id") != id
    ensures WithId(rows, id) == []
  {
    if rows != [] { NoneWithId(rows[..|rows| - 1], id); }
  }

  /** Hydration neither loses nor multiplies an entry: it finds the one full row of the entry's item. */
  lemma HydrationIsExact(w: World, o: C.Options, q: Q.Query, r: Request, t: Tables, e: Entry)
    requires Referential(t) && e in Reference(w, o, q, r, t)
    ensures var found := WithId(JoinAll(ItemRows(t.items), AllJoins(t)), e.key.id);
            |found| == 1 && ItemOf(found[0]) == e.item && ListedEntry(w, o, q, found[0]) == e
  {
    FullRows(t);
    assert Unique(t.items, "id");
    hide Referential, JoinAll, ItemRows, AllJoins, Listed, UpTo, C.FieldValue;
    var full := JoinAll(ItemRows(t.items), AllJoins(t));
    var s := Reference(w, o, q, r, t);
    var i :| 0 <= i < |s| && s[i] == e;
    var a := PickOne(full, row => Listed(w, o, q, r, row) && UpTo(w, r, row), row => ListedEntry(w, o, q, row), i);
    OnlyOneWithId(full, a);
  }
}
