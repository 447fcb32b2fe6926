/**
 The compiler from queries to parameterised SQL (internal/sxq/compile.go), and the proof that what it
 emits means what the query says.
 */
module SxqCompile {
  import opened Wrappers
  import opened Sxq
  import Sql

  datatype Kind = UuidKind | TextKind | NumberKind | DateKind | InstantKind | BoolKind | SearchKind | ArrayKind

  datatype FieldRef = FieldRef(sql: Sql.Scalar, kind: Kind)

  datatype CustomField = CustomField(projectId: string, kind: string)

  /** The text checks and formats of Go's uuid and time packages. */
  datatype Library = Library(isUuid: string -> bool, isDate: string -> bool, isInstant: string -> bool,
                             day: int -> string, instant: int -> string)

  datatype Options = Options(userId: string, now: int, start: nat, custom: map<string, seq<CustomField>>, lib: Library)

  datatype Error =
    | UnknownField(name: string)
    | MixedTypes(name: string)
    | UnsupportedType
    | NoValues
    | NotSearchable
    | SearchNeedsText
    | TextNeedsSearch
    | IsNeedsNull
    | NullNeedsIs
    | ArrayComparison
    | WrongValue(kind: Kind)
    | WrongFunction
    | NoUser
    | CannotOrder

  datatype Plan = Plan(where_: Sql.Condition, order: Sql.Scalar, orderKind: Kind, desc: bool, args: seq<Sql.Datum>)

  /** What a step of the compiler leaves: the arguments so far and its result. */
  datatype Step<T> = Step(args: seq<Sql.Datum>, out: Result<T, Error>)

  function Known(alias: Sql.Alias, name: string, kind: Kind): FieldRef {
    FieldRef(Sql.Column(alias, name), kind)
  }

  const FIELDS: map<string, FieldRef> := map[
    "id" := Known(Sql.I, "id", UuidKind), "key" := Known(Sql.I, "key", TextKind),
    "title" := Known(Sql.I, "title", TextKind), "body" := Known(Sql.I, "body", TextKind),
    "rank" := Known(Sql.I, "rank", TextKind), "project" := Known(Sql.P, "key_prefix", TextKind),
    "type" := Known(Sql.T, "key", TextKind), "type.level" := Known(Sql.T, "level", NumberKind),
    "status" := Known(Sql.S, "key", TextKind), "status.category" := Known(Sql.S, "category", TextKind),
    "assignee" := Known(Sql.I, "assignee_id", UuidKind), "parent" := Known(Sql.Par, "key", TextKind),
    "points" := Known(Sql.I, "points", NumberKind), "version" := Known(Sql.I, "version", NumberKind),
    "change_seq" := Known(Sql.I, "change_seq", NumberKind),
    "config_version" := Known(Sql.I, "config_version", NumberKind),
    "start_date" := Known(Sql.I, "start_date", DateKind), "due_date" := Known(Sql.I, "due_date", DateKind),
    "created_at" := Known(Sql.I, "created_at", InstantKind), "updated_at" := Known(Sql.I, "updated_at", InstantKind),
    "deleted_at" := Known(Sql.I, "deleted_at", InstantKind),
    "rollup.descendant_count" := Known(Sql.R, "descendant_count", NumberKind),
    "rollup.done_count" := Known(Sql.R, "done_count", NumberKind),
    "rollup.points_total" := Known(Sql.R, "points_total", NumberKind),
    "rollup.points_done" := Known(Sql.R, "points_done", NumberKind),
    "rollup.earliest_start" := Known(Sql.R, "earliest_start", DateKind),
    "rollup.latest_due" := Known(Sql.R, "latest_due", DateKind),
    "text" := Known(Sql.I, "search_tsv", SearchKind)]

  function BuiltIn(name: string): Option<FieldRef> {
    if name in FIELDS then Some(FIELDS[name]) else None
  }

  const CUSTOM_PREFIX: string := "fields."

  /** The key of a custom field's name. */
  function CustomKey(name: string): Option<string> {
    if CUSTOM_PREFIX <= name then Some(name[|CUSTOM_PREFIX|..]) else None
  }

  /** The cast of a configured field's stored text; a multiselect stays JSON. */
  function CustomType(kind: string): Option<(Option<Sql.Type>, Kind)> {
    if kind == "text" || kind == "url" || kind == "select" then Some((Some(Sql.TextType), TextKind))
    else if kind == "number" then Some((Some(Sql.NumericType), NumberKind))
    else if kind == "bool" then Some((Some(Sql.BoolType), BoolKind))
    else if kind == "date" then Some((Some(Sql.DateType), DateKind))
    else if kind == "user" then Some((Some(Sql.UuidType), UuidKind))
    else if kind == "multiselect" then Some((None, ArrayKind))
    else None
  }

  /** Byte order of strings, as sort.Strings uses it. */
  predicate AtMost(a: string, b: string) {
    a == "" || (b != "" && (a[0] < b[0] || (a[0] == b[0] && AtMost(a[1..], b[1..]))))
  }

  function InsertText(x: string, sorted: seq<string>): (r: seq<string>)
    ensures multiset(r) == multiset(sorted) + multiset{x}
  {
    if sorted == [] || AtMost(x, sorted[0]) then [x] + sorted
    else
      assert sorted == [sorted[0]] + sorted[1..];
      [sorted[0]] + InsertText(x, sorted[1..])
  }

  function SortTexts(xs: seq<string>): (r: seq<string>)
    ensures multiset(r) == multiset(xs)
  {
    if xs == [] then []
    else
      assert xs == xs[..|xs| - 1] + [xs[|xs| - 1]];
      InsertText(xs[|xs| - 1], SortTexts(xs[..|xs| - 1]))
  }

  /** Byte order: a proper prefix first, and otherwise by the first byte that differs. */
  ghost predicate ByteOrder(a: string, b: string) {
    a <= b || exists k :: 0 <= k < |a| && k < |b| && a[..k] == b[..k] && a[k] < b[k]
  }

  lemma {:induction false} AtMostIsByteOrder(a: string, b: string)
    ensures AtMost(a, b) <==> ByteOrder(a, b)
  {
    if a != "" && b != "" {
      FirstDecides(a, b);
      if a[0] == b[0] { AtMostIsByteOrder(a[1..], b[1..]); }
      hide ByteOrder;
    }
  }

  lemma FirstDecides(a: string, b: string)
    requires a != "" && b != ""
    ensures ByteOrder(a, b) <==> a[0] < b[0] || (a[0] == b[0] && ByteOrder(a[1..], b[1..]))
  {
    assert a == [a[0]] + a[1..] && b == [b[0]] + b[1..] && a[..0] == b[..0];
    assert a[0] == b[0] ==> (a <= b <==> a[1..] <= b[1..]);
    forall k | 0 <= k < |a| - 1 && k < |b| - 1 && a[0] == b[0]
      ensures a[1..][..k] == b[1..][..k] <==> a[..k + 1] == b[..k + 1]
    {
      assert a[..k + 1] == [a[0]] + a[1..][..k] && b[..k + 1] == [b[0]] + b[1..][..k];
    }
    if k :| 0 <= k < |a| && k < |b| && a[..k] == b[..k] && a[k] < b[k] {
      if k > 0 {
        assert a[..k][0] == b[..k][0];
        assert a[1..][..k - 1] == b[1..][..k - 1] && a[1..][k - 1] < b[1..][k - 1];
      }
    }
    if a[0] == b[0] {
      if k :| 0 <= k < |a[1..]| && k < |b[1..]| && a[1..][..k] == b[1..][..k] && a[1..][k] < b[1..][k] {
        assert a[..k + 1] == b[..k + 1] && a[k + 1] < b[k + 1];
      }
    }
  }

  lemma {:induction false} AtMostIsOrder(a: string, b: string, c: string)
    ensures AtMost(a, b) || AtMost(b, a)
    ensures AtMost(a, b) && AtMost(b, c) ==> AtMost(a, c)
  {
    if a != "" && b != "" {
      AtMostIsOrder(a[1..], b[1..], if c == "" then c else c[1..]);
    }
  }

  ghost predicate Rising(s: seq<string>) {
    forall i, j | 0 <= i < j < |s| :: AtMost(s[i], s[j])
  }

  lemma RisingJoin(x: string, s: seq<string>)
    requires Rising(s) && forall y | y in s :: AtMost(x, y)
    ensures Rising([x] + s)
  {
    hide AtMost;
  }

  lemma {:induction false} InsertKeepsOrder(x: string, sorted: seq<string>)
    requires Rising(sorted)
    ensures Rising(InsertText(x, sorted))
  {
    hide AtMost;
    if sorted != [] {
      if AtMost(x, sorted[0]) {
        forall y | y in sorted ensures AtMost(x, y) { AtMostIsOrder(x, sorted[0], y); }
        RisingJoin(x, sorted);
      } else {
        AtMostIsOrder(x, sorted[0], x);
        var rest := InsertText(x, sorted[1..]);
        InsertKeepsOrder(x, sorted[1..]);
        forall y | y in rest ensures AtMost(sorted[0], y) { assert y in multiset(rest); }
        RisingJoin(sorted[0], rest);
      }
    }
  }

  lemma {:induction false} SortRises(xs: seq<string>)
    ensures Rising(SortTexts(xs))
  {
    if xs != [] {
      SortRises(xs[..|xs| - 1]);
      hide Rising;
      InsertKeepsOrder(xs[|xs| - 1], SortTexts(xs[..|xs| - 1]));
    }
  }

  /** The guard's project ids stand in byte order, each as often as it is defined. */
  lemma SortsByBytes(xs: seq<string>)
    ensures multiset(SortTexts(xs)) == multiset(xs)
    ensures forall i, j | 0 <= i < j < |SortTexts(xs)| :: ByteOrder(SortTexts(xs)[i], SortTexts(xs)[j])
  {
    hide AtMost, ByteOrder, SortTexts;
    SortRises(xs);
    var r := SortTexts(xs);
    forall i, j | 0 <= i < j < |r| ensures ByteOrder(r[i], r[j]) { AtMostIsByteOrder(r[i], r[j]); }
  }

  function ProjectIds(defs: seq<CustomField>): (ids: seq<string>)
    ensures |ids| == |defs| && forall i | 0 <= i < |defs| :: ids[i] == defs[i].projectId
  {
    seq(|defs|, i requires 0 <= i < |defs| => defs[i].projectId)
  }

  predicate SameKind(defs: seq<CustomField>) {
    forall i | 0 <= i < |defs| :: defs[i].kind == defs[0].kind
  }

  function Defs(o: Options, key: string): seq<CustomField> {
    if key in o.custom then o.custom[key] else []
  }

  /** c.param: a fresh placeholder for one more argument. */
  function Fresh(o: Options, args: seq<Sql.Datum>): Sql.Scalar {
    Sql.Param(o.start + |args|)
  }

  /** One uuid placeholder per project id. */
  function PushIds(o: Options, ids: seq<string>, args: seq<Sql.Datum>): (r: (seq<Sql.Datum>, seq<Sql.Scalar>))
    ensures args <= r.0
  {
    if ids == [] then (args, [])
    else
      var front := PushIds(o, ids[..|ids| - 1], args);
      (front.0 + [Sql.Text(ids[|ids| - 1])], front.1 + [Sql.Cast(Fresh(o, front.0), Sql.UuidType)])
  }

  /** The stored value of a configured field. */
  function Extract(cast: Option<Sql.Type>, key: Sql.Scalar): Sql.Scalar {
    if cast.Some? then Sql.Cast(Sql.FieldText(key), cast.value) else Sql.FieldJson(key)
  }

  function CustomSql(o: Options, name: string, defs: seq<CustomField>, key: string,
      args: seq<Sql.Datum>): (r: Step<FieldRef>)
    requires defs != []
    ensures args <= r.args
  {
    if !SameKind(defs) then Step(args, Err(MixedTypes(name)))
    else
      var pushed := PushIds(o, SortTexts(ProjectIds(defs)), args);
      var k := Fresh(o, pushed.0);
      var all := pushed.0 + [Sql.Text(key)];
      match CustomType(defs[0].kind)
      case None => Step(all, Err(UnsupportedType))
      case Some((cast, kind)) => Step(all, Ok(FieldRef(Sql.WithinProjects(pushed.1, Extract(cast, k)), kind)))
  }

  function FieldSql(o: Options, name: string, args: seq<Sql.Datum>): (r: Step<FieldRef>)
    ensures args <= r.args
  {
    if BuiltIn(name).Some? then Step(args, Ok(BuiltIn(name).value))
    else match CustomKey(name)
      case None => Step(args, Err(UnknownField(name)))
      case Some(key) =>
        if Defs(o, key) == [] then Step(args, Err(UnknownField(name))) else CustomSql(o, name, Defs(o, key), key, args)
  }

  /** c.value: the driver argument for a literal or function where a value of this kind is wanted. */
  function Argument(o: Options, v: Value, kind: Kind): Result<Sql.Datum, Error> {
    match v
    case Me =>
      if kind != UuidKind then Err(WrongFunction)
      else if !o.lib.isUuid(o.userId) then Err(NoUser)
      else Ok(Sql.Text(o.userId))
    case Now(offset) =>
      if kind == DateKind then Ok(Sql.Text(o.lib.day(o.now + offset)))
      else if kind == InstantKind then Ok(Sql.Text(o.lib.instant(o.now + offset)))
      else Err(WrongFunction)
    case Plain(l) =>
      if kind == NumberKind && l.NumberLiteral? then Ok(Sql.Text(l.text))
      else if kind == BoolKind && l.BoolLiteral? then Ok(Sql.Bool(l.b))
      else if l.TextLiteral? && (kind == TextKind || (kind == UuidKind && o.lib.isUuid(l.text))
                                 || (kind == DateKind && o.lib.isDate(l.text))
                                     || (kind == InstantKind && o.lib.isInstant(l.text)))
      then Ok(Sql.Text(l.text))
      else Err(WrongValue(kind))
  }

  /** The cast a placeholder carries. */
  function Converted(kind: Kind, p: Sql.Scalar): Sql.Scalar {
    match kind
    case NumberKind => Sql.Cast(Sql.Cast(p, Sql.TextType), Sql.NumericType)
    case DateKind => Sql.Cast(Sql.Cast(p, Sql.TextType), Sql.DateType)
    case InstantKind => Sql.Cast(Sql.Cast(p, Sql.TextType), Sql.InstantType)
    case UuidKind => Sql.Cast(Sql.Cast(p, Sql.TextType), Sql.UuidType)
    case TextKind => p
    case BoolKind => p
    case SearchKind => p
    case ArrayKind => p
  }

  function Operands(o: Options, kind: Kind, values: seq<Value>, args: seq<Sql.Datum>,
      done: seq<Sql.Scalar>): (r: Step<seq<Sql.Scalar>>)
    ensures args <= r.args
    ensures r.out.Ok? ==> |r.out.value| == |done| + |values| && done <= r.out.value
    decreases |values|
  {
    if values == [] then Step(args, Ok(done))
    else match Argument(o, values[0], kind)
      case Err(e) => Step(args, Err(e))
      case Ok(v) => Operands(o, kind, values[1..], args + [v], done + [Converted(kind, Fresh(o, args))])
  }

  function SqlComparison(op: Op): Option<Sql.Comparison> {
    match op
    case EqOp => Some(Sql.Eq)
    case NeOp => Some(Sql.Ne)
    case GtOp => Some(Sql.Gt)
    case GeOp => Some(Sql.Ge)
    case LtOp => Some(Sql.Lt)
    case LeOp => Some(Sql.Le)
    case InOp => None
    case NotInOp => None
    case IsOp => None
    case IsNotOp => None
    case TildeOp => None
    case ColonOp => None
  }

  predicate IsNullValue(v: Value) {
    v == Plain(NullLiteral)
  }

  predicate Searches(op: Op) {
    op == TildeOp || op == ColonOp
  }

  predicate Searchable(field: string) {
    field == "text" || field == "title" || field == "body"
  }

  function SearchSql(o: Options, name: string, field: FieldRef, v: Value,
      args: seq<Sql.Datum>): (r: Step<Sql.Condition>)
    ensures args <= r.args
  {
    if !Searchable(name) then Step(args, Err(NotSearchable))
    else if !(v.Plain? && v.literal.TextLiteral?) then Step(args, Err(SearchNeedsText))
    else
      var doc := if name == "text" then field.sql else Sql.TextVector(field.sql);
      Step(args + [Sql.Text(v.literal.text)], Ok(Sql.Search(doc, Fresh(o, args))))
  }

  function CompareSql(o: Options, name: string, field: FieldRef, op: Op, values: seq<Value>,
      args: seq<Sql.Datum>): (r: Step<Sql.Condition>)
    ensures args <= r.args
  {
    if values == [] then Step(args, Err(NoValues))
    else if Searches(op) then SearchSql(o, name, field, values[0], args)
    else if field.kind == SearchKind then Step(args, Err(TextNeedsSearch))
    else
      var isNull := IsNullValue(values[0]);
      if op == IsOp || op == IsNotOp || ((op == EqOp || op == NeOp) && isNull) then
        if !isNull then Step(args, Err(IsNeedsNull))
        else if op == IsNotOp || op == NeOp then Step(args, Ok(Sql.NotNull(field.sql)))
        else Step(args, Ok(Sql.IsNull(field.sql)))
      else if isNull then Step(args, Err(NullNeedsIs))
      else if field.kind == ArrayKind then Step(args, Err(ArrayComparison))
      else
        var done := Operands(o, field.kind, values, args, []);
        match done.out
        case Err(e) => Step(done.args, Err(e))
        case Ok(params) => Step(done.args, Ok(Combined(field.sql, op, params)))
  }

  function Combined(field: Sql.Scalar, op: Op, params: seq<Sql.Scalar>): Sql.Condition
    requires params != [] && op != IsOp && op != IsNotOp && !Searches(op)
  {
    if op == InOp then Sql.Among(field, params)
    else if op == NotInOp then Sql.NotAmong(field, params)
    else Sql.Compared(SqlComparison(op).value, field, params[0])
  }

  function ExprSql(o: Options, e: Expr, args: seq<Sql.Datum>): (r: Step<Sql.Condition>)
    ensures args <= r.args
    decreases e, 1
  {
    match e
    case And(left, right) => PairSql(o, e, args)
    case Or(left, right) => PairSql(o, e, args)
    case Not(inner) =>
      var a := ExprSql(o, inner, args);
      (match a.out case Err(x) => a case Ok(c) => Step(a.args, Ok(Sql.Negated(c))))
    case Compare(name, op, values) =>
      var field := FieldSql(o, name, args);
      match field.out
      case Err(x) => Step(field.args, Err(x))
      case Ok(f) => CompareSql(o, name, f, op, values, field.args)
  }

  function PairSql(o: Options, e: Expr, args: seq<Sql.Datum>): (r: Step<Sql.Condition>)
    requires e.And? || e.Or?
    ensures args <= r.args
    decreases e, 0
  {
    var a := ExprSql(o, e.left, args);
    if a.out.Err? then a
    else
      var b := ExprSql(o, e.right, a.args);
      if b.out.Err? then b
      else Step(b.args, Ok(if e.And? then Sql.Both(a.out.value, b.out.value) else Sql.Either(a.out.value, b.out.value)))
  }

  /** A search vector has no order, and neither has a JSON array. */
  predicate Sortable(kind: Kind) {
    kind != SearchKind && kind != ArrayKind
  }

  function CompileQuery(q: Query, o: Options): Result<Plan, Error> {
    var w := if q.expr.None? then Step([], Ok(Sql.True)) else ExprSql(o, q.expr.value, []);
    if w.out.Err? then Err(w.out.error)
    else
      var f := FieldSql(o, q.order, w.args);
      if f.out.Err? then Err(f.out.error)
      else if !Sortable(f.out.value.kind) then Err(CannotOrder)
      else Ok(Plan(w.out.value, f.out.value.sql, f.out.value.kind, q.desc, f.args))
  }

  /* ---------- what a query says ---------- */

  /** The SQL type that values of a kind have. */
  function TypeOf(kind: Kind): Option<Sql.Type> {
    match kind
    case UuidKind => Some(Sql.UuidType)
    case NumberKind => Some(Sql.NumericType)
    case DateKind => Some(Sql.DateType)
    case InstantKind => Some(Sql.InstantType)
    case TextKind => None
    case BoolKind => None
    case SearchKind => None
    case ArrayKind => None
  }

  /** The item belongs to a project that configures the field. */
  ghost predicate Configured(w: Sql.World, defs: seq<CustomField>, row: Sql.Row) {
    var project := Sql.ColumnOf(row, Sql.I, "project_id");
    !project.Null? && exists i :: 0 <= i < |defs| && project == Sql.CastTo(w, Sql.UuidType, Sql.Text(defs[i].projectId))
  }

  /** The value of a field on an item: a column, or the stored JSON where the item's project configures it. */
  ghost function FieldValue(w: Sql.World, o: Options, name: string, row: Sql.Row): Sql.Datum {
    if BuiltIn(name).Some? then Sql.Value(w, BuiltIn(name).value.sql, row, [])
    else match CustomKey(name)
      case None => Sql.Null
      case Some(key) =>
        var defs := Defs(o, key);
        if defs == [] || CustomType(defs[0].kind).None? || !Configured(w, defs, row) then Sql.Null
        else
          var stored := Sql.FieldOf(row, Sql.Text(key));
          var cast := CustomType(defs[0].kind).value.0;
          if cast.None? then stored else Sql.CastTo(w, cast.value, Sql.Unquoted(w, stored))
  }

  /** The kind of a field, if the name means one here. */
  function FieldKind(o: Options, name: string): Option<Kind> {
    if BuiltIn(name).Some? then Some(BuiltIn(name).value.kind)
    else match CustomKey(name)
      case None => None
      case Some(key) =>
        var defs := Defs(o, key);
        if defs == [] || !SameKind(defs) || CustomType(defs[0].kind).None? then None
        else Some(CustomType(defs[0].kind).value.1)
  }

  /** The value that a literal or function denotes. */
  function Denoted(w: Sql.World, o: Options, v: Value, kind: Kind): Sql.Datum {
    var plain :=
      match v
      case Me => Sql.Text(o.userId)
      case Now(offset) => Sql.Text(if kind == DateKind then o.lib.day(o.now + offset)
          else o.lib.instant(o.now + offset))
      case Plain(NullLiteral) => Sql.Null
      case Plain(BoolLiteral(b)) => Sql.Bool(b)
      case Plain(NumberLiteral(text)) => Sql.Text(text)
      case Plain(TextLiteral(text)) => Sql.Text(text);
    if TypeOf(kind).Some? then Sql.CastTo(w, TypeOf(kind).value, plain) else plain
  }

  /** The text a search looks in. */
  ghost function Document(w: Sql.World, o: Options, name: string, row: Sql.Row): Sql.Datum {
    var d := FieldValue(w, o, name, row);
    if name == "text" then d else w.vector(if d.Text? then d.text else "")
  }

  /** Membership, with the unknown outcome of SQL when nothing equals and a null is involved. */
  ghost function OneOf(x: Sql.Datum, choices: set<Sql.Datum>): Sql.Truth {
    if !x.Null? && x in choices then Sql.Yes
    else if choices == {} || (!x.Null? && Sql.Null !in choices) then Sql.No
    else Sql.Unknown
  }

  /** The truth of an expression on an item, straight from its syntax tree. */
  ghost function Satisfies(w: Sql.World, o: Options, e: Expr, row: Sql.Row): Sql.Truth {
    match e
    case And(left, right) => Sql.And3(Satisfies(w, o, left, row), Satisfies(w, o, right, row))
    case Or(left, right) => Sql.Or3(Satisfies(w, o, left, row), Satisfies(w, o, right, row))
    case Not(inner) => Sql.Not3(Satisfies(w, o, inner, row))
    case Compare(name, op, values) =>
      if values == [] then Sql.Unknown else CompareTruth(w, o, name, op, values, row)
  }

  ghost function CompareTruth(w: Sql.World, o: Options, name: string, op: Op, values: seq<Value>,
      row: Sql.Row): Sql.Truth
    requires values != []
  {
    var kind := if FieldKind(o, name).Some? then FieldKind(o, name).value else TextKind;
    var x, first := FieldValue(w, o, name, row), Denoted(w, o, values[0], kind);
    match op
    case TildeOp => Sql.SearchIn(w, Document(w, o, name, row), first)
    case ColonOp => Sql.SearchIn(w, Document(w, o, name, row), first)
    case IsOp => Sql.Known(x.Null?)
    case IsNotOp => Sql.Known(!x.Null?)
    case EqOp => if IsNullValue(values[0]) then Sql.Known(x.Null?) else Sql.Compare(w, Sql.Eq, x, first)
    case NeOp => if IsNullValue(values[0]) then Sql.Known(!x.Null?) else Sql.Compare(w, Sql.Ne, x, first)
    case GtOp => Sql.Compare(w, Sql.Gt, x, first)
    case GeOp => Sql.Compare(w, Sql.Ge, x, first)
    case LtOp => Sql.Compare(w, Sql.Lt, x, first)
    case LeOp => Sql.Compare(w, Sql.Le, x, first)
    case InOp => OneOf(x, set v | v in values :: Denoted(w, o, v, kind))
    case NotInOp => Sql.Not3(OneOf(x, set v | v in values :: Denoted(w, o, v, kind)))
  }

  /* ---------- the emitted SQL means the same ---------- */

  /** The final argument list holds args at the positions the compiler numbered them. */
  ghost predicate Bound(o: Options, args: seq<Sql.Datum>, all: seq<Sql.Datum>) {
    1 <= o.start && o.start - 1 + |args| <= |all| && all[o.start - 1..o.start - 1 + |args|] == args
  }

  lemma BoundEarlier(o: Options, args: seq<Sql.Datum>, more: seq<Sql.Datum>, all: seq<Sql.Datum>)
    requires Bound(o, more, all) && args <= more
    ensures Bound(o, args, all)
  {
    var from := o.start - 1;
    assert all[from..from + |args|] == all[from..from + |more|][..|args|];
  }

  /** A placeholder keeps the value it was allocated for, whatever is appended later. */
  lemma FreshDenotes(w: Sql.World, o: Options, args: seq<Sql.Datum>, v: Sql.Datum, all: seq<Sql.Datum>, row: Sql.Row)
    requires Bound(o, args + [v], all)
    ensures Sql.Value(w, Fresh(o, args), row, all) == v
  {
    var from := o.start - 1;
    assert all[from..from + |args| + 1][|args|] == v;
  }

  /** The values that the placeholders of project ids take. */
  lemma {:induction false} PushedIdsDenote(w: Sql.World, o: Options, ids: seq<string>, args: seq<Sql.Datum>,
      all: seq<Sql.Datum>, row: Sql.Row)
    requires Bound(o, PushIds(o, ids, args).0, all)
    ensures var ps := PushIds(o, ids, args).1;
            |ps| == |ids| && forall i | 0 <= i < |ids| ::
              Sql.Value(w, ps[i], row, all) == Sql.CastTo(w, Sql.UuidType, Sql.Text(ids[i]))
  {
    if ids != [] {
      var front := PushIds(o, ids[..|ids| - 1], args);
      BoundEarlier(o, front.0, PushIds(o, ids, args).0, all);
      PushedIdsDenote(w, o, ids[..|ids| - 1], args, all, row);
      FreshDenotes(w, o, front.0, Sql.Text(ids[|ids| - 1]), all, row);
    }
  }

  lemma SortedSame(xs: seq<string>, x: string)
    ensures x in SortTexts(xs) <==> x in xs
  {
    assert x in SortTexts(xs) <==> x in multiset(SortTexts(xs));
    assert x in xs <==> x in multiset(xs);
  }

  /** The CASE guard is true exactly where the item's project configures the field. */
  lemma GuardIsConfigured(w: Sql.World, o: Options, defs: seq<CustomField>, args: seq<Sql.Datum>, all: seq<Sql.Datum>,
      row: Sql.Row)
    requires Bound(o, PushIds(o, SortTexts(ProjectIds(defs)), args).0, all)
    ensures var ps := PushIds(o, SortTexts(ProjectIds(defs)), args).1;
            Sql.InList(w, Sql.ColumnOf(row, Sql.I, "project_id"), Sql.Values(w, ps, row, all)) == Sql.Yes
            <==> Configured(w, defs, row)
  {
    var ids := SortTexts(ProjectIds(defs));
    var ps := PushIds(o, ids, args).1;
    var project, given := Sql.ColumnOf(row, Sql.I, "project_id"), Sql.Values(w, ps, row, all);
    PushedIdsDenote(w, o, ids, args, all, row);
    Sql.InListMeaning(w, project, given);
    if Configured(w, defs, row) {
      var i :| 0 <= i < |defs| && project == Sql.CastTo(w, Sql.UuidType, Sql.Text(defs[i].projectId));
      assert ProjectIds(defs)[i] in ProjectIds(defs);
      SortedSame(ProjectIds(defs), defs[i].projectId);
      var k :| 0 <= k < |ids| && ids[k] == defs[i].projectId;
      assert given[k] == project;
    }
    if project in given {
      var k :| 0 <= k < |given| && given[k] == project;
      SortedSame(ProjectIds(defs), ids[k]);
      var i :| 0 <= i < |defs| && ProjectIds(defs)[i] == ids[k];
      assert project == Sql.CastTo(w, Sql.UuidType, Sql.Text(defs[i].projectId));
    }
  }

  lemma ExtractMeans(w: Sql.World, cast: Option<Sql.Type>, k: Sql.Scalar, key: string, all: seq<Sql.Datum>,
      row: Sql.Row)
    requires Sql.Value(w, k, row, all) == Sql.Text(key)
    ensures var stored := Sql.FieldOf(row, Sql.Text(key));
            Sql.Value(w, Extract(cast, k), row, all)
            == if cast.None? then stored else Sql.CastTo(w, cast.value, Sql.Unquoted(w, stored))
  {
    if cast.Some? {
      assert Sql.Value(w, Sql.FieldText(k), row, all) == Sql.Unquoted(w, Sql.FieldOf(row, Sql.Text(key)));
    }
  }

  lemma CustomMeans(w: Sql.World, o: Options, name: string, key: string, args: seq<Sql.Datum>, all: seq<Sql.Datum>,
      row: Sql.Row)
    requires BuiltIn(name).None? && CustomKey(name) == Some(key) && Defs(o, key) != []
    requires CustomSql(o, name, Defs(o, key), key, args).out.Ok?
             && Bound(o, CustomSql(o, name, Defs(o, key), key, args).args, all)
    ensures var r := CustomSql(o, name, Defs(o, key), key, args).out.value;
            Sql.Value(w, r.sql, row, all) == FieldValue(w, o, name, row) && FieldKind(o, name) == Some(r.kind)
  {
    var defs := Defs(o, key);
    hide BuiltIn, Configured, PushIds, Sql.InList, SortTexts, ProjectIds, SameKind, CustomKey, CustomType, Sql.CastTo;
    var pushed := PushIds(o, SortTexts(ProjectIds(defs)), args);
    BoundEarlier(o, pushed.0, pushed.0 + [Sql.Text(key)], all);
    GuardIsConfigured(w, o, defs, args, all, row);
    FreshDenotes(w, o, pushed.0, Sql.Text(key), all, row);
    var k, cast := Fresh(o, pushed.0), CustomType(defs[0].kind).value.0;
    ExtractMeans(w, cast, k, key, all, row);
    assert CustomSql(o, name, defs, key, args).out.value.sql == Sql.WithinProjects(pushed.1, Extract(cast, k));
    hide Extract, CustomSql, Bound, Fresh, Sql.ColumnOf, Sql.FieldOf, Sql.Unquoted;
  }

  lemma BuiltInIsColumn(name: string)
    ensures BuiltIn(name).Some? ==> BuiltIn(name).value.sql.Column?
  {
  }

  /** A compiled field has the field's value, and the kind the checks saw. */
  lemma FieldMeans(w: Sql.World, o: Options, name: string, args: seq<Sql.Datum>, all: seq<Sql.Datum>, row: Sql.Row)
    requires FieldSql(o, name, args).out.Ok? && Bound(o, FieldSql(o, name, args).args, all)
    ensures var r := FieldSql(o, name, args).out.value;
            Sql.Value(w, r.sql, row, all) == FieldValue(w, o, name, row) && FieldKind(o, name) == Some(r.kind)
  {
    BuiltInIsColumn(name);
    hide CustomSql, Bound, BuiltIn;
    if BuiltIn(name).None? { CustomMeans(w, o, name, CustomKey(name).value, args, all, row); }
  }

  lemma ConvertedMeans(w: Sql.World, o: Options, v: Value, kind: Kind, args: seq<Sql.Datum>, all: seq<Sql.Datum>,
      row: Sql.Row)
    requires Argument(o, v, kind).Ok? && Bound(o, args + [Argument(o, v, kind).value], all)
    ensures Sql.Value(w, Converted(kind, Fresh(o, args)), row, all) == Denoted(w, o, v, kind)
  {
    FreshDenotes(w, o, args, Argument(o, v, kind).value, all, row);
    hide Bound;
  }

  lemma {:induction false} OperandsMean(w: Sql.World, o: Options, kind: Kind, values: seq<Value>, args: seq<Sql.Datum>,
                                        done: seq<Sql.Scalar>, all: seq<Sql.Datum>, row: Sql.Row)
    requires var r := Operands(o, kind, values, args, done); r.out.Ok? && Bound(o, r.args, all)
    ensures var ps := Operands(o, kind, values, args, done).out.value;
            forall i | 0 <= i < |values| :: Sql.Value(w, ps[|done| + i], row, all) == Denoted(w, o, values[i], kind)
    decreases |values|
  {
    if values != [] {
      var v := Argument(o, values[0], kind).value;
      var next := done + [Converted(kind, Fresh(o, args))];
      var r := Operands(o, kind, values, args, done);
      assert r == Operands(o, kind, values[1..], args + [v], next);
      OperandsMean(w, o, kind, values[1..], args + [v], next, all, row);
      BoundEarlier(o, args + [v], r.args, all);
      ConvertedMeans(w, o, values[0], kind, args, all, row);
      assert r.out.value[|done|] == next[|done|];
      hide Denoted, Converted, Bound, Sql.Value, Operands;
      forall i | 0 <= i < |values| ensures Sql.Value(w, r.out.value[|done| + i], row, all)
          == Denoted(w, o, values[i], kind) {
        if i > 0 { assert values[i] == values[1..][i - 1]; }
      }
    }
  }

  /** The operator between a field and converted placeholders means the query's comparison. */
  lemma CombinedMeans(w: Sql.World, o: Options, name: string, field: FieldRef, op: Op, values: seq<Value>,
                      params: seq<Sql.Scalar>, all: seq<Sql.Datum>, row: Sql.Row)
    requires values != [] && |params| == |values| && op != IsOp && op != IsNotOp && !Searches(op)
             && !IsNullValue(values[0])
    requires Sql.Value(w, field.sql, row, all) == FieldValue(w, o, name, row) && FieldKind(o, name) == Some(field.kind)
    requires forall i | 0 <= i < |values| :: Sql.Value(w, params[i], row, all) == Denoted(w, o, values[i], field.kind)
    ensures Sql.Eval(w, Combined(field.sql, op, params), row, all) == CompareTruth(w, o, name, op, values, row)
  {
    hide FieldValue, FieldKind, Denoted, Sql.Value;
    if op == InOp || op == NotInOp {
      var x, ys := FieldValue(w, o, name, row), Sql.Values(w, params, row, all);
      ListIsChoice(w, o, field.kind, values, ys);
      Sql.InListMeaning(w, x, ys);
      ghost var choices := set v | v in values :: Denoted(w, o, v, field.kind);
      assert ys[0] in choices;
      assert Sql.InList(w, x, ys) == OneOf(x, choices);
    }
  }

  lemma ListIsChoice(w: Sql.World, o: Options, kind: Kind, values: seq<Value>, ys: seq<Sql.Datum>)
    requires |ys| == |values| && forall i | 0 <= i < |values| :: ys[i] == Denoted(w, o, values[i], kind)
    ensures (set v | v in values :: Denoted(w, o, v, kind)) == set y | y in ys
  {
    hide Denoted;
    forall y | y in ys ensures exists v :: v in values && Denoted(w, o, v, kind) == y {
      var i :| 0 <= i < |ys| && ys[i] == y;
      assert values[i] in values;
    }
    forall v | v in values ensures Denoted(w, o, v, kind) in ys {
      var i :| 0 <= i < |values| && values[i] == v;
      assert ys[i] in ys;
    }
  }

  lemma SearchMeans(w: Sql.World, o: Options, name: string, field: FieldRef, op: Op, values: seq<Value>,
                    args: seq<Sql.Datum>, all: seq<Sql.Datum>, row: Sql.Row)
    requires values != [] && Searches(op)
    requires Sql.Value(w, field.sql, row, all) == FieldValue(w, o, name, row) && FieldKind(o, name) == Some(field.kind)
    requires var r := SearchSql(o, name, field, values[0], args); r.out.Ok? && Bound(o, r.args, all)
    ensures Sql.Eval(w, SearchSql(o, name, field, values[0], args).out.value, row, all)
            == CompareTruth(w, o, name, op, values, row)
  {
    var text := values[0].literal.text;
    hide FieldValue, FieldKind, Bound, Fresh, Searchable;
    FreshDenotes(w, o, args, Sql.Text(text), all, row);
    SearchableKind(o, name);
    var doc := if name == "text" then field.sql else Sql.TextVector(field.sql);
    assert Sql.Value(w, doc, row, all) == Document(w, o, name, row);
    assert Denoted(w, o, values[0], FieldKind(o, name).value) == Sql.Text(text);
    hide Document, Denoted, Sql.Value;
  }

  /** Only texts are searchable, so the looked-for text is taken as it stands. */
  lemma SearchableKind(o: Options, name: string)
    requires Searchable(name)
    ensures FieldKind(o, name).Some? && TypeOf(FieldKind(o, name).value) == None
  {
  }

  lemma CompareMeans(w: Sql.World, o: Options, name: string, field: FieldRef, op: Op, values: seq<Value>,
                     args: seq<Sql.Datum>, all: seq<Sql.Datum>, row: Sql.Row)
    requires Sql.Value(w, field.sql, row, all) == FieldValue(w, o, name, row) && FieldKind(o, name) == Some(field.kind)
    requires var r := CompareSql(o, name, field, op, values, args); r.out.Ok? && Bound(o, r.args, all)
    ensures values != []
    ensures Sql.Eval(w, CompareSql(o, name, field, op, values, args).out.value, row, all)
            == CompareTruth(w, o, name, op, values, row)
  {
    hide FieldValue, FieldKind, Bound, Operands, Combined, SearchSql, Sql.Value, Denoted;
    if Searches(op) {
      SearchMeans(w, o, name, field, op, values, args, all, row);
    } else if !(op == IsOp || op == IsNotOp || IsNullValue(values[0])) {
      OperandsMean(w, o, field.kind, values, args, [], all, row);
      CombinedMeans(w, o, name, field, op, values, Operands(o, field.kind, values, args, []).out.value, all, row);
    }
  }

  /**
   Compilation preserves meaning.  For every expression that compiles, every row, and every final
   argument list that holds the compiler's arguments where it numbered them, the SQL condition has
   the three-valued truth of the expression.
   */
  lemma {:induction false} ExprMeans(w: Sql.World, o: Options, e: Expr, args: seq<Sql.Datum>, all: seq<Sql.Datum>,
      row: Sql.Row)
    requires ExprSql(o, e, args).out.Ok? && Bound(o, ExprSql(o, e, args).args, all)
    ensures Sql.Eval(w, ExprSql(o, e, args).out.value, row, all) == Satisfies(w, o, e, row)
    decreases e, 1
  {
    hide Bound, FieldSql, CompareSql, CompareTruth, FieldValue, FieldKind;
    match e
    case Not(inner) => ExprMeans(w, o, inner, args, all, row);
    case Compare(name, op, values) =>
      var field := FieldSql(o, name, args);
      BoundEarlier(o, field.args, ExprSql(o, e, args).args, all);
      FieldMeans(w, o, name, args, all, row);
      CompareMeans(w, o, name, field.out.value, op, values, field.args, all, row);
    case And(left, right) => PairMeans(w, o, e, args, all, row);
    case Or(left, right) => PairMeans(w, o, e, args, all, row);
  }

  lemma {:induction false} PairMeans(w: Sql.World, o: Options, e: Expr, args: seq<Sql.Datum>, all: seq<Sql.Datum>,
      row: Sql.Row)
    requires e.And? || e.Or?
    requires ExprSql(o, e, args).out.Ok? && Bound(o, ExprSql(o, e, args).args, all)
    ensures Sql.Eval(w, ExprSql(o, e, args).out.value, row, all) == Satisfies(w, o, e, row)
    decreases e, 0
  {
    hide Bound;
    var a := ExprSql(o, e.left, args);
    var b := ExprSql(o, e.right, a.args);
    BoundEarlier(o, a.args, b.args, all);
    ExprMeans(w, o, e.left, args, all, row);
    ExprMeans(w, o, e.right, a.args, all, row);
  }

  /** The truth of a whole query on a row; without an expression every row qualifies. */
  ghost function Holds(w: Sql.World, o: Options, q: Query, row: Sql.Row): Sql.Truth {
    if q.expr.None? then Sql.Yes else Satisfies(w, o, q.expr.value, row)
  }

  /**
   The plan of a compiled query, with the caller's own arguments before it and anything behind it:
   the condition is the query's truth and the sort expression the value of its order field.
   */
  lemma PlanMeans(w: Sql.World, o: Options, q: Query, before: seq<Sql.Datum>, behind: seq<Sql.Datum>, row: Sql.Row)
    requires CompileQuery(q, o).Ok? && o.start == |before| + 1
    ensures var p := CompileQuery(q, o).value; var all := before + p.args + behind;
            && Sql.Eval(w, p.where_, row, all) == Holds(w, o, q, row)
            && Sql.Value(w, p.order, row, all) == FieldValue(w, o, q.order, row)
            && FieldKind(o, q.order) == Some(p.orderKind) && p.desc == q.desc
  {
    var p := CompileQuery(q, o).value;
    var all := before + p.args + behind;
    assert Bound(o, p.args, all) by { assert all[|before|..|before| + |p.args|] == p.args; }
    var args := if q.expr.None? then [] else ExprSql(o, q.expr.value, []).args;
    BoundEarlier(o, args, p.args, all);
    FieldMeans(w, o, q.order, args, all, row);
    if q.expr.Some? { ExprMeans(w, o, q.expr.value, [], all, row); }
  }

  /* ---------- which queries compile ---------- */

  /** Whether a value can stand where a value of the kind is wanted. */
  predicate Takes(o: Options, kind: Kind, v: Value) {
    match v
    case Me => kind == UuidKind && o.lib.isUuid(o.userId)
    case Now(_) => kind == DateKind || kind == InstantKind
    case Plain(NullLiteral) => false
    case Plain(BoolLiteral(_)) => kind == BoolKind
    case Plain(NumberLiteral(_)) => kind == NumberKind
    case Plain(TextLiteral(text)) =>
      || kind == TextKind || (kind == UuidKind && o.lib.isUuid(text))
      || (kind == DateKind && o.lib.isDate(text)) || (kind == InstantKind && o.lib.isInstant(text))
  }

  predicate WellTypedCompare(o: Options, name: string, op: Op, values: seq<Value>) {
    FieldKind(o, name).Some? && values != [] &&
    var kind := FieldKind(o, name).value;
    if Searches(op) then Searchable(name) && values[0].Plain? && values[0].literal.TextLiteral?
    else if op == IsOp || op == IsNotOp then kind != SearchKind && IsNullValue(values[0])
    else
      || ((op == EqOp || op == NeOp) && kind != SearchKind && IsNullValue(values[0]))
      || (Sortable(kind) && forall i | 0 <= i < |values| :: Takes(o, kind, values[i]))
  }

  /** The typing rules of the language. */
  predicate WellTyped(o: Options, e: Expr) {
    match e
    case And(left, right) => WellTyped(o, left) && WellTyped(o, right)
    case Or(left, right) => WellTyped(o, left) && WellTyped(o, right)
    case Not(inner) => WellTyped(o, inner)
    case Compare(name, op, values) => WellTypedCompare(o, name, op, values)
  }

  lemma FieldCompilesIff(o: Options, name: string, args: seq<Sql.Datum>)
    ensures FieldSql(o, name, args).out.Ok? <==> FieldKind(o, name).Some?
    ensures FieldSql(o, name, args).out.Ok? ==> FieldKind(o, name) == Some(FieldSql(o, name, args).out.value.kind)
  {
    hide PushIds, SortTexts, BuiltIn;
  }

  lemma {:induction false} OperandsIff(o: Options, kind: Kind, values: seq<Value>, args: seq<Sql.Datum>,
      done: seq<Sql.Scalar>)
    requires Sortable(kind)
    ensures Operands(o, kind, values, args, done).out.Ok? <==> forall i | 0 <= i < |values| :: Takes(o, kind, values[i])
    decreases |values|
  {
    if values != [] {
      assert Argument(o, values[0], kind).Ok? <==> Takes(o, kind, values[0]);
      hide Takes, Converted, Argument;
      if Argument(o, values[0], kind).Ok? {
        OperandsIff(o, kind, values[1..], args + [Argument(o, values[0], kind).value],
                    done + [Converted(kind, Fresh(o, args))]);
        assert values == [values[0]] + values[1..];
      }
    }
  }

  lemma CompareCompilesIff(o: Options, name: string, field: FieldRef, op: Op, values: seq<Value>, args: seq<Sql.Datum>)
    requires FieldKind(o, name) == Some(field.kind)
    ensures CompareSql(o, name, field, op, values, args).out.Ok? <==> WellTypedCompare(o, name, op, values)
  {
    hide FieldKind, Operands, Takes;
    if Sortable(field.kind) { OperandsIff(o, field.kind, values, args, []); }
    if values != [] && IsNullValue(values[0]) {
      assert !Takes(o, field.kind, values[0]) by { NullIsNotTaken(o, field.kind); }
    }
  }

  lemma NullIsNotTaken(o: Options, kind: Kind)
    ensures !Takes(o, kind, Plain(NullLiteral))
  {
  }

  /** An expression compiles exactly when it is well typed, wherever its arguments land. */
  lemma {:induction false} ExprCompilesIff(o: Options, e: Expr, args: seq<Sql.Datum>)
    ensures ExprSql(o, e, args).out.Ok? <==> WellTyped(o, e)
  {
    hide CompareSql, WellTypedCompare, FieldSql, FieldKind;
    match e
    case Not(inner) => ExprCompilesIff(o, inner, args);
    case And(left, right) =>
      ExprCompilesIff(o, left, args);
      ExprCompilesIff(o, right, ExprSql(o, left, args).args);
    case Or(left, right) =>
      ExprCompilesIff(o, left, args);
      ExprCompilesIff(o, right, ExprSql(o, left, args).args);
    case Compare(name, op, values) =>
      FieldCompilesIff(o, name, args);
      var field := FieldSql(o, name, args);
      if field.out.Ok? { CompareCompilesIff(o, name, field.out.value, op, values, field.args); }
      else { UnknownIsIllTyped(o, name, op, values); }
  }

  lemma UnknownIsIllTyped(o: Options, name: string, op: Op, values: seq<Value>)
    requires FieldKind(o, name).None?
    ensures !WellTypedCompare(o, name, op, values)
  {
  }

  /** A query compiles exactly when its expression is well typed and its order field can be sorted. */
  lemma CompilesIff(o: Options, q: Query)
    ensures CompileQuery(q, o).Ok? <==>
            && (q.expr.None? || WellTyped(o, q.expr.value))
            && FieldKind(o, q.order).Some? && Sortable(FieldKind(o, q.order).value)
  {
    hide FieldSql, FieldKind, ExprSql, WellTyped;
    if q.expr.Some? { ExprCompilesIff(o, q.expr.value, []); }
    var args := if q.expr.None? then [] else ExprSql(o, q.expr.value, []).args;
    FieldCompilesIff(o, q.order, args);
  }
}
