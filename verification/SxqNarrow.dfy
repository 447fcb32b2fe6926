/**
 Narrowing a query to the projects it can match (projectKeys in internal/sxq/parser.go, queryOptions
 in internal/api/sxq.go): only the field definitions of those projects are loaded for the compiler.
 */
module SxqNarrow {
  import opened Wrappers
  import opened Sxq
  import opened SxqCompile
  import Sql

  /** The literals of a list, if all are texts. */
  function TextKeys(values: seq<Value>): Option<seq<string>> {
    if values == [] then Some([])
    else if !(values[0].Plain? && values[0].literal.TextLiteral?) || TextKeys(values[1..]).None? then None
    else Some([values[0].literal.text] + TextKeys(values[1..]).value)
  }

  /** projectKeys: no keys means no narrowing. */
  function ProjectKeys(e: Expr): seq<string> {
    match e
    case And(left, right) => if ProjectKeys(left) != [] then ProjectKeys(left) else ProjectKeys(right)
    case Or(left, right) =>
      if ProjectKeys(left) == [] || ProjectKeys(right) == [] then [] else ProjectKeys(left) + ProjectKeys(right)
    case Not(_) => []
    case Compare(field, op, values) =>
      if field == "project" && (op == EqOp || op == InOp) && TextKeys(values).Some? then TextKeys(values).value else []
  }

  function QueryKeys(q: Query): seq<string> {
    if q.expr.None? then [] else ProjectKeys(q.expr.value)
  }

  /** The loop over the values of one comparison. */
  method CollectKeys(values: seq<Value>) returns (keys: Option<seq<string>>)
    ensures keys == TextKeys(values)
  {
    var out: seq<string> := [];
    assert values[0..] == values;
    if TextKeys(values).Some? { assert [] + TextKeys(values).value == TextKeys(values).value; }
    for i := 0 to |values|
      invariant TextKeys(values).Some? <==> TextKeys(values[i..]).Some?
      invariant TextKeys(values).Some? ==> TextKeys(values).value == out + TextKeys(values[i..]).value
    {
      var v := values[i];
      assert values[i..][0] == v && values[i..][1..] == values[i + 1..];
      if !(v.Plain? && v.literal.TextLiteral?) { return None; }
      if TextKeys(values[i + 1..]).Some? {
        var rest := TextKeys(values[i + 1..]).value;
        assert out + ([v.literal.text] + rest) == out + [v.literal.text] + rest;
      }
      out := out + [v.literal.text];
    }
    assert values[|values|..] == [] && out + [] == out;
    keys := Some(out);
  }

  /** projectKeys as it runs. */
  method FindKeys(e: Expr) returns (keys: seq<string>)
    ensures keys == ProjectKeys(e)
  {
    match e
    case And(left, right) =>
      var a := FindKeys(left);
      var b := FindKeys(right);
      keys := if a != [] then a else b;
    case Or(left, right) =>
      var a := FindKeys(left);
      var b := FindKeys(right);
      keys := if a == [] || b == [] then [] else a + b;
    case Not(_) => keys := [];
    case Compare(field, op, values) =>
      if field != "project" || (op != EqOp && op != InOp) { return []; }
      var found := CollectKeys(values);
      keys := if found.None? then [] else found.value;
  }

  /** The key of the project that the joined row belongs to. */
  function RowProject(row: Sql.Row): Sql.Datum {
    Sql.ColumnOf(row, Sql.P, "key_prefix")
  }

  ghost predicate InProjects(row: Sql.Row, keys: seq<string>) {
    RowProject(row).Text? && RowProject(row).text in keys
  }

  lemma {:induction false} TextKeysAre(values: seq<Value>)
    requires TextKeys(values).Some?
    ensures |TextKeys(values).value| == |values|
    ensures forall i | 0 <= i < |values| :: values[i] == Plain(TextLiteral(TextKeys(values).value[i]))
  {
    if values != [] { TextKeysAre(values[1..]); }
  }

  lemma ProjectComparison(w: Sql.World, o: Options, op: Op, values: seq<Value>, row: Sql.Row)
    requires (op == EqOp || op == InOp) && TextKeys(values).Some?
    requires Satisfies(w, o, Compare("project", op, values), row) == Sql.Yes
    ensures InProjects(row, TextKeys(values).value)
  {
    var keys := TextKeys(values).value;
    TextKeysAre(values);
    ProjectField(w, o, row);
    hide FieldValue, FieldKind, TextKeys;
    var x := RowProject(row);
    assert exists v :: v in values && x == Denoted(w, o, v, TextKind);
    var v :| v in values && x == Denoted(w, o, v, TextKind);
    var i :| 0 <= i < |values| && values[i] == v;
    assert x == Sql.Text(keys[i]);
  }

  lemma ProjectField(w: Sql.World, o: Options, row: Sql.Row)
    ensures FieldValue(w, o, "project", row) == RowProject(row) && FieldKind(o, "project") == Some(TextKind)
  {
    assert BuiltIn("project") == Some(Known(Sql.P, "key_prefix", TextKind));
  }

  /** An item that satisfies the expression lies in one of the keys' projects, whatever custom fields mean. */
  lemma {:induction false} SatisfiedIsInKeys(w: Sql.World, o: Options, e: Expr, row: Sql.Row)
    requires Satisfies(w, o, e, row) == Sql.Yes && ProjectKeys(e) != []
    ensures InProjects(row, ProjectKeys(e))
  {
    hide CompareTruth;
    match e
    case And(left, right) =>
      if ProjectKeys(left) != [] { SatisfiedIsInKeys(w, o, left, row); } else { SatisfiedIsInKeys(w, o, right, row); }
    case Or(left, right) =>
      if Satisfies(w, o, left, row) == Sql.Yes {
        SatisfiedIsInKeys(w, o, left, row);
      } else {
        SatisfiedIsInKeys(w, o, right, row);
      }
    case Not(_) =>
    case Compare(_, op, values) => ProjectComparison(w, o, op, values, row);
  }

  /** An item of this project could match, whatever the other comparisons and the negations say. */
  ghost predicate CouldMatch(e: Expr, key: string) {
    match e
    case And(left, right) => CouldMatch(left, key) && CouldMatch(right, key)
    case Or(left, right) => CouldMatch(left, key) || CouldMatch(right, key)
    case Not(_) => true
    case Compare(_, _, values) => NamesProjects(e) ==> Plain(TextLiteral(key)) in values
  }

  /** A test that the project is one of some texts. */
  ghost predicate NamesProjects(e: Expr) {
    && e.Compare? && e.field == "project" && (e.op == EqOp || e.op == InOp) && e.values != []
    && forall v | v in e.values :: v.Plain? && v.literal.TextLiteral?
  }

  /** The project is named somewhere in the expression. */
  ghost predicate Named(e: Expr, key: string) {
    match e
    case And(left, right) => Named(left, key) || Named(right, key)
    case Or(left, right) => Named(left, key) || Named(right, key)
    case Not(_) => false
    case Compare(_, _, values) => NamesProjects(e) && Plain(TextLiteral(key)) in values
  }

  lemma {:induction false} TextKeysExist(values: seq<Value>)
    ensures TextKeys(values).Some? <==> forall v | v in values :: v.Plain? && v.literal.TextLiteral?
    ensures TextKeys(values).Some? ==>
              |TextKeys(values).value| == |values|
              && forall key :: key in TextKeys(values).value <==> Plain(TextLiteral(key)) in values
  {
    if values != [] {
      TextKeysExist(values[1..]);
      assert values == [values[0]] + values[1..];
    }
  }

  /**
   A query is narrowed exactly when no item of a project that it does not name could match; and then
   only to projects that it names, with every one among them whose items could.
   */
  lemma {:induction false} NarrowsIff(e: Expr, key: string)
    ensures !Named(e, key) ==> (ProjectKeys(e) != [] <==> !CouldMatch(e, key))
    ensures key in ProjectKeys(e) ==> Named(e, key)
    ensures ProjectKeys(e) != [] && CouldMatch(e, key) ==> key in ProjectKeys(e)
  {
    match e
    case And(left, right) =>
      NarrowsIff(left, key);
      NarrowsIff(right, key);
    case Or(left, right) =>
      NarrowsIff(left, key);
      NarrowsIff(right, key);
    case Not(_) =>
    case Compare(_, _, values) => TextKeysExist(values);
  }

  /* ---------- loading only some field definitions ---------- */

  /** A row of field_def joined with its project. */
  datatype Definition = Definition(projectId: string, projectKey: string, key: string, kind: string)

  predicate Wanted(projects: seq<string>, d: Definition) {
    projects == [] || d.projectKey in projects
  }

  /** The definitions of one custom key, in the order they are read. */
  function DefsOf(defs: seq<Definition>, projects: seq<string>, key: string): seq<CustomField> {
    if defs == [] then []
    else
      var front := DefsOf(defs[..|defs| - 1], projects, key);
      var d := defs[|defs| - 1];
      if d.key == key && Wanted(projects, d) then front + [CustomField(d.projectId, d.kind)] else front
  }

  /** queryOptions: the row loop that fills the table of custom fields. */
  method LoadCustom(defs: seq<Definition>, projects: seq<string>) returns (custom: map<string, seq<CustomField>>)
    ensures forall key :: (if key in custom then custom[key] else []) == DefsOf(defs, projects, key)
  {
    custom := map[];
    for i := 0 to |defs|
      invariant forall key :: (if key in custom then custom[key] else []) == DefsOf(defs[..i], projects, key)
    {
      var d := defs[i];
      assert defs[..i + 1][..i] == defs[..i];
      if Wanted(projects, d) {
        custom := custom[d.key := (if d.key in custom then custom[d.key] else []) + [CustomField(d.projectId, d.kind)]];
      }
    }
    assert defs[..|defs|] == defs;
  }

  /** The options for a choice of projects; an empty choice loads every project's definitions. */
  ghost predicate Loaded(o: Options, defs: seq<Definition>, projects: seq<string>) {
    forall key :: Defs(o, key) == DefsOf(defs, projects, key)
  }

  /** The projects whose definitions are loaded: the request's own parameter goes before the query's keys. */
  function ChosenProjects(parameter: string, q: Query): seq<string> {
    if parameter != "" then [parameter] else QueryKeys(q)
  }

  /** The listing's own test on the project parameter. */
  ghost predicate PassesParameter(row: Sql.Row, parameter: string) {
    parameter == "" || RowProject(row) == Sql.Text(parameter)
  }

  /** The row's project is joined by the item's project id, and definitions name their project by both. */
  ghost predicate Consistent(w: Sql.World, defs: seq<Definition>, row: Sql.Row) {
    forall i | 0 <= i < |defs| ::
      Sql.ColumnOf(row, Sql.I, "project_id") == Sql.CastTo(w, Sql.UuidType, Sql.Text(defs[i].projectId))
      ==> RowProject(row) == Sql.Text(defs[i].projectKey)
  }

  /** A definition that is read stands among those of its key. */
  lemma {:induction false} DefIsRead(defs: seq<Definition>, projects: seq<string>, key: string, i: nat)
    requires i < |defs| && defs[i].key == key && Wanted(projects, defs[i])
    ensures CustomField(defs[i].projectId, defs[i].kind) in DefsOf(defs, projects, key)
  {
    if i < |defs| - 1 { DefIsRead(defs[..|defs| - 1], projects, key, i); }
  }

  lemma {:induction false} ReadIsDef(defs: seq<Definition>, projects: seq<string>, key: string, c: CustomField)
      returns (i: nat)
    requires c in DefsOf(defs, projects, key)
    ensures i < |defs| && defs[i].key == key && Wanted(projects, defs[i])
            && c == CustomField(defs[i].projectId, defs[i].kind)
  {
    var n := |defs| - 1;
    if defs[n].key == key && Wanted(projects, defs[n]) && c == CustomField(defs[n].projectId, defs[n].kind) { i := n; }
    else { i := ReadIsDef(defs[..n], projects, key, c); }
  }

  /** A custom field gets exactly the definitions of its key in the wanted projects. */
  lemma DefsAre(defs: seq<Definition>, projects: seq<string>, key: string, c: CustomField)
    ensures c in DefsOf(defs, projects, key) <==>
            exists d :: && d in defs && d.key == key && c == CustomField(d.projectId, d.kind)
                        && (projects == [] || d.projectKey in projects)
  {
    if c in DefsOf(defs, projects, key) {
      var i := ReadIsDef(defs, projects, key, c);
      assert defs[i] in defs;
    }
    if d :| && d in defs && d.key == key && c == CustomField(d.projectId, d.kind)
            && (projects == [] || d.projectKey in projects) {
      var i :| 0 <= i < |defs| && defs[i] == d;
      DefIsRead(defs, projects, key, i);
    }
  }

  /** Narrowing only leaves definitions out. */
  lemma NarrowedIsRead(defs: seq<Definition>, projects: seq<string>, key: string, c: CustomField)
    requires c in DefsOf(defs, projects, key)
    ensures c in DefsOf(defs, [], key)
  {
    var i := ReadIsDef(defs, projects, key, c);
    DefIsRead(defs, [], key, i);
  }

  /** On an item of the chosen projects the same definitions apply. */
  lemma SameConfigured(w: Sql.World, defs: seq<Definition>, projects: seq<string>, key: string, row: Sql.Row)
    requires Consistent(w, defs, row) && (projects != [] ==> InProjects(row, projects))
    ensures Configured(w, DefsOf(defs, projects, key), row) <==> Configured(w, DefsOf(defs, [], key), row)
  {
    var project := Sql.ColumnOf(row, Sql.I, "project_id");
    var some, all := DefsOf(defs, projects, key), DefsOf(defs, [], key);
    if Configured(w, some, row) {
      var i :| 0 <= i < |some| && project == Sql.CastTo(w, Sql.UuidType, Sql.Text(some[i].projectId));
      NarrowedIsRead(defs, projects, key, some[i]);
      var k :| 0 <= k < |all| && all[k] == some[i];
      assert project == Sql.CastTo(w, Sql.UuidType, Sql.Text(all[k].projectId));
    }
    if Configured(w, all, row) {
      var i :| 0 <= i < |all| && project == Sql.CastTo(w, Sql.UuidType, Sql.Text(all[i].projectId));
      var d := ReadIsDef(defs, [], key, all[i]);
      assert RowProject(row) == Sql.Text(defs[d].projectKey);
      DefIsRead(defs, projects, key, d);
      var k :| 0 <= k < |some| && some[k] == all[i];
      assert project == Sql.CastTo(w, Sql.UuidType, Sql.Text(some[k].projectId));
    }
  }

  /** When both kinds are known they agree, and on an item of the chosen projects so do the values. */
  lemma SameField(w: Sql.World, defs: seq<Definition>, projects: seq<string>, some: Options, all: Options,
      name: string, row: Sql.Row)
    requires Loaded(some, defs, projects) && Loaded(all, defs, [])
    requires FieldKind(some, name).Some? && FieldKind(all, name).Some?
    ensures FieldKind(some, name) == FieldKind(all, name)
    ensures Consistent(w, defs, row) && (projects != [] ==> InProjects(row, projects))
            ==> FieldValue(w, some, name, row) == FieldValue(w, all, name, row)
  {
    if BuiltIn(name).None? {
      hide BuiltIn, CustomType, Consistent, InProjects, Configured;
      var key := CustomKey(name).value;
      var a, b := Defs(some, key), Defs(all, key);
      assert a[0] in DefsOf(defs, projects, key);
      NarrowedIsRead(defs, projects, key, a[0]);
      var k :| 0 <= k < |b| && b[k] == a[0];
      assert a[0].kind == b[0].kind;
      if Consistent(w, defs, row) && (projects != [] ==> InProjects(row, projects)) {
        SameConfigured(w, defs, projects, key, row);
      }
    }
  }

  /** Options for the same request: they differ only in the definitions loaded. */
  ghost predicate SameRequest(a: Options, b: Options) {
    a.userId == b.userId && a.now == b.now && a.lib == b.lib && a.start == b.start
  }

  lemma {:induction false} SameTruth(w: Sql.World, defs: seq<Definition>, projects: seq<string>, some: Options,
      all: Options, e: Expr, row: Sql.Row)
    requires Loaded(some, defs, projects) && Loaded(all, defs, []) && SameRequest(some, all)
    requires Consistent(w, defs, row) && (projects != [] ==> InProjects(row, projects))
    requires WellTyped(some, e) && WellTyped(all, e)
    ensures Satisfies(w, some, e, row) == Satisfies(w, all, e, row)
  {
    hide Loaded, Consistent, InProjects;
    match e
    case And(left, right) =>
      SameTruth(w, defs, projects, some, all, left, row);
      SameTruth(w, defs, projects, some, all, right, row);
    case Or(left, right) =>
      SameTruth(w, defs, projects, some, all, left, row);
      SameTruth(w, defs, projects, some, all, right, row);
    case Not(inner) => SameTruth(w, defs, projects, some, all, inner, row);
    case Compare(name, op, values) =>
      SameField(w, defs, projects, some, all, name, row);
      SameCompare(w, some, all, name, op, values, row);
  }

  lemma SameCompare(w: Sql.World, some: Options, all: Options, name: string, op: Op, values: seq<Value>, row: Sql.Row)
    requires SameRequest(some, all) && values != [] && FieldKind(some, name).Some?
             && FieldKind(some, name) == FieldKind(all, name)
    requires FieldValue(w, some, name, row) == FieldValue(w, all, name, row)
    ensures CompareTruth(w, some, name, op, values, row) == CompareTruth(w, all, name, op, values, row)
  {
    hide FieldValue, FieldKind;
    var kind := FieldKind(some, name).value;
    SameChoice(w, some, all, values, kind);
    assert Denoted(w, some, values[0], kind) == Denoted(w, all, values[0], kind);
    hide Denoted, Sql.Compare, OneOf, Sql.SearchIn;
  }

  lemma SameChoice(w: Sql.World, some: Options, all: Options, values: seq<Value>, kind: Kind)
    requires SameRequest(some, all)
    ensures (set v | v in values :: Denoted(w, some, v, kind)) == set v | v in values :: Denoted(w, all, v, kind)
  {
    assert forall v | v in values :: Denoted(w, some, v, kind) == Denoted(w, all, v, kind);
  }

  /**
   Narrowing preserves results.  When a query compiles both with the chosen projects' definitions and
   with everybody's, it selects the same items, each with the same sort value.
   */
  lemma NarrowingPreservesResults(w: Sql.World, defs: seq<Definition>, parameter: string, q: Query, some: Options,
      all: Options, row: Sql.Row)
    requires Loaded(some, defs, ChosenProjects(parameter, q)) && Loaded(all, defs, []) && SameRequest(some, all)
    requires Consistent(w, defs, row) && PassesParameter(row, parameter)
    requires CompileQuery(q, some).Ok? && CompileQuery(q, all).Ok?
    ensures Holds(w, some, q, row) == Sql.Yes <==> Holds(w, all, q, row) == Sql.Yes
    ensures Holds(w, all, q, row) == Sql.Yes ==> FieldValue(w, some, q.order, row) == FieldValue(w, all, q.order, row)
    ensures FieldKind(some, q.order) == FieldKind(all, q.order)
  {
    hide CompileQuery, Loaded, Consistent, FieldKind, FieldValue, Satisfies;
    var projects := ChosenProjects(parameter, q);
    CompilesIff(some, q);
    CompilesIff(all, q);
    SameField(w, defs, projects, some, all, q.order, row);
    if Holds(w, some, q, row) == Sql.Yes || Holds(w, all, q, row) == Sql.Yes {
      if parameter == "" && projects != [] {
        if Holds(w, some, q, row) == Sql.Yes { SatisfiedIsInKeys(w, some, q.expr.value, row); }
        else { SatisfiedIsInKeys(w, all, q.expr.value, row); }
      }
      if q.expr.Some? { SameTruth(w, defs, projects, some, all, q.expr.value, row); }
    }
  }

  /* ---------- when the narrowed query compiles ---------- */

  ghost predicate Mentions(e: Expr, name: string) {
    match e
    case And(left, right) => Mentions(left, name) || Mentions(right, name)
    case Or(left, right) => Mentions(left, name) || Mentions(right, name)
    case Not(inner) => Mentions(inner, name)
    case Compare(field, _, _) => field == name
  }

  /** The chosen projects configure the field, if it is a custom one. */
  predicate StillConfigured(defs: seq<Definition>, projects: seq<string>, name: string) {
    BuiltIn(name).Some? || CustomKey(name).None? || DefsOf(defs, projects, CustomKey(name).value) != []
  }

  lemma NarrowedKind(defs: seq<Definition>, projects: seq<string>, some: Options, all: Options, name: string)
    requires Loaded(some, defs, projects) && Loaded(all, defs, []) && FieldKind(all, name).Some?
    ensures FieldKind(some, name).Some? <==> StillConfigured(defs, projects, name)
    ensures FieldKind(some, name).Some? ==> FieldKind(some, name) == FieldKind(all, name)
  {
    if BuiltIn(name).None? && StillConfigured(defs, projects, name) {
      hide BuiltIn, CustomType;
      var key := CustomKey(name).value;
      var a, b := Defs(some, key), Defs(all, key);
      forall i | 0 <= i < |a| ensures a[i].kind == b[0].kind {
        NarrowedIsRead(defs, projects, key, a[i]);
        var k :| 0 <= k < |b| && b[k] == a[i];
      }
    }
  }

  lemma {:induction false} NarrowedTypes(defs: seq<Definition>, projects: seq<string>, some: Options, all: Options,
      e: Expr)
    requires Loaded(some, defs, projects) && Loaded(all, defs, []) && SameRequest(some, all) && WellTyped(all, e)
    ensures WellTyped(some, e) <==> forall name | Mentions(e, name) :: StillConfigured(defs, projects, name)
  {
    hide Loaded, FieldKind, StillConfigured;
    match e
    case And(left, right) =>
      NarrowedTypes(defs, projects, some, all, left);
      NarrowedTypes(defs, projects, some, all, right);
      forall name ensures Mentions(e, name) <==> Mentions(left, name) || Mentions(right, name) {}
    case Or(left, right) =>
      NarrowedTypes(defs, projects, some, all, left);
      NarrowedTypes(defs, projects, some, all, right);
      forall name ensures Mentions(e, name) <==> Mentions(left, name) || Mentions(right, name) {}
    case Not(inner) =>
      NarrowedTypes(defs, projects, some, all, inner);
      forall name ensures Mentions(e, name) <==> Mentions(inner, name) {}
    case Compare(name, op, values) =>
      NarrowedKind(defs, projects, some, all, name);
      assert Mentions(e, name);
      assert forall k: Kind, i | 0 <= i < |values| :: Takes(some, k, values[i]) == Takes(all, k, values[i]);
  }

  /**
   A query that compiles over all definitions compiles narrowed exactly when no field it uses lost its
   last definition.
   */
  lemma NarrowedCompilesIff(defs: seq<Definition>, projects: seq<string>, some: Options, all: Options, q: Query)
    requires Loaded(some, defs, projects) && Loaded(all, defs, []) && SameRequest(some, all) && CompileQuery(q, all).Ok?
    ensures CompileQuery(q, some).Ok? <==>
            && StillConfigured(defs, projects, q.order)
            && (q.expr.Some? ==> forall name | Mentions(q.expr.value, name) :: StillConfigured(defs, projects, name))
  {
    hide CompileQuery, Loaded, FieldKind, StillConfigured, WellTyped;
    CompilesIff(some, q);
    CompilesIff(all, q);
    NarrowedKind(defs, projects, some, all, q.order);
    if q.expr.Some? { NarrowedTypes(defs, projects, some, all, q.expr.value); }
  }
}
