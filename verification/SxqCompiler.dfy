/** The compiler as it runs: one object whose argument list grows while the tree is walked. */
module SxqCompiler {
  import opened Wrappers
  import opened Sxq
  import opened SxqCompile
  import Sql

  class Compiler {
    const options: Options
    var args: seq<Sql.Datum>

    constructor (options: Options)
      ensures this.options == options && args == []
    {
      this.options, args := options, [];
    }

    method Param(value: Sql.Datum) returns (p: Sql.Scalar)
      modifies this
      ensures args == old(args) + [value] && p == Fresh(options, old(args))
    {
      args := args + [value];
      p := Sql.Param(options.start + |args| - 1);
    }

    /** The type check runs over all definitions before any placeholder is taken. */
    method Field(name: string) returns (r: Result<FieldRef, Error>)
      modifies this
      ensures Step(args, r) == FieldSql(options, name, old(args))
    {
      hide BuiltIn, CustomType, SortTexts;
      if BuiltIn(name).Some? { return Ok(BuiltIn(name).value); }
      var key := CustomKey(name);
      if key.None? || |Defs(options, key.value)| == 0 { return Err(UnknownField(name)); }
      var defs := Defs(options, key.value);
      var ids := [];
      for i := 0 to |defs|
        invariant args == old(args)
        invariant ids == ProjectIds(defs)[..i] && forall k | 0 <= k < i :: defs[k].kind == defs[0].kind
      {
        if defs[i].kind != defs[0].kind { return Err(MixedTypes(name)); }
        ids := ids + [defs[i].projectId];
      }
      assert ids == ProjectIds(defs);
      ids := SortTexts(ids);
      var params := [];
      for i := 0 to |ids|
        invariant (args, params) == PushIds(options, ids[..i], old(args))
      {
        var p := Param(Sql.Text(ids[i]));
        params := params + [Sql.Cast(p, Sql.UuidType)];
        assert ids[..i + 1][..i] == ids[..i];
      }
      assert ids[..|ids|] == ids;
      var k := Param(Sql.Text(key.value));
      var t := CustomType(defs[0].kind);
      if t.None? { return Err(UnsupportedType); }
      r := Ok(FieldRef(Sql.WithinProjects(params, Extract(t.value.0, k)), t.value.1));
    }

    /** One converted placeholder per value. */
    method Placeholders(kind: Kind, values: seq<Value>) returns (r: Result<seq<Sql.Scalar>, Error>)
      modifies this
      ensures Step(args, r) == Operands(options, kind, values, old(args), [])
    {
      hide Argument, Converted;
      var params := [];
      for i := 0 to |values|
        invariant Operands(options, kind, values, old(args), []) == Operands(options, kind, values[i..], args, params)
      {
        var v := Argument(options, values[i], kind);
        if v.Err? { return Err(v.error); }
        var p := Param(v.value);
        params := params + [Converted(kind, p)];
      }
      r := Ok(params);
    }

    method Comparison(name: string, op: Op, values: seq<Value>) returns (r: Result<Sql.Condition, Error>)
      modifies this
      ensures Step(args, r) == ExprSql(options, Compare(name, op, values), old(args))
    {
      hide FieldSql, Operands;
      var f := Field(name);
      if f.Err? { return Err(f.error); }
      var field := f.value;
      if values == [] { return Err(NoValues); }
      if op == TildeOp || op == ColonOp {
        if name != "text" && name != "title" && name != "body" { return Err(NotSearchable); }
        if !(values[0].Plain? && values[0].literal.TextLiteral?) { return Err(SearchNeedsText); }
        var doc := if name == "text" then field.sql else Sql.TextVector(field.sql);
        var p := Param(Sql.Text(values[0].literal.text));
        return Ok(Sql.Search(doc, p));
      }
      if field.kind == SearchKind { return Err(TextNeedsSearch); }
      var isNull := IsNullValue(values[0]);
      if op == IsOp || op == IsNotOp || ((op == EqOp || op == NeOp) && isNull) {
        if !isNull { return Err(IsNeedsNull); }
        if op == IsNotOp || op == NeOp { return Ok(Sql.NotNull(field.sql)); }
        return Ok(Sql.IsNull(field.sql));
      }
      if isNull { return Err(NullNeedsIs); }
      if field.kind == ArrayKind { return Err(ArrayComparison); }
      var params := Placeholders(field.kind, values);
      if params.Err? { return Err(params.error); }
      r := Ok(Combined(field.sql, op, params.value));
    }

    method Condition(e: Expr) returns (r: Result<Sql.Condition, Error>)
      modifies this
      ensures Step(args, r) == ExprSql(options, e, old(args))
      decreases e
    {
      hide FieldSql, CompareSql;
      match e
      case Compare(name, op, values) => r := Comparison(name, op, values);
      case Not(inner) =>
        r := Condition(inner);
        if r.Ok? { r := Ok(Sql.Negated(r.value)); }
      case And(left, right) =>
        r := Condition(left);
        if r.Err? { return; }
        var b := Condition(right);
        if b.Err? { return b; }
        r := Ok(Sql.Both(r.value, b.value));
      case Or(left, right) =>
        r := Condition(left);
        if r.Err? { return; }
        var b := Condition(right);
        if b.Err? { return b; }
        r := Ok(Sql.Either(r.value, b.value));
    }
  }

  /** Placeholders are counted from 1. */
  function FromOne(o: Options): (r: Options)
    ensures r.start >= 1 && (o.start >= 1 ==> r == o)
  {
    if o.start < 1 then o.(start := 1) else o
  }

  /** Compile. */
  method Compile(q: Query, options: Options) returns (r: Result<Plan, Error>)
    ensures r == CompileQuery(q, FromOne(options))
  {
    hide FieldSql;
    var c := new Compiler(FromOne(options));
    var where_ := Ok(Sql.True);
    if q.expr.Some? { where_ := c.Condition(q.expr.value); }
    if where_.Err? { return Err(where_.error); }
    var order := c.Field(q.order);
    if order.Err? { return Err(order.error); }
    if order.value.kind == SearchKind || order.value.kind == ArrayKind { return Err(CannotOrder); }
    r := Ok(Plan(where_.value, order.value.sql, order.value.kind, q.desc, c.args));
  }

  /* ---------- the text of a query never reaches the SQL ---------- */

  /** Two expressions that differ only in the values they compare with. */
  ghost predicate SameShape(a: Expr, b: Expr) {
    match a
    case And(l, r) => b.And? && SameShape(l, b.left) && SameShape(r, b.right)
    case Or(l, r) => b.Or? && SameShape(l, b.left) && SameShape(r, b.right)
    case Not(i) => b.Not? && SameShape(i, b.inner)
    case Compare(f, op, vs) =>
      b.Compare? && b.field == f && b.op == op && |vs| == |b.values|
      && (vs != [] ==> (IsNullValue(vs[0]) <==> IsNullValue(b.values[0])))
  }

  lemma {:induction false} SameIds(o: Options, ids: seq<string>, a: seq<Sql.Datum>, b: seq<Sql.Datum>)
    requires |a| == |b|
    ensures PushIds(o, ids, a).1 == PushIds(o, ids, b).1 && |PushIds(o, ids, a).0| == |PushIds(o, ids, b).0|
  {
    if ids != [] { SameIds(o, ids[..|ids| - 1], a, b); }
  }

  lemma SameField(o: Options, name: string, a: seq<Sql.Datum>, b: seq<Sql.Datum>)
    requires |a| == |b|
    ensures FieldSql(o, name, a).out == FieldSql(o, name, b).out
            && |FieldSql(o, name, a).args| == |FieldSql(o, name, b).args|
  {
    hide PushIds, SortTexts, BuiltIn, ProjectIds, SameKind, CustomType;
    if CustomKey(name).Some? {
      SameIds(o, SortTexts(ProjectIds(Defs(o, CustomKey(name).value))), a, b);
    }
  }

  lemma {:induction false} SameOperands(o: Options, kind: Kind, xs: seq<Value>, ys: seq<Value>,
                                        a: seq<Sql.Datum>, b: seq<Sql.Datum>, done: seq<Sql.Scalar>)
    requires |xs| == |ys| && |a| == |b|
    requires Operands(o, kind, xs, a, done).out.Ok? && Operands(o, kind, ys, b, done).out.Ok?
    ensures Operands(o, kind, xs, a, done).out == Operands(o, kind, ys, b, done).out
    ensures |Operands(o, kind, xs, a, done).args| == |Operands(o, kind, ys, b, done).args|
    decreases |xs|
  {
    hide Argument, Converted;
    if xs != [] {
      SameOperands(o, kind, xs[1..], ys[1..], a + [Argument(o, xs[0], kind).value],
                   b + [Argument(o, ys[0], kind).value],
                   done + [Converted(kind, Fresh(o, a))]);
    }
  }

  /**
   No value of a query can change the SQL that is sent: expressions of one shape that compile give
   the same condition, and only the arguments differ.
   */
  lemma {:induction false} ShapeDecidesSql(o: Options, x: Expr, y: Expr, a: seq<Sql.Datum>, b: seq<Sql.Datum>)
    requires SameShape(x, y) && |a| == |b|
    requires ExprSql(o, x, a).out.Ok? && ExprSql(o, y, b).out.Ok?
    ensures ExprSql(o, x, a).out == ExprSql(o, y, b).out && |ExprSql(o, x, a).args| == |ExprSql(o, y, b).args|
    decreases x
  {
    hide FieldSql, Operands, CompareSql;
    match x
    case Not(i) => ShapeDecidesSql(o, i, y.inner, a, b);
    case And(l, r) =>
      ShapeDecidesSql(o, l, y.left, a, b);
      ShapeDecidesSql(o, r, y.right, ExprSql(o, l, a).args, ExprSql(o, y.left, b).args);
    case Or(l, r) =>
      ShapeDecidesSql(o, l, y.left, a, b);
      ShapeDecidesSql(o, r, y.right, ExprSql(o, l, a).args, ExprSql(o, y.left, b).args);
    case Compare(f, op, vs) =>
      SameField(o, f, a, b);
      SameCompare(o, f, FieldSql(o, f, a).out.value, op, vs, y.values, FieldSql(o, f, a).args, FieldSql(o, f, b).args);
  }

  lemma SameCompare(o: Options, name: string, f: FieldRef, op: Op, xs: seq<Value>, ys: seq<Value>, a: seq<Sql.Datum>,
      b: seq<Sql.Datum>)
    requires |xs| == |ys| && |a| == |b| && (xs != [] ==> (IsNullValue(xs[0]) <==> IsNullValue(ys[0])))
    requires CompareSql(o, name, f, op, xs, a).out.Ok? && CompareSql(o, name, f, op, ys, b).out.Ok?
    ensures CompareSql(o, name, f, op, xs, a).out == CompareSql(o, name, f, op, ys, b).out
    ensures |CompareSql(o, name, f, op, xs, a).args| == |CompareSql(o, name, f, op, ys, b).args|
  {
    hide Operands;
    if !Searches(op) && op != IsOp && op != IsNotOp && !IsNullValue(xs[0]) {
      SameOperands(o, f.kind, xs, ys, a, b, []);
    }
  }
}
