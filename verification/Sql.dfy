/**
 The SQL that the query compiler targets, as a syntax tree with numbered placeholders, and its
 three-valued evaluation on one row of the joined tables and an argument list.
 */
module Sql {
  import opened Wrappers

  datatype Type = TextType | NumericType | DateType | InstantType | UuidType | BoolType

  /** A value: the null, the three forms a driver argument takes, or a point of another SQL type. */
  datatype Datum =
    | Null
    | Text(text: string)
    | Bool(b: bool)
    | Int(n: int)
    | Typed(of_: Type, image: int)
    | Json(text: string)
    | Vector(image: int)

  datatype Truth = Yes | No | Unknown

  /** What the database does and this model does not look into. */
  datatype World = World(
    cast: (Type, Datum) -> Datum,            // casts of values that are not null
    less: (Datum, Datum) -> bool,            // the order of two values of one type
    unquote: string -> Datum,                // ->> of a JSON value: its text, or null for JSON's null
    vector: string -> Datum,                 // to_tsvector
    matches: (Datum, string) -> bool)        // @@ plainto_tsquery

  /** The aliases of the item listing's FROM clause. */
  datatype Alias = I | P | S | T | Par | U | R

  datatype Record = Record(columns: map<string, Datum>, fields: map<string, Datum>)

  /** One joined row.  An alias that a left join found nothing for has the empty record. */
  type Row = map<Alias, Record>

  datatype Scalar =
    | Column(alias: Alias, name: string)
    | Param(n: nat)                                    // $n, counted from 1
    | Constant(d: Datum)
    | Cast(inner: Scalar, to: Type)
    | FieldText(key: Scalar)                           // i.fields ->> key::text
    | FieldJson(key: Scalar)                           // i.fields -> key::text
    | WithinProjects(ids: seq<Scalar>, inner: Scalar)  // CASE WHEN i.project_id IN (ids) THEN inner ELSE NULL END
    | TextVector(inner: Scalar)                        // to_tsvector('english', coalesce(inner, ''))

  datatype Comparison = Eq | Ne | Gt | Ge | Lt | Le

  datatype Condition =
    | True
    | Both(a: Condition, b: Condition)
    | Either(a: Condition, b: Condition)
    | Negated(a: Condition)
    | Compared(op: Comparison, x: Scalar, y: Scalar)
    | Among(x: Scalar, ys: seq<Scalar>)
    | NotAmong(x: Scalar, ys: seq<Scalar>)
    | IsNull(x: Scalar)
    | NotNull(x: Scalar)
    | Search(x: Scalar, y: Scalar)                     // x @@ plainto_tsquery('english', y)

  function And3(a: Truth, b: Truth): Truth {
    if a == No || b == No then No else if a == Yes && b == Yes then Yes else Unknown
  }

  function Or3(a: Truth, b: Truth): Truth {
    if a == Yes || b == Yes then Yes else if a == No && b == No then No else Unknown
  }

  function Not3(a: Truth): Truth {
    match a case Yes => No case No => Yes case Unknown => Unknown
  }

  function Known(b: bool): Truth {
    if b then Yes else No
  }

  function ColumnOf(row: Row, alias: Alias, name: string): Datum {
    if alias in row && name in row[alias].columns then row[alias].columns[name] else Null
  }

  function FieldOf(row: Row, key: Datum): Datum {
    if key.Text? && I in row && key.text in row[I].fields then row[I].fields[key.text] else Null
  }

  /** A text is already a text; nothing else happens to a null. */
  function CastTo(w: World, to: Type, d: Datum): Datum {
    if d.Null? || (to == TextType && d.Text?) then d else w.cast(to, d)
  }

  function Compare(w: World, op: Comparison, x: Datum, y: Datum): Truth {
    if x.Null? || y.Null? then Unknown else
    match op
    case Eq => Known(x == y)
    case Ne => Known(x != y)
    case Lt => Known(w.less(x, y))
    case Le => Known(w.less(x, y) || x == y)
    case Gt => Known(w.less(y, x))
    case Ge => Known(w.less(y, x) || x == y)
  }

  /** x IN (ys): the disjunction of the equalities. */
  function InList(w: World, x: Datum, ys: seq<Datum>): Truth {
    if ys == [] then No else Or3(Compare(w, Eq, x, ys[0]), InList(w, x, ys[1..]))
  }

  function SearchIn(w: World, doc: Datum, query: Datum): Truth {
    if doc.Null? || !query.Text? then Unknown else Known(w.matches(doc, query.text))
  }

  /** Field values are stored as JSON; ->> gives the text of one. */
  function Unquoted(w: World, d: Datum): Datum {
    if d.Json? then w.unquote(d.text) else Null
  }

  function Value(w: World, e: Scalar, row: Row, args: seq<Datum>): Datum
    decreases e
  {
    match e
    case Column(alias, name) => ColumnOf(row, alias, name)
    case Param(n) => if 1 <= n <= |args| then args[n - 1] else Null
    case Constant(d) => d
    case Cast(inner, to) => CastTo(w, to, Value(w, inner, row, args))
    case FieldText(key) => Unquoted(w, FieldOf(row, Value(w, key, row, args)))
    case FieldJson(key) => FieldOf(row, Value(w, key, row, args))
    case WithinProjects(ids, inner) =>
      if InList(w, ColumnOf(row, I, "project_id"), Values(w, ids, row, args)) == Yes then Value(w, inner, row, args)
          else Null
    case TextVector(inner) =>
      var d := Value(w, inner, row, args);
      w.vector(if d.Text? then d.text else "")
  }

  function Values(w: World, es: seq<Scalar>, row: Row, args: seq<Datum>): (ds: seq<Datum>)
    ensures |ds| == |es| && forall i | 0 <= i < |es| :: ds[i] == Value(w, es[i], row, args)
    decreases es
  {
    if es == [] then [] else [Value(w, es[0], row, args)] + Values(w, es[1..], row, args)
  }

  function Eval(w: World, c: Condition, row: Row, args: seq<Datum>): Truth {
    match c
    case True => Yes
    case Both(a, b) => And3(Eval(w, a, row, args), Eval(w, b, row, args))
    case Either(a, b) => Or3(Eval(w, a, row, args), Eval(w, b, row, args))
    case Negated(a) => Not3(Eval(w, a, row, args))
    case Compared(op, x, y) => Compare(w, op, Value(w, x, row, args), Value(w, y, row, args))
    case Among(x, ys) => InList(w, Value(w, x, row, args), Values(w, ys, row, args))
    case NotAmong(x, ys) => Not3(InList(w, Value(w, x, row, args), Values(w, ys, row, args)))
    case IsNull(x) => Known(Value(w, x, row, args).Null?)
    case NotNull(x) => Known(!Value(w, x, row, args).Null?)
    case Search(x, y) => SearchIn(w, Value(w, x, row, args), Value(w, y, row, args))
  }

  /* ---------- which aliases an expression mentions ---------- */

  /** The aliases an expression reads. */
  function ScalarAliases(e: Scalar): set<Alias>
    decreases e
  {
    match e
    case Column(alias, _) => {alias}
    case Param(_) => {}
    case Constant(_) => {}
    case Cast(inner, _) => ScalarAliases(inner)
    case FieldText(key) => {I} + ScalarAliases(key)
    case FieldJson(key) => {I} + ScalarAliases(key)
    case WithinProjects(ids, inner) => {I} + ListAliases(ids) + ScalarAliases(inner)
    case TextVector(inner) => ScalarAliases(inner)
  }

  function ListAliases(es: seq<Scalar>): (s: set<Alias>)
    ensures forall i | 0 <= i < |es| :: ScalarAliases(es[i]) <= s
    decreases es
  {
    if es == [] then {} else ScalarAliases(es[0]) + ListAliases(es[1..])
  }

  function Aliases(c: Condition): set<Alias> {
    match c
    case True => {}
    case Both(a, b) => Aliases(a) + Aliases(b)
    case Either(a, b) => Aliases(a) + Aliases(b)
    case Negated(a) => Aliases(a)
    case Compared(_, x, y) => ScalarAliases(x) + ScalarAliases(y)
    case Among(x, ys) => ScalarAliases(x) + ListAliases(ys)
    case NotAmong(x, ys) => ScalarAliases(x) + ListAliases(ys)
    case IsNull(x) => ScalarAliases(x)
    case NotNull(x) => ScalarAliases(x)
    case Search(x, y) => ScalarAliases(x) + ScalarAliases(y)
  }

  /** The rows agree on everything the given aliases can show. */
  ghost predicate AgreeOn(aliases: set<Alias>, a: Row, b: Row) {
    forall x | x in aliases :: (x in a <==> x in b) && (x in a ==> a[x] == b[x])
  }

  lemma {:induction false} ScalarIsLocal(w: World, e: Scalar, a: Row, b: Row, args: seq<Datum>)
    requires AgreeOn(ScalarAliases(e), a, b)
    ensures Value(w, e, a, args) == Value(w, e, b, args)
    decreases e
  {
    match e
    case Column(_, _) =>
    case Param(_) =>
    case Constant(_) =>
    case Cast(inner, _) => ScalarIsLocal(w, inner, a, b, args);
    case FieldText(key) => ScalarIsLocal(w, key, a, b, args);
    case FieldJson(key) => ScalarIsLocal(w, key, a, b, args);
    case WithinProjects(ids, inner) =>
      assert I in ScalarAliases(e);
      ListIsLocal(w, ids, a, b, args);
      ScalarIsLocal(w, inner, a, b, args);
    case TextVector(inner) => ScalarIsLocal(w, inner, a, b, args);
  }

  lemma {:induction false} ListIsLocal(w: World, es: seq<Scalar>, a: Row, b: Row, args: seq<Datum>)
    requires AgreeOn(ListAliases(es), a, b)
    ensures Values(w, es, a, args) == Values(w, es, b, args)
    decreases es
  {
    if es != [] {
      ScalarIsLocal(w, es[0], a, b, args);
      ListIsLocal(w, es[1..], a, b, args);
    }
  }

  /** A condition looks at nothing but the aliases it mentions. */
  lemma {:induction false} ConditionIsLocal(w: World, c: Condition, a: Row, b: Row, args: seq<Datum>)
    requires AgreeOn(Aliases(c), a, b)
    ensures Eval(w, c, a, args) == Eval(w, c, b, args)
  {
    match c
    case True =>
    case Both(c1, c2) =>
      ConditionIsLocal(w, c1, a, b, args);
      ConditionIsLocal(w, c2, a, b, args);
    case Either(c1, c2) =>
      ConditionIsLocal(w, c1, a, b, args);
      ConditionIsLocal(w, c2, a, b, args);
    case Negated(c1) => ConditionIsLocal(w, c1, a, b, args);
    case Compared(_, x, y) =>
      ScalarIsLocal(w, x, a, b, args);
      ScalarIsLocal(w, y, a, b, args);
    case Among(x, ys) =>
      ScalarIsLocal(w, x, a, b, args);
      ListIsLocal(w, ys, a, b, args);
    case NotAmong(x, ys) =>
      ScalarIsLocal(w, x, a, b, args);
      ListIsLocal(w, ys, a, b, args);
    case IsNull(x) => ScalarIsLocal(w, x, a, b, args);
    case NotNull(x) => ScalarIsLocal(w, x, a, b, args);
    case Search(x, y) =>
      ScalarIsLocal(w, x, a, b, args);
      ScalarIsLocal(w, y, a, b, args);
  }

  /** IN, said directly: some element equals, or none does and nothing was null. */
  lemma {:induction false} InListMeaning(w: World, x: Datum, ys: seq<Datum>)
    ensures InList(w, x, ys) == Yes <==> !x.Null? && x in ys
    ensures InList(w, x, ys) == No <==> ys == [] || (!x.Null? && x !in ys && Null !in ys)
  {
    if ys != [] {
      InListMeaning(w, x, ys[1..]);
      assert ys == [ys[0]] + ys[1..];
    }
  }
}
