/**
 What the words, signs and columns of the query language stand for: each is tied to its meaning here,
 one by one (internal/sxq/lexer.go, parser.go, compile.go).
 */
module SxqGlossary {
  import opened Wrappers
  import opened Sxq
  import opened SxqLexer
  import opened SxqParser
  import opened SxqPrint
  import C = SxqCompile
  import Sql

  /* ---------- comparisons ---------- */

  /** A comparison with a null is unknown; any other is true or false by the order of the values. */
  lemma ComparisonMeans(w: Sql.World, o: C.Options, name: string, op: Op, v: Value, row: Sql.Row)
    requires !C.IsNullValue(v) && C.FieldKind(o, name).Some?
    requires op in {EqOp, NeOp, GtOp, GeOp, LtOp, LeOp}
    ensures var t := C.Satisfies(w, o, Compare(name, op, [v]), row);
            var x, y := C.FieldValue(w, o, name, row), C.Denoted(w, o, v, C.FieldKind(o, name).value);
            if x.Null? || y.Null? then t == Sql.Unknown
            else
              && (t == Sql.Yes || t == Sql.No)
              && (op == EqOp ==> (t == Sql.Yes <==> x == y))
              && (op == NeOp ==> (t == Sql.Yes <==> x != y))
              && (op == LtOp ==> (t == Sql.Yes <==> w.less(x, y)))
              && (op == LeOp ==> (t == Sql.Yes <==> w.less(x, y) || x == y))
              && (op == GtOp ==> (t == Sql.Yes <==> w.less(y, x)))
              && (op == GeOp ==> (t == Sql.Yes <==> w.less(y, x) || x == y))
  {
    hide C.FieldValue, C.Denoted, C.FieldKind;
  }

  /** Tests for null are never unknown. */
  lemma NullTestMeans(w: Sql.World, o: C.Options, name: string, op: Op, row: Sql.Row)
    requires op in {EqOp, NeOp, IsOp, IsNotOp}
    ensures var t := C.Satisfies(w, o, Compare(name, op, [Plain(NullLiteral)]), row);
            var missing := C.FieldValue(w, o, name, row).Null?;
            t == if (op == EqOp || op == IsOp) == missing then Sql.Yes else Sql.No
  {
    hide C.FieldValue, C.Denoted, C.FieldKind;
  }

  /** A list test asks whether one of the values is the field's. */
  lemma ListTestMeans(w: Sql.World, o: C.Options, name: string, values: seq<Value>, row: Sql.Row)
    requires values != [] && C.FieldKind(o, name).Some?
    ensures var x, kind := C.FieldValue(w, o, name, row), C.FieldKind(o, name).value;
            var within := C.Satisfies(w, o, Compare(name, InOp, values), row);
            var without := C.Satisfies(w, o, Compare(name, NotInOp, values), row);
            && (within == Sql.Yes <==> !x.Null? && exists v :: v in values && C.Denoted(w, o, v, kind) == x)
            && (within == Sql.No <==>
                !x.Null? && forall v | v in values :: !C.Denoted(w, o, v, kind).Null? && C.Denoted(w, o, v, kind) != x)
            && (without == Sql.Yes <==> within == Sql.No) && (without == Sql.No <==> within == Sql.Yes)
  {
    hide C.FieldValue, C.Denoted, C.FieldKind;
    var choices := set v | v in values :: C.Denoted(w, o, v, C.FieldKind(o, name).value);
    assert values[0] in values;
    assert C.Denoted(w, o, values[0], C.FieldKind(o, name).value) in choices;
  }

  /** Three-valued logic. */
  lemma LogicMeans(w: Sql.World, o: C.Options, a: Expr, b: Expr, row: Sql.Row)
    ensures var x, y := C.Satisfies(w, o, a, row), C.Satisfies(w, o, b, row);
            && (C.Satisfies(w, o, And(a, b), row) == Sql.Yes <==> x == Sql.Yes && y == Sql.Yes)
            && (C.Satisfies(w, o, And(a, b), row) == Sql.No <==> x == Sql.No || y == Sql.No)
            && (C.Satisfies(w, o, Or(a, b), row) == Sql.Yes <==> x == Sql.Yes || y == Sql.Yes)
            && (C.Satisfies(w, o, Or(a, b), row) == Sql.No <==> x == Sql.No && y == Sql.No)
            && (C.Satisfies(w, o, Not(a), row) == Sql.Yes <==> x == Sql.No)
            && (C.Satisfies(w, o, Not(a), row) == Sql.No <==> x == Sql.Yes)
  {
    hide C.CompareTruth;
  }

  /** What functions and literals denote. */
  lemma ValuesMean(w: Sql.World, o: C.Options, offset: int, text: string, b: bool)
    ensures C.Denoted(w, o, Me, C.UuidKind) == w.cast(Sql.UuidType, Sql.Text(o.userId))
    ensures C.Denoted(w, o, Now(offset), C.DateKind) == w.cast(Sql.DateType, Sql.Text(o.lib.day(o.now + offset)))
    ensures C.Denoted(w, o, Now(offset), C.InstantKind) ==
            w.cast(Sql.InstantType, Sql.Text(o.lib.instant(o.now + offset)))
    ensures C.Denoted(w, o, Plain(NumberLiteral(text)), C.NumberKind) == w.cast(Sql.NumericType, Sql.Text(text))
    ensures C.Denoted(w, o, Plain(TextLiteral(text)), C.TextKind) == Sql.Text(text)
    ensures C.Denoted(w, o, Plain(TextLiteral(text)), C.UuidKind) == w.cast(Sql.UuidType, Sql.Text(text))
    ensures C.Denoted(w, o, Plain(TextLiteral(text)), C.DateKind) == w.cast(Sql.DateType, Sql.Text(text))
    ensures C.Denoted(w, o, Plain(TextLiteral(text)), C.InstantKind) == w.cast(Sql.InstantType, Sql.Text(text))
    ensures C.Denoted(w, o, Plain(BoolLiteral(b)), C.BoolKind) == Sql.Bool(b)
  {
  }

  /* ---------- fields ---------- */

  const ITEM_TEXTS: set<string> := {"key", "title", "body", "rank"}
  const ITEM_NUMBERS: set<string> := {"points", "version", "change_seq", "config_version"}
  const ITEM_DATES: set<string> := {"start_date", "due_date"}
  const ITEM_INSTANTS: set<string> := {"created_at", "updated_at", "deleted_at"}
  const ROLLUP_NUMBERS: set<string> := {"descendant_count", "done_count", "points_total", "points_done"}
  const ROLLUP_DATES: set<string> := {"earliest_start", "latest_due"}

  /** A field that bears the name of an item's column reads that column. */
  lemma ItemFields(n: string)
    ensures n in ITEM_TEXTS ==> C.BuiltIn(n) == Some(C.FieldRef(Sql.Column(Sql.I, n), C.TextKind))
    ensures n in ITEM_NUMBERS ==> C.BuiltIn(n) == Some(C.FieldRef(Sql.Column(Sql.I, n), C.NumberKind))
    ensures n in ITEM_DATES ==> C.BuiltIn(n) == Some(C.FieldRef(Sql.Column(Sql.I, n), C.DateKind))
    ensures n in ITEM_INSTANTS ==> C.BuiltIn(n) == Some(C.FieldRef(Sql.Column(Sql.I, n), C.InstantKind))
    ensures n == "id" ==> C.BuiltIn(n) == Some(C.FieldRef(Sql.Column(Sql.I, n), C.UuidKind))
  {
  }

  /** A field of the rollup reads the column of that name in the rollup. */
  lemma RollupFields(n: string)
    ensures n in ROLLUP_NUMBERS ==> C.BuiltIn("rollup." + n) == Some(C.FieldRef(Sql.Column(Sql.R, n), C.NumberKind))
    ensures n in ROLLUP_DATES ==> C.BuiltIn("rollup." + n) == Some(C.FieldRef(Sql.Column(Sql.R, n), C.DateKind))
  {
    hide C.BuiltIn;
    RollupNumber(n);
    RollupDate(n);
  }

  lemma RollupNumber(n: string)
    ensures n in ROLLUP_NUMBERS ==> C.BuiltIn("rollup." + n) == Some(C.FieldRef(Sql.Column(Sql.R, n), C.NumberKind))
  {
    assert n == "descendant_count" ==> "rollup." + n == "rollup.descendant_count";
    assert n == "done_count" ==> "rollup." + n == "rollup.done_count";
    assert n == "points_total" ==> "rollup." + n == "rollup.points_total";
    assert n == "points_done" ==> "rollup." + n == "rollup.points_done";
  }

  lemma RollupDate(n: string)
    ensures n in ROLLUP_DATES ==> C.BuiltIn("rollup." + n) == Some(C.FieldRef(Sql.Column(Sql.R, n), C.DateKind))
  {
    assert n == "earliest_start" ==> "rollup." + n == "rollup.earliest_start";
    assert n == "latest_due" ==> "rollup." + n == "rollup.latest_due";
  }

  /** The fields that look into other tables. */
  lemma OtherFields()
    ensures C.BuiltIn("project") == Some(C.FieldRef(Sql.Column(Sql.P, "key_prefix"), C.TextKind))
    ensures C.BuiltIn("type") == Some(C.FieldRef(Sql.Column(Sql.T, "key"), C.TextKind))
    ensures C.BuiltIn("type.level") == Some(C.FieldRef(Sql.Column(Sql.T, "level"), C.NumberKind))
    ensures C.BuiltIn("status") == Some(C.FieldRef(Sql.Column(Sql.S, "key"), C.TextKind))
    ensures C.BuiltIn("status.category") == Some(C.FieldRef(Sql.Column(Sql.S, "category"), C.TextKind))
    ensures C.BuiltIn("assignee") == Some(C.FieldRef(Sql.Column(Sql.I, "assignee_id"), C.UuidKind))
    ensures C.BuiltIn("parent") == Some(C.FieldRef(Sql.Column(Sql.Par, "key"), C.TextKind))
    ensures C.BuiltIn("text") == Some(C.FieldRef(Sql.Column(Sql.I, "search_tsv"), C.SearchKind))
  {
  }

  /** No field beyond these is built in. */
  lemma NoOtherField(name: string)
    requires C.BuiltIn(name).Some?
    ensures || name in ITEM_TEXTS || name in ITEM_NUMBERS || name in ITEM_DATES || name in ITEM_INSTANTS
            || (|name| > 7 && name[..7] == "rollup." && (name[7..] in ROLLUP_NUMBERS || name[7..] in ROLLUP_DATES))
            || name in ["id", "project", "type", "type.level", "status", "status.category"]
            || name in ["assignee", "parent", "text"]
  {
    if name in {"rollup.descendant_count", "rollup.done_count", "rollup.points_total", "rollup.points_done",
                "rollup.earliest_start", "rollup.latest_due"} {
      assert name[..7] == "rollup.";
      assert name == "rollup.descendant_count" ==> name[7..] == "descendant_count";
      assert name == "rollup.done_count" ==> name[7..] == "done_count";
      assert name == "rollup.points_total" ==> name[7..] == "points_total";
      assert name == "rollup.points_done" ==> name[7..] == "points_done";
      assert name == "rollup.earliest_start" ==> name[7..] == "earliest_start";
      assert name == "rollup.latest_due" ==> name[7..] == "latest_due";
    }
  }

  /** The stored text of a custom field is cast to the type that literals of its kind are cast to. */
  lemma CustomKindsMean()
    ensures forall t | t in {"text", "url", "select"} :: C.CustomType(t) == Some((Some(Sql.TextType), C.TextKind))
    ensures C.CustomType("number") == Some((C.TypeOf(C.NumberKind), C.NumberKind))
    ensures C.TypeOf(C.NumberKind) == Some(Sql.NumericType)
    ensures C.CustomType("date") == Some((C.TypeOf(C.DateKind), C.DateKind))
    ensures C.TypeOf(C.DateKind) == Some(Sql.DateType)
    ensures C.CustomType("user") == Some((C.TypeOf(C.UuidKind), C.UuidKind))
    ensures C.TypeOf(C.UuidKind) == Some(Sql.UuidType)
    ensures C.CustomType("bool") == Some((Some(Sql.BoolType), C.BoolKind))
    ensures C.CustomType("multiselect") == Some((None, C.ArrayKind))
  {
  }

  /* ---------- signs and words ---------- */

  /** The operators by their signs. */
  lemma OperatorsRead(ts: seq<Token>, at: nat)
    requires ts != [] && !Peek(ts, at).quoted
    ensures var s, r := Peek(ts, at).text, OperatorAt(ts, at);
            && (s == "=" ==> r == Ok(Parsed(EqOp, at + 1)))
            && (s == "!=" ==> r == Ok(Parsed(NeOp, at + 1)))
            && (s == ">" ==> r == Ok(Parsed(GtOp, at + 1)))
            && (s == ">=" ==> r == Ok(Parsed(GeOp, at + 1)))
            && (s == "<" ==> r == Ok(Parsed(LtOp, at + 1)))
            && (s == "<=" ==> r == Ok(Parsed(LeOp, at + 1)))
            && (s == "~" ==> r == Ok(Parsed(TildeOp, at + 1)))
            && (s == ":" ==> r == Ok(Parsed(ColonOp, at + 1)))
  {
    SignsAreCanonical();
    hide Canonical, Peek;
  }

  /** The operators by their words. */
  lemma WordOperatorsRead(ts: seq<Token>, at: nat)
    requires ts != [] && !Peek(ts, at).quoted && !Peek(ts, at + 1).quoted
    ensures var s, t, r := Peek(ts, at).text, Peek(ts, at + 1).text, OperatorAt(ts, at);
            && (s == "in" ==> r == Ok(Parsed(InOp, at + 1)))
            && (s == "not" && t == "in" ==> r == Ok(Parsed(NotInOp, at + 2)))
            && (s == "is" && t == "not" ==> r == Ok(Parsed(IsNotOp, at + 2)))
            && (s == "is" && t == "null" ==> r == Ok(Parsed(IsOp, at + 1)))
  {
    KeywordsAreCanonical();
    hide Canonical, Peek;
  }

  /** How operands are joined and negated. */
  lemma ConnectivesRead(ts: seq<Token>, isNumber: NumberTest, at: nat, depth: nat, left: Expr, right: Expr, next: nat)
    requires Ends(ts) && depth <= MAX_DEPTH && Peek(ts, next) == END
    ensures Peek(ts, at) == W("and") && UnaryAt(ts, isNumber, at + 1, depth) == Ok(Parsed(right, next)) ==>
              AndRest(ts, isNumber, at, depth, left) == Ok(Parsed(And(left, right), next))
    ensures Peek(ts, at) == W("or") && AndAt(ts, isNumber, at + 1, depth) == Ok(Parsed(right, next)) ==>
              OrRest(ts, isNumber, at, depth, left) == Ok(Parsed(Or(left, right), next))
    ensures && depth < MAX_DEPTH
            && Peek(ts, at) == W("not")
            && UnaryAt(ts, isNumber, at + 1, depth + 1) == Ok(Parsed(right, next)) ==>
              UnaryAt(ts, isNumber, at, depth) == Ok(Parsed(Not(right), next))
  {
    KeywordsAreCanonical();
    hide Canonical, Peek, CompareAt, OrAt;
  }

  /** Descending only when asked for. */
  lemma OrderRead(ts: seq<Token>, at: nat, name: string)
    requires ts != [] && Peek(ts, at) == W("order") && Peek(ts, at + 1) == W("by") && Peek(ts, at + 2) == W(name)
    requires Canonical(name) == name != ""
    ensures Peek(ts, at + 3) == W("desc") ==> OrderAt(ts, at) == Ok(Parsed((name, true), at + 4))
    ensures Peek(ts, at + 3) == W("asc") ==> OrderAt(ts, at) == Ok(Parsed((name, false), at + 4))
    ensures Peek(ts, at + 3) == END ==> OrderAt(ts, at) == Ok(Parsed((name, false), at + 3))
  {
    KeywordsAreCanonical();
    LowerIsCanonical("asc");
    hide Canonical, Peek;
  }

  function Seconds(unit: char): nat {
    match unit
    case 'm' => 60
    case 'h' => 60 * 60
    case 'd' => 24 * 60 * 60
    case _ => 7 * 24 * 60 * 60
  }

  /** A plus leads into the future, a minus into the past; the units are those of the calendar, in nanoseconds. */
  lemma OffsetsRead(ts: seq<Token>, at: nat, count: nat, unit: char)
    requires ts != [] && Peek(ts, at + 1) == W(DecimalText(count) + [unit]) && count <= 1_000_000
    requires unit in "mhdw"
    ensures var seconds := Seconds(unit);
            var length: int := count * seconds * 1_000_000_000;
            var short, plus, minus := length <= 0x7FFF_FFFF_FFFF_FFFF, Peek(ts, at) == W("+"), Peek(ts, at) == W("-");
            && (plus && short ==> OffsetAt(ts, at) == Ok(Parsed(Now(length), at + 2)))
            && (minus && short ==> OffsetAt(ts, at) == Ok(Parsed(Now(-length), at + 2)))
            && ((plus || minus) && !short ==> OffsetAt(ts, at) == Err(BadDuration))
  {
    SignsAreCanonical();
    var text := DecimalText(count) + [unit];
    assert text[..|text| - 1] == DecimalText(count) && text[|text| - 1] == unit;
    UnitSeconds(count, unit);
    hide Canonical, Peek, Duration, DecimalText;
  }

  lemma UnitSeconds(count: nat, unit: char)
    requires unit in "mhdw" && count <= 1_000_000
    ensures var length: nat := count * Seconds(unit) * 1_000_000_000;
            Duration(DecimalText(count) + [unit]) == if length <= 0x7FFF_FFFF_FFFF_FFFF then Some(length) else None
  {
    hide DecimalText, Decimal, Unit, Seconds;
    var text, u := DecimalText(count) + [unit], Seconds(unit) * 1_000_000_000;
    assert text[..|text| - 1] == DecimalText(count) && text[|text| - 1] == unit;
    UnitIs(unit);
    Fits(count, u);
    assert count * Seconds(unit) * 1_000_000_000 == count * u;
  }

  lemma UnitIs(unit: char)
    requires unit in "mhdw"
    ensures Seconds(unit) > 0 && Unit(unit) == Some(Seconds(unit) * 1_000_000_000)
  {
  }

  lemma Fits(count: nat, unit: nat)
    requires unit > 0
    ensures count <= MAX_NANOSECONDS / unit <==> count * unit <= 0x7FFF_FFFF_FFFF_FFFF
  {
    var d := MAX_NANOSECONDS / unit;
    if count <= d {
      assert count * unit <= d * unit;
    } else {
      assert count * unit >= (d + 1) * unit;
    }
  }

  /** A bare word that means nothing else is its own text, in its own case. */
  lemma BareWordRead(ts: seq<Token>, isNumber: NumberTest, at: nat)
    requires ts != [] && !Peek(ts, at).quoted && WordText(Peek(ts, at).text) && !isNumber(Peek(ts, at).text)
    requires Canonical(Peek(ts, at).text) !in
               ["startofsprint", "endofsprint", "me", "now", "null", "true", "false", "and", "or", "order"]
    ensures ValueAt(ts, isNumber, at) == Ok(Parsed(Plain(TextLiteral(Peek(ts, at).text)), at + 1))
  {
    WordIsNoSign(Peek(ts, at).text);
    forall i | 0 <= i < |Peek(ts, at).text| ensures Peek(ts, at).text[i] !in "()~,+:=<>!" {
      assert WordChar(Peek(ts, at).text[i]);
    }
    hide Canonical, OffsetAt;
  }

  /** Words kept for later, words that cannot be values, and the two truth values. */
  lemma ReservedWordsRead(ts: seq<Token>, isNumber: NumberTest, at: nat)
    requires ts != [] && !Peek(ts, at).quoted && Peek(ts, at).text != ""
    ensures var word, r := Canonical(Peek(ts, at).text), ValueAt(ts, isNumber, at);
            && (word in ["startofsprint", "endofsprint"] ==> r == Err(Unavailable))
            && (word in ["and", "or", "order"] && !isNumber(Peek(ts, at).text) ==> r == Err(NoLiteral))
            && (word == "true" ==> r == Ok(Parsed(Plain(BoolLiteral(true)), at + 1)))
            && (word == "false" ==> r == Ok(Parsed(Plain(BoolLiteral(false)), at + 1)))
  {
    hide Canonical, OffsetAt, Peek;
  }

  lemma ReservedFieldsRead(ts: seq<Token>, isNumber: NumberTest, at: nat)
    requires Ends(ts) && Canonical(Peek(ts, at).text) in ["descendants", "ancestors"]
    ensures CompareAt(ts, isNumber, at) == Err(Unavailable)
  {
    hide Canonical, Peek;
  }

  /* ---------- limits ---------- */

  /** 64 levels of nesting, 200 values in a list. */
  lemma LimitsRead(ts: seq<Token>, isNumber: NumberTest, at: nat, done: seq<Value>)
    requires Ends(ts) && ValueAt(ts, isNumber, at).Ok?
    ensures UnaryAt(ts, isNumber, at, 64) == Err(TooDeep)
    ensures |done| == 200 ==> ListAt(ts, isNumber, at, done) == Err(TooManyValues)
    ensures |done| == 199 && !Is(ts, ValueAt(ts, isNumber, at).value.at, ",") ==> ListAt(ts, isNumber, at, done).Ok?
  {
    hide Canonical, Peek, ValueAt;
  }

  /** 4096 bytes of text, and 1024 terms before a word. */
  lemma LexerLimits(input: string, s: string, out: seq<Token>)
    ensures Utf8Length(input) > 4096 ==> LexText(input) == Err(TooLong)
    ensures Utf8Length(input) <= 4096 ==> LexText(input) == LexRest(input, [])
    ensures s != "" && !Blank(s[0]) && Scan(s).Ok? ==>
              var (t, rest) := Scan(s).value;
              && (IsWord(t) && |out| == 1024 ==> LexRest(s, out) == Err(TooManyTerms))
              && (!IsWord(t) || |out| == 1023 ==> LexRest(s, out) == LexRest(rest, out + [t]))
  {
    hide Scan, IsWord, Utf8Length;
  }

  /* ---------- characters ---------- */

  /** Inside a string a backslash stands before n, r, t, a quote or itself, and before nothing else. */
  lemma EscapesRead(c: char, rest: string, quote: char, value: string)
    requires quote == '\'' || quote == '\"'
    ensures var r := QuotedRest(['\\', c] + rest, quote, value);
            && (c == 'n' ==> r == QuotedRest(rest, quote, value + "\n"))
            && (c == 'r' ==> r == QuotedRest(rest, quote, value + "\r"))
            && (c == 't' ==> r == QuotedRest(rest, quote, value + "\t"))
            && (c == '\\' || c == '\'' || c == '\"' ==> r == QuotedRest(rest, quote, value + [c]))
            && (c !in "nrt\\\'\"" ==> r == Err(BadEscape))
    ensures c == quote ==> QuotedRest([c] + rest, quote, value) == Ok((value, rest))
    ensures c != quote && c != '\\' ==> QuotedRest([c] + rest, quote, value) == QuotedRest(rest, quote, value + [c])
    ensures QuotedRest("", quote, value) == Err(Unterminated) && QuotedRest("\\", quote, value) == Err(Unterminated)
  {
    var s, t := ['\\', c] + rest, [c] + rest;
    assert s[0] == '\\' && s[1] == c && s[2..] == rest;
    assert t[0] == c && t[1..] == rest;
  }

  /** Blanks of all four kinds separate tokens, in any number. */
  lemma BlanksSeparate(b: char, s: string, out: seq<Token>)
    requires b == ' ' || b == '\t' || b == '\r' || b == '\n'
    ensures LexRest([b] + s, out) == LexRest(s, out)
  {
    assert ([b] + s)[0] == b && ([b] + s)[1..] == s;
  }

  /** Letters of both cases, digits, underscore, dot and hyphen make words; a hyphen cannot open one. */
  lemma WordsAre(c: char)
    ensures WordText(['a', c]) <==>
            'a' <= c <= 'z' || 'A' <= c <= 'Z' || '0' <= c <= '9' || c == '_' || c == '.' || c == '-'
    ensures WordText([c]) <==> 'a' <= c <= 'z' || 'A' <= c <= 'Z' || '0' <= c <= '9' || c == '_' || c == '.'
  {
    assert ['a', c][1] == c && [c][0] == c;
  }

  /** Outside strings and words only the signs are accepted. */
  lemma SignsAre(c: char, rest: string)
    requires c !in "\'\"" && !WordText([c])
    ensures Scan([c] + rest).Ok? ==> c in "()~,+:=<>!-"
    ensures c == '!' && (rest == "" || rest[0] != '=') ==> Scan([c] + rest) == Err(LoneBang)
    ensures c in "()~,+:=-" ==> Scan([c] + rest) == Ok((Token([c], false), rest))
    ensures c in "<>!" && rest != "" && rest[0] == '=' ==> Scan([c] + rest) == Ok((Token([c, '='], false), rest[1..]))
  {
    var s := [c] + rest;
    assert s[0] == c && s[1..] == rest;
    if !Operator(c) {
      assert [c][0] == c;
      assert WordLength(s) == 0 by { NoWord(s); }
    } else {
      assert s[..1] == [c];
      if rest != "" && rest[0] == '=' { assert s[..2] == [c, '='] && s[2..] == rest[1..]; }
    }
  }

  lemma NoWord(s: string)
    requires s != "" && !WordChar(s[0])
    ensures WordLength(s) == 0
  {
  }
}
