/** What an accepted query is: which tokens the parser has read, and what its syntax tree looks like. */
module SxqAccepted {
  import opened Wrappers
  import opened Sxq
  import opened SxqLexer
  import opened SxqParser
  import opened SxqPrint

  const EMPTY: Token := Token("", true)

  /** No empty string stands among the tokens from one position to another. */
  ghost predicate Passed(ts: seq<Token>, from: nat, to: nat) {
    forall k | from <= k < to && k < |ts| :: ts[k] != EMPTY
  }

  /** ParseFloat takes neither an operator nor the word "not" for a number. */
  ghost predicate PlainNumbers(isNumber: NumberTest) {
    forall s | OperatorText(s) || Canonical(s) == "not" :: !isNumber(s)
  }

  /** Tokens from the lexer, read with such a test. */
  ghost predicate Plainly(ts: seq<Token>, isNumber: NumberTest) {
    PlainNumbers(isNumber) && forall i | 0 <= i < |ts| - 1 :: Lexable(ts[i])
  }

  /** Every field is named by a word that does not open an order clause. */
  predicate Words(e: Expr) {
    match e
    case And(l, r) => Words(l) && Words(r)
    case Or(l, r) => Words(l) && Words(r)
    case Not(i) => Words(i)
    case Compare(f, _, _) => WordText(f) && f != "order"
  }

  /** What the parser leaves when it has read an expression. */
  ghost predicate Read(ts: seq<Token>, isNumber: NumberTest, from: nat, to: nat, e: Expr) {
    && (!isNumber("-") ==> Passed(ts, from, to))
    && EmptyFree(e)
    && (Plainly(ts, isNumber) && Words(e) ==> Shaped(isNumber, e))
  }

  lemma CountIsWritable(n: nat, unit: nat, c: char)
    requires Unit(c) == Some(unit) && n <= MAX_COUNT && n <= MAX_NANOSECONDS / unit
    ensures Writable(n * unit)
  {
    hide Countable;
    match c
    case 'w' =>
      assert n <= 15250 && n * WEEK == 7 * n * DAY;
      DaysAreCountable(7 * n);
    case 'd' => DaysAreCountable(n);
    case 'h' => HoursAreCountable(n);
    case _ => MinutesAreCountable(n);
  }

  lemma HoursAreCountable(n: nat)
    requires n <= MAX_COUNT && n <= MAX_NANOSECONDS / HOUR
    ensures Countable(n * HOUR, HOUR)
  {
    assert (n * HOUR) / HOUR == n && (n * HOUR) % HOUR == 0;
  }

  lemma MinutesAreCountable(n: nat)
    requires n <= MAX_COUNT && n <= MAX_NANOSECONDS / MINUTE
    ensures Countable(n * MINUTE, MINUTE)
  {
    assert (n * MINUTE) / MINUTE == n && (n * MINUTE) % MINUTE == 0;
  }

  lemma DaysAreCountable(n: nat)
    requires n <= MAX_COUNT && n <= MAX_NANOSECONDS / DAY
    ensures Countable(n * DAY, DAY)
  {
    assert (n * DAY) / DAY == n && (n * DAY) % DAY == 0;
  }

  /** Every duration that is read can be written. */
  lemma DurationIsWritable(s: string)
    requires |s| >= 2 && Duration(s).Some?
    ensures Writable(Duration(s).value)
  {
    hide Writable, Decimal;
    CountIsWritable(Decimal(s[..|s| - 1]), Unit(s[|s| - 1]).value, s[|s| - 1]);
  }

  lemma OffsetRead(ts: seq<Token>, at: nat)
    requires Ends(ts) && OffsetAt(ts, at).Ok?
    ensures Passed(ts, at, OffsetAt(ts, at).value.at)
    ensures OffsetAt(ts, at).value.value.Now? && Printable(OffsetAt(ts, at).value.value)
  {
    hide Canonical, Duration, Writable;
    var d := Peek(ts, at + 1);
    if OffsetAt(ts, at).value.at > at {
      DurationIsWritable(d.text);
    } else {
      assert Writable(0) by { CountIsWritable(0, MINUTE, 'm'); }
    }
  }

  /** The token at a position before the end is the lexer's. */
  lemma PeekIsLexable(ts: seq<Token>, at: nat)
    requires Ends(ts) && Peek(ts, at) != END && forall i | 0 <= i < |ts| - 1 :: Lexable(ts[i])
    ensures Lexable(Peek(ts, at))
  {
    hide Lexable;
  }

  lemma MinusAlone(text: string)
    ensures "-" + text == "-" <==> text == ""
  {
  }

  /** What is taken as a keyword or a sign stands before the end. */
  lemma TakenIsInside(ts: seq<Token>, at: nat, s: string)
    requires Ends(ts) && Is(ts, at, s) && s != ""
    ensures at < |ts| - 1
  {
    assert Canonical("") == "" by { LowerIsCanonical(""); }
    hide Canonical;
  }

  lemma LiteralRead(ts: seq<Token>, isNumber: NumberTest, at: nat)
    requires Ends(ts) && LiteralAt(ts, isNumber, at).Ok? && !Peek(ts, at).quoted && Peek(ts, at).text != ""
    ensures !isNumber("-") ==> Passed(ts, at, LiteralAt(ts, isNumber, at).value.at)
    ensures var v := LiteralAt(ts, isNumber, at).value.value;
            !EmptyText(v) && (v.Plain? && v.literal.NumberLiteral? ==> isNumber(v.literal.text)) && v.Plain?
    ensures var v := LiteralAt(ts, isNumber, at).value.value;
            v.literal.TextLiteral? || (v.literal.NumberLiteral? && v.literal.text != "" &&
                                       (v.literal.text[0] == '-' || v.literal.text == Peek(ts, at).text))
  {
    hide Canonical;
    MinusAlone(Peek(ts, at + 1).text);
  }

  lemma ValueRead(ts: seq<Token>, isNumber: NumberTest, at: nat)
    requires Ends(ts) && ValueAt(ts, isNumber, at).Ok?
    ensures var r := ValueAt(ts, isNumber, at).value;
            (!isNumber("-") ==> Passed(ts, at, r.at)) && ValueIsRead(ts, isNumber, r.value)
  {
    hide Canonical, LiteralAt, OffsetAt, Writable;
    var t := Peek(ts, at);
    var r := ValueAt(ts, isNumber, at).value;
    if !t.quoted {
      var name := Canonical(t.text);
      if name == "now" {
        OffsetRead(ts, at + 3);
      } else if name !in ["me", "null", "true", "false"] {
        LiteralRead(ts, isNumber, at);
        if Plainly(ts, isNumber) { NumberIsSpelled(ts, isNumber, at, r.value); }
      }
    }
  }

  /** A number that was read from plain tokens can be printed. */
  lemma NumberIsSpelled(ts: seq<Token>, isNumber: NumberTest, at: nat, v: Value)
    requires Ends(ts) && Plainly(ts, isNumber) && !Peek(ts, at).quoted && Peek(ts, at).text != ""
    requires v.Plain? && Numeric(isNumber, v) && Canonical(Peek(ts, at).text) !in ["me", "now", "null", "true", "false"]
    requires !Sprint(Canonical(Peek(ts, at).text))
    requires v.literal.TextLiteral? || (v.literal.NumberLiteral? && v.literal.text != "" &&
                                        (v.literal.text[0] == '-' || v.literal.text == Peek(ts, at).text))
    ensures Printable(v)
  {
    PeekIsLexable(ts, at);
    hide Canonical;
  }

  /** Values as the parser leaves them. */
  ghost predicate ValuesRead(ts: seq<Token>, isNumber: NumberTest, vs: seq<Value>) {
    forall i | 0 <= i < |vs| :: ValueIsRead(ts, isNumber, vs[i])
  }

  ghost predicate ValueIsRead(ts: seq<Token>, isNumber: NumberTest, v: Value) {
    !EmptyText(v) && Numeric(isNumber, v) && (Plainly(ts, isNumber) ==> Printable(v))
  }

  lemma {:induction false} ListRead(ts: seq<Token>, isNumber: NumberTest, at: nat, done: seq<Value>)
    requires Ends(ts) && ListAt(ts, isNumber, at, done).Ok? && |done| <= MAX_VALUES && ValuesRead(ts, isNumber, done)
    ensures var r := ListAt(ts, isNumber, at, done).value;
            && (!isNumber("-") ==> Passed(ts, at, r.at)) && 1 <= |r.value| <= MAX_VALUES
                && ValuesRead(ts, isNumber, r.value)
    decreases Max(0, |ts| - at)
  {
    hide Canonical, ValueAt, ValueIsRead, Passed, ValuesRead;
    ValueRead(ts, isNumber, at);
    var v := ValueAt(ts, isNumber, at).value;
    OneMoreRead(ts, isNumber, done, v.value);
    if Is(ts, v.at, ",") {
      TakenIsInside(ts, v.at, ",");
      ListRead(ts, isNumber, v.at + 1, done + [v.value]);
      if !isNumber("-") { PassedComma(ts, at, v.at, ListAt(ts, isNumber, at, done).value.at); }
    }
  }

  lemma OneMoreRead(ts: seq<Token>, isNumber: NumberTest, done: seq<Value>, v: Value)
    requires ValuesRead(ts, isNumber, done) && ValueIsRead(ts, isNumber, v)
    ensures ValuesRead(ts, isNumber, done + [v])
  {
    hide ValueIsRead;
  }

  lemma PassedComma(ts: seq<Token>, from: nat, comma: nat, to: nat)
    requires Ends(ts) && Is(ts, comma, ",") && Passed(ts, from, comma) && Passed(ts, comma + 1, to)
    ensures Passed(ts, from, to)
  {
    TakenIsInside(ts, comma, ",");
    assert Canonical("") == "" by { LowerIsCanonical(""); }
    hide Canonical;
  }

  lemma OperatorRead(ts: seq<Token>, at: nat)
    requires Ends(ts) && OperatorAt(ts, at).Ok?
    ensures Passed(ts, at, OperatorAt(ts, at).value.at)
  {
    hide Canonical;
  }

  lemma {:induction false} CanonicalTwice(s: string)
    ensures Canonical(Canonical(s)) == Canonical(s)
  {
    var l := Lower(s);
    assert forall i | 0 <= i < |l| :: !('A' <= l[i] <= 'Z');
    if l == "currentuser" { LowerIsCanonical("me"); }
    else if l == "empty" { LowerIsCanonical("null"); }
    else { LowerIsCanonical(l); }
  }

  lemma CompareRead(ts: seq<Token>, isNumber: NumberTest, at: nat)
    requires Ends(ts) && CompareAt(ts, isNumber, at).Ok? && !Is(ts, at, "not")
    ensures var r := CompareAt(ts, isNumber, at).value;
            Read(ts, isNumber, at, r.at, r.value) && r.value.Compare?
  {
    hide Canonical, ValueAt, ListAt, OperatorAt, ValuesRead, Words, Shaped, EmptyFree, Plainly;
    var field, next := Canonical(Peek(ts, at).text), OperatorAt(ts, at + 1).value;
    OperatorRead(ts, at + 1);
    if next.value == InOp || next.value == NotInOp {
      assert ValuesRead(ts, isNumber, []) by { NothingRead(ts, isNumber); }
      ListRead(ts, isNumber, next.at + 1, []);
      NameIsRead(ts, isNumber, at, field, next.value, ListAt(ts, isNumber, next.at + 1, []).value.value);
    } else {
      ValueRead(ts, isNumber, next.at);
      OneIsRead(ts, isNumber, next.at);
      NameIsRead(ts, isNumber, at, field, next.value, [ValueAt(ts, isNumber, next.at).value.value]);
    }
  }

  lemma NothingRead(ts: seq<Token>, isNumber: NumberTest)
    ensures ValuesRead(ts, isNumber, [])
  {
  }

  lemma OneIsRead(ts: seq<Token>, isNumber: NumberTest, at: nat)
    requires Ends(ts) && ValueAt(ts, isNumber, at).Ok?
    ensures ValuesRead(ts, isNumber, [ValueAt(ts, isNumber, at).value.value])
  {
    ValueRead(ts, isNumber, at);
    hide ValueAt, ValueIsRead;
  }

  /** A comparison of values as they are read, under a word. */
  lemma NameIsRead(ts: seq<Token>, isNumber: NumberTest, at: nat, field: string, op: Op, values: seq<Value>)
    requires Ends(ts) && !Is(ts, at, "not") && !Peek(ts, at).quoted && field == Canonical(Peek(ts, at).text)
    requires field != "descendants" && field != "ancestors" && ValuesRead(ts, isNumber, values)
    requires if op == InOp || op == NotInOp then 1 <= |values| <= MAX_VALUES else |values| == 1
    ensures EmptyFree(Compare(field, op, values))
    ensures Plainly(ts, isNumber) && Words(Compare(field, op, values)) ==> Shaped(isNumber, Compare(field, op, values))
  {
    CanonicalTwice(Peek(ts, at).text);
    hide Canonical, EmptyText, Numeric, Printable, Plainly, WordText;
  }

  lemma DepthsAgree(e: Expr)
    ensures AndDepth(e) <= UnaryDepth(e) <= 1 + OrDepth(e) && OrDepth(e) <= AndDepth(e)
  {
    if e.And? { DepthsAgree(e.left); DepthsAgree(e.right); }
    if e.Or? { DepthsAgree(e.left); DepthsAgree(e.right); }
  }

  lemma {:induction false} UnaryRead(ts: seq<Token>, isNumber: NumberTest, at: nat, depth: nat)
    requires Ends(ts) && depth <= MAX_DEPTH && UnaryAt(ts, isNumber, at, depth).Ok?
    ensures var r := UnaryAt(ts, isNumber, at, depth).value;
            Read(ts, isNumber, at, r.at, r.value) && depth + UnaryDepth(r.value) <= MAX_DEPTH
    decreases MAX_DEPTH - depth, Max(0, |ts| - at), 0
  {
    hide Canonical, CompareAt, OrAt, Plainly, ComparisonShape, WordText;
    var r := UnaryAt(ts, isNumber, at, depth).value;
    if Is(ts, at, "not") {
      UnaryRead(ts, isNumber, at + 1, depth + 1);
    } else if Is(ts, at, "(") {
      OrRead(ts, isNumber, at + 1, depth + 1);
      DepthsAgree(r.value);
    } else {
      CompareRead(ts, isNumber, at);
    }
  }

  lemma {:induction false} AndRead(ts: seq<Token>, isNumber: NumberTest, at: nat, depth: nat)
    requires Ends(ts) && depth <= MAX_DEPTH && AndAt(ts, isNumber, at, depth).Ok?
    ensures var r := AndAt(ts, isNumber, at, depth).value;
            Read(ts, isNumber, at, r.at, r.value) && depth + AndDepth(r.value) <= MAX_DEPTH
    decreases MAX_DEPTH - depth, Max(0, |ts| - at), 2
  {
    hide UnaryAt, AndRest, Read;
    var u := UnaryAt(ts, isNumber, at, depth).value;
    UnaryRead(ts, isNumber, at, depth);
    DepthsAgree(u.value);
    AndRestRead(ts, isNumber, at, u.at, depth, u.value);
  }

  lemma {:induction false} AndRestRead(ts: seq<Token>, isNumber: NumberTest, from: nat, at: nat, depth: nat, left: Expr)
    requires Ends(ts) && depth <= MAX_DEPTH && AndRest(ts, isNumber, at, depth, left).Ok?
    requires Read(ts, isNumber, from, at, left) && depth + AndDepth(left) <= MAX_DEPTH
    ensures var r := AndRest(ts, isNumber, at, depth, left).value;
            Read(ts, isNumber, from, r.at, r.value) && depth + AndDepth(r.value) <= MAX_DEPTH
    decreases MAX_DEPTH - depth, Max(0, |ts| - at), 1
  {
    hide Canonical, UnaryAt, Plainly, ComparisonShape, WordText;
    if Is(ts, at, "and") {
      TakenIsInside(ts, at, "and");
      var u := UnaryAt(ts, isNumber, at + 1, depth).value;
      UnaryRead(ts, isNumber, at + 1, depth);
      AndRestRead(ts, isNumber, from, u.at, depth, And(left, u.value));
    }
  }

  lemma {:induction false} OrRead(ts: seq<Token>, isNumber: NumberTest, at: nat, depth: nat)
    requires Ends(ts) && depth <= MAX_DEPTH && OrAt(ts, isNumber, at, depth).Ok?
    ensures var r := OrAt(ts, isNumber, at, depth).value;
            Read(ts, isNumber, at, r.at, r.value) && depth + OrDepth(r.value) <= MAX_DEPTH
    decreases MAX_DEPTH - depth, Max(0, |ts| - at), 4
  {
    hide AndAt, OrRest, Read;
    var a := AndAt(ts, isNumber, at, depth).value;
    AndRead(ts, isNumber, at, depth);
    DepthsAgree(a.value);
    OrRestRead(ts, isNumber, at, a.at, depth, a.value);
  }

  lemma {:induction false} OrRestRead(ts: seq<Token>, isNumber: NumberTest, from: nat, at: nat, depth: nat, left: Expr)
    requires Ends(ts) && depth <= MAX_DEPTH && OrRest(ts, isNumber, at, depth, left).Ok?
    requires Read(ts, isNumber, from, at, left) && depth + OrDepth(left) <= MAX_DEPTH
    ensures var r := OrRest(ts, isNumber, at, depth, left).value;
            Read(ts, isNumber, from, r.at, r.value) && depth + OrDepth(r.value) <= MAX_DEPTH
    decreases MAX_DEPTH - depth, Max(0, |ts| - at), 3
  {
    hide Canonical, AndAt, Plainly, ComparisonShape, WordText;
    if Is(ts, at, "or") {
      TakenIsInside(ts, at, "or");
      var a := AndAt(ts, isNumber, at + 1, depth).value;
      AndRead(ts, isNumber, at + 1, depth);
      OrRestRead(ts, isNumber, from, a.at, depth, Or(left, a.value));
    }
  }

  lemma OrderRead(ts: seq<Token>, at: nat)
    requires Ends(ts) && OrderAt(ts, at).Ok?
    ensures Passed(ts, at, OrderAt(ts, at).value.at)
    ensures Canonical(OrderAt(ts, at).value.value.0) == OrderAt(ts, at).value.value.0
  {
    CanonicalTwice(Peek(ts, at + 2).text);
    assert Canonical("id") == "id" by { LowerIsCanonical("id"); }
    hide Canonical;
  }

  /** An accepted query, taken apart. */
  lemma QueryRead(ts: seq<Token>, isNumber: NumberTest)
    requires Ends(ts) && ParseTokens(ts, isNumber).Ok?
    ensures var r := ParseTokens(ts, isNumber).value; var q := r.value;
            && (!isNumber("-") ==> Passed(ts, 0, r.at)) && Peek(ts, r.at).text == ""
            && Canonical(q.order) == q.order
            && (q.expr.Some? ==> OrDepth(q.expr.value) <= MAX_DEPTH && EmptyFree(q.expr.value))
            && (q.expr.Some? && Plainly(ts, isNumber) && Words(q.expr.value) ==> Shaped(isNumber, q.expr.value))
  {
    hide Canonical, OrAt, OrderAt, Plainly, Words, Shaped, EmptyFree, OrDepth;
    var f := FilterAt(ts, isNumber).value;
    if f.value.Some? { OrRead(ts, isNumber, 0, 0); }
    OrderRead(ts, f.at);
  }

  lemma LexableIsNotEmpty(t: Token)
    requires Lexable(t)
    ensures t.quoted || t.text != ""
  {
  }

  /** A query is accepted only when all of it was read, if and only if it holds no empty string. */
  lemma AcceptedIsReadIff(ts: seq<Token>, isNumber: NumberTest)
    requires Ends(ts) && ParseTokens(ts, isNumber).Ok? && !isNumber("-")
    requires forall i | 0 <= i < |ts| - 1 :: Lexable(ts[i])
    ensures ParseTokens(ts, isNumber).value.at >= |ts| - 1 <==> EMPTY !in ts
  {
    QueryRead(ts, isNumber);
    hide Lexable, ParseTokens;
    var at := ParseTokens(ts, isNumber).value.at;
    if at < |ts| - 1 {
      LexableIsNotEmpty(ts[at]);
      assert ts[at] == EMPTY;
    } else {
      forall k | 0 <= k < |ts| ensures ts[k] != EMPTY { if k < |ts| - 1 { assert k < at; } }
    }
  }

  /** Every parsed query whose names are words has the shape that the round trip is about. */
  lemma ParsedIsShaped(input: string, isNumber: NumberTest)
    requires ParseText(input, isNumber).Ok? && PlainNumbers(isNumber)
    requires var q := ParseText(input, isNumber).value; WordText(q.order) && (q.expr.Some? ==> Words(q.expr.value))
    ensures var q := ParseText(input, isNumber).value;
            QueryShape(isNumber, q) && (q.expr.Some? ==> OrDepth(q.expr.value) <= MAX_DEPTH && EmptyFree(q.expr.value))
  {
    hide LexText, ParseTokens, PlainNumbers, Canonical, Words, Shaped, WordText, OrDepth, EmptyFree;
    LexedEnds(input);
    QueryRead(LexText(input).value, isNumber);
  }

  /** So a parsed query printed again parses to itself exactly when the printed text keeps the lexer's limits. */
  lemma ParsedPrintsBack(input: string, isNumber: NumberTest)
    requires ParseText(input, isNumber).Ok? && PlainNumbers(isNumber)
    requires var q := ParseText(input, isNumber).value; WordText(q.order) && (q.expr.Some? ==> Words(q.expr.value))
    ensures var q := ParseText(input, isNumber).value;
            && QueryShape(isNumber, q)
            && (ParseText(PrintQuery(isNumber, q), isNumber) == Ok(q) <==> WithinLimits(QueryTokens(isNumber, q)))
  {
    ParsedIsShaped(input, isNumber);
    hide ParseText, QueryShape, PrintQuery, WithinLimits, QueryTokens, PlainNumbers, Words, WordText;
    PrintThenParse(isNumber, ParseText(input, isNumber).value);
  }
}
