/**
 Printing a query with the fewest parentheses and parsing it back: what the parser's precedence and
 associativity are, and exactly which queries survive.
 */
module SxqPrint {
  import opened Wrappers
  import opened Sxq
  import opened SxqLexer
  import opened SxqParser

  function W(text: string): Token {
    Token(text, false)
  }

  function DigitChar(n: nat): char
    requires n < 10
  {
    ('0' as int + n) as char
  }

  function DecimalText(n: nat): (s: string)
    ensures Digits(s) && Decimal(s) == n
  {
    if n < 10 then
      assert Decimal([DigitChar(n)]) == 10 * Decimal([DigitChar(n)][..0]) + n;
      [DigitChar(n)]
    else
      var front := DecimalText(n / 10);
      var s := front + [DigitChar(n % 10)];
      assert s[..|s| - 1] == front;
      s
  }

  /** A number of minutes, hours or days that the parser takes. */
  predicate Countable(n: nat, unit: nat)
    requires unit > 0
  {
    n % unit == 0 && n / unit <= MAX_COUNT && n / unit <= MAX_NANOSECONDS / unit
  }

  /** The durations that can be written at all; whole weeks can also be written as days. */
  predicate Writable(n: nat) {
    Countable(n, MINUTE) || Countable(n, HOUR) || Countable(n, DAY)
  }

  function DurationText(n: nat): (s: string)
    requires Writable(n)
    ensures |s| >= 2
  {
    if Countable(n, MINUTE) then DecimalText(n / MINUTE) + "m"
    else if Countable(n, HOUR) then DecimalText(n / HOUR) + "h"
    else DecimalText(n / DAY) + "d"
  }

  function Size(offset: int): nat {
    if offset < 0 then -offset else offset
  }

  function ValueTokens(v: Value): seq<Token>
    requires Printable(v)
  {
    match v
    case Me => [W("me"), W("("), W(")")]
    case Now(offset) =>
      [W("now"), W("("), W(")")] + OffsetTokens(offset)
    case Plain(NullLiteral) => [W("null")]
    case Plain(BoolLiteral(b)) => [W(if b then "true" else "false")]
    case Plain(NumberLiteral(text)) => if text[0] == '-' then [W("-"), Magnitude(text[1..])] else [W(text)]
    case Plain(TextLiteral(text)) => [Token(text, true)]
  }

  const KEYWORDS: seq<string> := ["startofsprint", "endofsprint", "me", "now", "null", "true", "false", "not"]

  /** What stands behind a minus: a word, or else a string, which the parser takes there as well. */
  function Magnitude(text: string): Token {
    Token(text, !WordText(text))
  }

  /** A number as its tokens spell it: a word, or anything after a minus. */
  predicate NumberSpelling(text: string) {
    text != "" && (text[0] == '-' || (WordText(text) && Canonical(text) !in KEYWORDS))
  }

  predicate Printable(v: Value) {
    match v
    case Me => true
    case Now(offset) => Writable(Size(offset))
    case Plain(NullLiteral) => true
    case Plain(BoolLiteral(_)) => true
    case Plain(NumberLiteral(text)) => NumberSpelling(text)
    case Plain(TextLiteral(_)) => true
  }

  /** The library takes the text of a number literal for a number. */
  predicate Numeric(isNumber: NumberTest, v: Value) {
    v.Plain? && v.literal.NumberLiteral? ==> isNumber(v.literal.text)
  }

  function OpTokens(op: Op): seq<Token> {
    match op
    case EqOp => [W("=")]
    case NeOp => [W("!=")]
    case GtOp => [W(">")]
    case GeOp => [W(">=")]
    case LtOp => [W("<")]
    case LeOp => [W("<=")]
    case InOp => [W("in")]
    case NotInOp => [W("not"), W("in")]
    case IsOp => [W("is")]
    case IsNotOp => [W("is"), W("not")]
    case TildeOp => [W("~")]
    case ColonOp => [W(":")]
  }

  /** Names as the parser leaves them: lower case, aliases replaced. */
  predicate FieldName(name: string) {
    WordText(name) && Canonical(name) == name
    && name !in ["descendants", "ancestors", "not", "order"]
  }

  /** The values separated by commas. */
  function ListTokens(vs: seq<Value>): seq<Token>
    requires vs != [] && forall i | 0 <= i < |vs| :: Printable(vs[i])
  {
    ValueTokens(vs[0]) + if |vs| == 1 then [] else [W(",")] + ListTokens(vs[1..])
  }

  /** What every comparison of a parsed query looks like. */
  predicate ComparisonShape(isNumber: NumberTest, field: string, op: Op, values: seq<Value>) {
    && FieldName(field) && (if op == InOp || op == NotInOp then 1 <= |values| <= MAX_VALUES else |values| == 1)
    && forall i | 0 <= i < |values| :: Printable(values[i]) && Numeric(isNumber, values[i])
  }

  predicate Shaped(isNumber: NumberTest, e: Expr) {
    match e
    case And(l, r) => Shaped(isNumber, l) && Shaped(isNumber, r)
    case Or(l, r) => Shaped(isNumber, l) && Shaped(isNumber, r)
    case Not(i) => Shaped(isNumber, i)
    case Compare(f, op, vs) => ComparisonShape(isNumber, f, op, vs)
  }

  function CompareTokens(field: string, op: Op, values: seq<Value>): seq<Token>
    requires values != [] && forall i | 0 <= i < |values| :: Printable(values[i])
  {
    [W(field)] + OpTokens(op)
    + if op == InOp || op == NotInOp then [W("(")] + ListTokens(values) + [W(")")] else ValueTokens(values[0])
  }

  /* Which printer of one expression comes before which. */
  function OrRank(e: Expr): nat { if e.Or? then 1 else if e.And? then 2 else 3 }
  function AndRank(e: Expr): nat { if e.Or? then 3 else if e.And? then 1 else 2 }
  function UnaryRank(e: Expr): nat { if e.Or? then 2 else if e.And? then 3 else 1 }

  /** or binds loosest and to the left, then and, then not; anything looser needs parentheses. */
  function OrTokens(isNumber: NumberTest, e: Expr): seq<Token>
    requires Shaped(isNumber, e)
    decreases e, OrRank(e)
  {
    if e.Or? then OrTokens(isNumber, e.left) + ([W("or")] + AndTokens(isNumber, e.right)) else AndTokens(isNumber, e)
  }

  function AndTokens(isNumber: NumberTest, e: Expr): seq<Token>
    requires Shaped(isNumber, e)
    decreases e, AndRank(e)
  {
    if e.And? then AndTokens(isNumber, e.left) + ([W("and")] + UnaryTokens(isNumber, e.right))
        else UnaryTokens(isNumber, e)
  }

  function UnaryTokens(isNumber: NumberTest, e: Expr): seq<Token>
    requires Shaped(isNumber, e)
    decreases e, UnaryRank(e)
  {
    if e.Not? then [W("not")] + UnaryTokens(isNumber, e.inner)
    else if e.Compare? then CompareTokens(e.field, e.op, e.values)
    else [W("(")] + (OrTokens(isNumber, e) + [W(")")])
  }

  /** How deep the parser's calls nest on the printed expression. */
  function OrDepth(e: Expr): nat
    decreases e, OrRank(e)
  {
    if e.Or? then Max(OrDepth(e.left), AndDepth(e.right)) else AndDepth(e)
  }

  function AndDepth(e: Expr): nat
    decreases e, AndRank(e)
  {
    if e.And? then Max(AndDepth(e.left), UnaryDepth(e.right)) else UnaryDepth(e)
  }

  function UnaryDepth(e: Expr): nat
    decreases e, UnaryRank(e)
  {
    if e.Not? then 1 + UnaryDepth(e.inner) else if e.Compare? then 1 else 1 + OrDepth(e)
  }

  predicate EmptyText(v: Value) {
    v == Plain(TextLiteral(""))
  }

  /** No empty quoted string, which the parser takes for the end of the input. */
  predicate EmptyFree(e: Expr) {
    match e
    case And(l, r) => EmptyFree(l) && EmptyFree(r)
    case Or(l, r) => EmptyFree(l) && EmptyFree(r)
    case Not(i) => EmptyFree(i)
    case Compare(_, _, vs) => forall i | 0 <= i < |vs| :: !EmptyText(vs[i])
  }

  /* ---------- reading printed tokens ---------- */

  /** part stands in ts from at on, and something follows it. */
  ghost predicate Reads(ts: seq<Token>, at: nat, part: seq<Token>) {
    at + |part| < |ts| && ts[at..at + |part|] == part
  }

  lemma ReadsBoth(ts: seq<Token>, at: nat, a: seq<Token>, b: seq<Token>)
    requires Reads(ts, at, a + b)
    ensures Reads(ts, at, a) && Reads(ts, at + |a|, b)
  {
    var whole := ts[at..at + |a + b|];
    assert ts[at..at + |a|] == whole[..|a|];
    assert ts[at + |a|..at + |a| + |b|] == whole[|a|..];
  }

  lemma ReadsFirst(ts: seq<Token>, at: nat, t: Token, rest: seq<Token>)
    requires Reads(ts, at, [t] + rest)
    ensures Peek(ts, at) == t && Reads(ts, at + 1, rest)
  {
    ReadsBoth(ts, at, [t], rest);
    assert ts[at..at + 1][0] == t;
  }

  /** The parse succeeds with the value, or fails. */
  ghost predicate Parses<T>(r: Result<Parsed<T>, ParseError>, ok: bool, value: T, at: nat) {
    if ok then r == Ok(Parsed(value, at)) else r.Err?
  }

  lemma {:induction false} LowerIsCanonical(s: string)
    requires forall i | 0 <= i < |s| :: !('A' <= s[i] <= 'Z')
    requires s != "currentuser" && s != "empty"
    ensures Canonical(s) == s
  {
    assert Lower(s) == s;
  }

  lemma KeywordsAreCanonical()
    ensures Canonical("or") == "or" && Canonical("and") == "and" && Canonical("not") == "not" && Canonical("in") == "in"
    ensures Canonical("is") == "is" && Canonical("order") == "order" && Canonical("by") == "by"
            && Canonical("desc") == "desc"
    ensures Canonical("me") == "me" && Canonical("now") == "now" && Canonical("null") == "null"
    ensures Canonical("true") == "true" && Canonical("false") == "false" && Canonical("") == ""
  {
    LowerIsCanonical("or");
    LowerIsCanonical("and");
    LowerIsCanonical("not");
    LowerIsCanonical("in");
    LowerIsCanonical("is");
    LowerIsCanonical("order");
    LowerIsCanonical("by");
    LowerIsCanonical("desc");
    LowerIsCanonical("me");
    LowerIsCanonical("now");
    LowerIsCanonical("null");
    LowerIsCanonical("true");
    LowerIsCanonical("false");
    LowerIsCanonical("");
  }

  lemma SignsAreCanonical()
    ensures Canonical("(") == "(" && Canonical(")") == ")" && Canonical(",") == "," && Canonical("+") == "+"
            && Canonical("-") == "-"
    ensures Canonical("=") == "=" && Canonical("!=") == "!=" && Canonical("<") == "<" && Canonical("<=") == "<="
    ensures Canonical(">") == ">" && Canonical(">=") == ">=" && Canonical("~") == "~" && Canonical(":") == ":"
  {
    LowerIsCanonical("(");
    LowerIsCanonical(")");
    LowerIsCanonical(",");
    LowerIsCanonical("+");
    LowerIsCanonical("-");
    LowerIsCanonical("=");
    LowerIsCanonical("!=");
    LowerIsCanonical("<");
    LowerIsCanonical("<=");
    LowerIsCanonical(">");
    LowerIsCanonical(">=");
    LowerIsCanonical("~");
    LowerIsCanonical(":");
  }

  /** No sign follows that would belong to a now() before it. */
  predicate Calm(ts: seq<Token>, at: nat)
    requires ts != []
  {
    !Is(ts, at, "+") && !Is(ts, at, "-")
  }

  /** A written duration means what it was written for. */
  lemma DurationBack(n: nat)
    requires Writable(n)
    ensures Duration(DurationText(n)) == Some(n)
  {
    if Countable(n, MINUTE) {
      CountBack(n, MINUTE, 'm');
    } else if Countable(n, HOUR) {
      CountBack(n, HOUR, 'h');
    } else {
      CountBack(n, DAY, 'd');
    }
  }

  lemma ExactDivision(n: nat, unit: nat)
    requires unit > 0 && n % unit == 0
    ensures (n / unit) * unit == n
  {
  }

  lemma CountBack(n: nat, unit: nat, c: char)
    requires Unit(c) == Some(unit) && Countable(n, unit)
    ensures Duration(DecimalText(n / unit) + [c]) == Some(n)
  {
    ExactDivision(n, unit);
    hide Unit, Decimal, DecimalText;
    var count := n / unit;
    var s := DecimalText(count) + [c];
    assert s[..|s| - 1] == DecimalText(count) && s[|s| - 1] == c;
    assert count <= MAX_COUNT && count <= MAX_NANOSECONDS / unit && count * unit == n;
    DurationOf(s, DecimalText(count), c, unit);
  }

  lemma DurationOf(s: string, digits: string, c: char, unit: nat)
    requires |s| >= 2 && s[..|s| - 1] == digits && s[|s| - 1] == c && Digits(digits) && Unit(c) == Some(unit)
             && unit > 0
    requires Decimal(digits) <= MAX_COUNT && Decimal(digits) <= MAX_NANOSECONDS / unit
    ensures Duration(s) == Some(Decimal(digits) * unit)
  {
    hide Unit, Decimal;
  }

  /** A week is seven days. */
  lemma WeeksAreDays(n: nat)
    requires n <= MAX_NANOSECONDS / WEEK
    ensures Duration(DecimalText(n) + "w") == Some(7 * n * DAY)
            && Duration(DecimalText(7 * n) + "d") == Some(7 * n * DAY)
  {
    assert MAX_NANOSECONDS / WEEK == 15250 && MAX_NANOSECONDS / DAY == 106751;
    assert Unit('w') == Some(WEEK) && Unit('d') == Some(DAY);
    hide Duration, Decimal, DecimalText, Unit;
    var w, d := DecimalText(n) + "w", DecimalText(7 * n) + "d";
    assert w[..|w| - 1] == DecimalText(n) && d[..|d| - 1] == DecimalText(7 * n);
    DurationOf(w, DecimalText(n), 'w', WEEK);
    DurationOf(d, DecimalText(7 * n), 'd', DAY);
  }

  /** A word is none of the signs. */
  lemma WordIsNoSign(text: string)
    requires WordText(text)
    ensures Canonical(text) != "-" && Canonical(text) != "+" && Canonical(text) != "(" && Canonical(text) != ")"
            && Canonical(text) != ""
  {
    var l := Lower(text);
    assert l[0] == LowerChar(text[0]) && |l| == |text|;
  }

  /** The sign and the duration behind now(). */
  function OffsetTokens(offset: int): seq<Token>
    requires Writable(Size(offset))
  {
    if offset == 0 then [] else [W(if offset < 0 then "-" else "+"), W(DurationText(Size(offset)))]
  }

  lemma OffsetBack(ts: seq<Token>, at: nat, offset: int)
    requires Ends(ts) && Writable(Size(offset)) && Reads(ts, at, OffsetTokens(offset))
             && Calm(ts, at + |OffsetTokens(offset)|)
    ensures OffsetAt(ts, at) == Ok(Parsed(Now(offset), at + |OffsetTokens(offset)|))
  {
    SignsAreCanonical();
    hide Canonical, Duration, DurationText, Writable;
    if offset != 0 {
      DurationBack(Size(offset));
      var sign, d := W(if offset < 0 then "-" else "+"), W(DurationText(Size(offset)));
      assert OffsetTokens(offset) == [sign] + ([d] + []);
      ReadsFirst(ts, at, sign, [d] + []);
      ReadsFirst(ts, at + 1, d, []);
      hide Reads;
    }
  }

  lemma NowBack(ts: seq<Token>, at: nat, offset: int)
    requires Ends(ts) && Writable(Size(offset)) && Reads(ts, at, ValueTokens(Now(offset)))
    requires Calm(ts, at + |ValueTokens(Now(offset))|)
    ensures OffsetAt(ts, at + 3) == Ok(Parsed(Now(offset), at + |ValueTokens(Now(offset))|))
    ensures Peek(ts, at) == W("now") && Peek(ts, at + 1) == W("(") && Peek(ts, at + 2) == W(")")
  {
    hide Canonical, Writable, OffsetTokens, DurationText, Calm, OffsetAt, ValueTokens, Reads, Peek, W;
    var tail := OffsetTokens(offset);
    NowTokens(offset);
    ReadsFirst(ts, at, W("now"), [W("(")] + ([W(")")] + tail));
    ReadsFirst(ts, at + 1, W("("), [W(")")] + tail);
    ReadsFirst(ts, at + 2, W(")"), tail);
    OffsetBack(ts, at + 3, offset);
  }

  lemma NowTokens(offset: int)
    requires Writable(Size(offset))
    ensures ValueTokens(Now(offset)) == [W("now")] + ([W("(")] + ([W(")")] + OffsetTokens(offset)))
    ensures |ValueTokens(Now(offset))| == 3 + |OffsetTokens(offset)|
  {
    hide Writable, OffsetTokens;
  }

  lemma UnsignedBack(ts: seq<Token>, isNumber: NumberTest, at: nat, text: string)
    requires ts != [] && WordText(text) && Canonical(text) !in KEYWORDS && isNumber(text) && Peek(ts, at) == W(text)
    ensures ValueAt(ts, isNumber, at) == Ok(Parsed(Plain(NumberLiteral(text)), at + 1))
  {
    WordIsNoSign(text);
    assert text != "";
    hide Canonical, Peek, WordText;
    var name := Canonical(text);
    assert !Sprint(name) && name != "me" && name != "now" && name != "null" && name != "true" && name != "false";
  }

  lemma NegativeBack(ts: seq<Token>, isNumber: NumberTest, at: nat, text: string)
    requires ts != [] && isNumber("-" + text) && Peek(ts, at) == W("-") && Peek(ts, at + 1).text == text
    ensures ValueAt(ts, isNumber, at) == Ok(Parsed(Plain(NumberLiteral("-" + text)), at + 2))
  {
    SignsAreCanonical();
    hide Canonical, Peek;
  }

  lemma NumberBack(ts: seq<Token>, isNumber: NumberTest, at: nat, text: string)
    requires Ends(ts) && NumberSpelling(text) && isNumber(text)
             && Reads(ts, at, ValueTokens(Plain(NumberLiteral(text))))
    ensures ValueAt(ts, isNumber, at) == Ok(Parsed(Plain(NumberLiteral(text)), at
            + |ValueTokens(Plain(NumberLiteral(text)))|))
  {
    hide Canonical, WordText, ValueAt;
    if text[0] == '-' {
      var rest, size := text[1..], Magnitude(text[1..]);
      assert ValueTokens(Plain(NumberLiteral(text))) == [W("-")] + [size];
      assert [size] == [size] + [];
      assert "-" + rest == text;
      hide ValueTokens, Reads;
      ReadsFirst(ts, at, W("-"), [size]);
      ReadsFirst(ts, at + 1, size, []);
      NegativeBack(ts, isNumber, at, rest);
    } else {
      assert ValueTokens(Plain(NumberLiteral(text))) == [W(text)] + [];
      hide ValueTokens, Reads;
      ReadsFirst(ts, at, W(text), []);
      UnsignedBack(ts, isNumber, at, text);
    }
  }

  /** Every printed value parses back, except an empty text. */
  lemma ValueBack(ts: seq<Token>, isNumber: NumberTest, at: nat, v: Value)
    requires Ends(ts) && Printable(v) && Numeric(isNumber, v)
    requires Reads(ts, at, ValueTokens(v)) && Calm(ts, at + |ValueTokens(v)|)
    ensures Parses(ValueAt(ts, isNumber, at), !EmptyText(v), v, at + |ValueTokens(v)|)
  {
    hide Canonical, ValueTokens, Calm;
    match v
    case Now(offset) =>
      KeywordsAreCanonical();
      SignsAreCanonical();
      NowBack(ts, at, offset);
      hide OffsetAt, Reads;
    case Plain(NumberLiteral(text)) => NumberBack(ts, isNumber, at, text);
    case Plain(TextLiteral(text)) => TextBack(ts, isNumber, at, text);
    case Me =>
      assert ValueTokens(v) == [W("me"), W("("), W(")")] by { MeTokens(); }
      MeBack(ts, isNumber, at);
    case Plain(NullLiteral) => KeywordBack(ts, isNumber, at, v);
    case Plain(BoolLiteral(b)) => KeywordBack(ts, isNumber, at, v);
  }

  lemma TextBack(ts: seq<Token>, isNumber: NumberTest, at: nat, text: string)
    requires Ends(ts) && Reads(ts, at, ValueTokens(Plain(TextLiteral(text))))
    ensures Parses(ValueAt(ts, isNumber, at), text != "", Plain(TextLiteral(text)), at
            + |ValueTokens(Plain(TextLiteral(text)))|)
  {
    ReadsFirst(ts, at, Token(text, true), []);
  }

  lemma MeTokens()
    ensures ValueTokens(Me) == [W("me"), W("("), W(")")]
  {
  }

  lemma MeBack(ts: seq<Token>, isNumber: NumberTest, at: nat)
    requires Ends(ts) && Reads(ts, at, [W("me"), W("("), W(")")])
    ensures ValueAt(ts, isNumber, at) == Ok(Parsed(Me, at + 3))
  {
    KeywordsAreCanonical();
    SignsAreCanonical();
    hide Canonical, LiteralAt, OffsetAt;
    assert [W("me"), W("("), W(")")] == [W("me")] + ([W("(")] + ([W(")")] + []));
    ReadsFirst(ts, at, W("me"), [W("(")] + ([W(")")] + []));
    ReadsFirst(ts, at + 1, W("("), [W(")")] + []);
    ReadsFirst(ts, at + 2, W(")"), []);
    hide Reads;
  }

  /** One word that stands for a value. */
  lemma WordValue(ts: seq<Token>, isNumber: NumberTest, at: nat, word: string, v: Value)
    requires ts != [] && Peek(ts, at) == W(word) && Canonical(word) == word
    requires (word == "null" && v == Plain(NullLiteral)) || (word == "true" && v == Plain(BoolLiteral(true)))
             || (word == "false" && v == Plain(BoolLiteral(false)))
    ensures ValueAt(ts, isNumber, at) == Ok(Parsed(v, at + 1))
  {
    hide Canonical, Peek, LiteralAt, OffsetAt;
  }

  lemma KeywordBack(ts: seq<Token>, isNumber: NumberTest, at: nat, v: Value)
    requires Ends(ts) && (v == Plain(NullLiteral) || (v.Plain? && v.literal.BoolLiteral?))
    requires Reads(ts, at, ValueTokens(v))
    ensures ValueAt(ts, isNumber, at) == Ok(Parsed(v, at + |ValueTokens(v)|))
  {
    hide ValueAt, Canonical;
    var word := if v.literal.NullLiteral? then "null" else if v.literal.b then "true" else "false";
    KeywordsAreCanonical();
    assert ValueTokens(v) == [W(word)] + [];
    hide Reads, ValueTokens;
    ReadsFirst(ts, at, W(word), []);
    WordValue(ts, isNumber, at, word, v);
  }

  /** A printed token that is no sign. */
  lemma CalmToken(ts: seq<Token>, at: nat, t: Token, rest: seq<Token>)
    requires Reads(ts, at, [t] + rest) && (t.quoted || (Canonical(t.text) != "+" && Canonical(t.text) != "-"))
    ensures Calm(ts, at)
  {
    ReadsFirst(ts, at, t, rest);
  }

  predicate NoEmptyText(vs: seq<Value>) {
    forall i | 0 <= i < |vs| :: !EmptyText(vs[i])
  }

  /** Printed lists parse back, up to their closing parenthesis. */
  lemma {:induction false} ListBack(ts: seq<Token>, isNumber: NumberTest, at: nat, vs: seq<Value>, done: seq<Value>)
    requires Ends(ts) && vs != [] && |done| + |vs| <= MAX_VALUES
    requires forall i | 0 <= i < |vs| :: Printable(vs[i]) && Numeric(isNumber, vs[i])
    requires Reads(ts, at, ListTokens(vs) + [W(")")])
    ensures Parses(ListAt(ts, isNumber, at, done), NoEmptyText(vs), done + vs, at + |ListTokens(vs)|)
    decreases |vs|
  {
    hide ValueAt, Printable, Numeric, ValueTokens, EmptyText, Canonical, Reads, Calm;
    var v := vs[0];
    var next := at + |ValueTokens(v)|;
    if |vs| == 1 {
      assert ListTokens(vs) + [W(")")] == ValueTokens(v) + ([W(")")] + []);
      ListItem(ts, isNumber, at, v, W(")"), []);
      assert done + vs == done + [v];
    } else {
      var rest := ListTokens(vs[1..]) + [W(")")];
      assert ListTokens(vs) + [W(")")] == ValueTokens(v) + ([W(",")] + rest);
      ListItem(ts, isNumber, at, v, W(","), rest);
      ListBack(ts, isNumber, next + 1, vs[1..], done + [v]);
      assert done + [v] + vs[1..] == done + vs;
      NoEmptyStep(vs);
      hide NoEmptyText;
    }
  }

  lemma NoEmptyStep(vs: seq<Value>)
    requires vs != []
    ensures NoEmptyText(vs) <==> !EmptyText(vs[0]) && NoEmptyText(vs[1..])
  {
    assert forall i | 0 < i < |vs| :: vs[i] == vs[1..][i - 1];
  }

  /** One value of a list and the comma or parenthesis behind it. */
  lemma ListItem(ts: seq<Token>, isNumber: NumberTest, at: nat, v: Value, separator: Token, rest: seq<Token>)
    requires Ends(ts) && Printable(v) && Numeric(isNumber, v) && (separator == W(",") || separator == W(")"))
    requires Reads(ts, at, ValueTokens(v) + ([separator] + rest))
    ensures Parses(ValueAt(ts, isNumber, at), !EmptyText(v), v, at + |ValueTokens(v)|)
    ensures Reads(ts, at + |ValueTokens(v)| + 1, rest)
    ensures Is(ts, at + |ValueTokens(v)|, ",") <==> separator == W(",")
    ensures Is(ts, at + |ValueTokens(v)|, ")") <==> separator == W(")")
  {
    SignsAreCanonical();
    hide Canonical, ValueAt, Printable, Numeric, ValueTokens, EmptyText;
    var next := at + |ValueTokens(v)|;
    ReadsBoth(ts, at, ValueTokens(v), [separator] + rest);
    CalmToken(ts, next, separator, rest);
    ValueBack(ts, isNumber, at, v);
    ReadsFirst(ts, next, separator, rest);
  }

  lemma TwoWordsBack(ts: seq<Token>, at: nat, op: Op)
    requires Ends(ts) && Reads(ts, at, OpTokens(op)) && (op == NotInOp || op == IsNotOp)
    ensures OperatorAt(ts, at) == Ok(Parsed(op, at + 2))
  {
    hide Canonical;
    KeywordsAreCanonical();
    var a, b := OpTokens(op)[0], OpTokens(op)[1];
    assert OpTokens(op) == [a] + ([b] + []);
    assert a == W(if op == NotInOp then "not" else "is") && b == W(if op == NotInOp then "in" else "not");
    hide Reads, OpTokens, Peek;
    ReadsFirst(ts, at, a, [b] + []);
    ReadsFirst(ts, at + 1, b, []);
  }

  /** Operators parse back; "is" must not be followed by "not". */
  lemma OperatorBack(ts: seq<Token>, at: nat, op: Op)
    requires Ends(ts) && Reads(ts, at, OpTokens(op)) && !Is(ts, at + |OpTokens(op)|, "not")
    ensures OperatorAt(ts, at) == Ok(Parsed(op, at + |OpTokens(op)|))
  {
    if op == NotInOp || op == IsNotOp {
      TwoWordsBack(ts, at, op);
    } else {
      var t := OpTokens(op)[0];
      assert OpTokens(op) == [t] + [];
      ReadsFirst(ts, at, t, []);
      OneWordOperator(ts, at, op);
    }
  }

  lemma OneWordOperator(ts: seq<Token>, at: nat, op: Op)
    requires ts != [] && op != NotInOp && op != IsNotOp && Peek(ts, at) == OpTokens(op)[0] && !Is(ts, at + 1, "not")
    ensures OperatorAt(ts, at) == Ok(Parsed(op, at + 1))
  {
    KeywordsAreCanonical();
    SignsAreCanonical();
    assert Canonical(Peek(ts, at).text) == Peek(ts, at).text;
    hide Canonical, Peek;
  }

  /** No printed value starts with "not". */
  lemma ValueStart(ts: seq<Token>, at: nat, v: Value)
    requires Ends(ts) && Printable(v) && Reads(ts, at, ValueTokens(v))
    ensures !Is(ts, at, "not")
  {
    KeywordsAreCanonical();
    SignsAreCanonical();
    hide Canonical, DurationText, Writable, WordText;
    var first := ValueTokens(v)[0];
    assert ValueTokens(v) == [first] + ValueTokens(v)[1..];
    ReadsFirst(ts, at, first, ValueTokens(v)[1..]);
  }

  /** The part of a comparison behind its operator. */
  function RightTokens(op: Op, values: seq<Value>): seq<Token>
    requires values != [] && forall i | 0 <= i < |values| :: Printable(values[i])
  {
    if op == InOp || op == NotInOp then [W("(")] + (ListTokens(values) + [W(")")]) else ValueTokens(values[0])
  }

  /** The right side of a comparison, after its operator. */
  function RightAt(ts: seq<Token>, isNumber: NumberTest, field: string, op: Op, next: nat): Result<Parsed<Expr>,
      ParseError>
    requires Ends(ts)
  {
    if op != InOp && op != NotInOp then
      match ValueAt(ts, isNumber, next)
      case Err(e) => Err(e)
      case Ok(Parsed(v, after)) => Ok(Parsed(Compare(field, op, [v]), after))
    else if !Is(ts, next, "(") then Err(NoList)
    else
      match ListAt(ts, isNumber, next + 1, [])
      case Err(e) => Err(e)
      case Ok(Parsed(vs, after)) =>
        if Is(ts, after, ")") then Ok(Parsed(Compare(field, op, vs), after + 1)) else Err(NoListClose)
  }

  lemma RightListBack(ts: seq<Token>, isNumber: NumberTest, at: nat, field: string, op: Op, values: seq<Value>)
    requires Ends(ts) && ComparisonShape(isNumber, field, op, values) && (op == InOp || op == NotInOp)
    requires Reads(ts, at, [W("(")] + (ListTokens(values) + [W(")")]))
    ensures Peek(ts, at) == W("(")
    ensures Parses(RightAt(ts, isNumber, field, op, at), NoEmptyText(values), Compare(field, op, values), at
            + |ListTokens(values)| + 2)
  {
    hide Printable, Numeric, FieldName, ListTokens, ListAt, NoEmptyText, Reads, Canonical;
    SignsAreCanonical();
    var list := ListTokens(values);
    ReadsFirst(ts, at, W("("), list + [W(")")]);
    ListBack(ts, isNumber, at + 1, values, []);
    assert [] + values == values;
    ReadsBoth(ts, at + 1, list, [W(")")]);
    assert [W(")")] == [W(")")] + [];
    ReadsFirst(ts, at + 1 + |list|, W(")"), []);
  }

  lemma RightBack(ts: seq<Token>, isNumber: NumberTest, at: nat, field: string, op: Op, values: seq<Value>)
    requires Ends(ts) && ComparisonShape(isNumber, field, op, values)
    requires Reads(ts, at, RightTokens(op, values)) && Calm(ts, at + |RightTokens(op, values)|)
    ensures !Is(ts, at, "not")
    ensures Parses(RightAt(ts, isNumber, field, op, at), NoEmptyText(values), Compare(field, op, values), at
            + |RightTokens(op, values)|)
  {
    hide ValueAt, Printable, Numeric, ValueTokens, FieldName, EmptyText, Calm, ListTokens, ListAt, Canonical, Reads;
    if op == InOp || op == NotInOp {
      RightListBack(ts, isNumber, at, field, op, values);
      SignsAreCanonical();
    } else {
      ValueStart(ts, at, values[0]);
      ValueBack(ts, isNumber, at, values[0]);
      assert values == [values[0]];
      assert NoEmptyText(values) <==> !EmptyText(values[0]);
    }
  }

  lemma CompareIsRight(ts: seq<Token>, isNumber: NumberTest, at: nat, field: string, op: Op, next: nat)
    requires Ends(ts) && Peek(ts, at) == W(field) && FieldName(field)
    requires OperatorAt(ts, at + 1) == Ok(Parsed(op, next))
    ensures CompareAt(ts, isNumber, at) == RightAt(ts, isNumber, field, op, next)
  {
    hide Canonical, OperatorAt, ValueAt, ListAt;
  }

  lemma CompareBack(ts: seq<Token>, isNumber: NumberTest, at: nat, field: string, op: Op, values: seq<Value>)
    requires Ends(ts) && ComparisonShape(isNumber, field, op, values)
    requires Reads(ts, at, CompareTokens(field, op, values)) && Calm(ts, at + |CompareTokens(field, op, values)|)
    ensures Peek(ts, at) == W(field) && !Is(ts, at, "not") && !Is(ts, at, "(") && !Is(ts, at, "order")
    ensures Parses(CompareAt(ts, isNumber, at), NoEmptyText(values), Compare(field, op, values), at
            + |CompareTokens(field, op, values)|)
  {
    hide Reads, Calm, NoEmptyText, RightAt, CompareAt, OperatorAt, FieldName, Is, Printable, Numeric, OpTokens,
         ListTokens, ValueTokens, Parses;
    var right := RightTokens(op, values);
    assert CompareTokens(field, op, values) == [W(field)] + (OpTokens(op) + right);
    hide RightTokens, CompareTokens;
    ReadsFirst(ts, at, W(field), OpTokens(op) + right);
    ReadsBoth(ts, at + 1, OpTokens(op), right);
    var next := at + 1 + |OpTokens(op)|;
    RightBack(ts, isNumber, next, field, op, values);
    OperatorBack(ts, at + 1, op);
    CompareIsRight(ts, isNumber, at, field, op, next);
    FieldStart(ts, at, field);
  }

  lemma FieldStart(ts: seq<Token>, at: nat, field: string)
    requires ts != [] && FieldName(field) && Peek(ts, at) == W(field)
    ensures !Is(ts, at, "not") && !Is(ts, at, "(") && !Is(ts, at, "order")
  {
    WordIsNoSign(field);
    hide Canonical, WordText;
  }

  /** The outcome of a chain: it goes on behind the printed expression, or fails. */
  ghost predicate GoesOn(r: Result<Parsed<Expr>, ParseError>, ok: bool, rest: Result<Parsed<Expr>, ParseError>) {
    if ok then r == rest else r.Err?
  }

  /**
   A printed operand parses back as itself, exactly when the parser's nesting limit and the ban on
   empty texts allow.
   */
  lemma {:induction false} UnaryBack(ts: seq<Token>, isNumber: NumberTest, at: nat, depth: nat, e: Expr)
    requires Ends(ts) && Shaped(isNumber, e) && depth <= MAX_DEPTH
    requires Reads(ts, at, UnaryTokens(isNumber, e)) && Calm(ts, at + |UnaryTokens(isNumber, e)|)
    ensures Parses(UnaryAt(ts, isNumber, at, depth), depth + UnaryDepth(e) <= MAX_DEPTH
            && EmptyFree(e), e, at + |UnaryTokens(isNumber, e)|)
    decreases e, UnaryRank(e)
  {
    hide Canonical, Reads, Calm, CompareAt, CompareTokens, ComparisonShape, OrAt, OrTokens, AndTokens;
    KeywordsAreCanonical();
    SignsAreCanonical();
    if depth < MAX_DEPTH {
      match e
      case Not(i) =>
        ReadsFirst(ts, at, W("not"), UnaryTokens(isNumber, i));
        UnaryBack(ts, isNumber, at + 1, depth + 1, i);
      case Compare(f, op, vs) => CompareBack(ts, isNumber, at, f, op, vs);
      case And(_, _) => ParenthesesBack(ts, isNumber, at, depth, e);
      case Or(_, _) => ParenthesesBack(ts, isNumber, at, depth, e);
    }
  }

  lemma {:induction false} ParenthesesBack(ts: seq<Token>, isNumber: NumberTest, at: nat, depth: nat, e: Expr)
    requires Ends(ts) && Shaped(isNumber, e) && depth < MAX_DEPTH && (e.And? || e.Or?)
    requires Reads(ts, at, UnaryTokens(isNumber, e))
    ensures Parses(UnaryAt(ts, isNumber, at, depth), depth + UnaryDepth(e) <= MAX_DEPTH
            && EmptyFree(e), e, at + |UnaryTokens(isNumber, e)|)
    decreases e, OrRank(e), 1
  {
    hide Canonical, Reads, Calm, OrAt, OrTokens, AndTokens, EmptyFree;
    KeywordsAreCanonical();
    SignsAreCanonical();
    var inner := OrTokens(isNumber, e);
    ReadsFirst(ts, at, W("("), inner + [W(")")]);
    ReadsBoth(ts, at + 1, inner, [W(")")]);
    var close := at + 1 + |inner|;
    assert [W(")")] == [W(")")] + [];
    ReadsFirst(ts, close, W(")"), []);
    CalmToken(ts, close, W(")"), []);
    OrBack(ts, isNumber, at + 1, depth + 1, e);
    assert OrRest(ts, isNumber, close, depth + 1, e) == Ok(Parsed(e, close));
  }

  lemma {:induction false} AndBack(ts: seq<Token>, isNumber: NumberTest, at: nat, depth: nat, e: Expr)
    requires Ends(ts) && Shaped(isNumber, e) && depth <= MAX_DEPTH
    requires Reads(ts, at, AndTokens(isNumber, e)) && Calm(ts, at + |AndTokens(isNumber, e)|)
    ensures GoesOn(AndAt(ts, isNumber, at, depth), depth + AndDepth(e) <= MAX_DEPTH && EmptyFree(e),
                   AndRest(ts, isNumber, at + |AndTokens(isNumber, e)|, depth, e))
    decreases e, AndRank(e)
  {
    hide Canonical, Reads, Calm, UnaryAt, UnaryTokens, UnaryDepth;
    KeywordsAreCanonical();
    if e.And? {
      var left, right := AndTokens(isNumber, e.left), UnaryTokens(isNumber, e.right);
      ReadsBoth(ts, at, left, [W("and")] + right);
      CalmToken(ts, at + |left|, W("and"), right);
      ReadsFirst(ts, at + |left|, W("and"), right);
      AndBack(ts, isNumber, at, depth, e.left);
      UnaryBack(ts, isNumber, at + |left| + 1, depth, e.right);
    } else {
      UnaryBack(ts, isNumber, at, depth, e);
    }
  }

  lemma {:induction false} OrBack(ts: seq<Token>, isNumber: NumberTest, at: nat, depth: nat, e: Expr)
    requires Ends(ts) && Shaped(isNumber, e) && depth <= MAX_DEPTH
    requires Reads(ts, at, OrTokens(isNumber, e)) && Calm(ts, at + |OrTokens(isNumber, e)|)
    requires !Is(ts, at + |OrTokens(isNumber, e)|, "and")
    ensures GoesOn(OrAt(ts, isNumber, at, depth), depth + OrDepth(e) <= MAX_DEPTH && EmptyFree(e),
                   OrRest(ts, isNumber, at + |OrTokens(isNumber, e)|, depth, e))
    decreases e, OrRank(e), 0
  {
    hide Canonical, Reads, Calm, AndAt, AndTokens, AndDepth;
    KeywordsAreCanonical();
    if e.Or? {
      var left, right := OrTokens(isNumber, e.left), AndTokens(isNumber, e.right);
      ReadsBoth(ts, at, left, [W("or")] + right);
      CalmToken(ts, at + |left|, W("or"), right);
      ReadsFirst(ts, at + |left|, W("or"), right);
      OrBack(ts, isNumber, at, depth, e.left);
      AndBack(ts, isNumber, at + |left| + 1, depth, e.right);
    } else {
      AndBack(ts, isNumber, at, depth, e);
    }
  }

  /* ---------- whole queries ---------- */

  /** What every parsed query whose field names are words looks like. */
  predicate QueryShape(isNumber: NumberTest, q: Query) {
    WordText(q.order) && Canonical(q.order) == q.order && (q.expr.Some? ==> Shaped(isNumber, q.expr.value))
  }

  function OrderTokens(q: Query): seq<Token> {
    [W("order")] + ([W("by")] + ([W(q.order)] + if q.desc then [W("desc")] else []))
  }

  /** The expression, if any, and the order clause. */
  function QueryTokens(isNumber: NumberTest, q: Query): seq<Token>
    requires QueryShape(isNumber, q)
  {
    (if q.expr.None? then [] else OrTokens(isNumber, q.expr.value)) + OrderTokens(q)
  }

  function PrintQuery(isNumber: NumberTest, q: Query): string
    requires QueryShape(isNumber, q)
  {
    Render(QueryTokens(isNumber, q))
  }

  /** Where the printers of the three levels coincide. */
  lemma SamePrint(isNumber: NumberTest, e: Expr)
    requires Shaped(isNumber, e)
    ensures !e.Or? ==> OrTokens(isNumber, e) == AndTokens(isNumber, e)
    ensures !e.And? ==> AndTokens(isNumber, e) == UnaryTokens(isNumber, e)
  {
  }

  /** No printed expression starts like an order clause or an end. */
  lemma {:induction false} ExprStart(ts: seq<Token>, isNumber: NumberTest, at: nat, e: Expr)
    requires Ends(ts) && Shaped(isNumber, e)
    requires || Reads(ts, at, OrTokens(isNumber, e)) || Reads(ts, at, AndTokens(isNumber, e))
             || Reads(ts, at, UnaryTokens(isNumber, e))
    ensures !Is(ts, at, "order") && Peek(ts, at).text != ""
    decreases e
  {
    SamePrint(isNumber, e);
    KeywordsAreCanonical();
    SignsAreCanonical();
    hide Canonical, Reads, ComparisonShape, CompareTokens;
    match e
    case Not(i) => ReadsFirst(ts, at, W("not"), UnaryTokens(isNumber, i));
    case Compare(f, op, vs) => FieldFirst(ts, isNumber, at, f, op, vs);
    case And(l, r) =>
      if Reads(ts, at, UnaryTokens(isNumber, e)) {
        ReadsFirst(ts, at, W("("), OrTokens(isNumber, e) + [W(")")]);
      } else {
        ReadsBoth(ts, at, AndTokens(isNumber, l), [W("and")] + UnaryTokens(isNumber, r));
        ExprStart(ts, isNumber, at, l);
      }
    case Or(l, r) =>
      if Reads(ts, at, UnaryTokens(isNumber, e)) {
        ReadsFirst(ts, at, W("("), OrTokens(isNumber, e) + [W(")")]);
      } else {
        ReadsBoth(ts, at, OrTokens(isNumber, l), [W("or")] + AndTokens(isNumber, r));
        ExprStart(ts, isNumber, at, l);
      }
  }

  lemma FieldFirst(ts: seq<Token>, isNumber: NumberTest, at: nat, field: string, op: Op, values: seq<Value>)
    requires Ends(ts) && ComparisonShape(isNumber, field, op, values) && Reads(ts, at, CompareTokens(field, op, values))
    ensures !Is(ts, at, "order") && Peek(ts, at).text != ""
  {
    hide Printable, Numeric, Canonical, OpTokens, ListTokens, ValueTokens, Reads, FieldName;
    assert CompareTokens(field, op, values) == [W(field)] + (OpTokens(op) + RightTokens(op, values));
    ReadsFirst(ts, at, W(field), OpTokens(op) + RightTokens(op, values));
    FieldStart(ts, at, field);
    NameIsWord(field);
  }

  lemma NameIsWord(field: string)
    requires FieldName(field)
    ensures field != ""
  {
  }

  lemma OrderBack(ts: seq<Token>, at: nat, q: Query)
    requires Ends(ts) && WordText(q.order) && Canonical(q.order) == q.order
    requires Reads(ts, at, OrderTokens(q)) && Peek(ts, at + |OrderTokens(q)|) == END
    ensures OrderAt(ts, at) == Ok(Parsed((q.order, q.desc), at + |OrderTokens(q)|))
    ensures Peek(ts, at) == W("order")
  {
    KeywordsAreCanonical();
    assert q.order != "";
    hide Canonical, WordText, Reads;
    var tail := if q.desc then [W("desc")] else [];
    ReadsFirst(ts, at, W("order"), [W("by")] + ([W(q.order)] + tail));
    ReadsFirst(ts, at + 1, W("by"), [W(q.order)] + tail);
    ReadsFirst(ts, at + 2, W(q.order), tail);
    if q.desc { ReadsFirst(ts, at + 3, W("desc"), []); }
  }

  lemma FilterBack(ts: seq<Token>, isNumber: NumberTest, e: Expr, rest: seq<Token>)
    requires Ends(ts) && Shaped(isNumber, e) && Reads(ts, 0, OrTokens(isNumber, e) + ([W("order")] + rest))
    ensures Parses(FilterAt(ts, isNumber), OrDepth(e) <= MAX_DEPTH && EmptyFree(e), Some(e), |OrTokens(isNumber, e)|)
  {
    KeywordsAreCanonical();
    hide Canonical, Reads, OrTokens, Shaped, OrAt, OrDepth, EmptyFree;
    var first := OrTokens(isNumber, e);
    ReadsBoth(ts, 0, first, [W("order")] + rest);
    CalmToken(ts, |first|, W("order"), rest);
    ReadsFirst(ts, |first|, W("order"), rest);
    ExprStart(ts, isNumber, 0, e);
    OrBack(ts, isNumber, 0, 0, e);
  }

  /** Parsing printed tokens. */
  lemma TokensBack(isNumber: NumberTest, q: Query)
    requires QueryShape(isNumber, q)
    ensures var ts := QueryTokens(isNumber, q) + [END];
            Parses(ParseTokens(ts, isNumber), q.expr.None?
                || (OrDepth(q.expr.value) <= MAX_DEPTH && EmptyFree(q.expr.value)), q,
                   |QueryTokens(isNumber, q)|)
  {
    hide Canonical, OrTokens, OrderTokens, Shaped, WordText, FilterAt, OrderAt, Reads;
    var ts := QueryTokens(isNumber, q) + [END];
    var first := if q.expr.None? then [] else OrTokens(isNumber, q.expr.value);
    var order := OrderTokens(q);
    var rest := [W("by")] + ([W(q.order)] + if q.desc then [W("desc")] else []);
    ReadsFrom(ts, first + order);
    ReadsBoth(ts, 0, first, order);
    KeywordsAreCanonical();
    OrderBack(ts, |first|, q);
    if q.expr.Some? {
      assert order == [W("order")] + rest by { OrderIs(q); }
      assert Reads(ts, 0, first + ([W("order")] + rest)) by { ReadsFrom(ts, first + order); }
      FilterBack(ts, isNumber, q.expr.value, rest);
    } else {
      NoFilter(ts, isNumber);
    }
  }

  lemma OrderIs(q: Query)
    ensures OrderTokens(q) == [W("order")] + ([W("by")] + ([W(q.order)] + if q.desc then [W("desc")] else []))
  {
  }

  lemma ReadsFrom(ts: seq<Token>, part: seq<Token>)
    requires ts == part + [END]
    ensures Reads(ts, 0, part)
  {
  }

  lemma NoFilter(ts: seq<Token>, isNumber: NumberTest)
    requires Ends(ts) && Is(ts, 0, "order")
    ensures FilterAt(ts, isNumber) == Ok(Parsed(None, 0))
  {
  }

  /* ---------- printed tokens are the lexer's ---------- */

  ghost predicate AllLexable(ts: seq<Token>) {
    forall i | 0 <= i < |ts| :: Lexable(ts[i])
  }

  lemma DurationIsWord(n: nat)
    requires Writable(n)
    ensures Lexable(W(DurationText(n)))
  {
    hide Duration;
  }

  lemma BothLexable(a: seq<Token>, b: seq<Token>)
    requires AllLexable(a) && AllLexable(b)
    ensures AllLexable(a + b)
  {
  }

  lemma OneLexable(text: string)
    requires OperatorText(text) || WordText(text)
    ensures AllLexable([W(text)])
  {
  }

  lemma FixedAreLexable()
    ensures AllLexable([W("(")]) && AllLexable([W(")")]) && AllLexable([W("now")])
    ensures AllLexable([W("not")]) && AllLexable([W("and")]) && AllLexable([W("or")])
  {
    OneLexable("now");
    OneLexable("not");
    OneLexable("and");
    OneLexable("or");
    OneLexable("(");
    OneLexable(")");
  }

  lemma NumberIsLexable(text: string)
    requires NumberSpelling(text)
    ensures AllLexable(ValueTokens(Plain(NumberLiteral(text))))
  {
    hide WordText, Canonical;
    OneLexable("-");
    if text[0] == '-' {
      assert AllLexable([Magnitude(text[1..])]);
      hide AllLexable;
      BothLexable([W("-")], [Magnitude(text[1..])]);
    } else {
      OneLexable(text);
    }
  }

  lemma NowIsLexable(offset: int)
    requires Writable(Size(offset))
    ensures AllLexable(ValueTokens(Now(offset)))
  {
    hide OffsetTokens, Writable, AllLexable, W, WordText, OperatorText;
    FixedAreLexable();
    OffsetIsLexable(offset);
    BothLexable([W("now")], [W("(")]);
    BothLexable([W("now")] + [W("(")], [W(")")]);
    BothLexable([W("now")] + [W("(")] + [W(")")], OffsetTokens(offset));
    assert ValueTokens(Now(offset)) == [W("now")] + [W("(")] + [W(")")] + OffsetTokens(offset);
  }

  lemma ValueIsLexable(v: Value)
    requires Printable(v)
    ensures AllLexable(ValueTokens(v))
  {
    hide OffsetTokens, Writable, Canonical, WordText;
    match v
    case Now(offset) => NowIsLexable(offset);
    case Plain(NumberLiteral(text)) => NumberIsLexable(text);
    case Plain(NullLiteral) =>
      WordsAreWords();
      OneLexable("null");
    case Plain(BoolLiteral(b)) =>
      WordsAreWords();
      OneLexable("true");
      OneLexable("false");
    case Plain(TextLiteral(_)) =>
    case Me =>
      WordsAreWords();
      OneLexable("me");
      OneLexable("(");
      OneLexable(")");
  }

  lemma WordsAreWords()
    ensures WordText("null") && WordText("true") && WordText("false") && WordText("me")
  {
  }

  lemma OffsetIsLexable(offset: int)
    requires Writable(Size(offset))
    ensures AllLexable(OffsetTokens(offset))
  {
    DurationIsWord(Size(offset));
    hide DurationText, Writable;
  }

  lemma {:induction false} ListIsLexable(vs: seq<Value>)
    requires vs != [] && forall i | 0 <= i < |vs| :: Printable(vs[i])
    ensures AllLexable(ListTokens(vs))
  {
    ValueIsLexable(vs[0]);
    OneLexable(",");
    hide ValueTokens, Printable, AllLexable, OperatorText, WordText;
    if |vs| > 1 {
      ListIsLexable(vs[1..]);
      BothLexable([W(",")], ListTokens(vs[1..]));
      BothLexable(ValueTokens(vs[0]), [W(",")] + ListTokens(vs[1..]));
    } else {
      assert ListTokens(vs) == ValueTokens(vs[0]);
    }
  }

  lemma CompareIsLexable(isNumber: NumberTest, field: string, op: Op, values: seq<Value>)
    requires ComparisonShape(isNumber, field, op, values)
    ensures AllLexable(CompareTokens(field, op, values))
  {
    assert AllLexable(OpTokens(op));
    OneLexable(field);
    FixedAreLexable();
    hide ListTokens, ValueTokens, Printable, Numeric, FieldName, OpTokens, AllLexable, OperatorText, WordText, W;
    var list := ListTokens(values);
    ListIsLexable(values);
    ValueIsLexable(values[0]);
    BothLexable([W("(")], list);
    BothLexable([W("(")] + list, [W(")")]);
    BothLexable([W(field)], OpTokens(op));
    BothLexable([W(field)] + OpTokens(op), if op == InOp || op == NotInOp then [W("(")] + list + [W(")")]
        else ValueTokens(values[0]));
  }

  lemma {:induction false} OrIsLexable(isNumber: NumberTest, e: Expr)
    requires Shaped(isNumber, e)
    ensures AllLexable(OrTokens(isNumber, e)) && AllLexable(AndTokens(isNumber, e))
            && AllLexable(UnaryTokens(isNumber, e))
    decreases e
  {
    hide AllLexable, OperatorText, WordText, CompareTokens, ComparisonShape, W;
    SamePrint(isNumber, e);
    FixedAreLexable();
    match e
    case Not(i) =>
      OrIsLexable(isNumber, i);
      BothLexable([W("not")], UnaryTokens(isNumber, i));
    case Compare(f, op, vs) => CompareIsLexable(isNumber, f, op, vs);
    case And(l, r) =>
      OrIsLexable(isNumber, l);
      OrIsLexable(isNumber, r);
      BothLexable([W("and")], UnaryTokens(isNumber, r));
      BothLexable(AndTokens(isNumber, l), [W("and")] + UnaryTokens(isNumber, r));
      InParentheses(OrTokens(isNumber, e));
    case Or(l, r) =>
      OrIsLexable(isNumber, l);
      OrIsLexable(isNumber, r);
      BothLexable([W("or")], AndTokens(isNumber, r));
      BothLexable(OrTokens(isNumber, l), [W("or")] + AndTokens(isNumber, r));
      InParentheses(OrTokens(isNumber, e));
  }

  lemma InParentheses(ts: seq<Token>)
    requires AllLexable(ts)
    ensures AllLexable([W("(")] + (ts + [W(")")]))
  {
    OneLexable("(");
    OneLexable(")");
    hide AllLexable;
    BothLexable(ts, [W(")")]);
    BothLexable([W("(")], ts + [W(")")]);
  }

  lemma OrderIsLexable(q: Query)
    requires WordText(q.order)
    ensures AllLexable(OrderTokens(q))
  {
    OneLexable("order");
    OneLexable("by");
    OneLexable(q.order);
    OneLexable("desc");
    var tail := if q.desc then [W("desc")] else [];
    hide OperatorText, WordText;
    BothLexable([W(q.order)], tail);
    hide AllLexable;
    BothLexable([W("by")], [W(q.order)] + tail);
    BothLexable([W("order")], [W("by")] + ([W(q.order)] + tail));
  }

  lemma QueryIsLexable(isNumber: NumberTest, q: Query)
    requires QueryShape(isNumber, q)
    ensures AllLexable(QueryTokens(isNumber, q))
  {
    OrderIsLexable(q);
    hide OrderTokens, OrTokens, Lexable;
    if q.expr.Some? {
      OrIsLexable(isNumber, q.expr.value);
      BothLexable(OrTokens(isNumber, q.expr.value), OrderTokens(q));
    }
  }

  /**
   Printing, lexing and parsing give the same query back if and only if the text keeps the lexer's
   limits, nests at most 64 deep and holds no empty string.
   */
  lemma PrintThenParse(isNumber: NumberTest, q: Query)
    requires QueryShape(isNumber, q)
    ensures ParseText(PrintQuery(isNumber, q), isNumber) == Ok(q) <==>
            && WithinLimits(QueryTokens(isNumber, q))
            && (q.expr.Some? ==> OrDepth(q.expr.value) <= MAX_DEPTH && EmptyFree(q.expr.value))
  {
    QueryIsLexable(isNumber, q);
    TokensBack(isNumber, q);
    var tokens := QueryTokens(isNumber, q);
    LexOnlyWithin(tokens);
    LexInvertsRender(tokens);
    hide QueryTokens, WithinLimits, LexText, Render, OrDepth, EmptyFree, ParseTokens, QueryShape, Lexable;
  }

  /** A printed list beyond the limits does not lex at all. */
  lemma LexOnlyWithin(tokens: seq<Token>)
    requires AllLexable(tokens)
    ensures LexText(Render(tokens)).Ok? ==> WithinLimits(tokens)
  {
    LexRender(tokens, []);
    hide Lexable, WordsWithin, LexRest, Render;
  }

  /** The flaw behind the condition: an empty string ends the query, and what follows is never looked at. */
  lemma EmptyStringHidesTheRest(rest: seq<Token>, isNumber: NumberTest)
    ensures ParseTokens([Token("", true)] + rest + [END], isNumber) == Ok(Parsed(Query(None, "id", false), 0))
  {
    var ts := [Token("", true)] + rest + [END];
    assert Peek(ts, 0) == Token("", true);
  }
}
