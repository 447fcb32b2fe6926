/**
 The query parser (internal/sxq/parser.go, aliases.go): recursive descent over the token list.  The
 functions say what is parsed from a position; the class below moves a cursor, as the code does.
 */
module SxqParser {
  import opened Wrappers
  import opened Sxq
  import opened SxqLexer

  const MAX_DEPTH: nat := 64
  const MAX_VALUES: nat := 200
  const MAX_COUNT: nat := 1_000_000
  const MAX_NANOSECONDS: nat := 0x7FFF_FFFF_FFFF_FFFF

  const MINUTE: nat := 60_000_000_000
  const HOUR: nat := 60 * MINUTE
  const DAY: nat := 24 * HOUR
  const WEEK: nat := 7 * DAY

  datatype ParseError =
    | Lexical(error: LexError) | TooDeep | NoClose | Unavailable | NoField | NoOperator | NoIn | UnknownOperator
    | NoList | TooManyValues | NoListClose | NoValue | NoParens | NoDuration | BadDuration | NoNumber | NoLiteral
    | NoBy | NoOrderField | Trailing

  /** strconv.ParseFloat, as far as it decides whether a text is a finite number. */
  type NumberTest = string -> bool

  /** What was parsed, and where parsing goes on. */
  datatype Parsed<T> = Parsed(value: T, at: nat)

  function LowerChar(c: char): char {
    if 'A' <= c <= 'Z' then (c as int + 32) as char else c
  }

  function Lower(s: string): (r: string)
    ensures |r| == |s| && forall i | 0 <= i < |s| :: r[i] == LowerChar(s[i])
  {
    seq(|s|, i requires 0 <= i < |s| => LowerChar(s[i]))
  }

  /** Lower case, with the aliases of me and null replaced. */
  function Canonical(s: string): string {
    var l := Lower(s);
    if l == "currentuser" then "me" else if l == "empty" then "null" else l
  }

  /** Token lists from the lexer close with the end. */
  ghost predicate Ends(ts: seq<Token>) {
    ts != [] && ts[|ts| - 1] == END
  }

  /** Past the end, the end is seen again. */
  function Peek(ts: seq<Token>, at: nat): Token
    requires ts != []
  {
    if at >= |ts| then ts[|ts| - 1] else ts[at]
  }

  predicate Is(ts: seq<Token>, at: nat, s: string)
    requires ts != []
  {
    !Peek(ts, at).quoted && Canonical(Peek(ts, at).text) == s
  }

  predicate Digits(s: string) {
    s != "" && forall i | 0 <= i < |s| :: '0' <= s[i] <= '9'
  }

  function Decimal(s: string): nat
    requires forall i | 0 <= i < |s| :: '0' <= s[i] <= '9'
  {
    if s == "" then 0 else 10 * Decimal(s[..|s| - 1]) + (s[|s| - 1] as int - '0' as int)
  }

  function Unit(c: char): Option<nat> {
    if c == 'd' then Some(DAY) else if c == 'w' then Some(WEEK) else if c == 'h' then Some(HOUR)
        else if c == 'm' then Some(MINUTE) else None
  }

  /** A duration such as 7d, in nanoseconds that fit 64 bits. */
  function Duration(s: string): Option<nat>
    requires |s| >= 2
  {
    var n, unit := s[..|s| - 1], Unit(s[|s| - 1]);
    if !Digits(n) || unit.None? || Decimal(n) > MAX_COUNT || Decimal(n) > MAX_NANOSECONDS / unit.value then None
    else Some(Decimal(n) * unit.value)
  }

  predicate Sprint(name: string) {
    name == "startofsprint" || name == "endofsprint"
  }

  /** The offset behind now(), if any. */
  function OffsetAt(ts: seq<Token>, at: nat): (r: Result<Parsed<Value>, ParseError>)
    requires ts != []
    ensures r.Ok? ==> r.value.at >= at
  {
    if !Is(ts, at, "+") && !Is(ts, at, "-") then Ok(Parsed(Now(0), at))
    else
      var d := Peek(ts, at + 1);
      if d.quoted || |d.text| < 2 then Err(NoDuration)
      else match Duration(d.text)
        case None => Err(BadDuration)
        case Some(n) => Ok(Parsed(Now(if Is(ts, at, "-") then 0 - n else n), at + 2))
  }

  /** A number or a bare word. */
  function LiteralAt(ts: seq<Token>, isNumber: NumberTest, at: nat): (r: Result<Parsed<Value>, ParseError>)
    requires ts != []
    ensures r.Ok? ==> r.value.at > at
  {
    var t := Peek(ts, at);
    if Is(ts, at, "-") then
      var n := "-" + Peek(ts, at + 1).text;
      if isNumber(n) then Ok(Parsed(Plain(NumberLiteral(n)), at + 2)) else Err(NoNumber)
    else if isNumber(t.text) then Ok(Parsed(Plain(NumberLiteral(t.text)), at + 1))
    else if (exists i :: 0 <= i < |t.text| && t.text[i] in "()~,+:=<>!")
        || Canonical(t.text) in ["and", "or", "order"] then Err(NoLiteral)
    else Ok(Parsed(Plain(TextLiteral(t.text)), at + 1))
  }

  function ValueAt(ts: seq<Token>, isNumber: NumberTest, at: nat): (r: Result<Parsed<Value>, ParseError>)
    requires ts != []
    ensures r.Ok? ==> r.value.at > at && Peek(ts, at).text != ""
  {
    var t := Peek(ts, at);
    if t.text == "" then Err(NoValue)
    else if t.quoted then Ok(Parsed(Plain(TextLiteral(t.text)), at + 1))
    else
      var name := Canonical(t.text);
      if Sprint(name) then Err(Unavailable)
      else if name == "me" || name == "now" then
        if !Is(ts, at + 1, "(") || !Is(ts, at + 2, ")") then Err(NoParens)
        else if name == "me" then Ok(Parsed(Me, at + 3))
        else OffsetAt(ts, at + 3)
      else if name == "null" then Ok(Parsed(Plain(NullLiteral), at + 1))
      else if name == "true" || name == "false" then Ok(Parsed(Plain(BoolLiteral(name == "true")), at + 1))
      else LiteralAt(ts, isNumber, at)
  }

  /** Values separated by commas, after those already read. */
  function ListAt(ts: seq<Token>, isNumber: NumberTest, at: nat, done: seq<Value>): (r: Result<Parsed<seq<Value>>,
      ParseError>)
    requires Ends(ts)
    ensures r.Ok? ==> r.value.at > at && |r.value.value| > |done|
    decreases Max(0, |ts| - at)
  {
    match ValueAt(ts, isNumber, at)
    case Err(e) => Err(e)
    case Ok(Parsed(v, next)) =>
      if |done| + 1 > MAX_VALUES then Err(TooManyValues)
      else if Is(ts, next, ",") then ListAt(ts, isNumber, next + 1, done + [v])
      else Ok(Parsed(done + [v], next))
  }

  /** A comparison operator; it may take two words. */
  function OperatorAt(ts: seq<Token>, at: nat): (r: Result<Parsed<Op>, ParseError>)
    requires ts != []
    ensures r.Ok? ==> r.value.at > at
  {
    var op := Canonical(Peek(ts, at).text);
    if Peek(ts, at).quoted then Err(NoOperator)
    else if op == "not" then if Is(ts, at + 1, "in") then Ok(Parsed(NotInOp, at + 2)) else Err(NoIn)
    else if op == "is" then if Is(ts, at + 1, "not") then Ok(Parsed(IsNotOp, at + 2)) else Ok(Parsed(IsOp, at + 1))
    else if op == "=" then Ok(Parsed(EqOp, at + 1))
    else if op == "!=" then Ok(Parsed(NeOp, at + 1))
    else if op == ">" then Ok(Parsed(GtOp, at + 1))
    else if op == ">=" then Ok(Parsed(GeOp, at + 1))
    else if op == "<" then Ok(Parsed(LtOp, at + 1))
    else if op == "<=" then Ok(Parsed(LeOp, at + 1))
    else if op == "in" then Ok(Parsed(InOp, at + 1))
    else if op == "~" then Ok(Parsed(TildeOp, at + 1))
    else if op == ":" then Ok(Parsed(ColonOp, at + 1))
    else Err(UnknownOperator)
  }

  /** field, operator, value or parenthesized list. */
  function CompareAt(ts: seq<Token>, isNumber: NumberTest, at: nat): (r: Result<Parsed<Expr>, ParseError>)
    requires Ends(ts)
    ensures r.Ok? ==> r.value.at > at
  {
    var field := Canonical(Peek(ts, at).text);
    if field == "descendants" || field == "ancestors" then Err(Unavailable)
    else if Peek(ts, at).quoted || field == "" then Err(NoField)
    else match OperatorAt(ts, at + 1)
      case Err(e) => Err(e)
      case Ok(Parsed(op, next)) =>
        if op != InOp && op != NotInOp then
          match ValueAt(ts, isNumber, next)
          case Err(e) => Err(e)
          case Ok(Parsed(v, after)) => Ok(Parsed(Compare(field, op, [v]), after))
        else if !Is(ts, next, "(") then Err(NoList)
        else
          match ListAt(ts, isNumber, next + 1, [])
          case Err(e) => Err(e)
          case Ok(Parsed(vs, after)) =>
            if Is(ts, after, ")") then Ok(Parsed(Compare(field, op, vs), after + 1)) else Err(NoListClose)
  }

  /** depth counts the enclosing calls. */
  function UnaryAt(ts: seq<Token>, isNumber: NumberTest, at: nat, depth: nat): (r: Result<Parsed<Expr>, ParseError>)
    requires Ends(ts) && depth <= MAX_DEPTH
    ensures r.Ok? ==> r.value.at > at
    decreases MAX_DEPTH - depth, Max(0, |ts| - at), 0
  {
    if depth == MAX_DEPTH then Err(TooDeep)
    else if Is(ts, at, "not") then
      match UnaryAt(ts, isNumber, at + 1, depth + 1)
      case Err(e) => Err(e)
      case Ok(Parsed(e, next)) => Ok(Parsed(Not(e), next))
    else if Is(ts, at, "(") then
      match OrAt(ts, isNumber, at + 1, depth + 1)
      case Err(e) => Err(e)
      case Ok(Parsed(e, next)) => if Is(ts, next, ")") then Ok(Parsed(e, next + 1)) else Err(NoClose)
    else CompareAt(ts, isNumber, at)
  }

  function AndAt(ts: seq<Token>, isNumber: NumberTest, at: nat, depth: nat): (r: Result<Parsed<Expr>, ParseError>)
    requires Ends(ts) && depth <= MAX_DEPTH
    ensures r.Ok? ==> r.value.at > at
    decreases MAX_DEPTH - depth, Max(0, |ts| - at), 2
  {
    match UnaryAt(ts, isNumber, at, depth)
    case Err(e) => Err(e)
    case Ok(Parsed(left, next)) => AndRest(ts, isNumber, next, depth, left)
  }

  function AndRest(ts: seq<Token>, isNumber: NumberTest, at: nat, depth: nat, left: Expr): (r: Result<Parsed<Expr>,
      ParseError>)
    requires Ends(ts) && depth <= MAX_DEPTH
    ensures r.Ok? ==> r.value.at >= at
    decreases MAX_DEPTH - depth, Max(0, |ts| - at), 1
  {
    if !Is(ts, at, "and") then Ok(Parsed(left, at))
    else match UnaryAt(ts, isNumber, at + 1, depth)
      case Err(e) => Err(e)
      case Ok(Parsed(right, next)) => AndRest(ts, isNumber, next, depth, And(left, right))
  }

  function OrAt(ts: seq<Token>, isNumber: NumberTest, at: nat, depth: nat): (r: Result<Parsed<Expr>, ParseError>)
    requires Ends(ts) && depth <= MAX_DEPTH
    ensures r.Ok? ==> r.value.at > at
    decreases MAX_DEPTH - depth, Max(0, |ts| - at), 4
  {
    match AndAt(ts, isNumber, at, depth)
    case Err(e) => Err(e)
    case Ok(Parsed(left, next)) => OrRest(ts, isNumber, next, depth, left)
  }

  function OrRest(ts: seq<Token>, isNumber: NumberTest, at: nat, depth: nat, left: Expr): (r: Result<Parsed<Expr>,
      ParseError>)
    requires Ends(ts) && depth <= MAX_DEPTH
    ensures r.Ok? ==> r.value.at >= at
    decreases MAX_DEPTH - depth, Max(0, |ts| - at), 3
  {
    if !Is(ts, at, "or") then Ok(Parsed(left, at))
    else match AndAt(ts, isNumber, at + 1, depth)
      case Err(e) => Err(e)
      case Ok(Parsed(right, next)) => OrRest(ts, isNumber, next, depth, Or(left, right))
  }

  /** The optional expression at the front. */
  function FilterAt(ts: seq<Token>, isNumber: NumberTest): Result<Parsed<Option<Expr>>, ParseError>
    requires Ends(ts)
  {
    if Peek(ts, 0).text == "" || Is(ts, 0, "order") then Ok(Parsed(None, 0))
    else match OrAt(ts, isNumber, 0, 0)
      case Err(e) => Err(e)
      case Ok(Parsed(e, at)) => Ok(Parsed(Some(e), at))
  }

  /** The optional order clause; the default is the id, ascending. */
  function OrderAt(ts: seq<Token>, at: nat): Result<Parsed<(string, bool)>, ParseError>
    requires ts != []
  {
    if !Is(ts, at, "order") then Ok(Parsed(("id", false), at))
    else if !Is(ts, at + 1, "by") then Err(NoBy)
    else
      var order := Canonical(Peek(ts, at + 2).text);
      if Peek(ts, at + 2).quoted || order == "" then Err(NoOrderField)
      else if Is(ts, at + 3, "desc") then Ok(Parsed((order, true), at + 4))
      else Ok(Parsed((order, false), if Is(ts, at + 3, "asc") then at + 4 else at + 3))
  }

  function ParseTokens(ts: seq<Token>, isNumber: NumberTest): Result<Parsed<Query>, ParseError>
    requires Ends(ts)
  {
    match FilterAt(ts, isNumber)
    case Err(e) => Err(e)
    case Ok(Parsed(expr, at)) =>
      match OrderAt(ts, at)
      case Err(e) => Err(e)
      case Ok(Parsed((order, desc), end)) =>
        if Peek(ts, end).text != "" then Err(Trailing) else Ok(Parsed(Query(expr, order, desc), end))
  }

  lemma LexedEnds(input: string)
    requires LexText(input).Ok?
    ensures Ends(LexText(input).value) && forall i | 0 <= i < |LexText(input).value| - 1
            :: Lexable(LexText(input).value[i])
  {
    LexIsLexable(input, []);
  }

  function ParseText(input: string, isNumber: NumberTest): Result<Query, ParseError> {
    match LexText(input)
    case Err(e) => Err(Lexical(e))
    case Ok(ts) =>
      LexedEnds(input);
      match ParseTokens(ts, isNumber)
      case Err(e) => Err(e)
      case Ok(p) => Ok(p.value)
  }

  /* ---------- the parser object ---------- */

  /** A method parsed what the function says, and its cursor stands where the function's does. */
  ghost predicate Gives<T>(spec: Result<Parsed<T>, ParseError>, r: Result<T, ParseError>, at: nat) {
    match spec
    case Err(e) => r == Err(e)
    case Ok(p) => r == Ok(p.value) && at == p.at
  }

  class Parser {
    const tokens: seq<Token>
    const isNumber: NumberTest
    var at: nat
    var depth: nat

    constructor (tokens: seq<Token>, isNumber: NumberTest)
      ensures this.tokens == tokens && this.isNumber == isNumber && at == 0 && depth == 0
    {
      this.tokens, this.isNumber, at, depth := tokens, isNumber, 0, 0;
    }

    predicate Sees(s: string)
      requires tokens != []
      reads this`at
    {
      Is(tokens, at, s)
    }

    method TakeWord(s: string) returns (taken: bool)
      requires Ends(tokens) && s != ""
      modifies this`at
      ensures taken == Is(tokens, old(at), s) && at == if taken then old(at) + 1 else old(at)
      ensures taken ==> at < |tokens|
    {
      taken := Sees(s);
      if taken { at := at + 1; }
    }

    /** A value parsed from where the cursor stands; on success the cursor moves behind it. */
    method Value() returns (r: Result<Value, ParseError>)
      requires Ends(tokens)
      modifies this`at
      ensures Gives(ValueAt(tokens, isNumber, old(at)), r, at)
    {
      var t := Peek(tokens, at);
      if t.text == "" { return Err(NoValue); }
      if t.quoted {
        at := at + 1;
        return Ok(Plain(TextLiteral(t.text)));
      }
      var name := Canonical(t.text);
      if name == "startofsprint" || name == "endofsprint" { return Err(Unavailable); }
      if name == "me" || name == "now" {
        at := at + 1;
        var open := TakeWord("(");
        if !open { return Err(NoParens); }
        var close := TakeWord(")");
        if !close { return Err(NoParens); }
        if name == "me" { return Ok(Me); }
        r := Offset();
        return;
      }
      if name == "null" {
        at := at + 1;
        return Ok(Plain(NullLiteral));
      }
      if name == "true" || name == "false" {
        at := at + 1;
        return Ok(Plain(BoolLiteral(name == "true")));
      }
      r := NumberOrWord();
    }

    method Offset() returns (r: Result<Value, ParseError>)
      requires Ends(tokens)
      modifies this`at
      ensures Gives(OffsetAt(tokens, old(at)), r, at)
    {
      hide Duration, Canonical;
      if !Sees("+") && !Sees("-") { return Ok(Now(0)); }
      var negative := TakeWord("-");
      if !negative { var plus := TakeWord("+"); }
      var d := Peek(tokens, at);
      at := at + 1;
      if d.quoted || |d.text| < 2 { return Err(NoDuration); }
      var n := Duration(d.text);
      if n.None? { return Err(BadDuration); }
      var length: int := n.value;
      r := Ok(Now(if negative then -length else length));
    }

    method NumberOrWord() returns (r: Result<Value, ParseError>)
      requires Ends(tokens)
      modifies this`at
      ensures Gives(LiteralAt(tokens, isNumber, old(at)), r, at)
    {
      var t, sign := Peek(tokens, at), "";
      var minus := TakeWord("-");
      if minus { t, sign := Peek(tokens, at), "-"; }
      assert !minus ==> sign + t.text == t.text;
      if isNumber(sign + t.text) {
        at := at + 1;
        return Ok(Plain(NumberLiteral(sign + t.text)));
      }
      if sign != "" { return Err(NoNumber); }
      if (exists i :: 0 <= i < |t.text| && t.text[i] in "()~,+:=<>!")
          || Canonical(t.text) in ["and", "or", "order"] { return Err(NoLiteral); }
      at := at + 1;
      r := Ok(Plain(TextLiteral(t.text)));
    }

    method List() returns (r: Result<seq<Value>, ParseError>)
      requires Ends(tokens)
      modifies this`at
      ensures Gives(ListAt(tokens, isNumber, old(at), []), r, at)
    {
      hide ValueAt;
      var values, more := [], true;
      while more
        invariant more ==> ListAt(tokens, isNumber, at, values) == ListAt(tokens, isNumber, old(at), [])
        invariant !more ==> ListAt(tokens, isNumber, old(at), []) == Ok(Parsed(values, at))
        decreases more, Max(0, |tokens| - at)
      {
        var v := Value();
        if v.Err? { return Err(v.error); }
        values := values + [v.value];
        if |values| > MAX_VALUES { return Err(TooManyValues); }
        more := TakeWord(",");
      }
      r := Ok(values);
    }

    method Comparison() returns (r: Result<Expr, ParseError>)
      requires Ends(tokens)
      modifies this`at
      ensures Gives(CompareAt(tokens, isNumber, old(at)), r, at)
    {
      hide Canonical, ValueAt, ListAt;
      var field := Canonical(Peek(tokens, at).text);
      if field == "descendants" || field == "ancestors" { return Err(Unavailable); }
      if Peek(tokens, at).quoted || field == "" { return Err(NoField); }
      at := at + 1;
      var op := OperatorAt(tokens, at);
      if op.Err? { return Err(op.error); }
      at := op.value.at;
      if op.value.value == InOp || op.value.value == NotInOp {
        var open := TakeWord("(");
        if !open { return Err(NoList); }
        var vs := List();
        if vs.Err? { return Err(vs.error); }
        var close := TakeWord(")");
        if !close { return Err(NoListClose); }
        return Ok(Compare(field, op.value.value, vs.value));
      }
      var v := Value();
      if v.Err? { return Err(v.error); }
      r := Ok(Compare(field, op.value.value, [v.value]));
    }

    method Unary() returns (r: Result<Expr, ParseError>)
      requires Ends(tokens) && depth <= MAX_DEPTH
      modifies this`at, this`depth
      ensures depth == old(depth)
      ensures Gives(UnaryAt(tokens, isNumber, old(at), depth), r, at)
      decreases MAX_DEPTH - depth, Max(0, |tokens| - at), 0
    {
      hide Canonical, CompareAt;
      if depth + 1 > MAX_DEPTH { return Err(TooDeep); }
      depth := depth + 1;
      var negated := TakeWord("not");
      if negated {
        r := Unary();
        if r.Ok? { r := Ok(Not(r.value)); }
        depth := depth - 1;
        return;
      }
      var open := TakeWord("(");
      if open {
        r := OrChain();
        depth := depth - 1;
        if r.Err? { return; }
        var close := TakeWord(")");
        if !close { r := Err(NoClose); }
        return;
      }
      depth := depth - 1;
      r := Comparison();
    }

    /** The optional order clause. */
    method OrderClause() returns (r: Result<(string, bool), ParseError>)
      requires Ends(tokens)
      modifies this`at
      ensures Gives(OrderAt(tokens, old(at)), r, at)
    {
      hide Canonical;
      var order, desc := "id", false;
      var ordered := TakeWord("order");
      if ordered {
        var followed := TakeWord("by");
        if !followed { return Err(NoBy); }
        order := Canonical(Peek(tokens, at).text);
        if Peek(tokens, at).quoted || order == "" { return Err(NoOrderField); }
        at := at + 1;
        desc := TakeWord("desc");
        if !desc { var asc := TakeWord("asc"); }
      }
      r := Ok((order, desc));
    }

    method AndChain() returns (r: Result<Expr, ParseError>)
      requires Ends(tokens) && depth <= MAX_DEPTH
      modifies this`at, this`depth
      ensures depth == old(depth)
      ensures Gives(AndAt(tokens, isNumber, old(at), depth), r, at)
      decreases MAX_DEPTH - depth, Max(0, |tokens| - at), 2
    {
      hide Canonical, UnaryAt;
      r := Unary();
      if r.Err? { return; }
      var more := TakeWord("and");
      while more
        invariant r.Ok? && depth == old(depth) && at > old(at)
        invariant AndAt(tokens, isNumber, old(at), depth)
               == if more then AndStep(tokens, isNumber, at, depth, r.value) else Ok(Parsed(r.value, at))
        invariant more ==> at < |tokens|
        decreases more, Max(0, |tokens| - at)
      {
        var left := r.value;
        r := Unary();
        if r.Err? { return; }
        r := Ok(And(left, r.value));
        more := TakeWord("and");
      }
    }

    method OrChain() returns (r: Result<Expr, ParseError>)
      requires Ends(tokens) && depth <= MAX_DEPTH
      modifies this`at, this`depth
      ensures depth == old(depth)
      ensures Gives(OrAt(tokens, isNumber, old(at), depth), r, at)
      decreases MAX_DEPTH - depth, Max(0, |tokens| - at), 4
    {
      hide Canonical, AndAt;
      r := AndChain();
      if r.Err? { return; }
      var more := TakeWord("or");
      while more
        invariant r.Ok? && depth == old(depth) && at > old(at)
        invariant OrAt(tokens, isNumber, old(at), depth)
               == if more then OrStep(tokens, isNumber, at, depth, r.value) else Ok(Parsed(r.value, at))
        invariant more ==> at < |tokens|
        decreases more, Max(0, |tokens| - at)
      {
        var left := r.value;
        r := AndChain();
        if r.Err? { return; }
        r := Ok(Or(left, r.value));
        more := TakeWord("or");
      }
    }
  }

  /** The loop of and() after its keyword was taken. */
  function AndStep(ts: seq<Token>, isNumber: NumberTest, at: nat, depth: nat, left: Expr): Result<Parsed<Expr>,
      ParseError>
    requires Ends(ts) && depth <= MAX_DEPTH
  {
    match UnaryAt(ts, isNumber, at, depth)
    case Err(e) => Err(e)
    case Ok(Parsed(right, next)) => AndRest(ts, isNumber, next, depth, And(left, right))
  }

  function OrStep(ts: seq<Token>, isNumber: NumberTest, at: nat, depth: nat, left: Expr): Result<Parsed<Expr>,
      ParseError>
    requires Ends(ts) && depth <= MAX_DEPTH
  {
    match AndAt(ts, isNumber, at, depth)
    case Err(e) => Err(e)
    case Ok(Parsed(right, next)) => OrRest(ts, isNumber, next, depth, Or(left, right))
  }

  /** Parse. */
  method Parse(input: string, isNumber: NumberTest) returns (r: Result<Query, ParseError>)
    ensures r == ParseText(input, isNumber)
  {
    hide OrAt, Canonical;
    var tokens := Lex(input);
    if tokens.Err? { return Err(Lexical(tokens.error)); }
    LexedEnds(input);
    hide LexText;
    var p := new Parser(tokens.value, isNumber);
    var expr := None;
    if Peek(p.tokens, p.at).text != "" && !p.Sees("order") {
      var e := p.OrChain();
      if e.Err? { return Err(e.error); }
      expr := Some(e.value);
    }
    hide OrderAt;
    var order := p.OrderClause();
    if order.Err? { return Err(order.error); }
    if Peek(p.tokens, p.at).text != "" { return Err(Trailing); }
    r := Ok(Query(expr, order.value.0, order.value.1));
  }
}
