/**
 Upper and lower case in queries (internal/sxq/aliases.go): keywords, names and functions are read in
 any case, with one exception, the unit of a duration, which internal/sxq/parser.go compares as it stands.
 */
module SxqCase {
  import opened Wrappers
  import opened Sxq
  import opened SxqLexer
  import opened SxqParser
  import opened SxqPrint

  /** The same character, or the two cases of one letter. */
  predicate SameLetter(c: char, d: char) {
    c == d || ('a' <= c <= 'z' && d as int + 32 == c as int) || ('A' <= c <= 'Z' && c as int + 32 == d as int)
  }

  predicate SameLetters(s: string, t: string) {
    |s| == |t| && forall i | 0 <= i < |s| :: SameLetter(s[i], t[i])
  }

  /** Digits and one more character, as a duration has them. */
  predicate Counted(s: string) {
    |s| >= 2 && forall i | 0 <= i < |s| - 1 :: '0' <= s[i] <= '9'
  }

  /** Quoted tokens are the same, all others up to case. */
  predicate SameToken(a: Token, b: Token) {
    a.quoted == b.quoted && if a.quoted then a.text == b.text else SameLetters(a.text, b.text)
  }

  predicate Sign(t: Token) {
    !t.quoted && (t.text == "+" || t.text == "-")
  }

  /** Token by token the same up to case, and counts behind a sign exactly the same. */
  ghost predicate SameTokens(ts: seq<Token>, us: seq<Token>) {
    && |ts| == |us|
    && (forall i | 0 <= i < |ts| :: SameToken(ts[i], us[i]))
    && forall i | 0 < i < |ts| && Sign(ts[i - 1]) && Counted(ts[i].text) :: ts[i] == us[i]
  }

  /** ParseFloat does not look at case. */
  ghost predicate CaseBlind(isNumber: NumberTest) {
    forall s, t | SameLetters(s, t) :: isNumber(s) == isNumber(t)
  }

  /* ---------- results up to the case of bare words ---------- */

  predicate SameValue(v: Value, w: Value) {
    if v.Plain? && v.literal.TextLiteral? then
      w.Plain? && w.literal.TextLiteral? && SameLetters(v.literal.text, w.literal.text)
    else if v.Plain? && v.literal.NumberLiteral?
    then w.Plain? && w.literal.NumberLiteral? && SameLetters(v.literal.text, w.literal.text)
    else v == w
  }

  predicate SameValues(vs: seq<Value>, ws: seq<Value>) {
    |vs| == |ws| && forall i | 0 <= i < |vs| :: SameValue(vs[i], ws[i])
  }

  predicate SameExpr(e: Expr, f: Expr) {
    match e
    case And(l, r) => f.And? && SameExpr(l, f.left) && SameExpr(r, f.right)
    case Or(l, r) => f.Or? && SameExpr(l, f.left) && SameExpr(r, f.right)
    case Not(i) => f.Not? && SameExpr(i, f.inner)
    case Compare(n, op, vs) => f.Compare? && f.field == n && f.op == op && SameValues(vs, f.values)
  }

  predicate SameQuery(p: Query, q: Query) {
    && p.order == q.order && p.desc == q.desc
    && if p.expr.None? then q.expr.None? else q.expr.Some? && SameExpr(p.expr.value, q.expr.value)
  }

  ghost predicate AlikeValue(a: Result<Parsed<Value>, ParseError>, b: Result<Parsed<Value>, ParseError>) {
    if a.Err? then a == b else b.Ok? && a.value.at == b.value.at && SameValue(a.value.value, b.value.value)
  }

  ghost predicate AlikeValues(a: Result<Parsed<seq<Value>>, ParseError>, b: Result<Parsed<seq<Value>>, ParseError>) {
    if a.Err? then a == b else b.Ok? && a.value.at == b.value.at && SameValues(a.value.value, b.value.value)
  }

  ghost predicate AlikeExpr(a: Result<Parsed<Expr>, ParseError>, b: Result<Parsed<Expr>, ParseError>) {
    if a.Err? then a == b else b.Ok? && a.value.at == b.value.at && SameExpr(a.value.value, b.value.value)
  }

  ghost predicate AlikeQuery(a: Result<Parsed<Query>, ParseError>, b: Result<Parsed<Query>, ParseError>) {
    if a.Err? then a == b else b.Ok? && a.value.at == b.value.at && SameQuery(a.value.value, b.value.value)
  }

  /* ---------- one token ---------- */

  /** Texts that differ only in case have one canonical form. */
  lemma SameCanonical(s: string, t: string)
    requires SameLetters(s, t)
    ensures Canonical(s) == Canonical(t)
  {
    forall i | 0 <= i < |s| ensures LowerChar(s[i]) == LowerChar(t[i]) { assert SameLetter(s[i], t[i]); }
    assert Lower(s) == Lower(t);
  }

  lemma SamePeek(ts: seq<Token>, us: seq<Token>, at: nat)
    requires ts != [] && SameTokens(ts, us)
    ensures SameToken(Peek(ts, at), Peek(us, at))
    ensures Canonical(Peek(ts, at).text) == Canonical(Peek(us, at).text)
  {
    SameCanonical(Peek(ts, at).text, Peek(us, at).text) by { SameToItself(Peek(ts, at).text); }
    hide Canonical;
  }

  lemma SameToItself(s: string)
    ensures SameLetters(s, s)
  {
  }

  lemma SameCounted(s: string, t: string)
    requires SameLetters(s, t)
    ensures Counted(s) == Counted(t)
  {
    forall i | 0 <= i < |s| ensures '0' <= s[i] <= '9' <==> '0' <= t[i] <= '9' { assert SameLetter(s[i], t[i]); }
  }

  lemma NotCounted(s: string)
    requires |s| >= 2 && !Counted(s)
    ensures Duration(s).None?
  {
    assert Digits(s[..|s| - 1]) ==> Counted(s) by {
      if Digits(s[..|s| - 1]) {
        forall i | 0 <= i < |s| - 1 ensures '0' <= s[i] <= '9' { assert s[..|s| - 1][i] == s[i]; }
      }
    }
  }

  /** Where a sign stands, the two lists have it alike, and the count behind it is exactly the same. */
  lemma SameOffset(ts: seq<Token>, us: seq<Token>, at: nat)
    requires Ends(ts) && Ends(us) && SameTokens(ts, us)
    ensures OffsetAt(ts, at) == OffsetAt(us, at)
  {
    SamePeek(ts, us, at);
    SamePeek(ts, us, at + 1);
    if Is(ts, at, "+") || Is(ts, at, "-") {
      SignIs(ts, at);
      var d, e := Peek(ts, at + 1), Peek(us, at + 1);
      if !d.quoted && |d.text| >= 2 {
        SameCounted(d.text, e.text);
        if Counted(d.text) {
          CountIsSame(ts, us, at);
        } else {
          NotCounted(d.text);
          NotCounted(e.text);
        }
      }
    }
    hide Canonical, Duration, SameTokens, Counted;
  }

  lemma SignIs(ts: seq<Token>, at: nat)
    requires Ends(ts) && (Is(ts, at, "+") || Is(ts, at, "-"))
    ensures at < |ts| - 1 && Sign(ts[at])
  {
    var text := Peek(ts, at).text;
    assert Lower(text)[0] == LowerChar(text[0]) by { assert |Lower(text)| == 1; }
    assert text == [text[0]];
  }

  lemma CountIsSame(ts: seq<Token>, us: seq<Token>, at: nat)
    requires ts != [] && SameTokens(ts, us) && at < |ts| - 1 && Sign(ts[at]) && Counted(ts[at + 1].text)
    ensures Peek(ts, at + 1) == Peek(us, at + 1)
  {
  }

  lemma SameMarks(s: string, t: string)
    requires SameLetters(s, t)
    ensures (exists i :: 0 <= i < |s| && s[i] in "()~,+:=<>!") <==> (exists i :: 0 <= i < |t| && t[i] in "()~,+:=<>!")
  {
    forall i | 0 <= i < |s| ensures s[i] in "()~,+:=<>!" <==> t[i] in "()~,+:=<>!" { assert SameLetter(s[i], t[i]); }
  }

  lemma SameSigned(s: string, t: string)
    requires SameLetters(s, t)
    ensures SameLetters("-" + s, "-" + t)
  {
    forall i | 0 <= i < |s| + 1 ensures SameLetter(("-" + s)[i], ("-" + t)[i]) {
      if i > 0 { assert SameLetter(s[i - 1], t[i - 1]); }
    }
  }

  lemma SameLiteral(ts: seq<Token>, us: seq<Token>, isNumber: NumberTest, at: nat)
    requires Ends(ts) && Ends(us) && SameTokens(ts, us) && CaseBlind(isNumber)
    ensures AlikeValue(LiteralAt(ts, isNumber, at), LiteralAt(us, isNumber, at))
  {
    hide Canonical, SameTokens, SameLetters, CaseBlind, Peek;
    SamePeek(ts, us, at);
    SamePeek(ts, us, at + 1);
    SameToItself(Peek(ts, at).text);
    SameToItself(Peek(ts, at + 1).text);
    SameMarks(Peek(ts, at).text, Peek(us, at).text);
    SameSigned(Peek(ts, at + 1).text, Peek(us, at + 1).text);
    SameNumber(isNumber, Peek(ts, at).text, Peek(us, at).text);
    SameNumber(isNumber, "-" + Peek(ts, at + 1).text, "-" + Peek(us, at + 1).text);
  }

  lemma SameNumber(isNumber: NumberTest, s: string, t: string)
    requires CaseBlind(isNumber) && SameLetters(s, t)
    ensures isNumber(s) == isNumber(t)
  {
  }

  lemma SameValueAt(ts: seq<Token>, us: seq<Token>, isNumber: NumberTest, at: nat)
    requires Ends(ts) && Ends(us) && SameTokens(ts, us) && CaseBlind(isNumber)
    ensures AlikeValue(ValueAt(ts, isNumber, at), ValueAt(us, isNumber, at))
  {
    hide Canonical, SameLetters, CaseBlind, Peek, LiteralAt, OffsetAt, SameTokens;
    SamePeek(ts, us, at);
    SamePeek(ts, us, at + 1);
    SamePeek(ts, us, at + 2);
    SameOffset(ts, us, at + 3);
    SameLiteral(ts, us, isNumber, at);
    SameToItself(Peek(ts, at).text);
    OffsetIsNow(ts, at + 3);
    SameEnd(ts, us, at);
  }

  lemma OffsetIsNow(ts: seq<Token>, at: nat)
    requires ts != []
    ensures OffsetAt(ts, at).Ok? ==> OffsetAt(ts, at).value.value.Now?
  {
    hide Canonical, Duration;
  }

  /* ---------- lists and comparisons ---------- */

  lemma SameAppend(vs: seq<Value>, ws: seq<Value>, v: Value, w: Value)
    requires SameValues(vs, ws) && SameValue(v, w)
    ensures SameValues(vs + [v], ws + [w])
  {
    hide SameValue;
  }

  lemma ListParts(ts: seq<Token>, isNumber: NumberTest, at: nat, done: seq<Value>)
    requires Ends(ts)
    ensures var a := ValueAt(ts, isNumber, at);
            ListAt(ts, isNumber, at, done)
            == if a.Err? then Err(a.error)
               else if |done| + 1 > MAX_VALUES then Err(TooManyValues)
               else if Is(ts, a.value.at, ",") then ListAt(ts, isNumber, a.value.at + 1, done + [a.value.value])
               else Ok(Parsed(done + [a.value.value], a.value.at))
  {
    hide ValueAt, Canonical;
  }

  lemma {:induction false} SameListAt(ts: seq<Token>, us: seq<Token>, isNumber: NumberTest, at: nat,
                                      done: seq<Value>, made: seq<Value>)
    requires Ends(ts) && Ends(us) && SameTokens(ts, us) && CaseBlind(isNumber) && SameValues(done, made)
    ensures AlikeValues(ListAt(ts, isNumber, at, done), ListAt(us, isNumber, at, made))
    decreases Max(0, |ts| - at)
  {
    hide Canonical, SameTokens, CaseBlind, ValueAt, ListAt, SameValue, SameValues, Peek;
    SameValueAt(ts, us, isNumber, at);
    ListParts(ts, isNumber, at, done);
    ListParts(us, isNumber, at, made);
    LengthsAgree(done, made);
    var a, b := ValueAt(ts, isNumber, at), ValueAt(us, isNumber, at);
    if a.Ok? {
      SamePeek(ts, us, a.value.at);
      SameAppend(done, made, a.value.value, b.value.value);
      if |done| + 1 <= MAX_VALUES && Is(ts, a.value.at, ",") {
        CommaIsInside(ts, a.value.at);
        SameListAt(ts, us, isNumber, a.value.at + 1, done + [a.value.value], made + [b.value.value]);
      }
    }
  }

  lemma LengthsAgree(vs: seq<Value>, ws: seq<Value>)
    requires SameValues(vs, ws)
    ensures |vs| == |ws|
  {
  }

  lemma CommaIsInside(ts: seq<Token>, at: nat)
    requires Ends(ts) && Is(ts, at, ",")
    ensures at < |ts|
  {
    assert Canonical("") == "" by { LowerIsCanonical(""); }
    hide Canonical;
  }

  lemma SameOperator(ts: seq<Token>, us: seq<Token>, at: nat)
    requires ts != [] && SameTokens(ts, us)
    ensures OperatorAt(ts, at) == OperatorAt(us, at)
  {
    SamePeek(ts, us, at);
    SamePeek(ts, us, at + 1);
    hide Canonical, SameTokens, Peek;
  }

  lemma SameOne(v: Value, w: Value)
    requires SameValue(v, w)
    ensures SameValues([v], [w])
  {
    hide SameValue;
  }

  /** The right side of a comparison, behind its operator. */
  lemma SameRight(ts: seq<Token>, us: seq<Token>, isNumber: NumberTest, field: string, op: Op, next: nat)
    requires Ends(ts) && Ends(us) && SameTokens(ts, us) && CaseBlind(isNumber)
    ensures AlikeExpr(RightAt(ts, isNumber, field, op, next), RightAt(us, isNumber, field, op, next))
  {
    hide Canonical, SameTokens, CaseBlind, Peek, ValueAt, ListAt, SameValue, SameValues;
    SamePeek(ts, us, next);
    if op != InOp && op != NotInOp {
      SameValueAt(ts, us, isNumber, next);
      var a, b := ValueAt(ts, isNumber, next), ValueAt(us, isNumber, next);
      if a.Ok? { SameOne(a.value.value, b.value.value); }
    } else {
      SameNothing();
      SameListAt(ts, us, isNumber, next + 1, [], []);
      var a := ListAt(ts, isNumber, next + 1, []);
      if a.Ok? { SamePeek(ts, us, a.value.at); }
    }
  }

  /** A comparison whose field and operator are in order is its right side. */
  lemma CompareParts(ts: seq<Token>, isNumber: NumberTest, at: nat)
    requires Ends(ts)
    ensures var field, op := Canonical(Peek(ts, at).text), OperatorAt(ts, at + 1);
            CompareAt(ts, isNumber, at)
            == if field == "descendants" || field == "ancestors" then Err(Unavailable)
               else if Peek(ts, at).quoted || field == "" then Err(NoField)
               else if op.Err? then Err(op.error)
               else RightAt(ts, isNumber, field, op.value.value, op.value.at)
  {
    hide Canonical, OperatorAt, ValueAt, ListAt, Peek;
  }

  lemma SameCompareAt(ts: seq<Token>, us: seq<Token>, isNumber: NumberTest, at: nat)
    requires Ends(ts) && Ends(us) && SameTokens(ts, us) && CaseBlind(isNumber)
    ensures AlikeExpr(CompareAt(ts, isNumber, at), CompareAt(us, isNumber, at))
  {
    hide Canonical, SameTokens, CaseBlind, Peek, OperatorAt, RightAt, CompareAt, SameExpr;
    SamePeek(ts, us, at);
    SameOperator(ts, us, at + 1);
    CompareParts(ts, isNumber, at);
    CompareParts(us, isNumber, at);
    var op := OperatorAt(ts, at + 1);
    if op.Ok? { SameRight(ts, us, isNumber, Canonical(Peek(ts, at).text), op.value.value, op.value.at); }
  }

  lemma SameNothing()
    ensures SameValues([], [])
  {
  }

  /* ---------- expressions ---------- */

  lemma {:induction false} SameUnary(ts: seq<Token>, us: seq<Token>, isNumber: NumberTest, at: nat, depth: nat)
    requires Ends(ts) && Ends(us) && SameTokens(ts, us) && CaseBlind(isNumber) && depth <= MAX_DEPTH
    ensures AlikeExpr(UnaryAt(ts, isNumber, at, depth), UnaryAt(us, isNumber, at, depth))
    decreases MAX_DEPTH - depth, Max(0, |ts| - at), 0
  {
    SamePeek(ts, us, at);
    hide Canonical, SameTokens, CaseBlind, Peek, CompareAt, OrAt, SameValues;
    if depth < MAX_DEPTH {
      if Is(ts, at, "not") {
        SameUnary(ts, us, isNumber, at + 1, depth + 1);
      } else if Is(ts, at, "(") {
        SameOr(ts, us, isNumber, at + 1, depth + 1);
        var a := OrAt(ts, isNumber, at + 1, depth + 1);
        if a.Ok? { SamePeek(ts, us, a.value.at); }
      } else {
        SameCompareAt(ts, us, isNumber, at);
      }
    }
  }

  lemma SamePair(l: Expr, r: Expr, m: Expr, n: Expr)
    requires SameExpr(l, m) && SameExpr(r, n)
    ensures SameExpr(And(l, r), And(m, n)) && SameExpr(Or(l, r), Or(m, n))
  {
  }

  lemma AndParts(ts: seq<Token>, isNumber: NumberTest, at: nat, depth: nat)
    requires Ends(ts) && depth <= MAX_DEPTH
    ensures var a := UnaryAt(ts, isNumber, at, depth);
            AndAt(ts, isNumber, at, depth) ==
              if a.Err? then a else AndRest(ts, isNumber, a.value.at, depth, a.value.value)
  {
    hide UnaryAt, AndRest;
  }

  lemma AndRestParts(ts: seq<Token>, isNumber: NumberTest, at: nat, depth: nat, left: Expr)
    requires Ends(ts) && depth <= MAX_DEPTH
    ensures var a := UnaryAt(ts, isNumber, at + 1, depth);
            AndRest(ts, isNumber, at, depth, left)
            == if !Is(ts, at, "and") then Ok(Parsed(left, at))
               else if a.Err? then a
               else AndRest(ts, isNumber, a.value.at, depth, And(left, a.value.value))
  {
    hide UnaryAt, Canonical;
  }

  lemma {:induction false} SameAnd(ts: seq<Token>, us: seq<Token>, isNumber: NumberTest, at: nat, depth: nat)
    requires Ends(ts) && Ends(us) && SameTokens(ts, us) && CaseBlind(isNumber) && depth <= MAX_DEPTH
    ensures AlikeExpr(AndAt(ts, isNumber, at, depth), AndAt(us, isNumber, at, depth))
    decreases MAX_DEPTH - depth, Max(0, |ts| - at), 2
  {
    hide SameTokens, CaseBlind, AndAt, UnaryAt, AndRest, SameExpr;
    SameUnary(ts, us, isNumber, at, depth);
    AndParts(ts, isNumber, at, depth);
    AndParts(us, isNumber, at, depth);
    var a, b := UnaryAt(ts, isNumber, at, depth), UnaryAt(us, isNumber, at, depth);
    if a.Ok? { SameAndRest(ts, us, isNumber, a.value.at, depth, a.value.value, b.value.value); }
  }

  lemma {:induction false} SameAndRest(ts: seq<Token>, us: seq<Token>, isNumber: NumberTest, at: nat, depth: nat,
                                       left: Expr, also: Expr)
    requires Ends(ts) && Ends(us) && SameTokens(ts, us) && CaseBlind(isNumber) && depth <= MAX_DEPTH
             && SameExpr(left, also)
    ensures AlikeExpr(AndRest(ts, isNumber, at, depth, left), AndRest(us, isNumber, at, depth, also))
    decreases MAX_DEPTH - depth, Max(0, |ts| - at), 1
  {
    hide Canonical, SameTokens, CaseBlind, UnaryAt, AndRest, Peek, SameExpr;
    SamePeek(ts, us, at);
    AndRestParts(ts, isNumber, at, depth, left);
    AndRestParts(us, isNumber, at, depth, also);
    if Is(ts, at, "and") {
      WordIsInside(ts, at, "and");
      SameUnary(ts, us, isNumber, at + 1, depth);
      var a, b := UnaryAt(ts, isNumber, at + 1, depth), UnaryAt(us, isNumber, at + 1, depth);
      if a.Ok? {
        SamePair(left, a.value.value, also, b.value.value);
        SameAndRest(ts, us, isNumber, a.value.at, depth, And(left, a.value.value), And(also, b.value.value));
      }
    }
  }

  lemma OrParts(ts: seq<Token>, isNumber: NumberTest, at: nat, depth: nat)
    requires Ends(ts) && depth <= MAX_DEPTH
    ensures var a := AndAt(ts, isNumber, at, depth);
            OrAt(ts, isNumber, at, depth) ==
              if a.Err? then a else OrRest(ts, isNumber, a.value.at, depth, a.value.value)
  {
    hide AndAt, OrRest;
  }

  lemma OrRestParts(ts: seq<Token>, isNumber: NumberTest, at: nat, depth: nat, left: Expr)
    requires Ends(ts) && depth <= MAX_DEPTH
    ensures var a := AndAt(ts, isNumber, at + 1, depth);
            OrRest(ts, isNumber, at, depth, left)
            == if !Is(ts, at, "or") then Ok(Parsed(left, at))
               else if a.Err? then a
               else OrRest(ts, isNumber, a.value.at, depth, Or(left, a.value.value))
  {
    hide AndAt, Canonical;
  }

  lemma {:induction false} SameOr(ts: seq<Token>, us: seq<Token>, isNumber: NumberTest, at: nat, depth: nat)
    requires Ends(ts) && Ends(us) && SameTokens(ts, us) && CaseBlind(isNumber) && depth <= MAX_DEPTH
    ensures AlikeExpr(OrAt(ts, isNumber, at, depth), OrAt(us, isNumber, at, depth))
    decreases MAX_DEPTH - depth, Max(0, |ts| - at), 4
  {
    hide SameTokens, CaseBlind, OrAt, AndAt, OrRest, SameExpr;
    SameAnd(ts, us, isNumber, at, depth);
    OrParts(ts, isNumber, at, depth);
    OrParts(us, isNumber, at, depth);
    var a, b := AndAt(ts, isNumber, at, depth), AndAt(us, isNumber, at, depth);
    if a.Ok? { SameOrRest(ts, us, isNumber, a.value.at, depth, a.value.value, b.value.value); }
  }

  lemma {:induction false} SameOrRest(ts: seq<Token>, us: seq<Token>, isNumber: NumberTest, at: nat, depth: nat,
                                       left: Expr, also: Expr)
    requires Ends(ts) && Ends(us) && SameTokens(ts, us) && CaseBlind(isNumber) && depth <= MAX_DEPTH
             && SameExpr(left, also)
    ensures AlikeExpr(OrRest(ts, isNumber, at, depth, left), OrRest(us, isNumber, at, depth, also))
    decreases MAX_DEPTH - depth, Max(0, |ts| - at), 3
  {
    hide Canonical, SameTokens, CaseBlind, AndAt, OrRest, Peek, SameExpr;
    SamePeek(ts, us, at);
    OrRestParts(ts, isNumber, at, depth, left);
    OrRestParts(us, isNumber, at, depth, also);
    if Is(ts, at, "or") {
      WordIsInside(ts, at, "or");
      SameAnd(ts, us, isNumber, at + 1, depth);
      var a, b := AndAt(ts, isNumber, at + 1, depth), AndAt(us, isNumber, at + 1, depth);
      if a.Ok? {
        SamePair(left, a.value.value, also, b.value.value);
        SameOrRest(ts, us, isNumber, a.value.at, depth, Or(left, a.value.value), Or(also, b.value.value));
      }
    }
  }

  lemma WordIsInside(ts: seq<Token>, at: nat, s: string)
    requires Ends(ts) && Is(ts, at, s) && s != ""
    ensures at < |ts|
  {
    assert Canonical("") == "" by { LowerIsCanonical(""); }
    hide Canonical;
  }

  /* ---------- queries ---------- */

  lemma SameOrder(ts: seq<Token>, us: seq<Token>, at: nat)
    requires ts != [] && SameTokens(ts, us)
    ensures OrderAt(ts, at) == OrderAt(us, at)
  {
    SamePeek(ts, us, at);
    SamePeek(ts, us, at + 1);
    SamePeek(ts, us, at + 2);
    SamePeek(ts, us, at + 3);
    hide Canonical, SameTokens, Peek;
  }

  /**
   Case does not matter: two token lists that differ only in the case of unquoted tokens, other than
   counts behind a sign, are both accepted or refused alike, and give the same query up to the case of
   its bare words and numbers.
   */
  lemma CaseDoesNotMatter(ts: seq<Token>, us: seq<Token>, isNumber: NumberTest)
    requires Ends(ts) && Ends(us) && SameTokens(ts, us) && CaseBlind(isNumber)
    ensures AlikeQuery(ParseTokens(ts, isNumber), ParseTokens(us, isNumber))
  {
    SamePeek(ts, us, 0);
    SameOr(ts, us, isNumber, 0, 0);
    assert Peek(ts, 0).text == "" <==> Peek(us, 0).text == "";
    hide Canonical, SameTokens, CaseBlind, Peek, OrAt, OrderAt, SameExpr, SameLetters;
    var f, g := FilterAt(ts, isNumber), FilterAt(us, isNumber);
    assert f.Err? ==> f == g;
    assert f.Ok? ==> g.Ok? && f.value.at == g.value.at && f.value.value.Some? == g.value.value.Some?;
    assert f.Ok? && f.value.value.Some? ==> SameExpr(f.value.value.value, g.value.value.value);
    if f.Ok? {
      SameOrder(ts, us, f.value.at);
      var o := OrderAt(ts, f.value.at);
      if o.Ok? { SameEnd(ts, us, o.value.at); }
    }
    hide FilterAt;
  }

  lemma SameEnd(ts: seq<Token>, us: seq<Token>, at: nat)
    requires ts != [] && SameTokens(ts, us)
    ensures Peek(ts, at).text == "" <==> Peek(us, at).text == ""
  {
    SamePeek(ts, us, at);
  }

  /* ---------- texts ---------- */

  /** A token stays one the lexer produces in whatever case its letters are written. */
  lemma LexableInAnyCase(a: Token, b: Token)
    requires Lexable(a) && SameToken(a, b)
    ensures Lexable(b)
  {
    if !a.quoted {
      forall i | 0 <= i < |a.text| ensures SameLetter(a.text[i], b.text[i]) {}
      if OperatorText(a.text) { SignsHaveNoCase(a.text, b.text); }
    }
  }

  lemma SignsHaveNoCase(s: string, t: string)
    requires OperatorText(s) && SameLetters(s, t)
    ensures s == t
  {
    forall i | 0 <= i < |s| ensures s[i] == t[i] { assert SameLetter(s[i], t[i]); }
  }

  /** A printed query in any other case is read as the same query, as long as both texts keep the lexer's limits. */
  lemma QueryInAnyCase(isNumber: NumberTest, q: Query, us: seq<Token>)
    requires QueryShape(isNumber, q) && CaseBlind(isNumber)
    requires WithinLimits(QueryTokens(isNumber, q)) && WithinLimits(us)
    requires q.expr.Some? ==> OrDepth(q.expr.value) <= MAX_DEPTH && EmptyFree(q.expr.value)
    requires SameTokens(QueryTokens(isNumber, q), us)
    ensures ParseText(Render(us), isNumber).Ok? && SameQuery(q, ParseText(Render(us), isNumber).value)
  {
    hide QueryShape, WithinLimits, OrDepth, EmptyFree, ParseTokens, Lexable, CaseBlind, QueryTokens, LexText, Render,
      SameToken, Counted;
    var ts := QueryTokens(isNumber, q);
    QueryIsLexable(isNumber, q);
    forall i | 0 <= i < |us| ensures Lexable(us[i]) { LexableInAnyCase(ts[i], us[i]); }
    LexInvertsRender(us);
    TokensBack(isNumber, q);
    SameWithEnd(ts, us);
    CaseDoesNotMatter(ts + [END], us + [END], isNumber);
  }

  lemma SameWithEnd(ts: seq<Token>, us: seq<Token>)
    requires SameTokens(ts, us)
    ensures SameTokens(ts + [END], us + [END])
  {
    hide Counted;
    assert SameToken(END, END);
    assert Counted("") == false by { NothingCounted(); }
  }

  lemma NothingCounted()
    ensures !Counted("")
  {
  }

  /* ---------- the aliases, and the one exception ---------- */

  /** The current user, under both names and in any case. */
  lemma MeInAnyCase(ts: seq<Token>, isNumber: NumberTest, at: nat, name: string)
    requires ts != [] && at + 2 < |ts| && !ts[at].quoted
    requires (name == "currentuser" || name == "me") && SameLetters(name, ts[at].text)
    requires ts[at + 1] == W("(") && ts[at + 2] == W(")")
    ensures ValueAt(ts, isNumber, at) == Ok(Parsed(Me, at + 3))
  {
    SameCanonical(name, ts[at].text);
    assert Canonical(name) == "me" by { NamesOfMe(); }
    SignsAreCanonical();
    assert ts[at].text != "";
    hide Canonical, SameLetters, LiteralAt, OffsetAt;
  }

  lemma NamesOfMe()
    ensures Canonical("currentuser") == "me" && Canonical("me") == "me"
    ensures Canonical("empty") == "null" && Canonical("null") == "null"
  {
    assert Lower("currentuser") == "currentuser" && Lower("empty") == "empty";
    LowerIsCanonical("me");
    LowerIsCanonical("null");
  }

  /** Null, under both names and in any case. */
  lemma NullInAnyCase(ts: seq<Token>, isNumber: NumberTest, at: nat, name: string)
    requires ts != [] && at < |ts| && !ts[at].quoted
    requires (name == "empty" || name == "null") && SameLetters(name, ts[at].text)
    ensures ValueAt(ts, isNumber, at) == Ok(Parsed(Plain(NullLiteral), at + 1))
  {
    SameCanonical(name, ts[at].text);
    assert Canonical(name) == "null" by { NamesOfMe(); }
    assert ts[at].text != "";
    hide Canonical, SameLetters, LiteralAt, OffsetAt;
  }

  /** A duration in another case is the same duration if it is the same text, and none at all otherwise. */
  lemma DurationInAnotherCase(s: string, t: string)
    requires |s| >= 2 && Duration(s).Some? && SameLetters(s, t)
    ensures Duration(t) == (if s == t then Duration(s) else None)
  {
    if s != t {
      var n := |s| - 1;
      forall i | 0 <= i < n ensures s[i] == t[i] {
        assert s[..n][i] == s[i];
        assert SameLetter(s[i], t[i]);
      }
      assert s[..n] == t[..n];
      assert SameLetter(s[n], t[n]);
      assert s == s[..n] + [s[n]] && t == t[..n] + [t[n]];
    }
  }

  /** So case does matter there: seven days behind now() are read, and 7D is refused. */
  lemma CapitalUnitIsRefused()
    ensures OffsetAt([W("+"), W("7d"), END], 0) == Ok(Parsed(Now(7 * DAY), 2))
    ensures OffsetAt([W("+"), W("7D"), END], 0) == Err(BadDuration)
  {
    SignsAreCanonical();
    assert "7d"[..1] == "7" && "7D"[..1] == "7";
    assert Decimal("7") == 7 by { assert "7"[..0] == ""; }
    assert Duration("7d") == Some(7 * DAY);
    DurationInAnotherCase("7d", "7D");
    hide Canonical, Duration;
  }
}
