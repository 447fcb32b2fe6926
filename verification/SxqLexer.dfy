/**
 The query lexer (internal/sxq/lexer.go).  Text is a sequence of Unicode characters, so it is valid
 UTF-8 by construction; its length is counted in UTF-8 bytes.  Byte positions in messages are left out.
 */
module SxqLexer {
  import opened Wrappers

  const MAX_BYTES: nat := 4096
  const MAX_TERMS: nat := 1024

  datatype Token = Token(text: string, quoted: bool)

  const END: Token := Token("", false)

  datatype LexError = TooLong | BadEscape | Unterminated | LoneBang | BadCharacter | TooManyTerms

  function Utf8Width(c: char): nat {
    var n := c as int;
    if n < 0x80 then 1 else if n < 0x800 then 2 else if n < 0x1_0000 then 3 else 4
  }

  function Utf8Length(s: string): nat {
    if s == "" then 0 else Utf8Length(s[..|s| - 1]) + Utf8Width(s[|s| - 1])
  }

  predicate Blank(c: char) {
    c == ' ' || c == '\t' || c == '\r' || c == '\n'
  }

  predicate Quote(c: char) {
    c == '\'' || c == '\"'
  }

  predicate Operator(c: char) {
    c in "()~,+:=<>!-"
  }

  predicate WordChar(c: char) {
    'a' <= c <= 'z' || 'A' <= c <= 'Z' || '0' <= c <= '9' || c == '_' || c == '.' || c == '-'
  }

  /** The character that an escape stands for. */
  function Unescaped(c: char): Option<char> {
    if c == 'n' then Some('\n') else if c == 'r' then Some('\r') else if c == 't' then Some('\t')
    else if c == '\\' || Quote(c) then Some(c) else None
  }

  /** The rest of a quoted string after what has been read of it, and what follows the closing quote. */
  function QuotedRest(s: string, quote: char, value: string): (r: Result<(string, string), LexError>)
    ensures r.Ok? ==> |r.value.1| < |s| && r.value.1 == s[|s| - |r.value.1|..]
  {
    if s == "" then Err(Unterminated)
    else if s[0] == quote then Ok((value, s[1..]))
    else if s[0] != '\\' then QuotedRest(s[1..], quote, value + [s[0]])
    else if |s| == 1 then Err(Unterminated)
    else if Unescaped(s[1]).None? then Err(BadEscape)
    else QuotedRest(s[2..], quote, value + [Unescaped(s[1]).value])
  }

  function WordLength(s: string): (n: nat)
    ensures n <= |s| && forall i | 0 <= i < n :: WordChar(s[i])
    ensures n < |s| ==> !WordChar(s[n])
  {
    if s == "" || !WordChar(s[0]) then 0 else 1 + WordLength(s[1..])
  }

  /** The length of an operator: an equals sign joins <, > and !. */
  function OperatorLength(s: string): (n: nat)
    requires s != ""
    ensures 1 <= n <= 2 && n <= |s|
  {
    if |s| > 1 && s[1] == '=' && s[0] in "<>!" then 2 else 1
  }

  /** One token from the front of a text that does not start with a blank, and the text after it. */
  function Scan(s: string): (r: Result<(Token, string), LexError>)
    requires s != ""
    ensures r.Ok? ==> |r.value.1| < |s| && r.value.1 == s[|s| - |r.value.1|..]
  {
    if Quote(s[0]) then
      match QuotedRest(s[1..], s[0], "")
      case Err(e) => Err(e)
      case Ok((value, rest)) => Ok((Token(value, true), rest))
    else if Operator(s[0]) then
      var n := OperatorLength(s);
      if s[0] == '!' && n == 1 then Err(LoneBang) else Ok((Token(s[..n], false), s[n..]))
    else
      var n := WordLength(s);
      if n == 0 then Err(BadCharacter) else Ok((Token(s[..n], false), s[n..]))
  }

  /** Only words are counted against the limit, but every token counts. */
  predicate IsWord(t: Token) {
    !t.quoted && t.text != "" && !Operator(t.text[0])
  }

  function LexRest(s: string, out: seq<Token>): Result<seq<Token>, LexError>
    decreases |s|
  {
    if s == "" then Ok(out + [END])
    else if Blank(s[0]) then LexRest(s[1..], out)
    else match Scan(s)
      case Err(e) => Err(e)
      case Ok((t, rest)) => if IsWord(t) && |out| + 1 > MAX_TERMS then Err(TooManyTerms) else LexRest(rest, out + [t])
  }

  function LexText(input: string): Result<seq<Token>, LexError> {
    if Utf8Length(input) > MAX_BYTES then Err(TooLong) else LexRest(input, [])
  }

  /* ---------- the loops ---------- */

  /** The loop over a quoted string; i stands after the opening quote. */
  method ReadQuoted(input: string, start: nat, quote: char) returns (r: Result<(string, nat), LexError>)
    requires start <= |input|
    ensures r.Err? ==> QuotedRest(input[start..], quote, "") == Err(r.error)
    ensures r.Ok? ==> start < r.value.1 <= |input|
    ensures r.Ok? ==> QuotedRest(input[start..], quote, "") == Ok((r.value.0, input[r.value.1..]))
  {
    hide Unescaped;
    var value, i := "", start;
    while i < |input|
      invariant start <= i <= |input|
      invariant QuotedRest(input[i..], quote, value) == QuotedRest(input[start..], quote, "")
    {
      var c := input[i];
      i := i + 1;
      assert input[i - 1..][1..] == input[i..];
      if c == quote { return Ok((value, i)); }
      if c == '\\' {
        if i >= |input| { return Err(Unterminated); }
        var e := Unescaped(input[i]);
        assert input[i - 1..][1] == input[i];
        if e.None? { return Err(BadEscape); }
        c := e.value;
        i := i + 1;
        assert input[i - 2..][2..] == input[i..];
      }
      value := value + [c];
    }
    r := Err(Unterminated);
  }

  method WordEnd(input: string, start: nat) returns (i: nat)
    requires start <= |input|
    ensures i == start + WordLength(input[start..])
  {
    i := start;
    while i < |input| && WordChar(input[i])
      invariant start <= i <= |input|
      invariant WordLength(input[start..]) == i - start + WordLength(input[i..])
    {
      assert input[i..][1..] == input[i + 1..];
      i := i + 1;
    }
  }

  /** One token at a position that holds no blank. */
  method ReadToken(input: string, start: nat) returns (r: Result<(Token, nat), LexError>)
    requires start < |input|
    ensures r.Err? ==> Scan(input[start..]) == Err(r.error)
    ensures r.Ok? ==> start < r.value.1 <= |input| && Scan(input[start..]) == Ok((r.value.0, input[r.value.1..]))
  {
    hide QuotedRest;
    ghost var s := input[start..];
    var ch, i := input[start], start;
    assert s[0] == ch;
    if ch == '\'' || ch == '\"' {
      assert s[1..] == input[start + 1..];
      var q := ReadQuoted(input, start + 1, ch);
      if q.Err? { return Err(q.error); }
      return Ok((Token(q.value.0, true), q.value.1));
    }
    if Operator(ch) {
      i := i + 1;
      if i < |input| && input[i] == '=' && ch in "<>!" { i := i + 1; }
      assert i - start == OperatorLength(s);
      if ch == '!' && i == start + 1 { return Err(LoneBang); }
    } else {
      i := WordEnd(input, start);
      if i == start { return Err(BadCharacter); }
    }
    assert s[..i - start] == input[start..i] && s[i - start..] == input[i..];
    r := Ok((Token(input[start..i], false), i));
  }

  /** lex. */
  method Lex(input: string) returns (r: Result<seq<Token>, LexError>)
    ensures r == LexText(input)
  {
    hide Scan, Utf8Length, IsWord;
    if Utf8Length(input) > MAX_BYTES { return Err(TooLong); }
    var out, i := [], 0;
    assert input[0..] == input;
    while i < |input|
      invariant i <= |input| && LexRest(input[i..], out) == LexRest(input, [])
    {
      assert input[i..][1..] == input[i + 1..] && input[i..][0] == input[i];
      if Blank(input[i]) {
        i := i + 1;
      } else {
        var t := ReadToken(input, i);
        if t.Err? { return Err(t.error); }
        out := out + [t.value.0];
        i := t.value.1;
        if IsWord(t.value.0) && |out| > MAX_TERMS { return Err(TooManyTerms); }
      }
    }
    r := Ok(out + [END]);
  }

  /* ---------- printing tokens, and lexing them back ---------- */

  predicate OperatorText(s: string) {
    (|s| == 1 && Operator(s[0]) && s != "!") || s == "<=" || s == ">=" || s == "!="
  }

  predicate WordText(s: string) {
    s != "" && !Operator(s[0]) && forall i | 0 <= i < |s| :: WordChar(s[i])
  }

  /** The tokens the lexer can produce before the end. */
  predicate Lexable(t: Token) {
    t.quoted || OperatorText(t.text) || WordText(t.text)
  }

  /** A quoted string's content, with every character escaped that has an escape. */
  function Escaped(s: string): string {
    if s == "" then "" else EscapedChar(s[0]) + Escaped(s[1..])
  }

  function EscapedChar(c: char): string {
    if c == '\n' then "\\n" else if c == '\r' then "\\r" else if c == '\t' then "\\t"
    else if c == '\\' || Quote(c) then ['\\', c] else [c]
  }

  function TokenText(t: Token): string {
    if t.quoted then "\"" + Escaped(t.text) + "\"" else t.text
  }

  /** The tokens, each followed by a space. */
  function Render(tokens: seq<Token>): string {
    if tokens == [] then "" else TokenText(tokens[0]) + (" " + Render(tokens[1..]))
  }

  lemma QuotedStep(c: char, tail: string, value: string)
    ensures QuotedRest(EscapedChar(c) + tail, '\"', value) == QuotedRest(tail, '\"', value + [c])
  {
    var text := EscapedChar(c) + tail;
    if |EscapedChar(c)| == 2 {
      assert text[0] == '\\' && text[1] == EscapedChar(c)[1] && text[2..] == tail;
      assert Unescaped(text[1]) == Some(c);
    } else {
      assert text[0] == c && text[1..] == tail;
    }
  }

  lemma {:induction false} QuotedBack(s: string, rest: string, value: string)
    ensures QuotedRest(Escaped(s) + ("\"" + rest), '\"', value) == Ok((value + s, rest))
    decreases |s|
  {
    if s == "" {
      var text := Escaped(s) + ("\"" + rest);
      assert text[0] == '\"' && text[1..] == rest && value + s == value;
    } else {
      hide QuotedRest;
      var tail := Escaped(s[1..]) + ("\"" + rest);
      assert Escaped(s) + ("\"" + rest) == EscapedChar(s[0]) + tail;
      QuotedStep(s[0], tail, value);
      QuotedBack(s[1..], rest, value + [s[0]]);
      assert value + [s[0]] + s[1..] == value + s;
    }
  }

  lemma {:induction false} WordBack(s: string, rest: string)
    requires (forall i | 0 <= i < |s| :: WordChar(s[i])) && (rest == "" || !WordChar(rest[0]))
    ensures WordLength(s + rest) == |s|
  {
    if s != "" {
      assert (s + rest)[1..] == s[1..] + rest;
      WordBack(s[1..], rest);
    } else {
      assert s + rest == rest;
    }
  }

  lemma ScanQuoted(text: string, rest: string)
    ensures var s := "\"" + Escaped(text) + "\"" + rest; Scan(s) == Ok((Token(text, true), rest)) && !Blank(s[0])
  {
    var s := "\"" + Escaped(text) + "\"" + rest;
    assert s[1..] == Escaped(text) + ("\"" + rest);
    hide QuotedRest, Escaped;
    QuotedBack(text, rest, "");
    assert "" + text == text;
  }

  lemma ScanOperator(text: string, rest: string)
    requires OperatorText(text) && rest != "" && rest[0] == ' '
    ensures Scan(text + rest) == Ok((Token(text, false), rest)) && !Blank((text + rest)[0])
  {
    var s := text + rest;
    assert s[..|text|] == text && s[|text|..] == rest && s[0] == text[0];
    assert |text| == 1 ==> s[1] == ' ';
    assert |text| == 2 ==> s[1] == '=';
    assert Operator(s[0]) && !Quote(s[0]);
    assert OperatorLength(s) == |text|;
  }

  lemma ScanWord(text: string, rest: string)
    requires WordText(text) && rest != "" && rest[0] == ' '
    ensures Scan(text + rest) == Ok((Token(text, false), rest)) && !Blank((text + rest)[0])
  {
    var s := text + rest;
    assert s[..|text|] == text && s[|text|..] == rest && s[0] == text[0];
    assert WordChar(s[0]);
    WordBack(text, rest);
    hide WordLength;
  }

  /** A printed token scans back as itself. */
  lemma ScanToken(t: Token, rest: string)
    requires Lexable(t) && rest != "" && rest[0] == ' '
    ensures Scan(TokenText(t) + rest) == Ok((t, rest)) && !Blank((TokenText(t) + rest)[0])
  {
    hide Scan, Escaped, OperatorText, WordText, Blank;
    if t.quoted { ScanQuoted(t.text, rest); }
    else if OperatorText(t.text) { ScanOperator(t.text, rest); }
    else { ScanWord(t.text, rest); }
  }

  /** No word stands where the term limit is used up; from tokens come before. */
  predicate WordsWithin(tokens: seq<Token>, from: nat) {
    forall i | 0 <= i < |tokens| && IsWord(tokens[i]) :: from + i < MAX_TERMS
  }

  lemma WordsWithinStep(tokens: seq<Token>, from: nat)
    requires tokens != []
    ensures WordsWithin(tokens, from) <==>
            (IsWord(tokens[0]) ==> from < MAX_TERMS) && WordsWithin(tokens[1..], from + 1)
  {
    assert forall i | 0 < i < |tokens| :: tokens[i] == tokens[1..][i - 1];
  }

  lemma LexStep(t: Token, rest: string, out: seq<Token>)
    requires Lexable(t)
    ensures LexRest(TokenText(t) + (" " + rest), out)
         == if IsWord(t) && |out| + 1 > MAX_TERMS then Err(TooManyTerms) else LexRest(rest, out + [t])
  {
    ScanToken(t, " " + rest);
    hide Scan, TokenText, Lexable, IsWord;
    assert (" " + rest)[1..] == rest && (" " + rest)[0] == ' ';
    assert LexRest(" " + rest, out + [t]) == LexRest(rest, out + [t]);
  }

  /** The tokens themselves after those before them, as far as the term limit allows. */
  function Relexed(tokens: seq<Token>, out: seq<Token>): Result<seq<Token>, LexError> {
    if WordsWithin(tokens, |out|) then Ok(out + tokens + [END]) else Err(TooManyTerms)
  }

  lemma RelexedStep(tokens: seq<Token>, out: seq<Token>)
    requires tokens != []
    ensures Relexed(tokens, out)
         == if IsWord(tokens[0]) && |out| + 1 > MAX_TERMS then Err(TooManyTerms)
             else Relexed(tokens[1..], out + [tokens[0]])
  {
    WordsWithinStep(tokens, |out|);
    hide WordsWithin, IsWord;
    assert out + [tokens[0]] + tokens[1..] == out + tokens;
  }

  /** Lexing a printed list of tokens gives it back. */
  lemma {:induction false} LexRender(tokens: seq<Token>, out: seq<Token>)
    requires forall i | 0 <= i < |tokens| :: Lexable(tokens[i])
    ensures LexRest(Render(tokens), out) == Relexed(tokens, out)
    decreases |tokens|
  {
    if tokens == [] {
      assert out + tokens == out;
    } else {
      RenderFirst(tokens);
      RelexedStep(tokens, out);
      LexStep(tokens[0], Render(tokens[1..]), out);
      hide LexRest, Lexable, IsWord, Relexed, TokenText, Render;
      LexRender(tokens[1..], out + [tokens[0]]);
    }
  }

  lemma RenderFirst(tokens: seq<Token>)
    requires tokens != []
    ensures Render(tokens) == TokenText(tokens[0]) + (" " + Render(tokens[1..]))
  {
  }

  /** The limits a printed list of tokens must keep. */
  predicate WithinLimits(tokens: seq<Token>) {
    Utf8Length(Render(tokens)) <= MAX_BYTES && WordsWithin(tokens, 0)
  }

  lemma LexInvertsRender(tokens: seq<Token>)
    requires forall i | 0 <= i < |tokens| :: Lexable(tokens[i])
    ensures LexText(Render(tokens)) == Ok(tokens + [END]) <==> WithinLimits(tokens)
  {
    hide Lexable, Render, LexRest, Utf8Length;
    LexRender(tokens, []);
    assert [] + tokens == tokens;
  }

  lemma ScanIsLexable(s: string)
    requires s != "" && Scan(s).Ok?
    ensures Lexable(Scan(s).value.0)
  {
    if !Quote(s[0]) && Operator(s[0]) && OperatorLength(s) == 2 {
      assert s[..2] == [s[0], '='];
    }
  }

  /** What the lexer returns is a list of such tokens and the end, so an end only stands at the end. */
  lemma {:induction false} LexIsLexable(s: string, out: seq<Token>)
    requires LexRest(s, out).Ok? && forall i | 0 <= i < |out| :: Lexable(out[i])
    ensures var r := LexRest(s, out).value;
            |r| > |out| && r[|r| - 1] == END && forall i | 0 <= i < |r| - 1 :: Lexable(r[i])
    decreases |s|
  {
    hide Scan, Lexable, IsWord;
    if s != "" {
      if Blank(s[0]) {
        LexIsLexable(s[1..], out);
      } else {
        ScanIsLexable(s);
        LexIsLexable(Scan(s).value.1, out + [Scan(s).value.0]);
      }
    }
  }
}
