/**
 From the query text to the SQL for one comparison with a quoted text: whatever the text holds, it
 arrives as the one bound argument and the statement is the same (the property that
 internal/sxq/compile_test.go fuzzes).
 */
module SxqLiteral {
  import opened Wrappers
  import opened Sxq
  import opened SxqLexer
  import opened SxqParser
  import opened SxqPrint
  import C = SxqCompile
  import Sql

  function TitleQuery(text: string): string {
    "title" + (" " + ("=" + (" " + ("\"" + Escaped(text) + "\""))))
  }

  function TitleTokens(text: string): seq<Token> {
    [W("title"), W("="), Token(text, true)]
  }

  lemma LastQuoted(text: string, out: seq<Token>)
    ensures LexRest("\"" + Escaped(text) + "\"", out) == Ok(out + [Token(text, true)] + [END])
  {
    var quoted := "\"" + Escaped(text) + "\"";
    assert quoted + "" == quoted;
    ScanQuoted(text, "");
    hide Scan, Escaped;
    assert LexRest("", out + [Token(text, true)]) == Ok(out + [Token(text, true)] + [END]);
  }

  lemma PlainText()
    ensures TokenText(W("title")) == "title" && TokenText(W("=")) == "="
  {
  }

  lemma TitleLexes(text: string)
    ensures LexRest(TitleQuery(text), []) == Ok(TitleTokens(text) + [END])
  {
    var quoted := "\"" + Escaped(text) + "\"";
    assert Lexable(W("title")) && Lexable(W("="));
    hide Escaped, Lexable, Scan, IsWord, TokenText;
    LastQuoted(text, [W("title")] + [W("=")]);
    LexStep(W("title"), "=" + (" " + quoted), []);
    LexStep(W("="), quoted, [W("title")]);
    hide LexRest;
    assert TokenText(W("title")) == "title" && TokenText(W("=")) == "=" by { PlainText(); }
    assert [] + [W("title")] == [W("title")];
    assert [W("title")] + [W("=")] + [Token(text, true)] == TitleTokens(text);
  }

  lemma TitleComparison(text: string, isNumber: NumberTest)
    ensures var ts := TitleTokens(text) + [END];
            Parses(CompareAt(ts, isNumber, 0), text != "", Compare("title", EqOp, [Plain(TextLiteral(text))]), 3)
  {
    var ts := TitleTokens(text) + [END];
    SignsAreCanonical();
    assert Canonical("title") == "title" by { LowerIsCanonical("title"); }
    hide Canonical;
    assert Peek(ts, 0) == W("title") && Peek(ts, 1) == W("=") && Peek(ts, 2) == Token(text, true);
    hide Peek;
    assert OperatorAt(ts, 1) == Ok(Parsed(EqOp, 2));
    hide OperatorAt;
  }

  lemma TitleParses(text: string, isNumber: NumberTest)
    ensures var ts := TitleTokens(text) + [END];
            Parses(ParseTokens(ts, isNumber), text != "",
                Query(Some(Compare("title", EqOp, [Plain(TextLiteral(text))])), "id", false), 3)
  {
    var ts := TitleTokens(text) + [END];
    var e := Compare("title", EqOp, [Plain(TextLiteral(text))]);
    KeywordsAreCanonical();
    assert Canonical("title") == "title" by { LowerIsCanonical("title"); }
    TitleComparison(text, isNumber);
    hide Canonical, CompareAt;
    assert Peek(ts, 0) == W("title") && Peek(ts, 3) == END;
    hide Peek, TitleTokens;
    SignsAreCanonical();
    assert UnaryAt(ts, isNumber, 0, 0) == CompareAt(ts, isNumber, 0);
    assert AndRest(ts, isNumber, 3, 0, e) == Ok(Parsed(e, 3));
    assert OrRest(ts, isNumber, 3, 0, e) == Ok(Parsed(e, 3));
    hide UnaryAt, AndRest, OrRest;
    assert Parses(AndAt(ts, isNumber, 0, 0), text != "", e, 3);
    hide AndAt;
    assert Parses(OrAt(ts, isNumber, 0, 0), text != "", e, 3);
    hide OrAt;
    assert OrderAt(ts, 3) == Ok(Parsed(("id", false), 3));
  }

  /** The statement and its argument, whatever the text. */
  lemma TitleCompiles(text: string, o: C.Options)
    ensures C.CompileQuery(Query(Some(Compare("title", EqOp, [Plain(TextLiteral(text))])), "id", false), o)
         == Ok(C.Plan(Sql.Compared(Sql.Eq, Sql.Column(Sql.I, "title"), Sql.Param(o.start)), Sql.Column(Sql.I, "id"),
             C.UuidKind, false, [Sql.Text(text)]))
  {
    var v := Plain(TextLiteral(text));
    var title := C.Known(Sql.I, "title", C.TextKind);
    assert C.BuiltIn("title") == Some(title) && C.BuiltIn("id") == Some(C.Known(Sql.I, "id", C.UuidKind));
    hide C.BuiltIn;
    assert C.Operands(o, C.TextKind, [v], [], []) == C.Step([Sql.Text(text)], Ok([Sql.Param(o.start)])) by {
      assert [v][1..] == [];
      assert C.Argument(o, v, C.TextKind) == Ok(Sql.Text(text));
      assert C.Converted(C.TextKind, C.Fresh(o, [])) == Sql.Param(o.start);
      assert [] + [Sql.Text(text)] == [Sql.Text(text)] && [] + [Sql.Param(o.start)] == [Sql.Param(o.start)];
      assert C.Operands(o, C.TextKind, [], [Sql.Text(text)], [Sql.Param(o.start)])
             == C.Step([Sql.Text(text)], Ok([Sql.Param(o.start)]));
    }
  }

  /** A text compared with a title never gets out of its argument; only the empty one is not accepted. */
  lemma TextStaysBound(text: string, isNumber: NumberTest, o: C.Options)
    requires Utf8Length(TitleQuery(text)) <= MAX_BYTES
    ensures text == "" ==> ParseText(TitleQuery(text), isNumber).Err?
    ensures text != "" ==>
              && ParseText(TitleQuery(text), isNumber).Ok?
              && C.CompileQuery(ParseText(TitleQuery(text), isNumber).value, o)
                 == Ok(C.Plan(Sql.Compared(Sql.Eq, Sql.Column(Sql.I, "title"), Sql.Param(o.start)),
                     Sql.Column(Sql.I, "id"), C.UuidKind, false,
                              [Sql.Text(text)]))
  {
    hide LexRest, ParseTokens, Utf8Length, TitleQuery, TitleTokens, C.CompileQuery;
    TitleLexes(text);
    TitleParses(text, isNumber);
    TitleCompiles(text, o);
  }
}
