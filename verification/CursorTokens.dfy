/**
 The length of a cursor's token (internal/api/cursor.go): the cursor's JSON and 32 bytes of signature,
 in unpadded base64.  EncodeCursor hands out any token; DecodeCursor refuses one beyond the limit.
 */
module CursorTokens {
  import opened SxqLexer

  const MAX_TOKEN: nat := 8192
  const SIGNATURE_BYTES: nat := 32

  /** The bytes that encoding/json writes for a character of a string. */
  function JsonWidth(c: char): nat {
    var n := c as int;
    if c == '\"' || c == '\\' || (8 <= n <= 10) || n == 12 || n == 13 then 2
    else if n < 0x20 || c == '<' || c == '>' || c == '&' || n == 0x2028 || n == 0x2029 then 6
    else Utf8Width(c)
  }

  function JsonChars(s: string): nat {
    if s == "" then 0 else JsonChars(s[..|s| - 1]) + JsonWidth(s[|s| - 1])
  }

  /** A JSON string, with its quotes. */
  function JsonString(s: string): nat {
    JsonChars(s) + 2
  }

  /** The JSON of a cursor whose one sort value takes sort bytes. */
  function CursorBytes(after: string, sort: nat, upper: string, scope: string, at: string): nat {
    |"{\"v\":1,\"after\":"| + JsonString(after) + |",\"sort\":["| + sort + |"],\"upper\":"| + JsonString(upper)
    + |",\"scope\":"| + JsonString(scope) + |",\"at\":"| + JsonString(at) + |"}"|
  }

  /* ---------- the text itself ---------- */

  function HexDigit(n: nat): char
    requires n < 16
  {
    "0123456789abcdef"[n]
  }

  /** What encoding/json writes for a character: a short escape, a numbered one, or the character. */
  function JsonText(c: char): string {
    var n := c as int;
    if c == '\"' then "\\\""
    else if c == '\\' then "\\\\"
    else if c == '\t' then "\\t"
    else if c == '\n' then "\\n"
    else if c == '\r' then "\\r"
    else if n == 8 then "\\b"
    else if n == 12 then "\\f"
    else if n < 0x20 || c == '<' || c == '>' || c == '&' then "\\u00" + [HexDigit(n / 16), HexDigit(n % 16)]
    else if n == 0x2028 || n == 0x2029 then "\\u202" + [HexDigit(n % 16)]
    else [c]
  }

  function JsonTexts(s: string): string {
    if s == "" then "" else JsonTexts(s[..|s| - 1]) + JsonText(s[|s| - 1])
  }

  function QuotedText(s: string): string {
    "\"" + JsonTexts(s) + "\""
  }

  /** The JSON of a cursor whose one sort value is a text. */
  function CursorText(after: string, sort: string, upper: string, scope: string, at: string): string {
    "{\"v\":1,\"after\":" + QuotedText(after) + ",\"sort\":[" + QuotedText(sort) + "],\"upper\":" + QuotedText(upper)
    + ",\"scope\":" + QuotedText(scope) + ",\"at\":" + QuotedText(at) + "}"
  }

  lemma {:induction false} LengthsAdd(a: string, b: string)
    ensures Utf8Length(a + b) == Utf8Length(a) + Utf8Length(b)
  {
    if b == "" {
      assert a + b == a;
    } else {
      assert (a + b)[..|a + b| - 1] == a + b[..|b| - 1];
      LengthsAdd(a, b[..|b| - 1]);
    }
  }

  lemma {:induction false} PlainLength(s: string)
    requires forall i | 0 <= i < |s| :: s[i] < '\U{80}'
    ensures Utf8Length(s) == |s|
  {
    if s != "" { PlainLength(s[..|s| - 1]); }
  }

  lemma WidthIsText(c: char)
    ensures Utf8Length(JsonText(c)) == JsonWidth(c)
  {
    var t := JsonText(c);
    if |t| == 1 {
      assert t[..0] == "";
    } else {
      forall i | 0 <= i < |t| ensures t[i] < '\U{80}' {}
      PlainLength(t);
    }
  }

  lemma {:induction false} CharsAreText(s: string)
    ensures Utf8Length(JsonTexts(s)) == JsonChars(s)
  {
    if s != "" {
      CharsAreText(s[..|s| - 1]);
      WidthIsText(s[|s| - 1]);
      LengthsAdd(JsonTexts(s[..|s| - 1]), JsonText(s[|s| - 1]));
    }
  }

  lemma StringIsText(s: string)
    ensures Utf8Length(QuotedText(s)) == JsonString(s)
  {
    CharsAreText(s);
    LengthsAdd("\"", JsonTexts(s));
    LengthsAdd("\"" + JsonTexts(s), "\"");
    PlainLength("\"");
  }

  /** The bytes that are counted are those of the text that is written. */
  lemma BytesAreText(after: string, sort: string, upper: string, scope: string, at: string)
    ensures Utf8Length(CursorText(after, sort, upper, scope, at)) ==
            CursorBytes(after, JsonString(sort), upper, scope, at)
  {
    StringIsText(after);
    StringIsText(sort);
    StringIsText(upper);
    StringIsText(scope);
    StringIsText(at);
    hide JsonString, QuotedText, Utf8Length;
    var open := "{\"v\":1,\"after\":";
    Member(open, after, "");
    assert "" + open == open;
    NoBytes();
    var a := "{\"v\":1,\"after\":" + QuotedText(after);
    var b := a + ",\"sort\":[" + QuotedText(sort);
    var c := b + "],\"upper\":" + QuotedText(upper);
    var d := c + ",\"scope\":" + QuotedText(scope);
    var e := d + ",\"at\":" + QuotedText(at);
    Member(",\"sort\":[", sort, a);
    Member("],\"upper\":", upper, b);
    Member(",\"scope\":", scope, c);
    Member(",\"at\":", at, d);
    LengthsAdd(e, "}");
    PlainLength("}");
  }

  lemma NoBytes()
    ensures Utf8Length("") == 0
  {
  }

  lemma Member(name: string, s: string, before: string)
    requires forall i | 0 <= i < |name| :: name[i] < '\U{80}'
    ensures Utf8Length(before + name + QuotedText(s)) == Utf8Length(before) + |name| + JsonString(s)
  {
    StringIsText(s);
    PlainLength(name);
    hide Utf8Length, QuotedText, JsonString;
    LengthsAdd(before, name);
    LengthsAdd(before + name, QuotedText(s));
  }

  /** The length of n bytes in unpadded base64. */
  function Base64Length(n: nat): nat {
    n / 3 * 4 + (n % 3 * 8 + 5) / 6
  }

  /** DecodeCursor's test on a token of EncodeCursor. */
  predicate TokenFits(cursorBytes: nat) {
    Base64Length(cursorBytes + SIGNATURE_BYTES) <= MAX_TOKEN
  }

  /** A token fits exactly when the cursor's JSON has at most 6112 bytes. */
  lemma FitsIff(cursorBytes: nat)
    ensures TokenFits(cursorBytes) <==> cursorBytes <= 6112
  {
    var n := cursorBytes + SIGNATURE_BYTES;
    assert n / 3 <= 2047 || n / 3 >= 2048;
    assert n / 3 == 2048 ==> n == 6144 + n % 3;
  }

  lemma {:induction false} JsonIsNoShorter(s: string)
    ensures JsonChars(s) >= |s|
  {
    if s != "" { JsonIsNoShorter(s[..|s| - 1]); }
  }

  /** A sort text of 6053 characters or more never fits, whatever else the cursor holds. */
  lemma LongTextDoesNotFit(after: string, text: string, upper: string, scope: string, at: string)
    requires |text| >= 6053
    ensures !TokenFits(CursorBytes(after, JsonString(text), upper, scope, at))
  {
    JsonIsNoShorter(text);
    FitsIff(CursorBytes(after, JsonString(text), upper, scope, at));
  }
}
