/** UUIDs and their canonical text, the form in which item ids become path labels. */
module Uuids {
  import opened Wrappers

  const LIMIT: nat := 0x1_0000_0000_0000_0000_0000_0000_0000_0000

  /** 128 bits; the all-zero value stands for "no item" in the source. */
  type Id = n: nat | 0 < n < LIMIT witness 1

  const HEX: string := "0123456789abcdef"

  function Pow16(e: nat): nat {
    if e == 0 then 1 else 16 * Pow16(e - 1)
  }

  /** The last width hexadecimal digits of n. */
  function HexDigits(n: nat, width: nat): (s: string)
    ensures |s| == width
    ensures forall i | 0 <= i < width :: IsHex(s[i])
    decreases width
  {
    if width == 0 then [] else HexDigits(n / 16, width - 1) + [HEX[n % 16]]
  }

  predicate IsHex(c: char) {
    '0' <= c <= '9' || 'a' <= c <= 'f'
  }

  function HexValue(c: char): nat
    requires IsHex(c)
  {
    if c <= '9' then c as int - '0' as int else c as int - 'a' as int + 10
  }

  function HexEval(s: string): nat
    requires forall i | 0 <= i < |s| :: IsHex(s[i])
  {
    if s == "" then 0 else HexEval(s[..|s| - 1]) * 16 + HexValue(s[|s| - 1])
  }

  /** The groups of 8, 4, 4, 4 and 12 digits. */
  function Hyphenate(d: string): string
    requires |d| == 32
  {
    d[..8] + "-" + d[8..12] + "-" + d[12..16] + "-" + d[16..20] + "-" + d[20..]
  }

  function Dehyphenate(s: string): string
    requires |s| == 36
  {
    s[..8] + s[9..13] + s[14..18] + s[19..23] + s[24..]
  }

  /** uuid.UUID.String. */
  function Text(id: Id): string {
    Hyphenate(HexDigits(id, 32))
  }

  /** uuid.Parse, on the canonical form. */
  function Parse(s: string): Option<Id> {
    if |s| == 36 && s == Hyphenate(Dehyphenate(s)) && forall i | 0 <= i < 32 :: IsHex(Dehyphenate(s)[i])
    then
      var n := HexEval(Dehyphenate(s));
      if 0 < n < LIMIT then Some(n) else None
    else None
  }

  lemma {:induction false} EvalDigits(n: nat, width: nat)
    requires n < Pow16(width)
    ensures HexEval(HexDigits(n, width)) == n
    decreases width
  {
    if width > 0 {
      EvalDigits(n / 16, width - 1);
      assert HexDigits(n, width)[..width - 1] == HexDigits(n / 16, width - 1);
      assert HexValue(HEX[n % 16]) == n % 16;
    }
  }

  lemma {:induction false} Pow16Sum(a: nat, b: nat)
    ensures Pow16(a + b) == Pow16(a) * Pow16(b)
  {
    if a > 0 {
      Pow16Sum(a - 1, b);
    }
  }

  lemma LimitIsPow()
    ensures LIMIT == Pow16(32)
  {
    assert Pow16(4) == 0x1_0000 by { assert Pow16(2) == 0x100; }
    Pow16Sum(4, 4);
    Pow16Sum(8, 8);
    Pow16Sum(16, 16);
  }

  lemma HyphenationUndone(d: string)
    requires |d| == 32
    ensures |Hyphenate(d)| == 36 && Dehyphenate(Hyphenate(d)) == d
  {
    var s := Hyphenate(d);
    assert s[..8] == d[..8] && s[9..13] == d[8..12] && s[14..18] == d[12..16] && s[19..23] == d[16..20]
           && s[24..] == d[20..];
    assert d == d[..8] + d[8..12] + d[12..16] + d[16..20] + d[20..];
  }

  /** Parsing the text of an id gives the id back, so distinct ids have distinct texts. */
  lemma ParseInvertsText(id: Id)
    ensures Parse(Text(id)) == Some(id)
  {
    HyphenationUndone(HexDigits(id, 32));
    LimitIsPow();
    EvalDigits(id, 32);
  }

  lemma HexDigit(c: char)
    requires IsHex(c)
    ensures HexValue(c) < 16 && HEX[HexValue(c)] == c
  {
  }

  lemma {:induction false} DigitsEval(s: string)
    requires forall i | 0 <= i < |s| :: IsHex(s[i])
    ensures HexEval(s) < Pow16(|s|) && HexDigits(HexEval(s), |s|) == s
  {
    if s != "" {
      var front := s[..|s| - 1];
      DigitsEval(front);
      var last := s[|s| - 1];
      HexDigit(last);
      assert HexEval(s) == HexEval(front) * 16 + HexValue(last);
      hide HexEval, HexValue;
      assert HexEval(s) / 16 == HexEval(front) && HexEval(s) % 16 == HexValue(last);
      assert s == front + [last];
    }
  }

  /** Only the canonical text of an id parses to it. */
  lemma TextInvertsParse(s: string)
    requires Parse(s).Some?
    ensures Text(Parse(s).value) == s
  {
    DigitsEval(Dehyphenate(s));
  }

  predicate DotFree(s: string) {
    forall i | 0 <= i < |s| :: s[i] != '.'
  }

  lemma TextIsDotFree(id: Id)
    ensures DotFree(Text(id)) && Text(id) != ""
  {
    var d := HexDigits(id, 32);
    forall i | 0 <= i < |d| ensures d[i] != '.' { assert IsHex(d[i]); }
    hide HexDigits;
    JoinedIsDotFree(d[..8], d[8..12]);
    JoinedIsDotFree(d[..8] + "-" + d[8..12], d[12..16]);
    JoinedIsDotFree(d[..8] + "-" + d[8..12] + "-" + d[12..16], d[16..20]);
    JoinedIsDotFree(d[..8] + "-" + d[8..12] + "-" + d[12..16] + "-" + d[16..20], d[20..]);
  }

  lemma JoinedIsDotFree(a: string, b: string)
    requires DotFree(a) && DotFree(b)
    ensures DotFree(a + "-" + b)
  {
  }
}
