/** Evenly spread ranks for a whole project (internal/store/rank.go). */
module RankSequence {
  import opened RankKeys

  /** The number a rank denotes in base 36. */
  function Eval(s: Rank): nat {
    if s == [] then 0 else Eval(s[..|s| - 1]) * 36 + s[|s| - 1]
  }

  function Pow(e: nat): nat {
    if e == 0 then 1 else 36 * Pow(e - 1)
  }

  /** The last width base-36 digits of v. */
  function Encode(v: nat, width: nat): Rank
    decreases width
  {
    if width == 0 then [] else Encode(v / 36, width - 1) + [v % 36]
  }

  lemma {:induction false} EvalEncode(v: nat, width: nat)
    requires v < Pow(width)
    ensures |Encode(v, width)| == width && Eval(Encode(v, width)) == v
    decreases width
  {
    if width > 0 {
      EvalEncode(v / 36, width - 1);
      assert Encode(v, width)[..width - 1] == Encode(v / 36, width - 1);
    }
  }

  lemma {:induction false} EncodeEval(s: Rank)
    ensures Eval(s) < Pow(|s|) && Encode(Eval(s), |s|) == s
  {
    if s != [] {
      var front := s[..|s| - 1];
      EncodeEval(front);
      assert Eval(s) / 36 == Eval(front) && Eval(s) % 36 == s[|s| - 1];
      assert s == front + [s[|s| - 1]];
    }
  }

  /** Among ranks of one width, numeric order is fraction order (and so text order). */
  lemma {:induction false} SmallerNumberIsBelow(a: Rank, b: Rank)
    requires |a| == |b|
    requires Eval(a) < Eval(b)
    ensures Below(a, b)
  {
    if a != [] {
      var n := |a| - 1;
      var a', b' := a[..n], b[..n];
      if Eval(a') < Eval(b') {
        SmallerNumberIsBelow(a', b');
        var i: nat :| SmallerAt(a', b', i);
        assert forall j: nat | j < i :: At(a, j) == At(a', j) && At(b, j) == At(b', j);
        assert SmallerAt(a, b, i);
      } else {
        EncodeEval(a');
        EncodeEval(b');
        assert Eval(a') == Eval(b');
        assert a' == b';
        assert forall j: nat | j < n :: At(a, j) == a'[j] && At(b, j) == b'[j];
        assert SmallerAt(a, b, n);
      }
    }
  }

  lemma {:induction false} NonZeroIsPositive(a: Rank)
    requires Eval(a) > 0
    ensures Positive(a)
  {
    var n := |a| - 1;
    if a[n] > 0 {
      assert At(a, n) > 0;
    } else {
      NonZeroIsPositive(a[..n]);
      var i: nat :| At(a[..n], i) > 0;
      assert At(a, i) > 0;
    }
  }

  /** The least width, from w on, whose ranks leave two endpoints free beside n ranks. */
  function WidthFrom(n: nat, w: nat): (width: nat)
    ensures width >= w && n + 2 <= Pow(width)
    ensures width > w ==> Pow(width - 1) < n + 2
    decreases n + 2 - Pow(w)
  {
    PowGrows(w);
    if Pow(w) < n + 2 then WidthFrom(n, w + 1) else w
  }

  lemma {:induction false} PowGrows(e: nat)
    ensures 0 < Pow(e) < Pow(e + 1)
  {
    if e > 0 { PowGrows(e - 1); }
  }

  lemma {:induction false} PowMonotone(a: nat, b: nat)
    requires a <= b
    ensures Pow(a) <= Pow(b)
    decreases b - a
  {
    if a < b { PowGrows(b - 1); PowMonotone(a, b - 1); }
  }

  function Width(n: nat): nat { WidthFrom(n, 1) }

  /** The gap between neighbours; the source's lower bound of 1 never takes effect. */
  function Step(n: nat): nat {
    if Pow(Width(n)) > n + 2 then (Pow(Width(n)) - 2) / (n + 1) else 1
  }

  function Sequence(n: nat): seq<Rank> {
    seq(n, i requires 0 <= i < n => Encode((i + 1) * Step(n), Width(n)))
  }

  lemma StepFits(n: nat, i: nat)
    requires i < n
    ensures Step(n) >= 1
    ensures 0 < (i + 1) * Step(n) <= Pow(Width(n)) - 2
  {
    var cap, step := Pow(Width(n)), Step(n);
    if cap > n + 2 {
      DivAtLeastOne(cap - 2, n + 1);
      MulDivAtMost(cap - 2, n + 1);
    }
    MulMonotone(i + 1, n, step);
    assert n * step <= cap - 2 by {
      if cap > n + 2 { MulMonotone(n, n + 1, step); }
    }
    MulPositive(i + 1, step);
  }

  lemma MulPositive(a: nat, b: nat)
    requires a >= 1 && b >= 1
    ensures a * b >= 1
  {
  }

  lemma DivAtLeastOne(a: nat, b: nat)
    requires a >= b > 0
    ensures a / b >= 1
  {
  }

  lemma MulDivAtMost(a: nat, b: nat)
    requires b > 0
    ensures b * (a / b) <= a
  {
  }

  lemma MulMonotone(a: nat, b: nat, k: nat)
    requires a <= b
    ensures a * k <= b * k
  {
  }

  /**
   For every n: n ranks of one width, pairwise in ascending order as fractions and as text, all
   positive, with both the all-zero and the all-z rank of that width left unused.
   */
  lemma SequenceSpreads(n: nat, i: nat)
    requires i < n
    ensures |Sequence(n)| == n && |Sequence(n)[i]| == Width(n)
    ensures 0 < Eval(Sequence(n)[i]) < Pow(Width(n)) - 1
    ensures Positive(Sequence(n)[i])
    ensures forall j | i < j < n :: Below(Sequence(n)[i], Sequence(n)[j]) && TextLess(Sequence(n)[i], Sequence(n)[j])
  {
    StepFits(n, i);
    EvalEncode((i + 1) * Step(n), Width(n));
    NonZeroIsPositive(Sequence(n)[i]);
    forall j | i < j < n
      ensures Below(Sequence(n)[i], Sequence(n)[j]) && TextLess(Sequence(n)[i], Sequence(n)[j])
    {
      StepFits(n, j);
      EvalEncode((j + 1) * Step(n), Width(n));
      MulStrict(i + 1, j + 1, Step(n));
      SmallerNumberIsBelow(Sequence(n)[i], Sequence(n)[j]);
      BelowSortsFirst(Sequence(n)[i], Sequence(n)[j]);
    }
  }

  lemma MulStrict(a: nat, b: nat, k: nat)
    requires a < b && k >= 1
    ensures a * k < b * k
  {
  }

  lemma DivBounds(a: nat, b: nat)
    requires b > 0
    ensures (a / b) * b <= a < (a / b + 1) * b
  {
    MulDivAtMost(a, b);
  }

  /**
   The ranks are evenly spread: read as numbers they are the multiples of the first, which is the
   largest gap that leaves as much room behind the last rank as before the first.
   */
  lemma SequenceIsEven(n: nat, i: nat)
    requires i < n
    ensures |Sequence(n)| == n
    ensures var cap, g := Pow(Width(n)), Eval(Sequence(n)[0]);
            && (i + 1 < n ==> Eval(Sequence(n)[i + 1]) - Eval(Sequence(n)[i]) == g)
            && Eval(Sequence(n)[i]) == (i + 1) * g
            && if cap > n + 2 then g * (n + 1) <= cap - 2 < (g + 1) * (n + 1) else g == 1
  {
    EvalAt(n, 0);
    EvalAt(n, i);
    StepBounds(n);
    hide Sequence, Step, Pow, Width, Eval;
    NextMultiple(0, Step(n));
    if i + 1 < n {
      EvalAt(n, i + 1);
      NextMultiple(i + 1, Step(n));
    }
  }

  lemma EvalAt(n: nat, i: nat)
    requires i < n
    ensures |Sequence(n)| == n && Eval(Sequence(n)[i]) == (i + 1) * Step(n)
  {
    StepFits(n, i);
    hide Eval, Encode, Pow, Step, Width;
    EvalEncode((i + 1) * Step(n), Width(n));
  }

  lemma StepBounds(n: nat)
    ensures var cap, g := Pow(Width(n)), Step(n);
            if cap > n + 2 then g * (n + 1) <= cap - 2 < (g + 1) * (n + 1) else g == 1
  {
    hide Pow, Width;
    if Pow(Width(n)) > n + 2 { DivBounds(Pow(Width(n)) - 2, n + 1); }
  }

  lemma NextMultiple(a: nat, k: nat)
    ensures (a + 1) * k == a * k + k
  {
  }

  /** No shorter width would do, so a project of fewer than 36^w ranks gets ranks of at most w digits. */
  lemma WidthIsLeast(n: nat, w: nat)
    requires w >= 1 && n + 2 <= Pow(w)
    ensures 1 <= Width(n) <= w
  {
    if Width(n) > w { PowMonotone(w, Width(n) - 1); }
  }

  /* ---------- the loops ---------- */

  method IntPow(exp: nat) returns (r: nat)
    ensures r == Pow(exp)
  {
    r := 1;
    for k := 0 to exp
      invariant r == Pow(k)
    {
      r := r * 36;
    }
  }

  /** Fills the buffer from its last position towards the first. */
  method RankEncode(v: nat, width: nat) returns (s: Rank)
    ensures s == Encode(v, width)
  {
    var buf := new Digit[width];
    var rest := v;
    var i := width;
    while i > 0
      invariant 0 <= i <= width
      invariant Encode(rest, i) + buf[i..] == Encode(v, width)
    {
      i := i - 1;
      ghost var before := buf[i + 1..];
      buf[i] := rest % 36;
      assert buf[i..] == [rest % 36] + before;
      assert Encode(rest / 36, i) + ([rest % 36] + before) == Encode(rest, i + 1) + before;
      rest := rest / 36;
    }
    assert Encode(rest, 0) == [];
    s := buf[..];
  }

  method RankSequence(n: int) returns (out: seq<Rank>)
    ensures out == if n <= 0 then [] else Sequence(n)
  {
    if n <= 0 { return []; }
    var width, pow := 1, 36;
    while pow < n + 2
      invariant width >= 1 && pow == Pow(width)
      invariant WidthFrom(n, width) == Width(n)
      decreases n + 2 - pow
    {
      PowGrows(width);
      pow := pow * 36;
      width := width + 1;
    }
    var step := 1;
    var capacity := IntPow(width);
    if capacity > n + 2 {
      step := (capacity - 2) / (n + 1);
      if step < 1 { step := 1; }
    }
    DivAtLeastOne(capacity - 1, n + 1);
    if capacity > n + 2 { DivAtLeastOne(capacity - 2, n + 1); }
    assert step == Step(n);
    out := [];
    for i := 0 to n
      invariant |out| == i
      invariant forall k | 0 <= k < i :: out[k] == Sequence(n)[k]
    {
      var r := RankEncode((i + 1) * step, width);
      out := out + [r];
    }
  }
}
