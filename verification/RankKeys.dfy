/**
 LexoRank keys (internal/store/rank.go).  A rank is a string over the 36 symbols 0-9a-z; it is
 modelled by the positions of its symbols in that alphabet, which the alphabet's byte order follows.
 Two orders matter: the text order the database sorts by, and the order of ranks read as base-36
 fractions 0.d0d1d2..., on which the termination of RankBetween depends.
 */
module RankKeys {
  import opened Wrappers

  const BASE: nat := 36
  const TOP: nat := 35      // 'z'
  const FIRST: Digit := 23  // 'n', the rank of the first item of a project
  const REBALANCE_THRESHOLD: nat := 40

  type Digit = d: nat | d < 36
  type Rank = seq<Digit>

  /** The digit at position i, or 0 past the end. */
  function At(s: Rank, i: nat): Digit {
    if i < |s| then s[i] else 0
  }

  /** Byte-wise string comparison, as Go's `<` and the C collation do it. */
  predicate TextLess(a: Rank, b: Rank) {
    b != [] && (a == [] || a[0] < b[0] || (a[0] == b[0] && TextLess(a[1..], b[1..])))
  }

  /** i is the first position at which a and b differ as fractions, and a is the smaller one. */
  ghost predicate SmallerAt(a: Rank, b: Rank, i: nat) {
    At(a, i) < At(b, i) && forall j: nat | j < i :: At(a, j) == At(b, j)
  }

  /** a denotes a smaller base-36 fraction than b. */
  ghost predicate Below(a: Rank, b: Rank) {
    exists i: nat :: SmallerAt(a, b, i)
  }

  /** a denotes a fraction greater than zero. */
  ghost predicate Positive(a: Rank) {
    exists i: nat :: At(a, i) > 0
  }

  lemma BelowTransitive(a: Rank, b: Rank, c: Rank)
    requires Below(a, b) && Below(b, c)
    ensures Below(a, c)
  {
    var i: nat :| SmallerAt(a, b, i);
    var j: nat :| SmallerAt(b, c, j);
    assert SmallerAt(a, c, Min(i, j));
  }

  lemma BelowIrreflexive(a: Rank)
    ensures !Below(a, a)
  {
  }

  lemma BelowIsPositive(a: Rank, b: Rank)
    requires Below(a, b)
    ensures Positive(b)
  {
    var i: nat :| SmallerAt(a, b, i);
    assert At(b, i) > 0;
  }

  /** The first nonzero digit of a positive rank puts it above the empty bound. */
  lemma PositiveIsAboveZero(a: Rank)
    requires Positive(a)
    ensures Below([], a)
  {
    var i: nat :| At(a, i) > 0;
    FirstNonZero(a, i);
  }

  lemma FirstNonZero(a: Rank, i: nat)
    requires At(a, i) > 0
    ensures Below([], a)
  {
    if j: nat :| j < i && At(a, j) > 0 {
      FirstNonZero(a, j);
    } else {
      assert SmallerAt([], a, i);
    }
  }

  /** Smaller fractions sort first as text, so the database lists ranks in fraction order. */
  lemma {:induction false} BelowSortsFirst(a: Rank, b: Rank)
    requires Below(a, b)
    ensures TextLess(a, b)
  {
    var i: nat :| SmallerAt(a, b, i);
    assert i < |b|;
    if a != [] && i > 0 {
      assert At(a, 0) == At(b, 0);
      assert SmallerAt(a[1..], b[1..], i - 1) by {
        forall j: nat | j < i - 1 ensures At(a[1..], j) == At(b[1..], j) {
          assert At(a, j + 1) == At(b, j + 1);
        }
      }
      BelowSortsFirst(a[1..], b[1..]);
    }
  }

  lemma {:induction false} TextLessAsymmetric(a: Rank, b: Rank)
    requires TextLess(a, b)
    ensures !TextLess(b, a) && a != b
  {
    if a != [] && a[0] == b[0] {
      TextLessAsymmetric(a[1..], b[1..]);
    }
  }

  /** hi is lo followed only by zeros: a different text, the same fraction. */
  predicate ZeroPadded(lo: Rank, hi: Rank) {
    lo < hi && forall k | |lo| <= k < |hi| :: hi[k] == 0
  }

  /** Text order refines fraction order except for trailing zeros. */
  lemma {:induction false} TextLessCases(lo: Rank, hi: Rank)
    requires TextLess(lo, hi)
    ensures ZeroPadded(lo, hi) != Below(lo, hi)
  {
    if lo == [] {
      if ZeroPadded(lo, hi) {
        if i: nat :| SmallerAt(lo, hi, i) { assert false; }
      } else {
        var k :| 0 <= k < |hi| && hi[k] != 0;
        FirstNonZero(hi, k);
      }
    } else if lo[0] < hi[0] {
      assert SmallerAt(lo, hi, 0);
    } else {
      TextLessCases(lo[1..], hi[1..]);
      TailPadded(lo, hi);
      TailBelow(lo, hi);
    }
  }

  lemma TailPadded(lo: Rank, hi: Rank)
    requires lo != [] && hi != [] && lo[0] == hi[0]
    ensures ZeroPadded(lo[1..], hi[1..]) == ZeroPadded(lo, hi)
  {
    if ZeroPadded(lo[1..], hi[1..]) {
      assert lo == [lo[0]] + lo[1..] && hi == [hi[0]] + hi[1..];
      forall k | |lo| <= k < |hi| ensures hi[k] == 0 { assert hi[1..][k - 1] == 0; }
    } else if ZeroPadded(lo, hi) {
      assert lo[1..] < hi[1..];
      forall k | |lo[1..]| <= k < |hi[1..]| ensures hi[1..][k] == 0 { assert hi[k + 1] == 0; }
    }
  }

  lemma TailBelow(a: Rank, b: Rank)
    requires a != [] && b != [] && a[0] == b[0]
    ensures Below(a[1..], b[1..]) == Below(a, b)
  {
    if i: nat :| SmallerAt(a[1..], b[1..], i) {
      forall j: nat | j < i + 1 ensures At(a, j) == At(b, j) {
        if j > 0 { assert At(a[1..], j - 1) == At(b[1..], j - 1); }
      }
      assert SmallerAt(a, b, i + 1);
    }
    if i: nat :| SmallerAt(a, b, i) {
      assert i > 0;
      forall j: nat | j < i - 1 ensures At(a[1..], j) == At(b[1..], j) {
        assert At(a, j + 1) == At(b, j + 1);
      }
      assert SmallerAt(a[1..], b[1..], i - 1);
    }
  }

  /**
   Exactly when RankBetween's descent through the shared prefix has no end: its loop goes on past
   position i just when the two digits there agree, and they all agree just when hi is lo padded
   with zeros.  "a" and "a0" are such a pair (DescentNeverEndsExample).
   */
  lemma DescentNeverEndsIff(lo: Rank, hi: Rank)
    requires hi != [] && (lo == [] || TextLess(lo, hi))
    ensures (forall i: nat :: At(lo, i) == At(hi, i)) <==> ZeroPadded(lo, hi)
  {
    TextLessCases(lo, hi);
  }

  lemma DescentNeverEndsExample()
    ensures TextLess([10], [10, 0]) && forall i: nat :: At([10], i) == At([10, 0], i)
  {
    DescentNeverEndsIff([10], [10, 0]);
  }

  /* ---------- RankBetween ---------- */

  datatype RankError = RankOrder | NoReturn

  /** Past lo's remainder: the first digit below the top is replaced by its midpoint with BASE. */
  function Extend(lo: Rank, j: nat): Rank
    decreases if j < |lo| then |lo| - j else 0
  {
    if At(lo, j) < TOP then [(At(lo, j) + BASE) / 2] else [At(lo, j)] + Extend(lo, j + 1)
  }

  /** What is written from position i on, when lo and hi first differ at position d. */
  function Descend(lo: Rank, hi: Rank, i: nat, d: nat): Rank
    requires i <= d && At(lo, d) < At(hi, d)
    decreases d - i
  {
    if i < d then [At(lo, i)] + Descend(lo, hi, i + 1, d)
    else if At(hi, i) - At(lo, i) > 1 then [(At(lo, i) + At(hi, i)) / 2]
    else [At(lo, i)] + Extend(lo, i + 1)
  }

  /** The first position at or after i where the digits differ, if there is one. */
  function FirstDifference(lo: Rank, hi: Rank, i: nat): Option<nat>
    decreases if i < |hi| then |hi| - i else 0
  {
    if At(lo, i) != At(hi, i) then Some(i)
    else if i < |hi| then FirstDifference(lo, hi, i + 1)
    else None
  }

  /** After everything: bump the last digit if there is room, else append. */
  function After(lo: Rank): Rank {
    if lo == [] then [FIRST]
    else if lo[|lo| - 1] < TOP then lo[..|lo| - 1] + [lo[|lo| - 1] + 1]
    else lo + [FIRST]
  }

  /** The value RankBetween computes; NoReturn where its loop does not end. */
  function Between(lo: Rank, hi: Rank): Result<Rank, RankError> {
    if lo != [] && hi != [] && !TextLess(lo, hi) then Err(RankOrder)
    else if hi == [] then Ok(After(lo))
    else match FirstDifference(lo, hi, 0)
      case Some(d) => if At(lo, d) < At(hi, d) then Ok(Descend(lo, hi, 0, d)) else Err(NoReturn)
      case None => Err(NoReturn)
  }

  lemma {:induction false} FirstDifferenceFinds(lo: Rank, hi: Rank, i: nat, d: nat)
    requires SmallerAt(lo, hi, d) && i <= d
    ensures FirstDifference(lo, hi, i) == Some(d)
    decreases d - i
  {
    if i < d {
      assert At(lo, i) == At(hi, i);
      FirstDifferenceFinds(lo, hi, i + 1, d);
    }
  }

  lemma {:induction false} ExtendAbove(lo: Rank, j: nat)
    ensures var e := Extend(lo, j);
            && 0 < |e| <= (if j < |lo| then |lo| - j else 0) + 1
            && e[|e| - 1] > At(lo, j + |e| - 1)
            && forall k | 0 <= k < |e| - 1 :: e[k] == At(lo, j + k)
    decreases if j < |lo| then |lo| - j else 0
  {
    if At(lo, j) == TOP {
      ExtendAbove(lo, j + 1);
    }
  }

  lemma {:induction false} DescendBetween(lo: Rank, hi: Rank, i: nat, d: nat)
    requires i <= d && SmallerAt(lo, hi, d)
    ensures var r := Descend(lo, hi, i, d);
            && d - i < |r| <= Max(|lo|, |hi|) + 1 - i
            && (forall k | i <= k < d :: r[k - i] == At(lo, k))
            && (r[d - i] < At(hi, d))
            && (r[d - i] > At(lo, d) ||
                (|r| > d - i + 1 && r[|r| - 1] > At(lo, i + |r| - 1) &&
                 forall k | i <= k < i + |r| - 1 :: r[k - i] == At(lo, k)))
    decreases d - i
  {
    assert d < |hi|;
    var r := Descend(lo, hi, i, d);
    if i < d {
      DescendBetween(lo, hi, i + 1, d);
      var t := Descend(lo, hi, i + 1, d);
      assert r == [At(lo, i)] + t;
      assert r[1..] == t;
      forall k | i < k < d ensures r[k - i] == At(lo, k) { assert t[k - (i + 1)] == At(lo, k); }
      if r[d - i] <= At(lo, d) {
        forall k | i < k < i + |r| - 1 ensures r[k - i] == At(lo, k) { assert t[k - (i + 1)] == At(lo, k); }
      }
    } else if At(hi, i) - At(lo, i) <= 1 {
      ExtendAbove(lo, i + 1);
    }
  }

  lemma AfterAbove(lo: Rank)
    ensures Below(lo, After(lo)) && 0 < |After(lo)| <= |lo| + 1
  {
    if lo == [] {
      assert SmallerAt([], [FIRST], 0);
    } else if lo[|lo| - 1] < TOP {
      assert SmallerAt(lo, After(lo), |lo| - 1);
    } else {
      assert SmallerAt(lo, After(lo), |lo|);
    }
  }

  /**
   For every pair of bounds: RankBetween refuses exactly misordered bounds, fails to return exactly
   on zero-padded ones, and otherwise returns a fraction strictly between the two, at most one
   digit longer than the longer bound.
   */
  lemma BetweenIsStrict(lo: Rank, hi: Rank)
    ensures Between(lo, hi) == Err(RankOrder) <==> lo != [] && hi != [] && !TextLess(lo, hi)
    ensures Between(lo, hi) == Err(NoReturn) <==> hi != [] && ZeroPadded(lo, hi)
    ensures Between(lo, hi).Ok? ==>
              var r := Between(lo, hi).value;
              && Below(lo, r) && TextLess(lo, r)
              && (hi != [] ==> Below(r, hi) && TextLess(r, hi))
              && 0 < |r| <= Max(|lo|, |hi|) + 1
  {
    if hi == [] {
      AfterAbove(lo);
      BelowSortsFirst(lo, After(lo));
    } else if lo == [] || TextLess(lo, hi) {
      TextLessCases(lo, hi);
      if d: nat :| SmallerAt(lo, hi, d) {
        FirstDifferenceFinds(lo, hi, 0, d);
        DescendBetween(lo, hi, 0, d);
        var r := Descend(lo, hi, 0, d);
        assert Between(lo, hi) == Ok(r);
        assert SmallerAt(r, hi, d);
        assert if r[d] > At(lo, d) then SmallerAt(lo, r, d) else SmallerAt(lo, r, |r| - 1);
        BelowSortsFirst(lo, r);
        BelowSortsFirst(r, hi);
      } else {
        DescentNeverEndsIff(lo, hi);
        NoDifference(lo, hi, 0);
      }
    } else {
      if ZeroPadded(lo, hi) { PrefixSortsFirst(lo, hi); }
    }
  }

  lemma {:induction false} PrefixSortsFirst(a: Rank, b: Rank)
    requires a < b
    ensures TextLess(a, b)
  {
    if a != [] {
      PrefixSortsFirst(a[1..], b[1..]);
    }
  }

  lemma {:induction false} NoDifference(lo: Rank, hi: Rank, i: nat)
    requires forall k: nat :: At(lo, k) == At(hi, k)
    ensures FirstDifference(lo, hi, i) == None
    decreases if i < |hi| then |hi| - i else 0
  {
    if i < |hi| { NoDifference(lo, hi, i + 1); }
  }

  /* ---------- when the result is the shortest ---------- */

  /** s lies strictly between the bounds as a fraction; no upper bound means after lo. */
  ghost predicate Inside(lo: Rank, hi: Rank, s: Rank) {
    Below(lo, s) && (hi == [] || Below(s, hi))
  }

  /** s sorts strictly between the bounds as a text; no bound means everything on that side. */
  predicate SortsInside(lo: Rank, hi: Rank, s: Rank) {
    s != [] && (lo == [] || TextLess(lo, s)) && (hi == [] || TextLess(s, hi))
  }

  predicate TopsBeforeLast(lo: Rank) {
    forall k | 0 <= k < |lo| - 1 :: lo[k] == TOP
  }

  predicate ZerosAfter(hi: Rank, d: nat) {
    forall k | d < k < |hi| :: hi[k] == 0
  }

  /** The bounds between which no fraction is written shorter than RankBetween's answer. */
  predicate ShortestFraction(lo: Rank, hi: Rank) {
    if hi == [] then TopsBeforeLast(lo)
    else match FirstDifference(lo, hi, 0)
      case None => false
      case Some(d) => At(hi, d) - At(lo, d) > 1 || ZerosAfter(hi, d)
  }

  /** The bounds between which no text sorts that is shorter: trailing zeros give the text order more room. */
  predicate ShortestText(lo: Rank, hi: Rank) {
    if hi == [] then TopsBeforeLast(lo)
    else match FirstDifference(lo, hi, 0)
      case None => false
      case Some(d) => if At(hi, d) - At(lo, d) > 1 then |lo| >= d else |lo| > d && |hi| == d + 1
  }

  lemma {:induction false} ExtendLength(lo: Rank, j: nat, i: nat)
    requires j <= i && At(lo, i) < TOP
    ensures 1 <= |Extend(lo, j)| <= i - j + 1
    decreases i - j
  {
    if At(lo, j) == TOP { ExtendLength(lo, j + 1, i); }
  }

  lemma ExtendIsNotEmpty(lo: Rank, j: nat)
    ensures |Extend(lo, j)| >= 1
  {
  }

  lemma {:induction false} DescendLength(lo: Rank, hi: Rank, i: nat, d: nat)
    requires i <= d && At(lo, d) < At(hi, d)
    ensures |Descend(lo, hi, i, d)| == d - i + (if At(hi, d) - At(lo, d) > 1 then 1 else 1 + |Extend(lo, d + 1)|)
    decreases d - i
  {
    if i < d { DescendLength(lo, hi, i + 1, d); }
  }

  /** The digit at which two fractions first differ, as RankBetween finds it. */
  lemma BetweenDescends(lo: Rank, hi: Rank) returns (d: nat)
    requires Between(lo, hi).Ok? && hi != []
    ensures SmallerAt(lo, hi, d) && FirstDifference(lo, hi, 0) == Some(d)
    ensures Between(lo, hi).value == Descend(lo, hi, 0, d) && d < |hi|
    ensures |Between(lo, hi).value| == if At(hi, d) - At(lo, d) > 1 then d + 1 else d + 1 + |Extend(lo, d + 1)|
  {
    TextLessCases(lo, hi) by { if lo == [] { assert TextLess(lo, hi); } }
    BetweenIsStrict(lo, hi);
    d :| SmallerAt(lo, hi, d);
    FirstDifferenceFinds(lo, hi, 0, d);
    DescendLength(lo, hi, 0, d);
  }

  /** Whatever lies between two fractions reaches past the digit at which they part. */
  lemma InsideIsLonger(lo: Rank, hi: Rank, s: Rank, d: nat)
    requires SmallerAt(lo, hi, d) && Below(lo, s) && Below(s, hi)
    ensures |s| > d
  {
    var i: nat :| SmallerAt(lo, s, i);
    var j: nat :| SmallerAt(s, hi, j);
    assert i < d ==> At(lo, i) == At(hi, i);
    assert j < d ==> At(lo, j) == At(hi, j);
    assert i < |s|;
  }

  /** Between neighbours that end in zeros a fraction starts like lo and exceeds it later. */
  lemma InsideNeighbours(lo: Rank, hi: Rank, s: Rank, d: nat)
    requires SmallerAt(lo, hi, d) && At(hi, d) - At(lo, d) == 1 && ZerosAfter(hi, d)
    requires Below(lo, s) && Below(s, hi)
    ensures |s| >= d + 1 + |Extend(lo, d + 1)|
  {
    var i: nat :| SmallerAt(lo, s, i);
    var j: nat :| SmallerAt(s, hi, j);
    assert j <= d;
    assert i < d ==> At(lo, i) == At(hi, i);
    assert j < d ==> At(lo, j) == At(hi, j);
    assert i > d;
    ExtendLength(lo, d + 1, i);
  }

  lemma AfterIsShortest(lo: Rank, s: Rank)
    requires TopsBeforeLast(lo) && Below(lo, s)
    ensures |s| >= |After(lo)|
  {
    var i: nat :| SmallerAt(lo, s, i);
    assert i < |s|;
    if lo != [] { assert i >= |lo| - 1; }
  }

  /** A bump of an earlier digit that has room is shorter than a bump of the last. */
  lemma EarlierBump(lo: Rank, k: nat) returns (s: Rank)
    requires k < |lo| - 1 && lo[k] < TOP
    ensures Below(lo, s) && 0 < |s| < |lo| && TextLess(lo, s)
  {
    s := lo[..k] + [lo[k] + 1];
    assert SmallerAt(lo, s, k);
    BelowSortsFirst(lo, s);
  }

  /** Cutting hi after the digit at which it exceeds lo. */
  lemma CutUpper(lo: Rank, hi: Rank, d: nat)
    requires SmallerAt(lo, hi, d) && d < |hi|
    ensures Below(lo, hi[..d + 1])
    ensures !ZerosAfter(hi, d) ==> Below(hi[..d + 1], hi)
    ensures d + 1 < |hi| ==> TextLess(hi[..d + 1], hi)
  {
    var s := hi[..d + 1];
    assert SmallerAt(lo, s, d);
    if d + 1 < |hi| { PrefixSortsFirst(s, hi); }
    if !ZerosAfter(hi, d) {
      TextLessCases(s, hi);
      assert !ZeroPadded(s, hi);
    }
  }

  /**
   RankBetween's answer is as short as any fraction between its bounds if and only if the last digit
   of an open bound is the only one with room, or the bounds differ by more than one at their first
   difference, or the upper one has nothing but zeros after it.
   */
  lemma ShortestFractionIff(lo: Rank, hi: Rank)
    requires Between(lo, hi).Ok?
    ensures (forall s: Rank | Inside(lo, hi, s) :: |s| >= |Between(lo, hi).value|) <==> ShortestFraction(lo, hi)
  {
    var r := Between(lo, hi).value;
    if hi == [] {
      if TopsBeforeLast(lo) {
        forall s: Rank | Inside(lo, hi, s) ensures |s| >= |r| { AfterIsShortest(lo, s); }
      } else {
        var k :| 0 <= k < |lo| - 1 && lo[k] != TOP;
        var s := EarlierBump(lo, k);
        assert Inside(lo, hi, s) && |s| < |r|;
      }
    } else {
      var d := BetweenDescends(lo, hi);
      if ShortestFraction(lo, hi) {
        forall s: Rank | Inside(lo, hi, s) ensures |s| >= |r| {
          InsideIsLonger(lo, hi, s, d);
          if At(hi, d) - At(lo, d) == 1 { InsideNeighbours(lo, hi, s, d); }
        }
      } else {
        CutUpper(lo, hi, d);
        ExtendIsNotEmpty(lo, d + 1);
        assert Inside(lo, hi, hi[..d + 1]) && |hi[..d + 1]| < |r|;
      }
    }
  }

  /** A text between the bounds that is not a fraction between them is one of them up to zeros. */
  lemma TextInsideLength(lo: Rank, hi: Rank, d: nat, s: Rank)
    requires hi != [] && SmallerAt(lo, hi, d) && SortsInside(lo, hi, s)
    requires if At(hi, d) - At(lo, d) > 1 then |lo| >= d else |lo| > d && |hi| == d + 1
    ensures |s| >= if At(hi, d) - At(lo, d) > 1 then d + 1 else d + 1 + |Extend(lo, d + 1)|
  {
    TextLessCases(lo, s) by { if lo == [] { assert TextLess(lo, s); } }
    TextLessCases(s, hi);
    if At(hi, d) - At(lo, d) == 1 { ExtendLength(lo, d + 1, |lo|); }
    if ZeroPadded(s, hi) {
      assert hi[d] > 0;
    } else if !ZeroPadded(lo, s) {
      InsideIsLonger(lo, hi, s, d);
      if At(hi, d) - At(lo, d) == 1 { InsideNeighbours(lo, hi, s, d); }
    }
  }

  /** Too short a lower bound leaves room for itself with one zero. */
  lemma PadLower(lo: Rank, hi: Rank, d: nat)
    requires SmallerAt(lo, hi, d) && |lo| <= d < |hi|
    ensures SortsInside(lo, hi, lo + [0])
  {
    var s := lo + [0];
    PrefixSortsFirst(lo, s);
    if |lo| < d {
      assert forall k | 0 <= k < |s| :: s[k] == At(lo, k) == At(hi, k);
      assert s == hi[..|s|];
      PrefixSortsFirst(s, hi);
    } else {
      assert SmallerAt(s, hi, d) by {
        forall j: nat | j < d ensures At(s, j) == At(hi, j) { assert At(lo, j) == At(hi, j); }
      }
      BelowSortsFirst(s, hi);
    }
  }

  /**
   The promise "the shortest string in that interval", taken by the order the texts sort in: the
   answer is as short as any text between its bounds if and only if this test on the bounds passes.
   */
  lemma ShortestTextIff(lo: Rank, hi: Rank)
    requires Between(lo, hi).Ok?
    ensures SortsInside(lo, hi, Between(lo, hi).value)
    ensures (forall s: Rank | SortsInside(lo, hi, s) :: |s| >= |Between(lo, hi).value|) <==> ShortestText(lo, hi)
  {
    var r := Between(lo, hi).value;
    BetweenIsStrict(lo, hi);
    if hi == [] {
      if TopsBeforeLast(lo) {
        forall s: Rank | SortsInside(lo, hi, s) ensures |s| >= |r| {
          if lo != [] {
            TextLessCases(lo, s);
            if Below(lo, s) { AfterIsShortest(lo, s); }
          }
        }
      } else {
        var k :| 0 <= k < |lo| - 1 && lo[k] != TOP;
        var s := EarlierBump(lo, k);
        assert SortsInside(lo, hi, s) && |s| < |r|;
      }
    } else {
      var d := BetweenDescends(lo, hi);
      if ShortestText(lo, hi) {
        forall s: Rank | SortsInside(lo, hi, s) ensures |s| >= |r| { TextInsideLength(lo, hi, d, s); }
      } else {
        ExtendIsNotEmpty(lo, d + 1);
        if |lo| <= d {
          PadLower(lo, hi, d);
          assert |lo + [0]| < |r|;
        } else {
          CutUpper(lo, hi, d);
          BelowSortsFirst(lo, hi[..d + 1]);
          assert SortsInside(lo, hi, hi[..d + 1]) && |hi[..d + 1]| < |r|;
        }
      }
    }
  }

  /**
   "The shortest string in that interval" is not what the code returns: between a5 and b5 it
   answers ak, although b is shorter and lies in the interval, as a text and as a fraction.
   */
  lemma NotTheShortest()
    ensures Between([10, 5], [11, 5]) == Ok([10, 20])
    ensures SortsInside([10, 5], [11, 5], [11]) && Inside([10, 5], [11, 5], [11])
    ensures !ShortestText([10, 5], [11, 5]) && !ShortestFraction([10, 5], [11, 5])
  {
    CutUpper([10, 5], [11, 5], 0);
    assert [11, 5][..1] == [11];
    assert SmallerAt([10, 5], [11, 5], 0);
    FirstDifferenceFinds([10, 5], [11, 5], 0, 0);
    assert Extend([10, 5], 1) == [20];
    assert [10] + [20] == [10, 20];
    assert TextLess([5], []) == false && TextLess([], [5]);
    assert [11, 5][1..] == [5] && [11][1..] == [];
    assert TextLess([10, 5], [11, 5]);
  }

  /** The inner loop: copy lo's top digits from j on, then a digit above lo's next one. */
  method ExtendPast(b: Rank, lo: Rank, start: nat) returns (r: Rank)
    ensures r == b + Extend(lo, start)
  {
    r := b;
    var j := start;
    while At(lo, j) == TOP
      invariant r + Extend(lo, j) == b + Extend(lo, start)
      decreases if j < |lo| then |lo| - j else 0
    {
      assert (r + [TOP]) + Extend(lo, j + 1) == r + ([TOP] + Extend(lo, j + 1));
      r := r + [TOP];
      j := j + 1;
    }
    r := r + [(At(lo, j) + BASE) / 2];
  }

  /** The descent for two bounds that differ: copy the shared prefix, then separate. */
  method DescendFrom(lo: Rank, hi: Rank, ghost d: nat) returns (r: Rank)
    requires SmallerAt(lo, hi, d)
    ensures r == Descend(lo, hi, 0, d)
  {
    r := [];
    var i: nat := 0;
    while At(lo, i) == At(hi, i)
      invariant i <= d
      invariant r + Descend(lo, hi, i, d) == Descend(lo, hi, 0, d)
      decreases d - i
    {
      var digit := At(lo, i);
      assert (r + [digit]) + Descend(lo, hi, i + 1, d) == r + ([digit] + Descend(lo, hi, i + 1, d));
      r := r + [digit];
      i := i + 1;
    }
    assert i == d;
    var dlo: Digit, dhi: Digit := At(lo, i), At(hi, i);
    if dhi - dlo > 1 {
      r := r + [(dlo + dhi) / 2];
    } else {
      assert (r + [dlo]) + Extend(lo, i + 1) == r + ([dlo] + Extend(lo, i + 1));
      r := ExtendPast(r + [dlo], lo, i + 1);
    }
  }

  /** RankBetween itself; the precondition is the pairs on which its loop ends. */
  method RankBetween(lo: Rank, hi: Rank) returns (r: Result<Rank, RankError>)
    requires hi != [] ==> !ZeroPadded(lo, hi)
    ensures r == Between(lo, hi)
    ensures r.Ok? || r == Err(RankOrder)
  {
    if lo != [] && hi != [] && !TextLess(lo, hi) {
      return Err(RankOrder);
    }
    if hi == [] {
      if lo == [] { return Ok([FIRST]); }
      var last := |lo| - 1;
      if lo[last] < TOP { return Ok(lo[..last] + [lo[last] + 1]); }
      return Ok(lo + [FIRST]);
    }
    TextLessCases(lo, hi);
    ghost var d: nat :| SmallerAt(lo, hi, d);
    FirstDifferenceFinds(lo, hi, 0, d);
    var b := DescendFrom(lo, hi, d);
    r := Ok(b);
  }

  /** Whether a generated rank has grown past the threshold at which the project is respread. */
  predicate NeedsRebalance(r: Rank) {
    |r| > REBALANCE_THRESHOLD
  }
}
