/**
 The edit distance behind "did you mean" (internal/sxq/compile.go, internal/api/projection/registry.go):
 two dynamic programs, one with two rows and one that overwrites a single row, against the recursive
 definition.
 */
module EditDistance {
  import opened Wrappers

  function Cost(a: char, b: char): nat {
    if a == b then 0 else 1
  }

  function Least(a: nat, b: nat, c: nat): (m: nat)
    ensures m <= a && m <= b && m <= c && (m == a || m == b || m == c)
  {
    if a <= b && a <= c then a else if b <= c then b else c
  }

  /** The fewest insertions, deletions and replacements that turn a into b, character by character. */
  function Distance(a: string, b: string): nat
    decreases |a| + |b|
  {
    if a == "" then |b|
    else if b == "" then |a|
    else
      var x, y := a[..|a| - 1], b[..|b| - 1];
      Least(Distance(a, y) + 1, Distance(x, b) + 1, Distance(x, y) + Cost(a[|a| - 1], b[|b| - 1]))
  }

  /** The distances from the first i characters of a to every prefix of b. */
  ghost predicate IsRow(row: seq<nat>, a: string, b: string, i: nat) {
    i <= |a| && |row| == |b| + 1 && forall j | 0 <= j <= |b| :: row[j] == Distance(a[..i], b[..j])
  }

  /** One cell from its three neighbours. */
  lemma Cell(a: string, b: string, i: nat, j: nat)
    requires 1 <= i <= |a| && 1 <= j <= |b|
    ensures Distance(a[..i], b[..j])
         == Least(Distance(a[..i], b[..j - 1]) + 1, Distance(a[..i - 1], b[..j]) + 1,
                  Distance(a[..i - 1], b[..j - 1]) + Cost(a[i - 1], b[j - 1]))
  {
    assert a[..i][..i - 1] == a[..i - 1] && b[..j][..j - 1] == b[..j - 1];
  }

  /** The distance of the query compiler: two rows. */
  method TwoRows(a: string, b: string) returns (d: nat)
    ensures d == Distance(a, b)
  {
    hide Distance;
    var prev := new nat[|b| + 1];
    for j := 0 to prev.Length
      invariant forall k | 0 <= k < j :: prev[k] == k
    {
      prev[j] := j;
    }
    FirstRow(a, b);
    assert IsRow(prev[..], a, b, 0);
    for i := 1 to |a| + 1
      invariant prev.Length == |b| + 1 && IsRow(prev[..], a, b, i - 1)
    {
      var next := new nat[|b| + 1];
      next[0] := i;
      FirstColumn(a, b, i);
      for j := 1 to |b| + 1
        invariant next.Length == |b| + 1 && IsRow(prev[..], a, b, i - 1)
        invariant forall k | 0 <= k < j :: next[k] == Distance(a[..i], b[..k])
      {
        Cell(a, b, i, j);
        assert prev[..][j] == Distance(a[..i - 1], b[..j]) && prev[..][j - 1] == Distance(a[..i - 1], b[..j - 1]);
        var cost := if a[i - 1] != b[j - 1] then 1 else 0;
        next[j] := Least(next[j - 1] + 1, prev[j] + 1, prev[j - 1] + cost);
      }
      prev := next;
    }
    assert a[..|a|] == a && b[..|b|] == b;
    d := prev[|b|];
    assert prev[..][|b|] == d;
  }

  lemma FirstRow(a: string, b: string)
    ensures forall j | 0 <= j <= |b| :: Distance(a[..0], b[..j]) == j
  {
  }

  lemma FirstColumn(a: string, b: string, i: nat)
    requires i <= |a|
    ensures Distance(a[..i], b[..0]) == i
  {
  }

  /** The distance of the field registry: one row, overwritten from left to right. */
  method OneRow(a: string, b: string) returns (d: nat)
    ensures d == Distance(a, b)
  {
    hide Distance;
    var row := new nat[|b| + 1];
    for j := 0 to row.Length
      invariant forall k | 0 <= k < j :: row[k] == k
    {
      row[j] := j;
    }
    FirstRow(a, b);
    for i := 0 to |a|
      invariant forall k | 0 <= k <= |b| :: row[k] == Distance(a[..i], b[..k])
    {
      var prev := row[0];
      row[0] := i + 1;
      FirstColumn(a, b, i + 1);
      for j := 0 to |b|
        invariant prev == Distance(a[..i], b[..j])
        invariant forall k | 0 <= k <= j :: row[k] == Distance(a[..i + 1], b[..k])
        invariant forall k | j < k <= |b| :: row[k] == Distance(a[..i], b[..k])
      {
        Cell(a, b, i + 1, j + 1);
        var above := row[j + 1];
        var cost := if a[i] != b[j] then 1 else 0;
        row[j + 1] := Least(row[j + 1] + 1, row[j] + 1, prev + cost);
        prev := above;
      }
    }
    assert a[..|a|] == a && b[..|b|] == b;
    d := row[|b|];
  }

  /* ---------- the recursive distance counts edits ---------- */

  datatype Edit = Keep | Replace(c: char) | Insert(c: char) | Delete

  /** The text that a list of edits, one after another along the text, makes of a. */
  function Edited(a: string, edits: seq<Edit>): Option<string> {
    if edits == [] then (if a == "" then Some("") else None)
    else
      var front, last := edits[..|edits| - 1], edits[|edits| - 1];
      if last.Insert? then
        var r := Edited(a, front);
        if r.None? then None else Some(r.value + [last.c])
      else if a == "" then None
      else
        var r := Edited(a[..|a| - 1], front);
        if r.None? then None
        else match last
          case Keep => Some(r.value + [a[|a| - 1]])
          case Replace(c) => Some(r.value + [c])
          case Delete => r
          case Insert(_) => None
  }

  /** The number of edits that change something. */
  function Changes(edits: seq<Edit>): nat {
    if edits == [] then 0
    else Changes(edits[..|edits| - 1]) + if edits[|edits| - 1] == Keep then 0 else 1
  }

  lemma Bounds(a: string, b: string)
    ensures a != "" ==> Distance(a, b) <= Distance(a[..|a| - 1], b) + 1
    ensures b != "" ==> Distance(a, b) <= Distance(a, b[..|b| - 1]) + 1
    ensures a != "" && b != "" ==> Distance(a, b) <= Distance(a[..|a| - 1], b[..|b| - 1]) + Cost(a[|a| - 1], b[|b| - 1])
  {
  }

  /** No list of edits that makes b of a has fewer changes than the distance. */
  lemma {:induction false} NoFewerChanges(a: string, b: string, edits: seq<Edit>)
    requires Edited(a, edits) == Some(b)
    ensures Changes(edits) >= Distance(a, b)
    decreases |edits|
  {
    if edits != [] {
      var front, last := edits[..|edits| - 1], edits[|edits| - 1];
      var rest := if last.Insert? then a else a[..|a| - 1];
      var r := Edited(rest, front).value;
      NoFewerChanges(rest, r, front);
      Bounds(a, b);
      assert last != Delete ==> b[..|b| - 1] == r;
      hide Distance;
    }
  }

  /** And some list of edits has exactly that many. */
  lemma {:induction false} DistanceIsReached(a: string, b: string) returns (edits: seq<Edit>)
    ensures Edited(a, edits) == Some(b) && Changes(edits) == Distance(a, b)
    decreases |a| + |b|
  {
    if a == "" && b == "" {
      edits := [];
    } else {
      var last, front := Keep, [];
      if a == "" || (b != "" && Distance(a, b) == Distance(a, b[..|b| - 1]) + 1) {
        last := Insert(b[|b| - 1]);
        front := DistanceIsReached(a, b[..|b| - 1]);
      } else if b == "" || Distance(a, b) == Distance(a[..|a| - 1], b) + 1 {
        last := Delete;
        front := DistanceIsReached(a[..|a| - 1], b);
      } else {
        last := if a[|a| - 1] == b[|b| - 1] then Keep else Replace(b[|b| - 1]);
        front := DistanceIsReached(a[..|a| - 1], b[..|b| - 1]);
      }
      edits := front + [last];
      assert edits[..|edits| - 1] == front && edits[|edits| - 1] == last;
      if b != "" { assert b == b[..|b| - 1] + [b[|b| - 1]]; }
      if last == Delete {
        assert Changes(edits) == Distance(a, b);
        assert Edited(a, edits) == Edited(a[..|a| - 1], front);
      }
    }
  }

  /** Name i is at the least distance, and the first such. */
  ghost predicate IsNearest(input: string, names: seq<string>, i: nat)
    requires i < |names|
  {
    && (forall k | 0 <= k < |names| :: Distance(input, names[k]) >= Distance(input, names[i]))
    && forall k | 0 <= k < i :: Distance(input, names[k]) > Distance(input, names[i])
  }

  /** nearest: the first name at the least distance, and "key" when everything is 10000 away or more. */
  method Nearest(input: string, names: seq<string>) returns (best: string)
    ensures (forall i | 0 <= i < |names| :: Distance(input, names[i]) >= 10000) ==> best == "key"
    ensures (exists i :: 0 <= i < |names| && Distance(input, names[i]) < 10000)
            ==> exists i :: 0 <= i < |names| && IsNearest(input, names, i) && best == names[i]
  {
    hide Distance;
    best := "key";
    var score := 10000;
    ghost var at := 0;
    for n := 0 to |names|
      invariant score <= 10000 && forall k | 0 <= k < n :: Distance(input, names[k]) >= score
      invariant score == 10000 ==> best == "key"
      invariant score < 10000 ==> at < n && names[at] == best && Distance(input, best) == score
                                  && forall k | 0 <= k < at :: Distance(input, names[k]) > score
    {
      var d := TwoRows(input, names[n]);
      if d < score { score, best, at := d, names[n], n; }
    }
  }
}
