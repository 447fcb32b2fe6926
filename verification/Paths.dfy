/**
 Materialised paths (internal/store/mutate.go, internal/store/rollup.go).  In the database a path is
 an ltree, a sequence of labels; the Go code sees its dotted text form.
 */
module Paths {
  import opened Wrappers
  import opened Uuids

  type Path = seq<Id>

  /** strings.Join(labels, "."). */
  function Join(labels: seq<string>): string {
    if labels == [] then ""
    else if |labels| == 1 then labels[0]
    else labels[0] + "." + Join(labels[1..])
  }

  /** strings.Split(s, "."). */
  function SplitDots(s: string): (labels: seq<string>)
    ensures labels != []
  {
    if s == "" then [""]
    else
      var rest := SplitDots(s[1..]);
      if s[0] == '.' then [""] + rest else [[s[0]] + rest[0]] + rest[1..]
  }

  predicate AllDotFree(labels: seq<string>) {
    forall i | 0 <= i < |labels| :: DotFree(labels[i])
  }

  lemma {:induction false} SplitLabel(l: string, rest: string)
    requires DotFree(l)
    ensures SplitDots(l) == [l]
    ensures SplitDots(l + "." + rest) == [l] + SplitDots(rest)
  {
    if l == "" {
      assert l + "." + rest == "." + rest;
      assert ("." + rest)[1..] == rest;
    } else {
      SplitLabel(l[1..], rest);
      var s := l + "." + rest;
      assert s[1..] == l[1..] + "." + rest;
      assert [l[0]] + l[1..] == l;
    }
  }

  lemma {:induction false} SplitJoined(labels: seq<string>, rest: string)
    requires labels != [] && AllDotFree(labels)
    ensures SplitDots(Join(labels)) == labels
    ensures SplitDots(Join(labels) + "." + rest) == labels + SplitDots(rest)
  {
    hide SplitDots;
    var l, ls := labels[0], labels[1..];
    assert [l] + ls == labels;
    if |labels| == 1 {
      SplitLabel(l, rest);
    } else {
      SplitJoined(ls, rest);
      SplitLabel(l, Join(ls));
      SplitLabel(l, Join(ls) + "." + rest);
      assert l + "." + Join(ls) + "." + rest == l + "." + (Join(ls) + "." + rest);
      assert [l] + (ls + SplitDots(rest)) == labels + SplitDots(rest);
    }
  }

  lemma {:induction false} JoinAppend(a: seq<string>, b: seq<string>)
    requires a != [] && b != []
    ensures Join(a + b) == Join(a) + "." + Join(b)
  {
    if |a| == 1 {
      assert (a + b)[1..] == b;
    } else {
      assert (a + b)[1..] == a[1..] + b;
      JoinAppend(a[1..], b);
      assert a[0] + "." + (Join(a[1..]) + "." + Join(b)) == a[0] + "." + Join(a[1..]) + "." + Join(b);
    }
  }

  /** strings.Count(s, "."). */
  function CountDots(s: string): nat {
    if s == "" then 0 else (if s[0] == '.' then 1 else 0) + CountDots(s[1..])
  }

  lemma {:induction false} DotsOfLabel(l: string, rest: string)
    requires DotFree(l)
    ensures CountDots(l) == 0 && CountDots(l + "." + rest) == 1 + CountDots(rest)
  {
    if l == "" {
      assert (l + "." + rest)[1..] == rest;
    } else {
      DotsOfLabel(l[1..], rest);
      assert (l + "." + rest)[1..] == l[1..] + "." + rest;
    }
  }

  lemma {:induction false} DotsOfJoin(labels: seq<string>)
    requires labels != [] && AllDotFree(labels)
    ensures CountDots(Join(labels)) + 1 == |labels|
  {
    hide CountDots;
    if |labels| == 1 {
      DotsOfLabel(labels[0], "");
    } else {
      DotsOfLabel(labels[0], Join(labels[1..]));
      DotsOfJoin(labels[1..]);
    }
  }

  /* ---------- paths of item ids ---------- */

  function Labels(p: Path): (labels: seq<string>)
    ensures |labels| == |p|
  {
    seq(|p|, i requires 0 <= i < |p| => Text(p[i]))
  }

  /** The text form of an ltree whose labels are item ids. */
  function Dotted(p: Path): string {
    Join(Labels(p))
  }

  lemma LabelsAreDotFree(p: Path)
    ensures AllDotFree(Labels(p))
  {
    hide Text;
    forall i | 0 <= i < |p| ensures DotFree(Labels(p)[i]) { TextIsDotFree(p[i]); }
  }

  lemma LabelsDetermine(a: Path, c: Path)
    requires Labels(a) <= Labels(c)
    ensures a <= c
  {
    hide Text, Parse;
    forall i | 0 <= i < |a| ensures a[i] == c[i] {
      assert Labels(a)[i] == Labels(c)[i];
      ParseInvertsText(a[i]);
      ParseInvertsText(c[i]);
    }
  }

  /** Splitting the text of a path gives its labels back, and they name its items. */
  lemma SplitInvertsDotted(p: Path)
    requires p != []
    ensures SplitDots(Dotted(p)) == Labels(p)
    ensures forall i | 0 <= i < |p| :: Parse(SplitDots(Dotted(p))[i]) == Some(p[i])
  {
    hide Text, Parse, Join, SplitDots;
    LabelsAreDotFree(p);
    SplitJoined(Labels(p), "");
    forall i | 0 <= i < |p| ensures Parse(Labels(p)[i]) == Some(p[i]) { ParseInvertsText(p[i]); }
  }

  predicate HasPrefix(s: string, prefix: string) { prefix <= s }

  /** Whether candidate is at or below ancestor, on the dotted texts. */
  predicate IsDescendantOrSelf(candidate: string, ancestor: string) {
    candidate == ancestor || HasPrefix(candidate, ancestor + ".")
  }

  lemma PrefixFromText(candidate: Path, ancestor: Path)
    requires candidate != [] && ancestor != []
    requires Dotted(ancestor) + "." <= Dotted(candidate)
    ensures ancestor <= candidate
  {
    hide Text, Parse, Join, SplitDots, Labels;
    var rest := Dotted(candidate)[|Dotted(ancestor)| + 1..];
    assert Dotted(candidate) == Dotted(ancestor) + "." + rest;
    SplitInvertsDotted(candidate);
    LabelsAreDotFree(ancestor);
    SplitJoined(Labels(ancestor), rest);
    LabelsDetermine(ancestor, candidate);
  }

  lemma TextFromPrefix(candidate: Path, ancestor: Path)
    requires ancestor != [] && ancestor < candidate
    ensures Dotted(ancestor) + "." <= Dotted(candidate)
  {
    hide Text, Join;
    var rest := candidate[|ancestor|..];
    assert Labels(candidate) == Labels(ancestor) + Labels(rest);
    JoinAppend(Labels(ancestor), Labels(rest));
  }

  /** The textual prefix test coincides with ancestry of the label sequences. */
  lemma TextTestIsAncestry(candidate: Path, ancestor: Path)
    requires candidate != [] && ancestor != []
    ensures IsDescendantOrSelf(Dotted(candidate), Dotted(ancestor)) <==> ancestor <= candidate
  {
    hide Text, Parse, Join, SplitDots, Dotted, Labels;
    if Dotted(candidate) == Dotted(ancestor) {
      SplitInvertsDotted(candidate);
      SplitInvertsDotted(ancestor);
      LabelsDetermine(ancestor, candidate);
    } else if HasPrefix(Dotted(candidate), Dotted(ancestor) + ".") {
      PrefixFromText(candidate, ancestor);
    } else if ancestor <= candidate {
      if ancestor != candidate { TextFromPrefix(candidate, ancestor); }
    }
  }

  /** strings.Count(path, ".") + 1 is the depth of a path, and no path has the empty text. */
  lemma DotsGiveDepth(p: Path)
    requires p != []
    ensures Dotted(p) != "" && CountDots(Dotted(p)) + 1 == |p|
  {
    hide Text, CountDots;
    LabelsAreDotFree(p);
    DotsOfJoin(Labels(p));
    TextIsDotFree(p[0]);
    assert Labels(p)[0] == Text(p[0]);
  }
}
