/**
 Ranks and moves, said without the model's own helpers: where a moved item ends up, which digit a new
 rank gets, and when a project is respread (internal/store/rank.go, internal/store/mutate.go).
 */
module RankMeaning {
  import opened Wrappers
  import opened Uuids
  import opened RankKeys
  import opened RankList
  import RS = RankSequence

  /* ---------- moves ---------- */

  lemma {:induction false} DropAll(ids: seq<Id>, id: Id)
    requires id !in ids
    ensures Drop(ids, id) == ids
  {
    if ids != [] { DropAll(ids[1..], id); }
  }

  lemma {:induction false} DropAt(ids: seq<Id>, p: nat)
    requires p < |ids| && forall i, j | 0 <= i < j < |ids| :: ids[i] != ids[j]
    ensures Drop(ids, ids[p]) == ids[..p] + ids[p + 1..]
  {
    if p == 0 {
      DropAll(ids[1..], ids[0]);
    } else {
      DropAt(ids[1..], p - 1);
      assert ids[1..][..p - 1] == ids[1..p] && ids[1..][p..] == ids[p + 1..];
      assert ids[..p] == [ids[0]] + ids[1..p];
    }
  }

  lemma {:induction false} SlotAt(others: seq<Id>, a: Id)
    requires Slot(others, Some(a)).Some?
    ensures var k := Slot(others, Some(a)).value; 0 < k <= |others| && others[k - 1] == a
  {
    if others[0] != a { SlotAt(others[1..], a); }
  }

  /** x stands somewhere before y. */
  ghost predicate Precedes(ids: seq<Id>, x: Id, y: Id) {
    exists i, j :: 0 <= i < j < |ids| && ids[i] == x && ids[j] == y
  }

  lemma PrecedesWithout(ids: seq<Id>, p: nat, x: Id, y: Id)
    requires p < |ids| && x != ids[p] && y != ids[p]
    ensures Precedes(ids, x, y) <==> Precedes(ids[..p] + ids[p + 1..], x, y)
  {
    var rest := ids[..p] + ids[p + 1..];
    if i, j :| 0 <= i < j < |ids| && ids[i] == x && ids[j] == y {
      var k, l := if i < p then i else i - 1, if j < p then j else j - 1;
      assert rest[k] == x && rest[l] == y;
    }
    if k, l :| 0 <= k < l < |rest| && rest[k] == x && rest[l] == y {
      var i, j := if k < p then k else k + 1, if l < p then l else l + 1;
      assert ids[i] == x && ids[j] == y;
    }
  }

  /** The moved item stands right behind the neighbour, or first without one. */
  ghost predicate StandsBehind(ids: seq<Id>, self: Id, after: Option<Id>) {
    match after
    case None => ids != [] && ids[0] == self
    case Some(a) => exists i :: 0 < i < |ids| && ids[i - 1] == a && ids[i] == self
  }

  lemma MovedToMeans(before: seq<Id>, later: seq<Id>, self: Id, after: Option<Id>)
    requires MovedTo(before, later, self, after) && self in before
    requires forall i, j | 0 <= i < j < |before| :: before[i] != before[j]
    ensures |later| == |before| && StandsBehind(later, self, after)
    ensures forall x, y | x != self && y != self :: Precedes(later, x, y) <==> Precedes(before, x, y)
  {
    var p :| 0 <= p < |before| && before[p] == self;
    DropAt(before, p);
    var others := Drop(before, self);
    var k := Slot(others, after).value;
    assert later[k] == self && later[..k] + later[k + 1..] == others;
    hide MovedTo, Drop;
    if after.Some? {
      SlotAt(others, after.value);
      hide Slot;
      assert later[..k][k - 1] == others[k - 1];
    }
    hide StandsBehind, Precedes;
    forall x, y | x != self && y != self ensures Precedes(later, x, y) <==> Precedes(before, x, y) {
      PrecedesWithout(later, k, x, y);
      PrecedesWithout(before, p, x, y);
    }
  }

  lemma {:induction false} InDrop(ids: seq<Id>, id: Id, x: Id)
    ensures x in Drop(ids, id) <==> x in ids && x != id
  {
    if ids != [] { InDrop(ids[1..], id, x); }
  }

  /**
   A move of one of a project's items is refused exactly when the neighbour named is the item itself
   or none of the project; otherwise the item stands right behind its neighbour, or first, and all
   others keep their order.
   */
  lemma MoveMeans(rows: seq<Row>, self: Id, after: Option<Id>)
    requires Ascending(rows) && self in Ids(rows) && RS.Width(|rows|) <= 39
    ensures var m, before := Move(rows, self, after, 0), Ids(rows);
            && (m.Err? <==> after.Some? && (after.value == self || after.value !in before))
            && (m.Err? ==> m == Err(InvalidMove))
            && (m.Ok? ==>
                  var later := Ids(m.value.rows);
                  && |later| == |before| && StandsBehind(later, self, after)
                  && forall x, y | x != self && y != self :: Precedes(later, x, y) <==> Precedes(before, x, y))
  {
    MovePlaces(rows, self, after);
    if after.Some? { InDrop(Ids(rows), self, after.value); }
    forall i, j | 0 <= i < j < |rows| ensures Ids(rows)[i] != Ids(rows)[j] {}
    hide Ascending, Move, MovedTo, Drop, Precedes, StandsBehind;
    if Move(rows, self, after, 0).Ok? {
      MovedToMeans(Ids(rows), Ids(Move(rows, self, after, 0).value.rows), self, after);
    }
  }

  /* ---------- the digits of a new rank ---------- */

  lemma Half(x: nat, top: nat)
    ensures x + top - 1 <= 2 * ((x + top) / 2) <= x + top
  {
  }

  /** A run of z as in lo from j on, and then the middle of the next digit and the end of the alphabet. */
  ghost predicate RunsOn(lo: Rank, j: nat, e: Rank) {
    && e != [] && (forall k: nat | k < |e| - 1 :: e[k] == At(lo, j + k) == TOP)
    && At(lo, j + |e| - 1) < TOP && e[|e| - 1] == (At(lo, j + |e| - 1) + 36) / 2
  }

  lemma RunsLonger(lo: Rank, j: nat, t: Rank)
    requires At(lo, j) == TOP && RunsOn(lo, j + 1, t)
    ensures RunsOn(lo, j, [TOP] + t)
  {
    var e := [TOP] + t;
    forall k: nat | k < |e| - 1 ensures e[k] == At(lo, j + k) == TOP {
      if k > 0 { assert t[k - 1] == At(lo, j + 1 + (k - 1)); }
    }
    assert e[|e| - 1] == t[|t| - 1];
  }

  lemma {:induction false} ExtendDigits(lo: Rank, j: nat)
    ensures RunsOn(lo, j, Extend(lo, j))
    decreases if j < |lo| then |lo| - j else 0
  {
    if At(lo, j) == TOP {
      ExtendDigits(lo, j + 1);
      RunsLonger(lo, j, Extend(lo, j + 1));
      hide RunsOn;
    }
  }

  lemma {:induction false} DescendDigits(lo: Rank, hi: Rank, i: nat, d: nat)
    requires i <= d && At(lo, d) < At(hi, d)
    ensures var tail :=
              if At(hi, d) - At(lo, d) > 1 then [(At(lo, d) + At(hi, d)) / 2] else [At(lo, d)] + Extend(lo, d + 1);
            Descend(lo, hi, i, d) == Digits(lo, i, d) + tail
    decreases d - i
  {
    if i < d { DescendDigits(lo, hi, i + 1, d); }
  }

  /** The digits of lo from i up to d. */
  function Digits(lo: Rank, i: nat, d: nat): (r: Rank)
    requires i <= d
    ensures |r| == d - i && forall k: nat | k < d - i :: r[k] == At(lo, i + k)
    decreases d - i
  {
    if i == d then [] else [At(lo, i)] + Digits(lo, i + 1, d)
  }

  /** The position at which the answer leaves lo, and the room there, whose middle its last digit is. */
  ghost predicate HalvesRoom(lo: Rank, r: Rank, e: nat, top: nat) {
    && |r| == e + 1 && (forall k: nat | k < e :: r[k] == At(lo, k))
    && At(lo, e) + top - 1 <= 2 * r[e] <= At(lo, e) + top
  }

  ghost predicate AnswersFrom(lo: Rank, hi: Rank, r: Rank, d: nat) {
    if At(hi, d) - At(lo, d) > 1 then HalvesRoom(lo, r, d, At(hi, d))
    else exists e: nat :: d < e && HalvesRoom(lo, r, e, 36) && OnlyRoomAt(lo, d, e)
  }

  ghost predicate OnlyRoomAt(lo: Rank, d: nat, e: nat) {
    At(lo, e) < 35 && forall k: nat | d < k < e :: At(lo, k) == 35
  }

  /**
   What RankBetween answers.  Without an upper bound: n for no lower bound, else its last digit raised
   by one, or an n appended to it when that digit is z.  With one: the digits of lo up to the first
   difference and, if there is room, the middle of the two digits there; without room the digits of lo
   past all z, and then the middle between the next digit and the end of the alphabet.
   */
  lemma BetweenIsMiddle(lo: Rank, hi: Rank)
    requires Between(lo, hi).Ok?
    ensures var r := Between(lo, hi).value;
            && (hi == [] && lo == [] ==> r == [23])
            && (hi == [] && lo != [] ==>
                  var n := |lo| - 1;
                  if lo[n] < 35 then |r| == n + 1 && r[..n] == lo[..n] && r[n] == lo[n] + 1 else r == lo + [23])
            && (hi != [] ==> exists d: nat :: SmallerAt(lo, hi, d) && AnswersFrom(lo, hi, r, d))
  {
    if hi != [] {
      var d := BetweenDescends(lo, hi);
      DescendDigits(lo, hi, 0, d);
      var r := Between(lo, hi).value;
      if At(hi, d) - At(lo, d) > 1 {
        Half(At(lo, d), At(hi, d));
        assert HalvesRoom(lo, r, d, At(hi, d));
      } else {
        ExtendDigits(lo, d + 1);
        var x := Extend(lo, d + 1);
        var e := d + |x|;
        Half(At(lo, e), 36);
        assert r == Digits(lo, 0, d) + ([At(lo, d)] + x);
        forall k: nat | d < k < e ensures At(lo, k) == 35 { assert x[k - d - 1] == At(lo, d + 1 + (k - d - 1)); }
        forall k: nat | k < e ensures r[k] == At(lo, k) {
          if k > d { assert r[k] == x[k - d - 1]; }
        }
        assert r[e] == x[|x| - 1];
        assert HalvesRoom(lo, r, e, 36) && OnlyRoomAt(lo, d, e);
        assert AnswersFrom(lo, hi, r, d);
      }
    }
  }

  /* ---------- respreading ---------- */

  /** A new item whose rank has at most 40 digits never causes a respread, and one with more always does. */
  lemma RespreadIff(rows: seq<Row>, id: Id)
    requires Append(rows, id).Ok?
    ensures Append(rows, id).value.respreads
         == if |After(if rows == [] then [] else rows[|rows| - 1].rank)| <= 40 then 0 else 1
  {
    hide After, Respread, InsertByRank;
  }

  /** A move respreads its project once when the rank between its neighbours has more than 40 digits, and else not. */
  lemma MoveRespreadIff(rows: seq<Row>, self: Id, after: Option<Id>, lo: Rank, hi: Rank)
    requires Move(rows, self, after, 0).Ok? && Neighbours(rows, self, after, after == None, []) == Some((lo, hi))
    ensures Between(lo, hi).Ok?
    ensures Move(rows, self, after, 0).value.respreads == if |Between(lo, hi).value| <= 40 then 0 else 1
  {
    hide Between, Respread, InsertByRank, Without, Neighbours;
  }
}
