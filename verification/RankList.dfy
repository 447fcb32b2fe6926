/**
 A project's rows in rank order, as ListProjectRanks returns them, and what the store does to them:
 appending, moving and respreading (internal/store/mutate.go).
 */
module RankList {
  import opened Wrappers
  import opened Uuids
  import opened RankKeys
  import RS = RankSequence

  datatype Row = Row(id: Id, rank: Rank)

  datatype RankFailure = InvalidMove | OutOfOrder | Rejected | Endless

  function Ids(rows: seq<Row>): (ids: seq<Id>)
    ensures |ids| == |rows| && forall i | 0 <= i < |ids| :: ids[i] == rows[i].id
  {
    seq(|rows|, i requires 0 <= i < |rows| => rows[i].id)
  }

  /** The invariant of every project: positive ranks, ascending as fractions, one row per item. */
  ghost predicate Ascending(rows: seq<Row>) {
    && (forall i | 0 <= i < |rows| :: Positive(rows[i].rank))
    && (forall i, j | 0 <= i < j < |rows| :: Below(rows[i].rank, rows[j].rank))
    && (forall i, j | 0 <= i < j < |rows| :: rows[i].id != rows[j].id)
  }

  /** ORDER BY rank: before the first row with a greater rank. */
  function RankPosition(rows: seq<Row>, rank: Rank): (k: nat)
    ensures k <= |rows|
  {
    if rows == [] || TextLess(rank, rows[0].rank) then 0 else 1 + RankPosition(rows[1..], rank)
  }

  function InsertByRank(rows: seq<Row>, row: Row): seq<Row> {
    var k := RankPosition(rows, row.rank);
    rows[..k] + [row] + rows[k..]
  }

  function SortByRank(rows: seq<Row>): seq<Row> {
    if rows == [] then [] else InsertByRank(SortByRank(rows[1..]), rows[0])
  }

  lemma {:induction false} InsertLands(rows: seq<Row>, row: Row, k: nat)
    requires Ascending(rows) && k <= |rows| && Positive(row.rank)
    requires forall i | 0 <= i < |rows| :: rows[i].id != row.id
    requires k > 0 ==> Below(rows[k - 1].rank, row.rank)
    requires k < |rows| ==> Below(row.rank, rows[k].rank)
    ensures InsertByRank(rows, row) == rows[..k] + [row] + rows[k..]
    ensures Ascending(rows[..k] + [row] + rows[k..])
  {
    hide Below, Positive, TextLess;
    forall i | 0 <= i < k ensures Below(rows[i].rank, row.rank) && !TextLess(row.rank, rows[i].rank) {
      if i < k - 1 { BelowTransitive(rows[i].rank, rows[k - 1].rank, row.rank); }
      BelowSortsFirst(rows[i].rank, row.rank);
      TextLessAsymmetric(rows[i].rank, row.rank);
    }
    forall i | k <= i < |rows| ensures Below(row.rank, rows[i].rank) {
      if i > k { BelowTransitive(row.rank, rows[k].rank, rows[i].rank); }
    }
    if k < |rows| { BelowSortsFirst(row.rank, rows[k].rank); }
    InsertPosition(rows, row.rank, k);
    SpliceAscends(rows, row, k);
  }

  lemma SpliceAscends(rows: seq<Row>, row: Row, k: nat)
    requires Ascending(rows) && k <= |rows| && Positive(row.rank)
    requires forall i | 0 <= i < |rows| :: rows[i].id != row.id
    requires forall i | 0 <= i < k :: Below(rows[i].rank, row.rank)
    requires forall i | k <= i < |rows| :: Below(row.rank, rows[i].rank)
    ensures Ascending(rows[..k] + [row] + rows[k..])
  {
    hide Below, Positive;
    var out := rows[..k] + [row] + rows[k..];
    forall i | 0 <= i < |out|
      ensures out[i] == if i < k then rows[i] else if i == k then row else rows[i - 1]
    {
    }
    forall i, j | 0 <= i < j < |out|
      ensures Below(out[i].rank, out[j].rank) && out[i].id != out[j].id
    {
    }
  }

  lemma {:induction false} InsertPosition(rows: seq<Row>, rank: Rank, k: nat)
    requires k <= |rows|
    requires forall i | 0 <= i < k :: !TextLess(rank, rows[i].rank)
    requires k < |rows| ==> TextLess(rank, rows[k].rank)
    ensures RankPosition(rows, rank) == k
  {
    if k > 0 { InsertPosition(rows[1..], rank, k - 1); }
  }

  lemma {:induction false} SortedStays(rows: seq<Row>)
    requires Ascending(rows)
    ensures SortByRank(rows) == rows
  {
    if rows != [] {
      SortedStays(rows[1..]);
      if |rows| > 1 { BelowSortsFirst(rows[0].rank, rows[1].rank); }
      assert RankPosition(rows[1..], rows[0].rank) == 0;
    }
  }

  /* ---------- respreading a project ---------- */

  /** The test sierx_set_project_ranks makes before it changes anything. */
  ghost predicate MapAccepted(rows: seq<Row>, prior: seq<Rank>, next: seq<Rank>) {
    && |prior| == |next| == |rows|
    && (forall i, j | 0 <= i < j < |prior| :: prior[i] != prior[j])
    && (forall i, j | 0 <= i < j < |next| :: next[i] != next[j])
    && (forall i | 0 <= i < |next| :: 1 <= |next[i]| <= 40)
    && (forall i | 0 <= i < |rows| :: rows[i].rank in prior)
  }

  function PositionOf(prior: seq<Rank>, r: Rank): (k: nat)
    requires r in prior
    ensures k < |prior| && prior[k] == r
  {
    if prior[0] == r then 0 else 1 + PositionOf(prior[1..], r)
  }

  /** The rows after the pointwise replacement prior[i] -> new[i], in rank order again. */
  function Remapped(rows: seq<Row>, prior: seq<Rank>, next: seq<Rank>): seq<Row>
    requires |prior| == |next|
    requires forall i | 0 <= i < |rows| :: rows[i].rank in prior
  {
    SortByRank(seq(|rows|, i requires 0 <= i < |rows| =>
      Row(rows[i].id, next[PositionOf(prior, rows[i].rank)])))
  }

  function Ranks(rows: seq<Row>): (ranks: seq<Rank>)
    ensures |ranks| == |rows| && forall i | 0 <= i < |ranks| :: ranks[i] == rows[i].rank
  {
    seq(|rows|, i requires 0 <= i < |rows| => rows[i].rank)
  }

  /** rebalanceProjectRanks: the database refuses ranks of more than 40 digits. */
  function Respread(rows: seq<Row>): Result<seq<Row>, RankFailure> {
    if rows == [] then Ok(rows)
    else if RS.Width(|rows|) > 40 then Err(Rejected)
    else Ok(seq(|rows|, i requires 0 <= i < |rows| => Row(rows[i].id, RS.Sequence(|rows|)[i])))
  }

  lemma SameLength(n: nat, i: nat)
    requires i < n
    ensures |RS.Sequence(n)| == n && |RS.Sequence(n)[i]| == RS.Width(n)
  {
    RS.SequenceSpreads(n, i);
  }

  /** Respreading keeps the rows in their order, with ranks of one width. */
  lemma RespreadAscends(rows: seq<Row>)
    requires Ascending(rows) && Respread(rows).Ok?
    ensures var out := Respread(rows).value;
            Ascending(out) && Ids(out) == Ids(rows) && forall i | 0 <= i < |out| :: |out[i].rank| <= RS.Width(|rows|)
  {
    var out := Respread(rows).value;
    forall i | 0 <= i < |out|
      ensures Positive(out[i].rank) && |out[i].rank| <= RS.Width(|rows|)
      ensures forall j | i < j < |out| :: Below(out[i].rank, out[j].rank)
    {
      RS.SequenceSpreads(|rows|, i);
    }
  }

  lemma DistinctRanks(rows: seq<Row>)
    requires Ascending(rows)
    ensures forall i, j | 0 <= i < j < |rows| :: Ranks(rows)[i] != Ranks(rows)[j]
    ensures forall i | 0 <= i < |rows| :: rows[i].rank in Ranks(rows) && PositionOf(Ranks(rows), rows[i].rank) == i
  {
    hide Below, Positive;
    var ranks := Ranks(rows);
    forall i, j | 0 <= i < j < |rows| ensures ranks[i] != ranks[j] {
      BelowIrreflexive(ranks[i]);
    }
    forall i | 0 <= i < |rows| ensures rows[i].rank in ranks && PositionOf(ranks, rows[i].rank) == i {
      assert ranks[i] == rows[i].rank;
      var k := PositionOf(ranks, rows[i].rank);
      assert ranks[k] == ranks[i];
    }
  }

  lemma DistinctSequence(n: nat)
    ensures |RS.Sequence(n)| == n
    ensures forall i, j | 0 <= i < j < n :: RS.Sequence(n)[i] != RS.Sequence(n)[j]
    ensures forall i | 0 <= i < n :: |RS.Sequence(n)[i]| == RS.Width(n)
  {
    hide Below, Positive, RS.Encode, RS.Step;
    forall i, j | 0 <= i < j < n ensures RS.Sequence(n)[i] != RS.Sequence(n)[j] {
      RS.SequenceSpreads(n, i);
      TextLessAsymmetric(RS.Sequence(n)[i], RS.Sequence(n)[j]);
    }
    forall i | 0 <= i < n ensures |RS.Sequence(n)[i]| == RS.Width(n) { SameLength(n, i); }
  }

  /**
   On an ascending project the remap that rebalanceProjectRanks sends is accepted just when the
   project fits ranks of 40 digits, and it then gives Respread's rows.
   */
  lemma RespreadIsTheRemap(rows: seq<Row>)
    requires Ascending(rows) && rows != []
    ensures MapAccepted(rows, Ranks(rows), RS.Sequence(|rows|)) <==> Respread(rows).Ok?
    ensures Respread(rows).Ok? ==> Respread(rows).value == Remapped(rows, Ranks(rows), RS.Sequence(|rows|))
  {
    var n := |rows|;
    assert RS.Width(n) >= 1;
    hide Below, Positive, RS.Sequence, RS.Width, SortByRank;
    var prior, spread := Ranks(rows), RS.Sequence(n);
    DistinctRanks(rows);
    DistinctSequence(n);
    assert |spread[0]| == RS.Width(n);
    if Respread(rows).Ok? {
      var out := Respread(rows).value;
      var mapped := seq(n, i requires 0 <= i < n => Row(rows[i].id, spread[PositionOf(prior, rows[i].rank)]));
      assert mapped == out;
      RespreadAscends(rows);
      SortedStays(out);
    }
  }

  /* ---------- appending ---------- */

  function LastRank(rows: seq<Row>): Rank {
    if rows == [] then [] else rows[|rows| - 1].rank
  }

  /** How often a project was respread, and its rows afterwards. */
  datatype Placed = Placed(rows: seq<Row>, respreads: nat)

  /** rankForNewItem followed by the insert of the row. */
  function Append(rows: seq<Row>, id: Id): Result<Placed, RankFailure> {
    var rank := After(LastRank(rows));
    if !NeedsRebalance(rank) then Ok(Placed(InsertByRank(rows, Row(id, rank)), 0))
    else match Respread(rows)
      case Err(e) => Err(e)
      case Ok(spread) => Ok(Placed(InsertByRank(spread, Row(id, After(LastRank(spread)))), 1))
  }

  lemma AppendAtEnd(rows: seq<Row>, id: Id)
    requires Ascending(rows) && id !in Ids(rows)
    ensures var row := Row(id, After(LastRank(rows)));
            InsertByRank(rows, row) == rows + [row] && Ascending(rows + [row])
  {
    var row := Row(id, After(LastRank(rows)));
    AfterAbove(LastRank(rows));
    BelowIsPositive(LastRank(rows), row.rank);
    forall i | 0 <= i < |rows| ensures rows[i].id != id { assert Ids(rows)[i] == rows[i].id; }
    InsertLands(rows, row, |rows|);
    assert rows[..|rows|] + [row] + rows[|rows|..] == rows + [row];
  }

  /** A new item always comes last, and the order of the others is kept even by a respread. */
  lemma AppendPlaces(rows: seq<Row>, id: Id)
    requires Ascending(rows) && id !in Ids(rows)
    ensures Append(rows, id).Err? ==> Append(rows, id) == Err(Rejected) && RS.Width(|rows|) > 40
    ensures Append(rows, id).Ok? ==>
              var out := Append(rows, id).value.rows;
              Ascending(out) && Ids(out) == Ids(rows) + [id]
  {
    AppendAtEnd(rows, id);
    if NeedsRebalance(After(LastRank(rows))) && Respread(rows).Ok? {
      RespreadAscends(rows);
      AppendAtEnd(Respread(rows).value, id);
    }
  }

  /* ---------- moving ---------- */

  function Without(rows: seq<Row>, id: Id): seq<Row> {
    if rows == [] then []
    else if rows[0].id == id then Without(rows[1..], id)
    else [rows[0]] + Without(rows[1..], id)
  }

  /** The scan for the two neighbours: past the moved row itself, up to the row after the named one. */
  function Neighbours(rows: seq<Row>, self: Id, after: Option<Id>, found: bool, lo: Rank): Option<(Rank, Rank)> {
    if rows == [] then (if found then Some((lo, [])) else None)
    else if rows[0].id == self then Neighbours(rows[1..], self, after, found, lo)
    else if found then Some((lo, rows[0].rank))
    else if Some(rows[0].id) == after then Neighbours(rows[1..], self, after, true, rows[0].rank)
    else Neighbours(rows[1..], self, after, false, lo)
  }

  /** The loop over two attempts of applyReparent, from the given attempt on. */
  function Move(rows: seq<Row>, self: Id, after: Option<Id>, attempt: nat): Result<Placed, RankFailure>
    requires attempt <= 2
    decreases 2 - attempt
  {
    if attempt == 2 then Err(OutOfOrder)
    else match Neighbours(rows, self, after, after == None, [])
      case None => Err(InvalidMove)
      case Some((lo, hi)) =>
        match Between(lo, hi)
        case Err(RankOrder) => Err(OutOfOrder)
        case Err(NoReturn) => Err(Endless)
        case Ok(rank) =>
          if !NeedsRebalance(rank) then Ok(Placed(InsertByRank(Without(rows, self), Row(self, rank)), attempt))
          else match Respread(rows)
            case Err(e) => Err(e)
            case Ok(spread) => Move(spread, self, after, attempt + 1)
  }

  /** The position, among the other rows, that a move names: first, or just past the neighbour. */
  function Slot(others: seq<Id>, after: Option<Id>): Option<nat> {
    match after
    case None => Some(0)
    case Some(a) =>
      if others == [] then None
      else if others[0] == a then Some(1)
      else match Slot(others[1..], after)
        case None => None
        case Some(k) => Some(k + 1)
  }

  function Drop(ids: seq<Id>, id: Id): seq<Id> {
    if ids == [] then [] else (if ids[0] == id then [] else [ids[0]]) + Drop(ids[1..], id)
  }

  /** Where the ids end up: the moved one taken out and put in just past the neighbour. */
  ghost predicate MovedTo(before: seq<Id>, later: seq<Id>, self: Id, neighbour: Option<Id>) {
    var others := Drop(before, self);
    && Slot(others, neighbour).Some?
    && Slot(others, neighbour).value <= |others|
    && later == others[..Slot(others, neighbour).value] + [self] + others[Slot(others, neighbour).value..]
  }

  lemma {:induction false} WithoutDrops(rows: seq<Row>, id: Id)
    ensures Ids(Without(rows, id)) == Drop(Ids(rows), id)
  {
    if rows != [] {
      WithoutDrops(rows[1..], id);
      assert Ids(rows)[1..] == Ids(rows[1..]);
    }
  }

  lemma {:induction false} WithoutAscends(rows: seq<Row>, id: Id)
    requires Ascending(rows)
    ensures Ascending(Without(rows, id))
    ensures forall r | r in Without(rows, id) :: r in rows && r.id != id
  {
    if rows != [] {
      WithoutAscends(rows[1..], id);
      var rest := Without(rows[1..], id);
      if rows[0].id != id {
        var out := [rows[0]] + rest;
        forall i | 0 < i < |out| ensures Below(out[0].rank, out[i].rank) && out[0].id != out[i].id {
          assert rest[i - 1] in rows[1..];
        }
      }
    }
  }

  lemma {:induction false} SlotBound(others: seq<Id>, after: Option<Id>)
    ensures Slot(others, after).Some? <==> (after == None || after.value in others)
    ensures Slot(others, after).Some? ==> Slot(others, after).value <= |others|
    ensures Slot(others, after).Some? && after.Some? ==>
              Slot(others, after).value > 0 && others[Slot(others, after).value - 1] == after.value
  {
    if after.Some? && others != [] { SlotBound(others[1..], after); }
  }

  lemma {:induction false} OnceFound(rows: seq<Row>, self: Id, after: Option<Id>, lo: Rank)
    ensures Neighbours(rows, self, after, true, lo)
         == Some((lo, if Without(rows, self) == [] then [] else Without(rows, self)[0].rank))
  {
    if rows != [] && rows[0].id == self { OnceFound(rows[1..], self, after, lo); }
  }

  /** The ranks on either side of position k; empty where there is no neighbour. */
  function Lo(rows: seq<Row>, k: nat): Rank
    requires k <= |rows|
  {
    if k == 0 then [] else rows[k - 1].rank
  }

  function Hi(rows: seq<Row>, k: nat): Rank
    requires k <= |rows|
  {
    if k == |rows| then [] else rows[k].rank
  }

  /** The scan finds the ranks on either side of the slot. */
  lemma {:induction false} NeighboursOfSlot(rows: seq<Row>, self: Id, after: Option<Id>)
    ensures var others := Without(rows, self);
            match Slot(Ids(others), after)
            case None => Neighbours(rows, self, after, after == None, []) == None
            case Some(k) =>
              k <= |others| && Neighbours(rows, self, after, after == None, []) == Some((Lo(others, k), Hi(others, k)))
  {
    if after == None {
      OnceFound(rows, self, after, []);
    } else if rows != [] {
      NeighboursOfSlot(rows[1..], self, after);
      var rest := Without(rows[1..], self);
      SlotBound(Ids(rest), after);
      if rows[0].id != self {
        assert Ids([rows[0]] + rest)[1..] == Ids(rest);
        if Some(rows[0].id) == after { OnceFound(rows[1..], self, after, rows[0].rank); }
      }
    }
  }

  /** Between any two neighbours of an ascending project there is a rank, found without fail. */
  lemma RoomAt(rows: seq<Row>, k: nat)
    requires Ascending(rows) && k <= |rows|
    ensures var r := Between(Lo(rows, k), Hi(rows, k));
            && r.Ok? && |r.value| <= Max(|Lo(rows, k)|, |Hi(rows, k)|) + 1 && Positive(r.value)
            && (k > 0 ==> Below(rows[k - 1].rank, r.value))
            && (k < |rows| ==> Below(r.value, rows[k].rank))
  {
    hide Below, Positive, Between;
    var lo, hi := Lo(rows, k), Hi(rows, k);
    BetweenIsStrict(lo, hi);
    if k < |rows| {
      PositiveIsAboveZero(hi);
      PositiveIsNonEmpty(hi);
      BelowSortsFirst(lo, hi);
      TextLessCases(lo, hi);
    }
    match Between(lo, hi)
    case Ok(r) => BelowIsPositive(lo, r);
    case Err(RankOrder) =>
    case Err(NoReturn) =>
  }

  lemma PositiveIsNonEmpty(r: Rank)
    requires Positive(r)
    ensures r != []
  {
  }

  /** Placing a row at position k of an ascending project. */
  lemma PlaceAt(others: seq<Row>, self: Id, k: nat)
    requires Ascending(others) && k <= |others| && self !in Ids(others)
    requires Between(Lo(others, k), Hi(others, k)).Ok?
    ensures var row := Row(self, Between(Lo(others, k), Hi(others, k)).value);
            && Ascending(InsertByRank(others, row))
            && Ids(InsertByRank(others, row)) == Ids(others)[..k] + [self] + Ids(others)[k..]
  {
    hide Below, Positive, Between;
    var row := Row(self, Between(Lo(others, k), Hi(others, k)).value);
    RoomAt(others, k);
    forall i | 0 <= i < |others| ensures others[i].id != self { assert Ids(others)[i] == others[i].id; }
    InsertLands(others, row, k);
    SpliceIds(others, row, k);
  }

  lemma SpliceIds(others: seq<Row>, row: Row, k: nat)
    requires k <= |others|
    ensures Ids(others[..k] + [row] + others[k..]) == Ids(others)[..k] + [row.id] + Ids(others)[k..]
  {
  }

  /** One attempt on an ascending project: the row placed at its slot, or a rank that is too long. */
  lemma AttemptPlaces(rows: seq<Row>, self: Id, after: Option<Id>, attempt: nat)
    requires Ascending(rows) && attempt < 2
    ensures var others := Without(rows, self);
            match Slot(Drop(Ids(rows), self), after)
            case None => Move(rows, self, after, attempt) == Err(InvalidMove)
            case Some(k) =>
              && k <= |others|
              && var rank := Between(Lo(others, k), Hi(others, k));
              && rank.Ok? && |rank.value| <= Max(|Lo(others, k)|, |Hi(others, k)|) + 1
              && var out := InsertByRank(others, Row(self, rank.value));
              && Ascending(out) && MovedTo(Ids(rows), Ids(out), self, after)
              && Move(rows, self, after, attempt)
                 == if !NeedsRebalance(rank.value) then Ok(Placed(out, attempt))
                    else if Respread(rows).Err? then Err(Rejected)
                    else Move(Respread(rows).value, self, after, attempt + 1)
  {
    hide Below, Positive, Between, Ascending, InsertByRank, Neighbours;
    var others := Without(rows, self);
    NeighboursOfSlot(rows, self, after);
    WithoutAscends(rows, self);
    WithoutDrops(rows, self);
    SlotBound(Ids(others), after);
    if Slot(Ids(others), after).Some? {
      var k := Slot(Ids(others), after).value;
      RoomAt(others, k);
      forall i | 0 <= i < |others| ensures Ids(others)[i] != self { assert others[i] in others; }
      PlaceAt(others, self, k);
    }
  }

  /** On ranks of at most 39 digits an attempt never finds its new rank too long. */
  lemma ShortRanksPlace(rows: seq<Row>, self: Id, after: Option<Id>, attempt: nat)
    requires Ascending(rows) && attempt < 2 && Slot(Drop(Ids(rows), self), after).Some?
    requires forall i | 0 <= i < |rows| :: |rows[i].rank| <= 39
    ensures var m := Move(rows, self, after, attempt);
            m.Ok? && Ascending(m.value.rows) && MovedTo(Ids(rows), Ids(m.value.rows), self, after)
  {
    hide Below, Positive, Between, Ascending, InsertByRank, Neighbours, Move, MovedTo;
    AttemptPlaces(rows, self, after, attempt);
    WithoutAscends(rows, self);
    ShortBounds(rows, self, 39, Slot(Drop(Ids(rows), self), after).value);
  }

  /**
   Moving on any ascending project of fewer than 36^39 rows: refused exactly when the neighbour is
   not another row of the project; otherwise the row lands just past the neighbour (or first), the
   others keep their order through a respread, and the second attempt never needs a third.
   */
  lemma MovePlaces(rows: seq<Row>, self: Id, after: Option<Id>)
    requires Ascending(rows) && RS.Width(|rows|) <= 39
    ensures var m := Move(rows, self, after, 0);
            if after.Some? && after.value !in Drop(Ids(rows), self)
            then m == Err(InvalidMove)
            else m.Ok? && Ascending(m.value.rows) && MovedTo(Ids(rows), Ids(m.value.rows), self, after)
  {
    assert Respread(rows).Ok?;
    hide Below, Positive, Between, Ascending, InsertByRank, Neighbours, Move, MovedTo, Drop, Slot, Without;
    SlotBound(Drop(Ids(rows), self), after);
    if Slot(Drop(Ids(rows), self), after).Some? {
      RespreadAscends(rows);
      ShortRanksPlace(Respread(rows).value, self, after, 1);
    }
    AttemptPlaces(rows, self, after, 0);
  }

  lemma ShortBounds(rows: seq<Row>, self: Id, w: nat, k: nat)
    requires forall i | 0 <= i < |rows| :: |rows[i].rank| <= w
    requires forall r | r in Without(rows, self) :: r in rows
    requires k <= |Without(rows, self)|
    ensures |Lo(Without(rows, self), k)| <= w && |Hi(Without(rows, self), k)| <= w
  {
    var others := Without(rows, self);
    forall i | 0 <= i < |others| ensures |others[i].rank| <= w { assert others[i] in rows; }
  }

  /** At any size, moving keeps the project ascending or changes nothing, and always returns. */
  lemma MoveAscends(rows: seq<Row>, self: Id, after: Option<Id>, attempt: nat)
    requires Ascending(rows) && attempt <= 2
    ensures var m := Move(rows, self, after, attempt);
            && m != Err(Endless)
            && (m.Ok? ==> Ascending(m.value.rows) && MovedTo(Ids(rows), Ids(m.value.rows), self, after))
    decreases 2 - attempt
  {
    hide Below, Positive, Between, Ascending, InsertByRank, Neighbours;
    if attempt < 2 {
      AttemptPlaces(rows, self, after, attempt);
      if Respread(rows).Ok? {
        RespreadAscends(rows);
        MoveAscends(Respread(rows).value, self, after, attempt + 1);
      }
    }
  }

  /* ---------- whole histories ---------- */

  datatype Step = AppendItem(id: Id) | MoveItem(id: Id, after: Option<Id>) | Rebalance | RemoveItem(id: Id)

  /** One transaction on a project's ranks; a failed one changes nothing. */
  function Do(rows: seq<Row>, step: Step): seq<Row> {
    match step
    case AppendItem(id) =>
      if id in Ids(rows) then rows
      else (match Append(rows, id) case Ok(p) => p.rows case Err(_) => rows)
    case MoveItem(id, after) =>
      if id !in Ids(rows) then rows
      else (match Move(rows, id, after, 0) case Ok(p) => p.rows case Err(_) => rows)
    case Rebalance => (match Respread(rows) case Ok(p) => p case Err(_) => rows)
    case RemoveItem(id) => Without(rows, id)
  }

  function Run(steps: seq<Step>): seq<Row> {
    if steps == [] then [] else Do(Run(steps[..|steps| - 1]), steps[|steps| - 1])
  }

  /** Over any history of a project its ranks stay positive and ascending as fractions. */
  lemma {:induction false} EveryHistoryAscends(steps: seq<Step>)
    ensures Ascending(Run(steps))
  {
    if steps != [] {
      var before, step := Run(steps[..|steps| - 1]), steps[|steps| - 1];
      EveryHistoryAscends(steps[..|steps| - 1]);
      match step
      case AppendItem(id) => if id !in Ids(before) { AppendPlaces(before, id); }
      case MoveItem(id, after) => MoveAscends(before, id, after, 0);
      case Rebalance => if Respread(before).Ok? { RespreadAscends(before); }
      case RemoveItem(id) => WithoutAscends(before, id);
    }
  }

  /* ---------- the loops of the store ---------- */

  method RebalanceProjectRanks(rows: seq<Row>) returns (r: Result<seq<Row>, RankFailure>)
    requires Ascending(rows)
    ensures r == Respread(rows)
  {
    if |rows| == 0 { return Ok(rows); }
    var prior: seq<Rank> := [];
    for i := 0 to |rows|
      invariant |prior| == i && forall k | 0 <= k < i :: prior[k] == rows[k].rank
    {
      prior := prior + [rows[i].rank];
    }
    assert prior == Ranks(rows);
    var spread := RS.RankSequence(|rows|);
    RespreadIsTheRemap(rows);
    SameLength(|rows|, 0);
    if |spread[0]| > 40 { return Err(Rejected); }
    r := Ok(Remapped(rows, prior, spread));
  }

  method RankForNewItem(rows: seq<Row>, id: Id) returns (r: Result<Placed, RankFailure>)
    requires Ascending(rows)
    ensures r == Append(rows, id)
  {
    var last := if |rows| > 0 then rows[|rows| - 1].rank else [];
    var rank := RankBetween(last, []);
    AfterAbove(last);
    if NeedsRebalance(rank.value) {
      var spread := RebalanceProjectRanks(rows);
      if spread.Err? { return Err(spread.error); }
      last := if |spread.value| > 0 then spread.value[|spread.value| - 1].rank else [];
      rank := RankBetween(last, []);
      return Ok(Placed(InsertByRank(spread.value, Row(id, rank.value)), 1));
    }
    r := Ok(Placed(InsertByRank(rows, Row(id, rank.value)), 0));
  }

  method FindNeighbours(rows: seq<Row>, self: Id, after: Option<Id>) returns (r: Option<(Rank, Rank)>)
    ensures r == Neighbours(rows, self, after, after == None, [])
  {
    var lo: Rank, hi: Rank := [], [];
    var found := after == None;
    var i := 0;
    while i < |rows|
      invariant 0 <= i <= |rows| && hi == []
      invariant Neighbours(rows[i..], self, after, found, lo) == Neighbours(rows, self, after, after == None, [])
    {
      assert rows[i..][0] == rows[i] && rows[i..][1..] == rows[i + 1..];
      var candidate := rows[i];
      if candidate.id != self {
        if found {
          hi := candidate.rank;
          return Some((lo, hi));
        }
        if Some(candidate.id) == after {
          lo := candidate.rank;
          found := true;
        }
      }
      i := i + 1;
    }
    r := if found then Some((lo, hi)) else None;
  }

  /** The two attempts at a rank for a moved item. */
  method MoveRank(start: seq<Row>, self: Id, after: Option<Id>) returns (r: Result<Placed, RankFailure>)
    requires Ascending(start)
    ensures r == Move(start, self, after, 0)
  {
    var rows := start;
    for attempt := 0 to 2
      invariant Ascending(rows)
      invariant Move(rows, self, after, attempt) == Move(start, self, after, 0)
    {
      NeighboursOfSlot(rows, self, after);
      AttemptPlaces(rows, self, after, attempt);
      WithoutDrops(rows, self);
      var bounds := FindNeighbours(rows, self, after);
      if bounds == None { return Err(InvalidMove); }
      var (lo, hi) := bounds.value;
      BetweenIsStrict(lo, hi);
      var rank := RankBetween(lo, hi);
      if rank.Err? { return Err(OutOfOrder); }
      if !NeedsRebalance(rank.value) {
        return Ok(Placed(InsertByRank(Without(rows, self), Row(self, rank.value)), attempt));
      }
      var spread := RebalanceProjectRanks(rows);
      if spread.Err? { return Err(spread.error); }
      RespreadAscends(rows);
      rows := spread.value;
    }
    r := Err(OutOfOrder);
  }
}
