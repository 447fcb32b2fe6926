/**
 The store's unit of work (Mutate and flush, internal/store/mutate.go): one transaction reserves a
 block of sequence numbers, checks expected versions, applies the changes in order, brings the rollup
 cache up to date and writes the event log.
 */
module UnitOfWork {
  import opened Wrappers
  import opened Uuids
  import opened Paths
  import opened Items
  import opened Changes
  import R = Rollups
  import RL = RankList
  import K = RankKeys

  /* ---------- numbering the events ---------- */

  /** How many events the first k changes carry. */
  function Offset(changes: seq<Change>, k: nat): nat
    requires k <= |changes|
  {
    if k == 0 then 0 else Offset(changes, k - 1) + |changes[k - 1].events|
  }

  function EventCount(changes: seq<Change>): nat {
    Offset(changes, |changes|)
  }

  /** The number of the last event of change k, in a block that starts after base. */
  function LastSeq(changes: seq<Change>, base: nat, k: nat): nat
    requires k < |changes|
  {
    base + Offset(changes, k + 1)
  }

  /** The highest number given to any event of an item by the first k changes. */
  function ItemSeq(changes: seq<Change>, base: nat, k: nat, id: Id): nat
    requires k <= |changes|
  {
    if k == 0 then 0
    else if changes[k - 1].itemId == id && changes[k - 1].events != [] then LastSeq(changes, base, k - 1)
    else ItemSeq(changes, base, k - 1, id)
  }

  /** The rows of the event log for the first k changes, numbered from base + 1 on. */
  function EventRows(changes: seq<Change>, base: nat, k: nat): seq<Event>
    requires k <= |changes|
  {
    if k == 0 then [] else EventRows(changes, base, k - 1) + RowsFor(changes[k - 1], base + Offset(changes, k - 1))
  }

  function RowsFor(c: Change, base: nat): (rows: seq<Event>)
    ensures |rows| == |c.events|
  {
    seq(|c.events|, i requires 0 <= i < |c.events| => Event(base + i + 1, c.itemId, c.events[i]))
  }

  lemma {:induction false} EventRowsNumbered(changes: seq<Change>, base: nat, k: nat)
    requires k <= |changes|
    ensures var rows := EventRows(changes, base, k);
            |rows| == Offset(changes, k) && forall i | 0 <= i < |rows| :: rows[i].seqNo == base + i + 1
  {
    if k > 0 { EventRowsNumbered(changes, base, k - 1); }
  }

  lemma {:induction false} OffsetGrows(changes: seq<Change>, j: nat, k: nat)
    requires j <= k <= |changes|
    ensures Offset(changes, j) <= Offset(changes, k)
  {
    if j < k { OffsetGrows(changes, j, k - 1); }
  }

  /** The number an item is stamped with is at least that of each of its own events. */
  lemma {:induction false} ItemSeqCovers(changes: seq<Change>, base: nat, k: nat, j: nat)
    requires j < k <= |changes| && changes[j].events != []
    ensures LastSeq(changes, base, j) <= ItemSeq(changes, base, k, changes[j].itemId) <= base + Offset(changes, k)
    ensures ItemSeq(changes, base, k, changes[j].itemId) > base
  {
    OffsetGrows(changes, j + 1, k);
    OffsetGrows(changes, k - 1, k);
    if j < k - 1 { ItemSeqCovers(changes, base, k - 1, j); }
  }

  /* ---------- the flush as a function of the database ---------- */

  /** The expected versions all match live rows. */
  predicate VersionsMatch(items: Table, expected: map<Id, int>) {
    forall id | id in expected :: id in items && !items[id].deleted && items[id].version == expected[id]
  }

  /** The state after the first k changes. */
  ghost function ApplyAll(db: Db, changes: seq<Change>, k: nat): Result<Progress, Error>
    requires k <= |changes|
  {
    if k == 0 then Ok(Progress(db, {}, {}, {}))
    else match ApplyAll(db, changes, k - 1)
      case Err(e) => Err(e)
      case Ok(p) => ApplyOp(p, changes[k - 1].itemId, changes[k - 1].op,
                            ItemSeq(changes, db.counter, |changes|, changes[k - 1].itemId))
  }

  /** The ids whose rollups are recomputed: dirty ancestors that were not hard-deleted. */
  ghost predicate Recomputed(p: Progress, x: Id) {
    R.Dirty(p.touched, x) && x !in p.hardDeleted
  }

  /** The cache once created items have a row and the dirty ancestors are recomputed. */
  ghost function Refreshed(p: Progress): R.Cache {
    map x | x in p.db.items && (x in p.db.cache || x in p.created || Recomputed(p, x)) ::
      if Recomputed(p, x) then R.Aggregate(R.Live(p.db.items, x)) else Stored(p.db.cache, x)
  }

  /** Steps (e) to (g): a rollup row needs its item, so an item created and deleted again aborts. */
  ghost function Finish(p: Progress, changes: seq<Change>): Result<Db, Error> {
    if exists x :: (x in p.created || Recomputed(p, x)) && x !in p.db.items then Err(Constraint)
    else Ok(p.db.(cache := Refreshed(p), counter := p.db.counter + EventCount(changes),
                  events := p.db.events + EventRows(changes, p.db.counter, |changes|)))
  }

  ghost function Flushed(db: Db, changes: seq<Change>, expected: map<Id, int>): Result<Db, Error> {
    if !VersionsMatch(db.items, expected) then Err(VersionConflict)
    else match ApplyAll(db, changes, |changes|)
      case Err(e) => Err(e)
      case Ok(p) => Finish(p, changes)
  }

  /** Mutate refuses a mutation without changes, or with a change no event describes. */
  ghost function Mutated(db: Db, changes: seq<Change>, expected: map<Id, int>): Result<Db, Error> {
    if changes == [] then Err(EmptyMutation)
    else if exists i :: 0 <= i < |changes| && changes[i].events == [] then Err(NoEvents)
    else Flushed(db, changes, expected)
  }

  /* ---------- the invariant of the committed database ---------- */

  /** Stored rollups equal fresh aggregates, one row per item. */
  ghost predicate CacheCorrect(items: Table, cache: R.Cache) {
    && cache.Keys == items.Keys
    && forall x | x in items :: cache[x] == R.Aggregate(R.Live(items, x))
  }

  /** The event log is numbered 1 to counter, and no item is stamped past it. */
  ghost predicate LogSound(db: Db) {
    && |db.events| == db.counter
    && (forall i | 0 <= i < |db.events| :: db.events[i].seqNo == i + 1)
    && (forall d | d in db.items :: db.items[d].changeSeq <= db.counter)
  }

  ghost predicate Sound(db: Db) {
    Forest(db.items) && Ranked(db.items, db.ranks) && CacheCorrect(db.items, db.cache) && LogSound(db)
  }

  /** No item is inserted again after it was hard-deleted. */
  predicate NoRebirth(changes: seq<Change>) {
    forall i, j | 0 <= i < j < |changes| ::
      changes[i].op.HardDelete? && changes[j].op.Insert? ==> changes[i].itemId != changes[j].itemId
  }

  /** The number change k stamps its item with. */
  function StampOf(db: Db, changes: seq<Change>, k: nat): nat
    requires k < |changes|
  {
    ItemSeq(changes, db.counter, |changes|, changes[k].itemId)
  }

  lemma LastStep(db: Db, changes: seq<Change>, k: nat)
    requires 0 < k <= |changes| && ApplyAll(db, changes, k).Ok?
    ensures ApplyAll(db, changes, k - 1).Ok?
    ensures ApplyOp(ApplyAll(db, changes, k - 1).value, changes[k - 1].itemId, changes[k - 1].op,
            StampOf(db, changes, k - 1))
         == ApplyAll(db, changes, k)
  {
    hide ApplyOp, ItemSeq;
  }

  lemma NextStep(db: Db, changes: seq<Change>, k: nat)
    requires k < |changes| && ApplyAll(db, changes, k).Ok?
    ensures ApplyAll(db, changes, k + 1)
         == ApplyOp(ApplyAll(db, changes, k).value, changes[k].itemId, changes[k].op, StampOf(db, changes, k))
  {
    hide ApplyOp, ItemSeq;
  }

  lemma SoundTracks(db: Db)
    requires Sound(db)
    ensures Tracking(Progress(db, {}, {}, {}))
  {
    hide Forest, Ranked, R.Live, R.Aggregate;
    forall x ensures !R.Dirty({}, x) { }
  }

  lemma {:induction false} AllTrack(db: Db, changes: seq<Change>, k: nat)
    requires Sound(db) && k <= |changes| && ApplyAll(db, changes, k).Ok?
    ensures Tracking(ApplyAll(db, changes, k).value)
  {
    hide Sound, Tracking, ApplyOp;
    if k == 0 {
      SoundTracks(db);
    } else {
      LastStep(db, changes, k);
      AllTrack(db, changes, k - 1);
      hide ApplyAll;
      ApplyTracks(ApplyAll(db, changes, k - 1).value, changes[k - 1].itemId, changes[k - 1].op,
          StampOf(db, changes, k - 1));
    }
  }

  /** What one change leaves alone: the counter and the log, and all ids but its own. */
  ghost predicate OpFramed(p: Progress, q: Progress, id: Id, op: Op) {
    && q.db.counter == p.db.counter && q.db.events == p.db.events
    && q.hardDeleted == (if op.HardDelete? then p.hardDeleted + {id} else p.hardDeleted)
    && q.created == (if op.Insert? then p.created + {id} else p.created)
    && (forall d | d in q.db.items :: d in p.db.items || (d == id && op.Insert?))
    && (op.HardDelete? ==> id !in q.db.items && id !in q.db.cache)
    && (forall d | d in q.db.cache :: d in p.db.cache)
    && (forall d | d in p.db.items :: d in q.db.items || (d == id && op.HardDelete?))
  }

  lemma OpFrame(p: Progress, id: Id, op: Op, changeSeq: nat)
    requires ApplyOp(p, id, op, changeSeq).Ok?
    ensures OpFramed(p, ApplyOp(p, id, op, changeSeq).value, id, op)
  {
    hide RL.Append, RL.Move, MoveAllowed, TriggerAccepts, Referenced, MovedPaths, LinkRefused, PathCheck, RL.Without;
  }

  ghost predicate FramedAfter(db: Db, changes: seq<Change>, k: nat, p: Progress)
    requires k <= |changes|
  {
    && p.db.counter == db.counter && p.db.events == db.events
    && (forall d :: d in p.hardDeleted <==> DeletedBefore(changes, k, d))
    && (NoRebirth(changes) ==> forall d | d in p.hardDeleted :: d !in p.db.items)
    && (forall d | d in p.hardDeleted :: d !in p.db.cache)
    && (forall d | d in db.items :: d in p.db.items || d in p.hardDeleted)
  }

  ghost predicate DeletedBefore(changes: seq<Change>, k: nat, d: Id)
    requires k <= |changes|
  {
    exists i :: 0 <= i < k && changes[i].op.HardDelete? && changes[i].itemId == d
  }

  lemma DeletedStep(changes: seq<Change>, k: nat, d: Id)
    requires 0 < k <= |changes|
    ensures DeletedBefore(changes, k, d)
       <==> DeletedBefore(changes, k - 1, d) || (changes[k - 1].op.HardDelete? && changes[k - 1].itemId == d)
  {
  }

  lemma FrameStep(db: Db, changes: seq<Change>, k: nat, before: Progress, after: Progress)
    requires 0 < k <= |changes| && FramedAfter(db, changes, k - 1, before)
    requires OpFramed(before, after, changes[k - 1].itemId, changes[k - 1].op)
    ensures FramedAfter(db, changes, k, after)
  {
    forall d
      ensures d in after.hardDeleted <==> DeletedBefore(changes, k, d)
      ensures d in after.hardDeleted && NoRebirth(changes) ==> d !in after.db.items
    {
      DeletedStep(changes, k, d);
      if d in before.hardDeleted {
        var i :| 0 <= i < k - 1 && changes[i].op.HardDelete? && changes[i].itemId == d;
      }
    }
  }

  lemma {:induction false} AllFrame(db: Db, changes: seq<Change>, k: nat)
    requires k <= |changes| && ApplyAll(db, changes, k).Ok?
    ensures FramedAfter(db, changes, k, ApplyAll(db, changes, k).value)
  {
    if k > 0 {
      LastStep(db, changes, k);
      AllFrame(db, changes, k - 1);
      hide ApplyOp, ApplyAll, FramedAfter, OpFramed;
      OpFrame(ApplyAll(db, changes, k - 1).value, changes[k - 1].itemId, changes[k - 1].op,
          StampOf(db, changes, k - 1));
      FrameStep(db, changes, k, ApplyAll(db, changes, k - 1).value, ApplyAll(db, changes, k).value);
    }
  }

  lemma ZeroMeansNone(rows: map<Id, R.Facts>)
    ensures R.Aggregate(rows) == R.ZERO <==> rows == map[]
  {
    R.AggregateMeaning(rows);
  }

  /**
   After any list of changes, the refreshed cache is right exactly when no item that was hard-deleted
   and inserted again ends up with live descendants: those are the rollups the filter skips.
   */
  lemma RefreshedIsCorrectIff(p: Progress)
    requires Tracking(p) && forall d | d in p.hardDeleted :: d !in p.db.cache
    ensures forall x | Recomputed(p, x) :: x in p.db.items
    ensures CacheCorrect(p.db.items, Refreshed(p))
       <==> forall x | x in p.db.items && x in p.hardDeleted :: R.Live(p.db.items, x) == map[]
  {
    hide Forest, Ranked, R.Live, R.Aggregate, R.Dirty;
    var items, cache := p.db.items, Refreshed(p);
    forall x | x in items
      ensures x in cache
      ensures x !in p.hardDeleted ==> cache[x] == R.Aggregate(R.Live(items, x))
      ensures x in p.hardDeleted ==> (cache[x] == R.Aggregate(R.Live(items, x)) <==> R.Live(items, x) == map[])
    {
      ZeroMeansNone(R.Live(items, x));
      if !R.Dirty(p.touched, x) { assert Fresh(items, p.db.cache, x); }
    }
  }

  /* ---------- stamps: change_seq and version ---------- */

  /** What one change does to the stamps of an item that survives it. */
  ghost predicate StampedBy(before: Table, after: Table, id: Id, changeSeq: nat, d: Id)
    requires d in after
  {
    && (d == id ==> after[d].changeSeq == changeSeq && (d in before ==> after[d].version > before[d].version))
    && (d != id ==> d in before && after[d].version >= before[d].version
                    && (after[d].changeSeq == before[d].changeSeq || after[d].changeSeq == changeSeq))
  }

  lemma InsertStamps(p: Progress, id: Id, op: Op, changeSeq: nat)
    requires op.Insert? && ApplyInsert(p, id, op, changeSeq).Ok?
    ensures var after := ApplyInsert(p, id, op, changeSeq).value.db.items;
            forall d | d in after :: StampedBy(p.db.items, after, id, changeSeq, d)
  {
    hide RL.Append, PathCheck, ParentPath;
  }

  lemma ReparentStamps(p: Progress, id: Id, op: Op, changeSeq: nat)
    requires op.Reparent? && ApplyReparent(p, id, op, changeSeq).Ok?
    ensures var after := ApplyReparent(p, id, op, changeSeq).value.db.items;
            forall d | d in after :: StampedBy(p.db.items, after, id, changeSeq, d)
  {
    hide RL.Move, MoveAllowed, TriggerAccepts, MovedPaths, ParentPath, Rewritten;
  }

  /** Every kind of change stamps its own item and raises its version. */
  lemma OpStamps(p: Progress, id: Id, op: Op, changeSeq: nat)
    requires ApplyOp(p, id, op, changeSeq).Ok?
    ensures var q := ApplyOp(p, id, op, changeSeq).value;
            forall d | d in q.db.items :: StampedBy(p.db.items, q.db.items, id, changeSeq, d)
  {
    hide ApplyInsert, ApplyReparent, Referenced, LinkRefused, RL.Without;
    match op
    case Insert(_, _, _, _, _, _) => InsertStamps(p, id, op, changeSeq);
    case Reparent(_, _, _) => ReparentStamps(p, id, op, changeSeq);
    case _ =>
  }

  /** The stamps after k changes, relative to the committed state before the mutation. */
  ghost predicate StampsAfter(db: Db, changes: seq<Change>, k: nat, p: Progress, d: Id)
    requires k <= |changes| && d in p.db.items
  {
    var it := p.db.items[d];
    && (it.changeSeq > db.counter || (d in db.items && it.changeSeq == db.items[d].changeSeq))
    && it.changeSeq <= db.counter + EventCount(changes)
    && (d !in db.items ==> it.changeSeq > db.counter)
    && (forall j | 0 <= j < k && changes[j].itemId == d :: it.changeSeq >= LastSeq(changes, db.counter, j))
    && (d in db.items && d !in p.hardDeleted ==> it.version >= db.items[d].version)
    && (d in db.items && d !in p.hardDeleted ==>
          forall j | 0 <= j < k && changes[j].itemId == d :: it.version > db.items[d].version)
  }

  lemma UnchangedStamps(db: Db, changes: seq<Change>, d: Id)
    requires LogSound(db) && d in db.items
    ensures StampsAfter(db, changes, 0, Progress(db, {}, {}, {}), d)
  {
  }

  lemma TrackedForest(p: Progress)
    requires Tracking(p)
    ensures Forest(p.db.items)
  {
  }

  lemma SoundLog(db: Db)
    requires Sound(db)
    ensures LogSound(db)
  {
  }

  lemma {:induction false} AllStamp(db: Db, changes: seq<Change>, k: nat, d: Id)
    requires Sound(db) && k <= |changes| && ApplyAll(db, changes, k).Ok?
    requires forall i | 0 <= i < |changes| :: changes[i].events != []
    requires d in ApplyAll(db, changes, k).value.db.items
    ensures StampsAfter(db, changes, k, ApplyAll(db, changes, k).value, d)
  {
    hide ApplyOp, Sound, StampsAfter, Tracking, LogSound, Forest;
    if k == 0 {
      SoundLog(db);
      UnchangedStamps(db, changes, d);
    } else {
      LastStep(db, changes, k);
      AllTrack(db, changes, k - 1);
      AllFrame(db, changes, k - 1);
      hide ApplyAll;
      var before, after := ApplyAll(db, changes, k - 1).value, ApplyAll(db, changes, k).value;
      OpStamps(before, changes[k - 1].itemId, changes[k - 1].op, StampOf(db, changes, k - 1));
      OpFrame(before, changes[k - 1].itemId, changes[k - 1].op, StampOf(db, changes, k - 1));
      if d in before.db.items { AllStamp(db, changes, k - 1, d); }
      StampStep(db, changes, k, before, after, d);
    }
  }

  /** After change k the stamp of an item still covers each earlier change of it. */
  lemma SeqStep(changes: seq<Change>, base: nat, k: nat, d: Id, was: nat, now: nat, j: nat)
    requires j < k <= |changes| && changes[j].itemId == d
    requires forall i | 0 <= i < |changes| :: changes[i].events != []
    requires var x := changes[k - 1].itemId;
             d != x ==> (j < k - 1 ==> was >= LastSeq(changes, base, j))
                        && (now == was || now == ItemSeq(changes, base, |changes|, x))
    requires d == changes[k - 1].itemId ==> now == ItemSeq(changes, base, |changes|, d)
    ensures now >= LastSeq(changes, base, j)
  {
    ItemSeqCovers(changes, base, |changes|, k - 1);
    if d == changes[k - 1].itemId {
      ItemSeqCovers(changes, base, |changes|, j);
    } else {
      OffsetGrows(changes, j + 1, k);
    }
    hide ItemSeq;
  }

  lemma StampStep(db: Db, changes: seq<Change>, k: nat, before: Progress, after: Progress, d: Id)
    requires 0 < k <= |changes| && forall i | 0 <= i < |changes| :: changes[i].events != []
    requires d in before.db.items ==> StampsAfter(db, changes, k - 1, before, d)
    requires d in after.db.items
    requires var c := changes[k - 1];
             StampedBy(before.db.items, after.db.items, c.itemId, ItemSeq(changes, db.counter, |changes|, c.itemId), d)
    requires before.hardDeleted <= after.hardDeleted
    requires d in before.db.items || d in before.hardDeleted || d !in db.items
    ensures StampsAfter(db, changes, k, after, d)
  {
    hide ItemSeq, LastSeq, EventCount;
    ItemSeqCovers(changes, db.counter, |changes|, k - 1);
    var was := if d in before.db.items then before.db.items[d].changeSeq else 0;
    forall j | 0 <= j < k && changes[j].itemId == d
      ensures after.db.items[d].changeSeq >= LastSeq(changes, db.counter, j)
    {
      SeqStep(changes, db.counter, k, d, was, after.db.items[d].changeSeq, j);
    }
    StampInBlock(changes, db.counter, k);
  }

  lemma StampInBlock(changes: seq<Change>, base: nat, k: nat)
    requires 0 < k <= |changes| && forall i | 0 <= i < |changes| :: changes[i].events != []
    ensures base < ItemSeq(changes, base, |changes|, changes[k - 1].itemId) <= base + EventCount(changes)
  {
    ItemSeqCovers(changes, base, |changes|, k - 1);
    hide ItemSeq;
  }

  /* ---------- the main theorems ---------- */

  /** A committed mutation, taken apart. */
  lemma Committed(db: Db, changes: seq<Change>, expected: map<Id, int>)
    requires Mutated(db, changes, expected).Ok?
    ensures VersionsMatch(db.items, expected) && changes != []
    ensures forall i | 0 <= i < |changes| :: changes[i].events != []
    ensures ApplyAll(db, changes, |changes|).Ok?
    ensures var p := ApplyAll(db, changes, |changes|).value;
            && (forall x | x in p.created || Recomputed(p, x) :: x in p.db.items)
            && Mutated(db, changes, expected).value
               == p.db.(cache := Refreshed(p), counter := p.db.counter + EventCount(changes),
                        events := p.db.events + EventRows(changes, p.db.counter, |changes|))
  {
    hide ApplyAll, Refreshed, EventRows, Recomputed, VersionsMatch;
  }

  /**
   Any mutation that commits leaves the database sound: paths form a forest of depth at most 8 within
   projects, every rank list is ascending and complete, every item has exactly one rollup row and it
   equals a fresh aggregate, and the event log is numbered 1 to the counter.
   */
  lemma MutatedIsSound(db: Db, changes: seq<Change>, expected: map<Id, int>)
    requires Sound(db) && NoRebirth(changes) && Mutated(db, changes, expected).Ok?
    ensures Sound(Mutated(db, changes, expected).value)
  {
    hide Mutated, ApplyAll, Refreshed, EventRows, Forest, Ranked, Recomputed, Fresh, CacheCorrect;
    Committed(db, changes, expected);
    var p, q := ApplyAll(db, changes, |changes|).value, Mutated(db, changes, expected).value;
    AllTrack(db, changes, |changes|);
    AllFrame(db, changes, |changes|);
    RefreshedIsCorrectIff(p);
    forall d | d in q.items ensures q.items[d].changeSeq <= db.counter + EventCount(changes) {
      AllStamp(db, changes, |changes|, d);
    }
    MutatedLog(db, changes, q);
  }

  lemma MutatedLog(db: Db, changes: seq<Change>, q: Db)
    requires LogSound(db)
    requires q.counter == db.counter + EventCount(changes)
    requires q.events == db.events + EventRows(changes, db.counter, |changes|)
    requires forall d | d in q.items :: q.items[d].changeSeq <= q.counter
    ensures LogSound(q)
  {
    EventRowsNumbered(changes, db.counter, |changes|);
  }

  /** The rollup phase aborts a sound mutation only over an item it created and deleted again. */
  lemma RecomputeNeverAborts(db: Db, changes: seq<Change>)
    requires Sound(db) && ApplyAll(db, changes, |changes|).Ok?
    ensures var p := ApplyAll(db, changes, |changes|).value;
            Finish(p, changes).Err? <==> exists x :: x in p.created && x !in p.db.items
  {
    var p := ApplyAll(db, changes, |changes|).value;
    AllTrack(db, changes, |changes|);
    AllFrame(db, changes, |changes|);
    RefreshedIsCorrectIff(p);
    hide ApplyAll, Tracking, CacheCorrect, Refreshed, R.Dirty;
  }

  /**
   Stamps of a committed mutation, whatever the order of moves and edits in it: an item's change_seq
   lies in the allocated block or is unchanged, covers each of the item's own events, and never goes
   back.
   */
  lemma MutatedStamps(db: Db, changes: seq<Change>, expected: map<Id, int>, d: Id)
    requires Sound(db) && Mutated(db, changes, expected).Ok?
    requires d in Mutated(db, changes, expected).value.items
    ensures var it := Mutated(db, changes, expected).value.items[d];
            && it.changeSeq <= db.counter + EventCount(changes)
            && (it.changeSeq > db.counter || (d in db.items && it.changeSeq == db.items[d].changeSeq))
            && (d in db.items ==> it.changeSeq >= db.items[d].changeSeq)
            && (forall j | 0 <= j < |changes| && changes[j].itemId == d
                :: it.changeSeq >= LastSeq(changes, db.counter, j))
  {
    Committed(db, changes, expected);
    AllStamp(db, changes, |changes|, d);
    hide ApplyAll, Forest, Ranked, CacheCorrect, Refreshed, EventRows, Mutated;
  }

  /** Versions never go back for an item that is not hard-deleted, and rise with each of its changes. */
  lemma MutatedVersions(db: Db, changes: seq<Change>, expected: map<Id, int>, d: Id)
    requires Sound(db) && Mutated(db, changes, expected).Ok? && d in db.items
    requires !DeletedBefore(changes, |changes|, d)
    ensures d in Mutated(db, changes, expected).value.items
    ensures var it := Mutated(db, changes, expected).value.items[d];
            && it.version >= db.items[d].version
            && ((exists j :: 0 <= j < |changes| && changes[j].itemId == d) ==> it.version > db.items[d].version)
  {
    Committed(db, changes, expected);
    AllFrame(db, changes, |changes|);
    AllStamp(db, changes, |changes|, d);
    hide ApplyAll, Forest, Ranked, CacheCorrect, Refreshed, EventRows, Mutated;
  }

  /* ---------- without the proviso ---------- */

  /**
   Without the proviso: a committed mutation leaves every rollup right exactly when no item it
   hard-deleted and inserted again has live descendants at the end.
   */
  lemma MutatedCacheIff(db: Db, changes: seq<Change>, expected: map<Id, int>)
    requires Sound(db) && Mutated(db, changes, expected).Ok?
    ensures var after := Mutated(db, changes, expected).value;
            CacheCorrect(after.items, after.cache)
            <==> forall x | x in after.items && DeletedBefore(changes, |changes|, x) :: R.Live(after.items, x) == map[]
  {
    hide ApplyAll, Refreshed, EventRows, Recomputed, CacheCorrect, Mutated, DeletedBefore, R.Live, Tracking, Sound;
    Committed(db, changes, expected);
    var p := ApplyAll(db, changes, |changes|).value;
    AllTrack(db, changes, |changes|);
    AllFrame(db, changes, |changes|);
    RefreshedIsCorrectIff(p);
  }

  /**
   Any mutation that commits keeps the forest, the rank lists and the numbering of events and stamps;
   the database stays sound as a whole exactly when no item it hard-deleted and inserted again has
   live descendants at the end.
   */
  lemma MutatedIsSoundIff(db: Db, changes: seq<Change>, expected: map<Id, int>)
    requires Sound(db) && Mutated(db, changes, expected).Ok?
    ensures var after := Mutated(db, changes, expected).value;
            && Forest(after.items) && Ranked(after.items, after.ranks) && LogSound(after)
            && (Sound(after) <==>
                forall x | x in after.items && DeletedBefore(changes, |changes|, x) :: R.Live(after.items, x) == map[])
  {
    hide Mutated, ApplyAll, Refreshed, EventRows, Forest, Ranked, Recomputed, Fresh, CacheCorrect, DeletedBefore,
         R.Live;
    Committed(db, changes, expected);
    var p, after := ApplyAll(db, changes, |changes|).value, Mutated(db, changes, expected).value;
    AllTrack(db, changes, |changes|);
    AllFrame(db, changes, |changes|);
    forall d | d in after.items ensures after.items[d].changeSeq <= db.counter + EventCount(changes) {
      AllStamp(db, changes, |changes|, d);
    }
    MutatedLog(db, changes, after);
    MutatedCacheIff(db, changes, expected);
  }

  /** One root item, number 1, in project 9. */
  const ROOT: Item := Item(9, None, [1], Open, None, None, None, false, 1, 1)
  const ONE_ITEM: Db := Db(map[1 := ROOT], map[1 := R.ZERO], map[9 := [RL.Row(1, [23])]], map[], map[], 1,
      [Event(1, 1, "created")])

  /** Delete item 1 for good, insert it again, and give it a child. */
  const REBIRTH: seq<Change> := [Change(1, HardDelete, ["deleted"]),
                                 Change(1, Insert(9, None, Open, None, None, None), ["created"]),
                                 Change(2, Insert(9, Some(1), Open, None, None, None), ["created"])]

  lemma OneItemIsSound()
    ensures Sound(ONE_ITEM)
  {
    OneItemIsRanked();
    hide Ranked;
    assert Rooted(ONE_ITEM.items, 1);
    assert R.Live(ONE_ITEM.items, 1) == map[];
  }

  lemma OneItemIsRanked()
    ensures Ranked(ONE_ITEM.items, ONE_ITEM.ranks)
  {
    assert RL.Ids(ONE_ITEM.ranks[9]) == [1];
    assert K.Positive([23]) by { assert K.At([23], 0) > 0; }
  }

  lemma RebirthDeletes()
    ensures var p := Progress(ONE_ITEM, {}, {}, {});
            && ApplyHardDelete(p, 1).Ok?
            && var q := ApplyHardDelete(p, 1).value;
            && q.db.items == map[] && RowsOf(q.db, 9) == [] && q.created == {} && q.hardDeleted == {1}
  {
    assert Removed(ONE_ITEM.items, 1) == map[];
    assert RL.Without([RL.Row(1, [23])], 1) == [];
  }

  lemma RebirthInserts(p: Progress, stamp: nat)
    requires p.db.items == map[] && RowsOf(p.db, 9) == [] && p.created == {}
    ensures ApplyInsert(p, 1, REBIRTH[1].op, stamp).Ok?
    ensures var q := ApplyInsert(p, 1, REBIRTH[1].op, stamp).value;
            && q.db.items.Keys == {1} && q.db.items[1].path == [1] && q.db.items[1].project == 9
            && RowsOf(q.db, 9) == [RL.Row(1, [23])] && q.created == {1} && q.hardDeleted == p.hardDeleted
  {
    assert RL.Append([], 1) == Ok(RL.Placed([RL.Row(1, [23])], 0)) by {
      assert RL.RankPosition([], [23]) == 0;
      assert [] + [RL.Row(1, [23])] + [] == [RL.Row(1, [23])];
    }
  }

  lemma RebirthAddsChild(p: Progress, stamp: nat)
    requires p.db.items.Keys == {1} && p.db.items[1].path == [1] && p.db.items[1].project == 9
    requires RowsOf(p.db, 9) == [RL.Row(1, [23])] && p.created == {1}
    ensures ApplyInsert(p, 2, REBIRTH[2].op, stamp).Ok?
    ensures var q := ApplyInsert(p, 2, REBIRTH[2].op, stamp).value;
            && q.db.items.Keys == {1, 2} && q.db.items[1].path == [1] && q.db.items[2].path == [1, 2]
            && !q.db.items[2].deleted && q.created == {1, 2} && q.hardDeleted == p.hardDeleted
  {
    assert K.After([23]) == [24];
    assert RL.Append([RL.Row(1, [23])], 2).Ok?;
    assert [1] + [2] == [1, 2];
  }

  /** The concrete mutation commits and leaves item 1 with the rollup of a leaf. */
  lemma RebirthLeavesStaleRollup()
    ensures Sound(ONE_ITEM) && Mutated(ONE_ITEM, REBIRTH, map[]).Ok?
    ensures !CacheCorrect(Mutated(ONE_ITEM, REBIRTH, map[]).value.items, Mutated(ONE_ITEM, REBIRTH, map[]).value.cache)
  {
    OneItemIsSound();
    hide Sound, ApplyHardDelete, ApplyInsert, ItemSeq, CacheCorrect, R.Live, Refreshed, EventRows;
    var p0 := Progress(ONE_ITEM, {}, {}, {});
    assert ApplyAll(ONE_ITEM, REBIRTH, 0) == Ok(p0);
    NextStep(ONE_ITEM, REBIRTH, 0);
    RebirthDeletes();
    var p1 := ApplyHardDelete(p0, 1).value;
    assert ApplyAll(ONE_ITEM, REBIRTH, 1) == Ok(p1);
    NextStep(ONE_ITEM, REBIRTH, 1);
    RebirthInserts(p1, StampOf(ONE_ITEM, REBIRTH, 1));
    var p2 := ApplyInsert(p1, 1, REBIRTH[1].op, StampOf(ONE_ITEM, REBIRTH, 1)).value;
    assert ApplyAll(ONE_ITEM, REBIRTH, 2) == Ok(p2);
    NextStep(ONE_ITEM, REBIRTH, 2);
    RebirthAddsChild(p2, StampOf(ONE_ITEM, REBIRTH, 2));
    var p3 := ApplyInsert(p2, 2, REBIRTH[2].op, StampOf(ONE_ITEM, REBIRTH, 2)).value;
    assert ApplyAll(ONE_ITEM, REBIRTH, 3) == Ok(p3);
    RebirthConcludes(p3);
  }

  lemma RebirthConcludes(p: Progress)
    requires Sound(ONE_ITEM) && ApplyAll(ONE_ITEM, REBIRTH, |REBIRTH|) == Ok(p)
    requires p.db.items.Keys == {1, 2} && p.db.items[1].path == [1] && p.db.items[2].path == [1, 2]
    requires !p.db.items[2].deleted && p.created == {1, 2} && p.hardDeleted == {1}
    ensures Mutated(ONE_ITEM, REBIRTH, map[]).Ok?
    ensures !CacheCorrect(Mutated(ONE_ITEM, REBIRTH, map[]).value.items, Mutated(ONE_ITEM, REBIRTH, map[]).value.cache)
  {
    hide ApplyAll, Sound, Refreshed, EventRows;
    RecomputeNeverAborts(ONE_ITEM, REBIRTH);
    assert Mutated(ONE_ITEM, REBIRTH, map[]) == Finish(p, REBIRTH);
    MutatedCacheIff(ONE_ITEM, REBIRTH, map[]);
    assert DeletedBefore(REBIRTH, |REBIRTH|, 1) by { assert REBIRTH[0].op.HardDelete? && REBIRTH[0].itemId == 1; }
    assert 2 in R.Live(p.db.items, 1);
  }
}
