/**
 Transactions over time (internal/store/mutate.go, internal/store/gen/workspace.sql.go,
 internal/api/changes.go): mutations of several writers interleave, each holding the counter row from
 AllocateSeq to commit or rollback, while readers page through the event log.
 */
module History {
  import opened Wrappers
  import opened Uuids
  import opened Items
  import opened Changes
  import opened UnitOfWork
  import O = Outcomes
  import opened Mutations
  import R = Rollups

  datatype Mutation = Mutation(changes: seq<Change>, expected: map<Id, int>)

  /** A mutation as the store can build it: registered changes, or one hard delete on its own. */
  ghost predicate Buildable(m: Mutation) {
    Registered(m.changes) || (|m.changes| == 1 && m.changes[0].op.HardDelete?)
  }

  /** A writer waits for the counter row, or holds it with the tables it will commit. */
  datatype Writer = Waiting(m: Mutation) | Holding(m: Mutation, result: Result<Db, Error>)

  datatype Reader = Reader(since: nat, received: seq<Event>)

  datatype System = System(db: Db, writers: map<nat, Writer>, lock: Option<nat>, readers: map<nat, Reader>,
                           past: seq<Db>, commits: seq<Mutation>)

  datatype Step =
    | Begin(w: nat, m: Mutation)
    | Acquire(w: nat)
    | Commit(w: nat)
    | Rollback(w: nat)
    | Poll(r: nat, limit: nat)

  /** Committed events with a number past since, in order, at most limit of them. */
  function EventsAfter(log: seq<Event>, since: nat, limit: nat): seq<Event> {
    if log == [] || limit == 0 then []
    else if log[0].seqNo > since then [log[0]] + EventsAfter(log[1..], since, limit - 1)
    else EventsAfter(log[1..], since, limit)
  }

  /** The rows of one page, read in a loop that advances the cursor to the last one. */
  method ReadPage(log: seq<Event>, since: nat, limit: nat) returns (data: seq<Event>, next: nat)
    ensures data == EventsAfter(log, since, limit)
    ensures next == if data == [] then since else data[|data| - 1].seqNo
  {
    var rows := EventsAfter(log, since, limit);
    data, next := [], since;
    for i := 0 to |rows|
      invariant data == rows[..i]
      invariant next == if i == 0 then since else rows[i - 1].seqNo
    {
      next := rows[i].seqNo;
      data := data + [rows[i]];
    }
  }

  ghost predicate Init(s: System) {
    && Sound(s.db) && s.writers == map[] && s.lock == None && s.past == [s.db] && s.commits == []
    && forall r | r in s.readers :: s.readers[r] == Reader(0, [])
  }

  /** AllocateSeq locks the counter row, so only one writer at a time gets past it. */
  ghost predicate Next(s: System, t: System, step: Step) {
    match step
    case Begin(w, m) => Buildable(m) && w !in s.writers && t == s.(writers := s.writers[w := Waiting(m)])
    case Acquire(w) =>
      && w in s.writers && s.writers[w].Waiting? && s.lock == None
      && var m := s.writers[w].m;
      && t == s.(lock := Some(w), writers := s.writers[w := Holding(m, Mutated(s.db, m.changes, m.expected))])
    case Commit(w) =>
      && w in s.writers && s.writers[w].Holding? && s.writers[w].result.Ok?
      && var db := s.writers[w].result.value;
      && t == s.(db := db, lock := None, writers := s.writers - {w}, past := s.past + [db],
                 commits := s.commits + [s.writers[w].m])
    case Rollback(w) =>
      && w in s.writers
      && t == s.(lock := if s.lock == Some(w) then None else s.lock, writers := s.writers - {w})
    case Poll(r, limit) =>
      && r in s.readers
      && var page := EventsAfter(s.db.events, s.readers[r].since, limit);
      && var next := if page == [] then s.readers[r].since else page[|page| - 1].seqNo;
      && t == s.(readers := s.readers[r := Reader(next, s.readers[r].received + page)])
  }

  ghost predicate Behaviour(run: seq<System>, steps: seq<Step>) {
    && |run| == |steps| + 1 && Init(run[0])
    && forall i | 0 <= i < |steps| :: Next(run[i], run[i + 1], steps[i])
  }

  /** The committed databases, one after the other. */
  ghost predicate Chain(past: seq<Db>, commits: seq<Mutation>) {
    && |past| == |commits| + 1
    && (forall i | 0 <= i < |past| :: Sound(past[i]))
    && (forall i | 0 <= i < |commits| ::
          Buildable(commits[i]) && Mutated(past[i], commits[i].changes, commits[i].expected) == Ok(past[i + 1]))
  }

  ghost predicate ReaderInStep(log: seq<Event>, r: Reader) {
    r.since <= |log| && r.received == log[..r.since]
  }

  ghost predicate Inv(s: System) {
    && Chain(s.past, s.commits) && s.past[|s.past| - 1] == s.db
    && (forall w | w in s.writers :: Buildable(s.writers[w].m))
    && (forall w | w in s.writers && s.writers[w].Holding? ::
          s.lock == Some(w) && s.writers[w].result == Mutated(s.db, s.writers[w].m.changes, s.writers[w].m.expected))
    && (forall r | r in s.readers :: ReaderInStep(s.db.events, s.readers[r]))
  }

  lemma BuildableHasNoRebirth(m: Mutation)
    requires Buildable(m)
    ensures NoRebirth(m.changes)
  {
  }

  /** A commit extends the log at its end with consecutively numbered events. */
  lemma CommitExtendsLog(db: Db, m: Mutation)
    requires Sound(db) && Buildable(m) && Mutated(db, m.changes, m.expected).Ok?
    ensures var after := Mutated(db, m.changes, m.expected).value;
            Sound(after) && db.events <= after.events
  {
    hide Sound, Mutated, ApplyAll;
    BuildableHasNoRebirth(m);
    MutatedIsSound(db, m.changes, m.expected);
    Committed(db, m.changes, m.expected);
    AllFrame(db, m.changes, |m.changes|);
  }

  lemma {:induction false} PageIsSlice(log: seq<Event>, base: nat, since: nat, limit: nat)
    requires forall i | 0 <= i < |log| :: log[i].seqNo == base + i + 1
    requires base <= since <= base + |log|
    ensures EventsAfter(log, since, limit)
         == log[since - base..if since - base + limit <= |log| then since - base + limit else |log|]
  {
    if log != [] && limit > 0 {
      if base == since {
        PageFromStart(log, base, limit);
      } else {
        PageIsSlice(log[1..], base + 1, since, limit);
      }
    }
  }

  lemma {:induction false} PageFromStart(log: seq<Event>, since: nat, limit: nat)
    requires forall i | 0 <= i < |log| :: log[i].seqNo > since
    ensures EventsAfter(log, since, limit) == log[..if limit <= |log| then limit else |log|]
  {
    if log != [] && limit > 0 {
      PageFromStart(log[1..], since, limit - 1);
      var n := if limit <= |log| then limit else |log|;
      assert log[..n] == [log[0]] + log[1..][..n - 1];
    }
  }

  /** A reader's next slice joins what it has received. */
  lemma SliceJoins(log: seq<Event>, since: nat, to: nat, page: seq<Event>)
    requires forall i | 0 <= i < |log| :: log[i].seqNo == i + 1
    requires since <= to <= |log| && page == log[since..to]
    ensures log[..since] + page == log[..to]
    ensures (if page == [] then since else page[|page| - 1].seqNo) == to
  {
    if page != [] { assert page[|page| - 1] == log[to - 1]; }
  }

  lemma Numbered(db: Db)
    requires LogSound(db)
    ensures |db.events| == db.counter && forall i | 0 <= i < |db.events| :: db.events[i].seqNo == i + 1
  {
  }

  lemma PollKeepsReader(db: Db, r: Reader, limit: nat)
    requires LogSound(db) && ReaderInStep(db.events, r)
    ensures var page := EventsAfter(db.events, r.since, limit);
            var next := if page == [] then r.since else page[|page| - 1].seqNo;
            && ReaderInStep(db.events, Reader(next, r.received + page))
            && (limit > 0 && r.since < db.counter ==> next > r.since)
  {
    hide LogSound, EventsAfter;
    Numbered(db);
    PageIsSlice(db.events, 0, r.since, limit);
    var to := if r.since + limit <= |db.events| then r.since + limit else |db.events|;
    SliceJoins(db.events, r.since, to, EventsAfter(db.events, r.since, limit));
  }

  lemma StepKeepsInv(s: System, t: System, step: Step)
    requires Inv(s) && Next(s, t, step)
    ensures Inv(t)
  {
    hide Mutated, Sound, EventsAfter;
    match step
    case Begin(w, m) =>
    case Acquire(w) =>
    case Commit(w) =>
      CommitExtendsLog(s.db, s.writers[w].m);
      ReadersKeepUp(s, t);
    case Rollback(w) =>
    case Poll(r, limit) =>
      SoundLog(s.db);
      PollKeepsReader(s.db, s.readers[r], limit);
  }

  lemma ReadersKeepUp(s: System, t: System)
    requires forall r | r in s.readers :: ReaderInStep(s.db.events, s.readers[r])
    requires t.readers == s.readers && s.db.events <= t.db.events
    ensures forall r | r in t.readers :: ReaderInStep(t.db.events, t.readers[r])
  {
    forall r | r in t.readers ensures ReaderInStep(t.db.events, t.readers[r]) {
      var k := t.readers[r].since;
      assert t.db.events[..k] == s.db.events[..k];
    }
  }

  lemma {:induction false} EveryStateHasInv(run: seq<System>, steps: seq<Step>, i: nat)
    requires Behaviour(run, steps) && i < |run|
    ensures Inv(run[i])
  {
    hide Inv, Next, Sound;
    if i == 0 {
      InitHasInv(run[0]);
    } else {
      EveryStateHasInv(run, steps, i - 1);
      StepKeepsInv(run[i - 1], run[i], steps[i - 1]);
    }
  }

  lemma InitHasInv(s: System)
    requires Init(s)
    ensures Inv(s)
  {
    hide Sound;
  }

  /**
   Over every interleaving: the committed database is sound (in particular its events are numbered
   exactly 1 to the counter), and each reader has received exactly the events up to its cursor, each
   once and in order, so polling never skips one that commits later.
   */
  lemma EveryInterleaving(run: seq<System>, steps: seq<Step>, i: nat)
    requires Behaviour(run, steps) && i < |run|
    ensures Sound(run[i].db)
    ensures forall k | 0 <= k < |run[i].db.events| :: run[i].db.events[k].seqNo == k + 1
    ensures |run[i].db.events| == run[i].db.counter
    ensures forall r | r in run[i].readers ::
              run[i].readers[r].since <= run[i].db.counter
              && run[i].readers[r].received == run[i].db.events[..run[i].readers[r].since]
  {
    EveryStateHasInv(run, steps, i);
    SoundLog(run[i].db);
    hide Sound;
  }

  /* ---------- no lost update ---------- */

  ghost predicate HardDeletes(m: Mutation, x: Id) {
    DeletedBefore(m.changes, |m.changes|, x)
  }

  ghost predicate Writes(m: Mutation, x: Id) {
    exists k :: 0 <= k < |m.changes| && m.changes[k].itemId == x
  }

  lemma {:induction false} VersionOnlyRises(past: seq<Db>, commits: seq<Mutation>, i: nat, j: nat, x: Id)
    requires Chain(past, commits) && i <= j < |past| && x in past[i].items
    requires forall k | i <= k < j :: !HardDeletes(commits[k], x)
    ensures x in past[j].items && past[j].items[x].version >= past[i].items[x].version
    ensures i < j && Writes(commits[i], x) ==> past[j].items[x].version > past[i].items[x].version
  {
    hide Mutated, Sound;
    if i < j {
      VersionOnlyRises(past, commits, i, j - 1, x);
      assert Mutated(past[j - 1], commits[j - 1].changes, commits[j - 1].expected) == Ok(past[j - 1 + 1]);
      MutatedVersions(past[j - 1], commits[j - 1].changes, commits[j - 1].expected, x);
    }
  }

  /**
   Of any two committed mutations that expected the same version of an item, the first of which wrote
   it, some commit from the first up to the second must have hard-deleted the item: without that, at
   most one commits.
   */
  lemma NoLostUpdate(past: seq<Db>, commits: seq<Mutation>, i: nat, j: nat, x: Id)
    requires Chain(past, commits) && i < j < |commits|
    requires x in commits[i].expected && x in commits[j].expected && commits[i].expected[x] == commits[j].expected[x]
    requires Writes(commits[i], x)
    ensures exists k :: i <= k < j && HardDeletes(commits[k], x)
  {
    hide ApplyAll, Sound;
    assert Mutated(past[i], commits[i].changes, commits[i].expected) == Ok(past[i + 1]);
    assert Mutated(past[j], commits[j].changes, commits[j].expected) == Ok(past[j + 1]);
    Committed(past[i], commits[i].changes, commits[i].expected);
    Committed(past[j], commits[j].changes, commits[j].expected);
    if forall k | i <= k < j :: !HardDeletes(commits[k], x) {
      VersionOnlyRises(past, commits, i, j, x);
    }
  }

  /** Every run of the system is such a chain of commits. */
  lemma NoLostUpdateInRuns(run: seq<System>, steps: seq<Step>, n: nat, i: nat, j: nat, x: Id)
    requires Behaviour(run, steps) && n < |run| && i < j < |run[n].commits|
    requires var c := run[n].commits;
             x in c[i].expected && x in c[j].expected && c[i].expected[x] == c[j].expected[x] && Writes(c[i], x)
    ensures exists k :: i <= k < j && HardDeletes(run[n].commits[k], x)
  {
    EveryStateHasInv(run, steps, n);
    NoLostUpdate(run[n].past, run[n].commits, i, j, x);
  }

  /** Whatever a committed mutation expected was so in the database it was applied to. */
  lemma ExpectationsHeld(past: seq<Db>, commits: seq<Mutation>, i: nat, x: Id)
    requires Chain(past, commits) && i < |commits| && x in commits[i].expected
    ensures x in past[i].items && !past[i].items[x].deleted && past[i].items[x].version == commits[i].expected[x]
  {
    hide ApplyAll, Sound, Mutated, VersionsMatch;
    assert Mutated(past[i], commits[i].changes, commits[i].expected) == Ok(past[i + 1]);
    Committed(past[i], commits[i].changes, commits[i].expected);
    O.RefusedIff(past[i], commits[i].changes, commits[i].expected);
  }

  lemma ExpectationsHeldInRuns(run: seq<System>, steps: seq<Step>, n: nat, i: nat, x: Id)
    requires Behaviour(run, steps) && n < |run| && i < |run[n].commits| && x in run[n].commits[i].expected
    ensures i < |run[n].past|
    ensures var before := run[n].past[i];
            x in before.items && !before.items[x].deleted && before.items[x].version == run[n].commits[i].expected[x]
  {
    EveryStateHasInv(run, steps, n);
    ExpectationsHeld(run[n].past, run[n].commits, i, x);
  }
}
