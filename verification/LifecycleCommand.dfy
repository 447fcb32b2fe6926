/** The operator commands and the request guard as code (cmd/sierxctl/lifecycle.go, internal/lifecycle). */
module LifecycleCommand {
  import opened Wrappers
  import opened Journal
  import L = Lifecycle

  /** Journal file, checkpoint file, lock directory and database of one instance. */
  class Host {
    const key: nat
    const instance: string
    const rules: Rules
    var lines: seq<Line>
    var torn: bool
    var checkpoint: Checkpoint
    var db: Database
    var locked: bool
    var stamp: nat                        // identity of the checkpoint file: every rename makes a new one
    ghost var backups: set<Database>
    ghost var written: map<nat, Head>     // what each checkpoint file has held

    /** The protocol state of the host while no command runs. */
    ghost function AtRest(): L.State
      reads this
    {
      L.State(key, instance, rules, lines, torn, checkpoint, db, backups, locked, L.Idle)
    }

    ghost predicate Valid()
      reads this
    {
      && L.Inv(AtRest())
      && stamp in written && written[stamp] == checkpoint.head && forall k | k in written :: k <= stamp
    }

    constructor (key: nat, instance: string, rules: Rules, content: Content)
      requires instance != ""
      ensures Valid() && lines == [] && db == L.EmptyDatabase(instance, content) && !locked && !torn
      ensures this.key == key && this.instance == instance && this.rules == rules
    {
      this.key, this.instance, this.rules := key, instance, rules;
      lines, torn, locked, stamp := [], false, false, 0;
      checkpoint := Checkpoint(Head(instance, 0, NoHash), key);
      db := L.EmptyDatabase(instance, content);
      backups := {L.EmptyDatabase(instance, content)};
      written := map[0 := Head(instance, 0, NoHash)];
      new;
      L.InitHasInv(AtRest());
    }

    /** writeHead: a new file renamed over the old one. */
    method WriteHead(head: Head)
      requires stamp in written && forall k | k in written :: k <= stamp
      modifies this`checkpoint, this`stamp, this`written
      ensures checkpoint == Checkpoint(head, key)
      ensures stamp == old(stamp) + 1 && written == old(written)[stamp := head]
    {
      stamp := stamp + 1;
      checkpoint := Checkpoint(head, key);
      written := written[stamp := head];
    }

    /** Append: the sealed line is written first, the checkpoint after it. */
    method Append(j: Loaded, a: Action, size: nat) returns (r: Option<Loaded>)
      requires stamp in written && forall k | k in written :: k <= stamp
      modifies this`lines, this`checkpoint, this`stamp, this`written
      ensures r.Some? <==> Appendable(old(lines), j.head, a, size)
      ensures r.None? ==> lines == old(lines) && checkpoint == old(checkpoint)
      ensures r.None? ==> stamp == old(stamp) && written == old(written)
      ensures r.Some? ==>
                var l := NextLine(j.head, key, a, size);
                && lines == old(lines) + [l] && r == Some(L.Extended(j, l))
                && checkpoint == Checkpoint(r.value.head, key)
                && stamp == old(stamp) + 1 && written == old(written)[stamp := r.value.head]
    {
      if a.instance != j.head.instance { return None; }
      var l := NextLine(j.head, key, a, size);
      if size > LINE_LIMIT { return None; }
      if Bytes(lines) + size + 1 > CAPACITY { return None; }
      lines := lines + [l];
      var next := L.Extended(j, l);
      WriteHead(next.head);
      r := Some(next);
    }

    /** reconcile-checkpoint; it reports success only when the database is at the head as well. */
    method Reconcile() returns (ok: bool)
      requires Valid()
      modifies this
      ensures Valid()
      ensures AtRest() == if old(locked) || old(torn) || !Scannable(old(lines)) then old(AtRest())
                          else old(AtRest()).(checkpoint := Checkpoint(HeadAt(lines, instance, |lines|), key))
      ensures ok <==> !old(locked) && !old(torn) && Scannable(old(lines)) && L.Current(AtRest())
    {
      hide L.Inv, Loads, L.Durable, Scannable, WholeJournal, Prefix, Matches, HeadAt;
      if locked { return false; }
      ghost var before := AtRest();
      L.ReadyToReconcile(before);
      var j := Load(lines, torn, key, checkpoint, true);
      if j.Err? { return false; }
      WriteHead(j.value.head);
      assert AtRest() == before.(checkpoint := Checkpoint(HeadAt(lines, instance, |lines|), key));
      if !Prefix(j.value, DatabaseHead(db)) { return false; }
      ok := Matches(j.value, DatabaseHead(db));
    }

    /** The journal, read, with the database on it. */
    method ReadPrefix() returns (r: Option<Loaded>)
      requires Valid()
      ensures r.Some? <==> !locked && !torn && Scannable(lines) && checkpoint.head.sequence == |lines|
      ensures r.Some? ==> r.value == WholeJournal(lines, instance)
    {
      if locked { return None; }
      L.ReadableIff(AtRest());
      L.DatabaseStays(AtRest());
      L.PrefixWhole(AtRest());
      hide L.Inv, Loads, Prefix, WholeJournal;
      var j := Load(lines, torn, key, checkpoint, false);
      if j.Err? { return None; }
      if !Prefix(j.value, DatabaseHead(db)) { return None; }
      r := Some(j.value);
    }

    /** replay: all pending decisions in one transaction, or, when one is refused, none. */
    method ReplayAll() returns (ok: bool)
      requires Valid()
      modifies this`db, this`backups
      ensures Valid()
      ensures ok <==>
              && !old(locked) && !old(torn) && Scannable(old(lines))
              && old(checkpoint.head.sequence) == |old(lines)| && old(L.PendingAccepted(AtRest()))
      ensures ok ==> Replayed(rules, lines, old(db)) == Some(db) && L.GuardAdmits(AtRest())
                     && AtRest() == old(AtRest()).(db := db, backups := old(backups) + {db})
      ensures !ok ==> AtRest() == old(AtRest())
    {
      hide L.Inv, DatabaseAt, WholeJournal, Chained, Scannable, Accepted;
      ghost var before := AtRest();
      var j := ReadPrefix();
      if j.None? { return false; }
      L.ReplayedIsSound(before);
      hide L.GuardAdmits;
      var tx := Replay(rules, j.value, db, lines, key);
      if tx.None? { return false; }
      db := tx.value;
      backups := backups + {db};
      ok := true;
    }

    /** The journal and the database head, read and found to match. */
    method ReadCurrent() returns (r: Option<Loaded>)
      requires Valid()
      ensures r.Some? <==> !locked && !torn && Scannable(lines) && L.Current(AtRest())
      ensures r.Some? ==> r.value == WholeJournal(lines, instance)
    {
      r := ReadPrefix();
      L.PrefixWhole(AtRest());
      hide L.Inv, Matches;
      if r.Some? && !Matches(r.value, DatabaseHead(db)) { r := None; }
    }

    /** verify: success means that the guard admits requests and nothing is pending. */
    method Verify() returns (ok: bool)
      requires Valid()
      ensures ok <==> !locked && !torn && Scannable(lines) && L.Current(AtRest())
      ensures ok ==> L.GuardAdmits(AtRest())
    {
      var j := ReadCurrent();
      L.DatabaseStays(AtRest());
      ok := j.Some?;
    }

    /** The database transaction: one decision, applied and committed. */
    method CommitDecision(e: Entry) returns (ok: bool)
      modifies this`db, this`backups
      ensures ok <==> ApplyRecord(rules, old(db), e).Some?
      ensures ok ==> db == ApplyRecord(rules, old(db), e).value && backups == old(backups) + {db}
      ensures !ok ==> db == old(db) && backups == old(backups)
    {
      hide ApplyRecord;
      var tx := ApplyRecord(rules, db, e);
      if tx.None? { return false; }
      db := tx.value;
      backups := backups + {db};
      ok := true;
    }

    /** Journal, checkpoint, database, in that order, for a journal that was just read. */
    method Advance(j: Loaded, a: Action, size: nat) returns (appended: bool, ok: bool)
      requires stamp in written && forall k | k in written :: k <= stamp
      modifies this`lines, this`checkpoint, this`stamp, this`written, this`db, this`backups
      ensures appended <==> Appendable(old(lines), j.head, a, size)
      ensures ok <==> appended && ApplyRecord(rules, old(db), L.NextEntry(j.head, key, a, size)).Some?
      ensures appended ==> stamp == old(stamp) + 1 && written == old(written)[stamp := checkpoint.head]
      ensures appended ==> lines == old(lines) + [NextLine(j.head, key, a, size)]
                           && checkpoint == Checkpoint(L.Extended(j, NextLine(j.head, key, a, size)).head, key)
      ensures !appended ==> lines == old(lines) && checkpoint == old(checkpoint)
      ensures !appended ==> stamp == old(stamp) && written == old(written)
      ensures ok ==> ApplyRecord(rules, old(db), L.NextEntry(j.head, key, a, size)) == Some(db)
      ensures ok ==> backups == old(backups) + {db}
      ensures !ok ==> db == old(db) && backups == old(backups)
    {
      hide ApplyRecord, NextLine, Appendable;
      var next := Append(j, a, size);
      if next.None? { return false, false; }
      appended := true;
      ok := CommitDecision(next.value.entries[|next.value.entries| - 1]);
    }

    /**
     apply: nothing is written unless all three stores agree and the plan was accepted.  A decision
     that the tables refuse after it was written down stays pending in the journal.
     */
    method Apply(prepared: Option<Action>, size: nat) returns (ok: bool)
      requires Valid()
      modifies this
      ensures Valid()
      ensures var head := HeadAt(old(lines), instance, |old(lines)|);
              var appended := !old(locked) && !old(torn) && Scannable(old(lines)) && old(L.Current(AtRest()))
                              && prepared.Some? && Appendable(old(lines), head, prepared.value, size);
              && (ok <==> appended && rules.accepts(old(db.content), prepared.value))
              && (ok ==> AtRest() == L.Applied(old(AtRest()), prepared.value, size))
              && (!ok && appended ==> AtRest() == L.Announced(old(AtRest()), prepared.value, size))
              && (!appended ==> AtRest() == old(AtRest()))
    {
      ghost var before := AtRest();
      hide Appendable, Scannable, L.Inv, WholeJournal, L.Applied, L.Announced, L.Extended, NextLine, L.NextEntry,
           ApplyRecord, HeadAt, L.Current;
      var j := ReadCurrent();
      if j.None? || prepared.None? { return false; }
      L.WholeHead(lines, instance);
      if Appendable(lines, HeadAt(lines, instance, |lines|), prepared.value, size) {
        L.AppendedDecision(before, prepared.value, size);
      }
      var appended;
      appended, ok := Advance(j.value, prepared.value, size);
    }
  }

  /** The request guard: it caches the checkpoint it read until the file changes. */
  class Guard {
    var cached: Option<(nat, Head)>

    ghost predicate Valid(host: Host)
      reads this, host
    {
      cached.Some? ==> cached.value.0 in host.written && host.written[cached.value.0] == cached.value.1
    }

    constructor ()
      ensures cached == None
    {
      cached := None;
    }

    method TrustedHead(host: Host) returns (h: Option<Head>)
      requires host.Valid() && Valid(host)
      modifies this
      ensures Valid(host) && h == Some(host.checkpoint.head)
    {
      L.DatabaseStays(host.AtRest());
      var stamp := host.stamp;
      if cached.None? || cached.value.0 != stamp {
        var cp := host.checkpoint;
        if cp.head.instance == "" || cp.macKey != host.key { return None; }
        cached := Some((stamp, cp.head));
      }
      h := Some(cached.value.1);
    }

    /** A request passes exactly when the database is at the checkpoint on disk, cached or not. */
    method Check(host: Host) returns (ok: bool)
      requires host.Valid() && Valid(host)
      modifies this
      ensures Valid(host)
      ensures ok <==> L.GuardAdmits(host.AtRest())
      ensures ok ==> host.checkpoint.head.sequence <= |host.lines|
                     && host.db.applied == Actions(host.lines[..host.checkpoint.head.sequence])
    {
      L.DatabaseStays(host.AtRest());
      var expected := TrustedHead(host);
      if expected.None? { return false; }
      ok := DatabaseHead(host.db) == expected.value;
    }
  }
}
