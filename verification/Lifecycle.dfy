/**
 The lifecycle protocol (cmd/sierxctl/lifecycle.go, internal/lifecycle): journal, checkpoint and
 database are advanced in that order, a crash can fall between any two steps, and the database may be
 restored from any earlier backup.
 */
module Lifecycle {
  import opened Wrappers
  import opened Journal

  datatype Mode = ApplyMode(action: Action, size: nat) | ReplayMode | VerifyMode | ReconcileMode

  /** Where a running command stands.  tx is the database inside its open transaction. */
  datatype Process =
    | Idle
    | Started(mode: Mode)
    | Opened(mode: Mode, j: Loaded)
    | InTx(mode: Mode, j: Loaded, tx: Database)
    | Written(j: Loaded, tx: Database)
    | Pointed(j: Loaded, tx: Database)
    | Ready(tx: Database)

  datatype State = State(key: nat, instance: string, rules: Rules, lines: seq<Line>, torn: bool, checkpoint: Checkpoint,
                         db: Database, backups: set<Database>, locked: bool, process: Process)

  datatype Step =
    | Lock(mode: Mode)
    | OpenJournal
    | ReconcileCheckpoint
    | BeginTx
    | AppendLine
    | TearLine
    | WriteHead
    | ApplyDecision
    | ReplayDecisions
    | Commit
    | CommitThenCrash
    | Exit
    | Crash
    | ClearLock
    | Restore(backup: Database)
    | Work(content: Content)

  function EmptyDatabase(instance: string, content: Content): Database {
    Database(instance, 0, NoHash, [], content)
  }

  /** After init: an empty journal, a checkpoint at sequence 0, a database without decisions. */
  ghost predicate Init(s: State) {
    && s.instance != "" && s.lines == [] && !s.torn
    && s.checkpoint == Checkpoint(Head(s.instance, 0, NoHash), s.key)
    && s.db == EmptyDatabase(s.instance, s.db.content) && s.backups == {s.db} && !s.locked && s.process == Idle
  }

  /** Appending the action of a running apply. */
  function LineOf(s: State): Line
    requires s.process.InTx? && s.process.mode.ApplyMode?
  {
    NextLine(s.process.j.head, s.key, s.process.mode.action, s.process.mode.size)
  }

  /** j after Append has extended it in memory. */
  function Extended(j: Loaded, l: Line): Loaded {
    Loaded(Head(j.head.instance, l.record.sequence, HashOf(l)), j.entries + [Entry(l.record, HashOf(l))])
  }

  function NextEntry(head: Head, key: nat, a: Action, size: nat): Entry {
    var l := NextLine(head, key, a, size);
    Entry(l.record, HashOf(l))
  }

  /** The records past the database's sequence, applied one by one inside the transaction. */
  function ReplayFrom(rules: Rules, db: Database, entries: seq<Entry>): Option<Database>
    decreases |entries|
  {
    if entries == [] then Some(db)
    else match ApplyRecord(rules, db, entries[0])
      case None => None
      case Some(next) => ReplayFrom(rules, next, entries[1..])
  }

  /** Load accepts the journal under the checkpoint, and the database lies on it. */
  ghost predicate OpensJournal(s: State, t: State) {
    && s.process.Started? && !s.process.mode.ReconcileMode?
    && Loads(s.lines, s.torn, s.key, s.checkpoint, false)
    && var j := WholeJournal(s.lines, s.checkpoint.head.instance);
    && Prefix(j, DatabaseHead(s.db)) && t == s.(process := Opened(s.process.mode, j))
  }

  /** RecoverCheckpoint: the checkpoint moves to the end of the journal it lies on. */
  ghost predicate Reconciles(s: State, t: State) {
    && s.process.Started? && s.process.mode.ReconcileMode?
    && Loads(s.lines, s.torn, s.key, s.checkpoint, true)
    && t == s.(checkpoint := Checkpoint(WholeJournal(s.lines, s.checkpoint.head.instance).head, s.key),
        process := Idle, locked := false)
  }

  /** The database head is read again inside the transaction. */
  ghost predicate BeginsTx(s: State, t: State) {
    && s.process.Opened? && !s.process.mode.VerifyMode?
    && s.process.j.head.sequence == |s.process.j.entries|
    && (if s.process.mode.ReplayMode? then Prefix(s.process.j, DatabaseHead(s.db))
        else Matches(s.process.j, DatabaseHead(s.db)))
    && t == s.(process := InTx(s.process.mode, s.process.j, s.db))
  }

  ghost predicate Appends(s: State, t: State) {
    && s.process.InTx? && s.process.mode.ApplyMode?
    && Appendable(s.lines, s.process.j.head, s.process.mode.action, s.process.mode.size)
    && t == s.(lines := s.lines + [LineOf(s)], process := Written(Extended(s.process.j, LineOf(s)), s.process.tx))
  }

  ghost predicate WritesHead(s: State, t: State) {
    s.process.Written? && t == s.(checkpoint := Checkpoint(s.process.j.head, s.key),
        process := Pointed(s.process.j, s.process.tx))
  }

  ghost predicate AppliesDecision(s: State, t: State) {
    && s.process.Pointed? && s.process.j.entries != []
    && var done := ApplyRecord(s.rules, s.process.tx, s.process.j.entries[|s.process.j.entries| - 1]);
    && done.Some? && t == s.(process := Ready(done.value))
  }

  ghost predicate Replays(s: State, t: State) {
    && s.process.InTx? && s.process.mode.ReplayMode? && s.process.tx.sequence <= |s.process.j.entries|
    && var done := ReplayFrom(s.rules, s.process.tx, s.process.j.entries[s.process.tx.sequence..]);
    && done.Some? && t == s.(process := Ready(done.value))
  }

  ghost predicate Commits(s: State, t: State, crash: bool) {
    && s.process.Ready?
    && t == s.(db := s.process.tx, backups := s.backups + {s.process.tx}, process := Idle, locked := crash && s.locked)
  }

  /** An open transaction does not survive a restore of the database. */
  ghost predicate Restores(s: State, t: State, backup: Database) {
    && backup in s.backups
    && t == s.(db := backup, process := if s.process.Started? || s.process.Opened? then s.process else Idle)
  }

  /** Ordinary requests change the tables; an open transaction of a command locks them out. */
  ghost predicate Works(s: State, t: State, content: Content) {
    && (s.process == Idle || s.process.Started? || s.process.Opened?)
    && t == s.(db := s.db.(content := content), backups := s.backups + {s.db.(content := content)})
  }

  ghost predicate Next(s: State, t: State, step: Step) {
    match step
    case Lock(mode) => s.process == Idle && !s.locked && t == s.(locked := true, process := Started(mode))
    case OpenJournal => OpensJournal(s, t)
    case ReconcileCheckpoint => Reconciles(s, t)
    case BeginTx => BeginsTx(s, t)
    case AppendLine => Appends(s, t)
    case TearLine => s.process.InTx? && s.process.mode.ApplyMode? && t == s.(torn := true, process := Idle)
    case WriteHead => WritesHead(s, t)
    case ApplyDecision => AppliesDecision(s, t)
    case ReplayDecisions => Replays(s, t)
    case Commit => Commits(s, t, false)
    case CommitThenCrash => Commits(s, t, true)
    case Exit => s.process != Idle && t == s.(process := Idle, locked := false)
    case Crash => s.process != Idle && t == s.(process := Idle)
    case ClearLock => s.process == Idle && s.locked && t == s.(locked := false)
    case Restore(backup) => Restores(s, t, backup)
    case Work(content) => Works(s, t, content)
  }

  ghost predicate Behaviour(run: seq<State>, steps: seq<Step>) {
    && |run| == |steps| + 1 && Init(run[0])
    && forall i | 0 <= i < |steps| :: Next(run[i], run[i + 1], steps[i])
  }

  /* ---------- the invariant ---------- */

  /** A database that has applied exactly a prefix of the journal, no longer than n. */
  ghost predicate OnJournal(lines: seq<Line>, instance: string, n: nat, db: Database) {
    db.sequence <= n <= |lines| && db == DatabaseAt(lines, instance, db.sequence, db.content)
  }

  /** The three stores agree on one chain, in the order they are advanced. */
  ghost predicate Stores(key: nat, instance: string, lines: seq<Line>, cp: Checkpoint, db: Database,
                         backups: set<Database>) {
    && instance != "" && cp.macKey == key
    && Chained(lines, key, instance)
    && Bytes(lines) <= CAPACITY
    && (forall i | 0 <= i < |lines| :: lines[i].size <= LINE_LIMIT)
    && cp.head.sequence <= |lines| <= cp.head.sequence + 1
    && cp.head == HeadAt(lines, instance, cp.head.sequence)
    && OnJournal(lines, instance, cp.head.sequence, db)
    && db in backups
    && forall b | b in backups :: OnJournal(lines, instance, cp.head.sequence, b)
  }

  ghost predicate Durable(s: State) {
    Stores(s.key, s.instance, s.lines, s.checkpoint, s.db, s.backups)
  }

  /** What a running command knows. */
  ghost predicate Running(s: State) {
    match s.process
    case Idle => true
    case Started(_) => true
    case Opened(_, j) => j == WholeJournal(s.lines, s.instance) && s.checkpoint.head.sequence == |s.lines|
    case InTx(mode, j, tx) =>
      && j == WholeJournal(s.lines, s.instance) && s.checkpoint.head.sequence == |s.lines| && tx == s.db
      && (mode.ApplyMode? ==> tx.sequence == |s.lines|)
    case Written(j, tx) =>
      && j == WholeJournal(s.lines, s.instance) && |s.lines| == s.checkpoint.head.sequence + 1
      && tx == DatabaseAt(s.lines, s.instance, |s.lines| - 1, tx.content)
    case Pointed(j, tx) =>
      && j == WholeJournal(s.lines, s.instance) && 0 < |s.lines| == s.checkpoint.head.sequence
      && tx == DatabaseAt(s.lines, s.instance, |s.lines| - 1, tx.content)
    case Ready(tx) =>
      s.checkpoint.head.sequence == |s.lines| && tx == DatabaseAt(s.lines, s.instance, |s.lines|, tx.content)
  }

  ghost predicate Inv(s: State) {
    Durable(s) && Running(s)
  }

  lemma PrefixKeeps(lines: seq<Line>, more: seq<Line>, instance: string, n: nat)
    requires lines <= more && n <= |lines|
    ensures HashAt(more, n) == HashAt(lines, n)
    ensures forall c :: DatabaseAt(more, instance, n, c) == DatabaseAt(lines, instance, n, c)
  {
    assert more[..n] == lines[..n];
  }

  lemma GrownKeepsDatabases(lines: seq<Line>, more: seq<Line>, instance: string, n: nat, m: nat, db: Database)
    requires lines <= more && OnJournal(lines, instance, n, db) && n <= m <= |more|
    ensures OnJournal(more, instance, m, db)
  {
    PrefixKeeps(lines, more, instance, db.sequence);
  }

  /** The replay of a chained journal's rest ends exactly as Replayed says. */
  lemma {:induction false} ReplayReachesEnd(rules: Rules, lines: seq<Line>, key: nat, db: Database)
    requires Chained(lines, key, db.instance) && db.sequence <= |lines|
    requires db == DatabaseAt(lines, db.instance, db.sequence, db.content)
    ensures ReplayFrom(rules, db, Entries(lines)[db.sequence..]) == Replayed(rules, lines, db)
    decreases |lines| - db.sequence
  {
    hide Chained, ApplyRecord, Replayed;
    var n := db.sequence;
    if n < |lines| {
      ReplayedStep(rules, lines, key, db);
      var next := ApplyRecord(rules, db, Entries(lines)[n]);
      if next.Some? { ReplayReachesEnd(rules, lines, key, next.value); }
      assert Entries(lines)[n..][0] == Entries(lines)[n] && Entries(lines)[n..][1..] == Entries(lines)[n + 1..];
    } else {
      ReplayedAtEnd(rules, lines, db);
    }
  }

  lemma StoresGrow(key: nat, instance: string, lines: seq<Line>, cp: Checkpoint, db: Database, backups: set<Database>,
      a: Action, size: nat)
    requires Stores(key, instance, lines, cp, db, backups) && cp.head.sequence == |lines|
    requires Appendable(lines, cp.head, a, size)
    ensures Stores(key, instance, lines + [NextLine(cp.head, key, a, size)], cp, db, backups)
  {
    hide DatabaseAt, Extends;
    var more := lines + [NextLine(cp.head, key, a, size)];
    ChainedAppend(lines, key, instance, a, size);
    assert more[..|more| - 1] == lines;
    PrefixKeeps(lines, more, instance, |lines|);
    forall b | b in backups + {db} ensures OnJournal(more, instance, cp.head.sequence, b) {
      GrownKeepsDatabases(lines, more, instance, |lines|, |lines|, b);
    }
  }

  lemma ExtendedIsWhole(lines: seq<Line>, key: nat, instance: string, a: Action, size: nat)
    ensures var l := NextLine(HeadAt(lines, instance, |lines|), key, a, size);
            Extended(WholeJournal(lines, instance), l) == WholeJournal(lines + [l], instance)
  {
    var l := NextLine(HeadAt(lines, instance, |lines|), key, a, size);
    assert Entries(lines + [l]) == Entries(lines) + [Entry(l.record, HashOf(l))];
  }

  lemma AppendTo(s: State, a: Action, size: nat)
    requires Durable(s) && s.checkpoint.head.sequence == |s.lines| && s.db.sequence == |s.lines|
    requires Appendable(s.lines, HeadAt(s.lines, s.instance, |s.lines|), a, size)
    ensures var l := NextLine(HeadAt(s.lines, s.instance, |s.lines|), s.key, a, size);
            && Stores(s.key, s.instance, s.lines + [l], s.checkpoint, s.db, s.backups)
            && Extended(WholeJournal(s.lines, s.instance), l) == WholeJournal(s.lines + [l], s.instance)
            && s.db == DatabaseAt(s.lines + [l], s.instance, |s.lines|, s.db.content)
  {
    DatabaseStays(s);
    hide Stores, DatabaseAt, Bytes, HashAt, Extended, WholeJournal, NextLine;
    StoresGrow(s.key, s.instance, s.lines, s.checkpoint, s.db, s.backups, a, size);
    ExtendedIsWhole(s.lines, s.key, s.instance, a, size);
    PrefixKeeps(s.lines, s.lines + [NextLine(HeadAt(s.lines, s.instance, |s.lines|), s.key, a, size)], s.instance,
        |s.lines|);
  }

  lemma AppendKeepsInv(s: State, t: State)
    requires Inv(s) && Appends(s, t)
    ensures Inv(t)
  {
    assert s.process.j.head == HeadAt(s.lines, s.instance, |s.lines|);
    hide Stores, DatabaseAt, Bytes, HashAt, HeadAt, Extended, WholeJournal, NextLine, Appendable;
    AppendTo(s, s.process.mode.action, s.process.mode.size);
    assert t.process == Written(WholeJournal(t.lines, t.instance),
           DatabaseAt(t.lines, t.instance, |t.lines| - 1, s.process.tx.content));
  }

  lemma DatabaseStays(s: State)
    requires Durable(s)
    ensures s.db == DatabaseAt(s.lines, s.instance, s.db.sequence, s.db.content) && s.db.instance == s.instance
    ensures s.checkpoint.head == HeadAt(s.lines, s.instance, s.checkpoint.head.sequence)
    ensures s.db.sequence <= s.checkpoint.head.sequence <= |s.lines| <= s.checkpoint.head.sequence + 1
  {
  }

  /** The database of a durable state always lies on the whole journal. */
  lemma PrefixWhole(s: State)
    requires Durable(s)
    ensures WholeJournal(s.lines, s.instance).head.sequence == |WholeJournal(s.lines, s.instance).entries|
    ensures Prefix(WholeJournal(s.lines, s.instance), DatabaseHead(s.db))
    ensures Matches(WholeJournal(s.lines, s.instance), DatabaseHead(s.db)) <==> s.db.sequence == |s.lines|
  {
    DatabaseStays(s);
    hide Stores, Prefix;
    PrefixIsOnChain(s.lines, s.instance, DatabaseHead(s.db));
    assert DatabaseHead(s.db) == HeadAt(s.lines, s.instance, s.db.sequence);
  }

  /** The journal after one more decision. */
  function Grown(s: State, a: Action, size: nat): seq<Line> {
    s.lines + [NextLine(HeadAt(s.lines, s.instance, |s.lines|), s.key, a, size)]
  }

  /** Journal and checkpoint after a decision was written down, before the database took it. */
  ghost function Announced(s: State, a: Action, size: nat): State {
    var more := Grown(s, a, size);
    s.(lines := more, checkpoint := Checkpoint(HeadAt(more, s.instance, |more|), s.key))
  }

  /** All three stores after a whole apply. */
  ghost function Applied(s: State, a: Action, size: nat): State {
    var t := Announced(s, a, size);
    var done := DatabaseAt(t.lines, s.instance, |t.lines|, s.rules.effect(s.db.content, a));
    t.(db := done, backups := s.backups + {done})
  }

  /** When an apply starts from stores that agree. */
  ghost predicate Current(s: State) {
    s.checkpoint.head.sequence == |s.lines| && s.db.sequence == |s.lines|
  }

  /** Writing a decision down keeps the stores consistent and leaves it pending. */
  lemma AnnounceSound(s: State, a: Action, size: nat)
    requires Durable(s) && Current(s) && Appendable(s.lines, HeadAt(s.lines, s.instance, |s.lines|), a, size)
    ensures Durable(Announced(s, a, size))
    ensures var more := Grown(s, a, size);
            && Extended(WholeJournal(s.lines, s.instance), more[|s.lines|]) == WholeJournal(more, s.instance)
            && |WholeJournal(more, s.instance).entries| == |s.lines| + 1
            && WholeJournal(more, s.instance).head == HeadAt(more, s.instance, |more|)
            && s.db == DatabaseAt(more, s.instance, |s.lines|, s.db.content)
            && more[|s.lines|].record.action == a
  {
    AppendTo(s, a, size);
    assert |WholeJournal(Grown(s, a, size), s.instance).entries| == |s.lines| + 1;
    WholeHead(Grown(s, a, size), s.instance);
    hide Stores, WholeJournal, Extended, Appendable, HashAt;
    CheckpointForward(s.key, s.instance, Grown(s, a, size), s.checkpoint, s.db, s.backups);
  }

  /** A whole apply, from the append to the commit, adds one decision to all three stores. */
  lemma ApplySound(s: State, a: Action, size: nat)
    requires Durable(s) && Current(s) && Appendable(s.lines, HeadAt(s.lines, s.instance, |s.lines|), a, size)
    ensures Durable(Applied(s, a, size)) && Current(Applied(s, a, size)) && GuardAdmits(Applied(s, a, size))
    ensures Applied(s, a, size).db.applied == s.db.applied + [a]
    ensures var more := Grown(s, a, size);
            ApplyRecord(s.rules, s.db, WholeJournal(more, s.instance).entries[|s.lines|])
            == if s.rules.accepts(s.db.content, a) then Some(Applied(s, a, size).db) else None
  {
    AnnounceSound(s, a, size);
    assert |WholeJournal(Grown(s, a, size), s.instance).entries| == |s.lines| + 1;
    hide Stores, WholeJournal, Extended, ApplyRecord, Appendable;
    var more := Grown(s, a, size);
    var t := Announced(s, a, size);
    AppliedOf(s, more);
    hide HashAt;
    LastApplies(t, s.db);
    CommitForward(s.key, s.instance, more, t.checkpoint, s.db, s.backups, s.rules.effect(s.db.content, a));
  }

  /** The state after a replay from rest that no decision refused. */
  lemma ReplayedIsSound(s: State)
    requires Inv(s) && s.process == Idle && s.checkpoint.head.sequence == |s.lines|
    ensures Chained(s.lines, s.key, s.instance) && s.db.instance == s.instance && s.db.sequence <= |s.lines|
    ensures s.db == DatabaseAt(s.lines, s.instance, s.db.sequence, s.db.content)
    ensures Replayed(s.rules, s.lines, s.db).Some? ==>
              var done := Replayed(s.rules, s.lines, s.db).value;
              Inv(s.(db := done, backups := s.backups + {done}))
                  && GuardAdmits(s.(db := done, backups := s.backups + {done}))
  {
    DatabaseStays(s);
    StoresChained(s);
    if Replayed(s.rules, s.lines, s.db).Some? {
      CommitForward(s.key, s.instance, s.lines, s.checkpoint, s.db, s.backups,
          Replayed(s.rules, s.lines, s.db).value.content);
    }
    hide Stores;
  }

  lemma WholeHead(lines: seq<Line>, instance: string)
    ensures WholeJournal(lines, instance).head == HeadAt(lines, instance, |lines|)
  {
  }

  /** The entry Append adds in memory is the decision the database takes next, if it admits it. */
  lemma AppendedDecision(s: State, a: Action, size: nat)
    requires Inv(s) && Current(s) && Appendable(s.lines, HeadAt(s.lines, s.instance, |s.lines|), a, size)
    ensures var j := WholeJournal(s.lines, s.instance);
            var l := NextLine(j.head, s.key, a, size);
            && ApplyRecord(s.rules, s.db, NextEntry(j.head, s.key, a, size))
               == (if s.rules.accepts(s.db.content, a) then Some(Applied(s, a, size).db) else None)
            && Announced(s, a, size) == s.(lines := s.lines + [l], checkpoint := Checkpoint(Extended(j, l).head, s.key))
            && Applied(s, a, size)
               == Announced(s, a, size).(db := Applied(s, a, size).db, backups := s.backups + {Applied(s, a, size).db})
    ensures s.process == Idle ==> Inv(Announced(s, a, size)) && Inv(Applied(s, a, size))
  {
    AnnounceSound(s, a, size);
    ApplySound(s, a, size);
    WholeHead(s.lines, s.instance);
    hide Stores, WholeJournal, ApplyRecord, Appendable, HeadAt, DatabaseAt, NextLine, GuardAdmits;
  }

  lemma AppliedOf(s: State, more: seq<Line>)
    requires more != [] && s.db == DatabaseAt(more, s.instance, |more| - 1, s.db.content)
    ensures forall c ::
              DatabaseAt(more, s.instance, |more|, c).applied == s.db.applied + [more[|more| - 1].record.action]
  {
    ActionsStep(more, |more| - 1);
  }

  /** Moving the checkpoint to the end of the journal keeps every database on it. */
  lemma CheckpointForward(key: nat, instance: string, lines: seq<Line>, cp: Checkpoint, db: Database,
      backups: set<Database>)
    requires Stores(key, instance, lines, cp, db, backups)
    ensures Stores(key, instance, lines, Checkpoint(HeadAt(lines, instance, |lines|), key), db, backups)
  {
    hide Chained, DatabaseAt;
    forall b | b in backups ensures OnJournal(lines, instance, |lines|, b) {
      GrownKeepsDatabases(lines, lines, instance, cp.head.sequence, |lines|, b);
    }
  }

  /** Committing a database that has caught up with the journal. */
  lemma CommitForward(key: nat, instance: string, lines: seq<Line>, cp: Checkpoint, db: Database,
                      backups: set<Database>, content: Content)
    requires Stores(key, instance, lines, cp, db, backups) && cp.head.sequence == |lines|
    ensures var done := DatabaseAt(lines, instance, |lines|, content);
            Stores(key, instance, lines, cp, done, backups + {done})
  {
    hide Chained, Bytes;
  }

  lemma RestoreKeeps(key: nat, instance: string, lines: seq<Line>, cp: Checkpoint, db: Database,
      backups: set<Database>, backup: Database)
    requires Stores(key, instance, lines, cp, db, backups) && backup in backups
    ensures Stores(key, instance, lines, cp, backup, backups)
  {
    hide Chained, Bytes, OnJournal;
  }

  lemma WorkKeeps(key: nat, instance: string, lines: seq<Line>, cp: Checkpoint, db: Database, backups: set<Database>,
      content: Content)
    requires Stores(key, instance, lines, cp, db, backups)
    ensures var now := db.(content := content); Stores(key, instance, lines, cp, now, backups + {now})
  {
    hide Chained, Bytes;
  }

  lemma StoresChained(s: State)
    requires Durable(s)
    ensures Chained(s.lines, s.key, s.instance)
  {
  }

  /** The last decision of the journal on a database that has applied all others. */
  lemma LastApplies(s: State, db: Database)
    requires Durable(s) && s.lines != [] && db == DatabaseAt(s.lines, s.instance, |s.lines| - 1, db.content)
    ensures |WholeJournal(s.lines, s.instance).entries| == |s.lines|
    ensures var a := s.lines[|s.lines| - 1].record.action;
            ApplyRecord(s.rules, db, WholeJournal(s.lines, s.instance).entries[|s.lines| - 1])
            == if s.rules.accepts(db.content, a)
               then Some(DatabaseAt(s.lines, s.instance, |s.lines|, s.rules.effect(db.content, a))) else None
  {
    StoresChained(s);
    hide Stores, Chained, ApplyRecord, HashAt;
    NextDecisionApplies(s.rules, s.lines, s.key, s.instance, |s.lines| - 1, db.content);
  }

  /** Whoever is about to commit the whole journal's database keeps the invariant. */
  lemma ReadyKeepsInv(s: State, t: State)
    requires Durable(s) && s.checkpoint.head.sequence == |s.lines|
    requires t.process.Ready? && t == s.(process := t.process)
    requires t.process.tx == DatabaseAt(s.lines, s.instance, |s.lines|, t.process.tx.content)
    ensures Inv(t)
  {
    hide Stores, DatabaseAt;
  }

  lemma PointedIs(s: State)
    requires Running(s) && s.process.Pointed?
    ensures s.lines != [] && s.checkpoint.head.sequence == |s.lines|
    ensures s.process.j == WholeJournal(s.lines, s.instance) && |s.process.j.entries| == |s.lines|
    ensures s.process.tx == DatabaseAt(s.lines, s.instance, |s.lines| - 1, s.process.tx.content)
  {
    hide DatabaseAt;
  }

  lemma ContentAt(lines: seq<Line>, instance: string)
    ensures forall c :: DatabaseAt(lines, instance, |lines|, c).content == c
  {
  }

  lemma ApplyKeepsInv(s: State, t: State)
    requires Inv(s) && AppliesDecision(s, t)
    ensures Inv(t)
  {
    hide Durable, Running, ApplyRecord, DatabaseAt, WholeJournal;
    PointedIs(s);
    LastApplies(s, s.process.tx);
    ContentAt(s.lines, s.instance);
    ReadyKeepsInv(s, t);
  }

  lemma RestReplays(s: State)
    requires Durable(s)
    ensures |WholeJournal(s.lines, s.instance).entries| == |s.lines| && s.db.sequence <= |s.lines|
    ensures ReplayFrom(s.rules, s.db, WholeJournal(s.lines, s.instance).entries[s.db.sequence..])
            == Replayed(s.rules, s.lines, s.db)
    ensures Replayed(s.rules, s.lines, s.db).Some? ==>
              var done := Replayed(s.rules, s.lines, s.db).value;
              done == DatabaseAt(s.lines, s.instance, |s.lines|, done.content)
  {
    StoresChained(s);
    DatabaseStays(s);
    hide Stores, Chained, ReplayFrom, HashAt;
    ReplayReachesEnd(s.rules, s.lines, s.key, s.db);
  }

  lemma InTxIs(s: State)
    requires Running(s) && s.process.InTx?
    ensures s.process.j == WholeJournal(s.lines, s.instance) && s.process.tx == s.db
    ensures s.checkpoint.head.sequence == |s.lines|
  {
    hide DatabaseAt;
  }

  lemma ReplayKeepsInv(s: State, t: State)
    requires Inv(s) && Replays(s, t)
    ensures Inv(t)
  {
    hide Durable, Running, ReplayFrom, DatabaseAt, WholeJournal;
    InTxIs(s);
    RestReplays(s);
    ReadyKeepsInv(s, t);
  }

  lemma OpenKeepsInv(s: State, t: State)
    requires Inv(s) && OpensJournal(s, t)
    ensures Inv(t)
  {
    DatabaseStays(s);
    hide Stores, Chained, Prefix, Scannable, Bytes, DatabaseAt;
  }

  lemma BeginKeepsInv(s: State, t: State)
    requires Inv(s) && BeginsTx(s, t)
    ensures Inv(t)
  {
    DatabaseStays(s);
    hide Stores, Prefix, DatabaseAt, HashAt;
  }

  lemma CommitKeepsInv(s: State, t: State, crash: bool)
    requires Inv(s) && Commits(s, t, crash)
    ensures Inv(t)
  {
    hide Stores, DatabaseAt;
    CommitForward(s.key, s.instance, s.lines, s.checkpoint, s.db, s.backups, s.process.tx.content);
  }

  lemma WriteHeadKeepsInv(s: State, t: State)
    requires Inv(s) && WritesHead(s, t)
    ensures Inv(t)
  {
    assert s.process.j.head == HeadAt(s.lines, s.instance, |s.lines|);
    hide Stores, DatabaseAt, WholeJournal, HashAt;
    CheckpointForward(s.key, s.instance, s.lines, s.checkpoint, s.db, s.backups);
    assert t.process == Pointed(WholeJournal(t.lines, t.instance),
           DatabaseAt(t.lines, t.instance, |t.lines| - 1, s.process.tx.content));
  }

  lemma ReconcileKeepsInv(s: State, t: State)
    requires Inv(s) && Reconciles(s, t)
    ensures Inv(t)
  {
    DatabaseStays(s);
    assert WholeJournal(s.lines, s.instance).head == HeadAt(s.lines, s.instance, |s.lines|);
    hide Stores, DatabaseAt, WholeJournal, Loads, HashAt;
    CheckpointForward(s.key, s.instance, s.lines, s.checkpoint, s.db, s.backups);
  }

  lemma StepKeepsInv(s: State, t: State, step: Step)
    requires Inv(s) && Next(s, t, step)
    ensures Inv(t)
  {
    hide Appends, WritesHead, Reconciles, AppliesDecision, Replays, BeginsTx, OpensJournal, Commits, Stores, DatabaseAt;
    match step
    case AppendLine => AppendKeepsInv(s, t);
    case WriteHead => WriteHeadKeepsInv(s, t);
    case ReconcileCheckpoint => ReconcileKeepsInv(s, t);
    case ApplyDecision => ApplyKeepsInv(s, t);
    case ReplayDecisions => ReplayKeepsInv(s, t);
    case BeginTx => BeginKeepsInv(s, t);
    case OpenJournal => OpenKeepsInv(s, t);
    case Commit => CommitKeepsInv(s, t, false);
    case CommitThenCrash => CommitKeepsInv(s, t, true);
    case Work(content) => WorkKeeps(s.key, s.instance, s.lines, s.checkpoint, s.db, s.backups, content);
    case Restore(backup) =>
      RestoreKeeps(s.key, s.instance, s.lines, s.checkpoint, s.db, s.backups, backup);
    case Lock(_) =>
    case TearLine =>
    case Exit =>
    case Crash =>
    case ClearLock =>
  }

  lemma {:induction false} EveryStateHasInv(run: seq<State>, steps: seq<Step>, i: nat)
    requires Behaviour(run, steps) && i < |run|
    ensures Inv(run[i])
  {
    hide Inv, Next;
    if i == 0 {
      InitHasInv(run[0]);
    } else {
      EveryStateHasInv(run, steps, i - 1);
      StepKeepsInv(run[i - 1], run[i], steps[i - 1]);
    }
  }

  lemma InitHasInv(s: State)
    requires Init(s)
    ensures Inv(s)
  {
    assert Actions([]) == [];
  }

  /**
   Over every run, with crashes and restores anywhere: the database is at most at the checkpoint, the
   checkpoint at most one line behind the journal, and the database has applied exactly the first
   decisions of the journal, each once and in order.
   */
  lemma StoresStayOrdered(run: seq<State>, steps: seq<Step>, i: nat)
    requires Behaviour(run, steps) && i < |run|
    ensures var s := run[i];
            && s.db.sequence <= s.checkpoint.head.sequence <= |s.lines| <= s.checkpoint.head.sequence + 1
            && s.db.applied == Actions(s.lines[..s.db.sequence])
            && s.checkpoint.head == HeadAt(s.lines, s.instance, s.checkpoint.head.sequence)
  {
    EveryStateHasInv(run, steps, i);
  }

  /** The journal only grows and the checkpoint never moves backwards, whatever happens. */
  lemma StepMovesForward(s: State, t: State, step: Step)
    requires Inv(s) && Next(s, t, step)
    ensures s.lines <= t.lines && s.checkpoint.head.sequence <= t.checkpoint.head.sequence && s.instance == t.instance
  {
    hide Chained, Loads, DatabaseAt, ApplyRecord, ReplayFrom, Bytes;
  }

  lemma {:induction false} CheckpointNeverGoesBack(run: seq<State>, steps: seq<Step>, i: nat, j: nat)
    requires Behaviour(run, steps) && i <= j < |run|
    ensures run[i].lines <= run[j].lines && run[i].checkpoint.head.sequence <= run[j].checkpoint.head.sequence
  {
    hide Inv, Next;
    if i < j {
      CheckpointNeverGoesBack(run, steps, i, j - 1);
      EveryStateHasInv(run, steps, j - 1);
      StepMovesForward(run[j - 1], run[j], steps[j - 1]);
    }
  }

  /* ---------- the guard ---------- */

  /** Guard.Check: the database head equals the trusted checkpoint. */
  predicate GuardAdmits(s: State) {
    DatabaseHead(s.db) == s.checkpoint.head
  }

  /** The guard admits a request only when every decision up to the checkpoint is in the database. */
  lemma AdmittedHasEveryDecision(run: seq<State>, steps: seq<Step>, i: nat)
    requires Behaviour(run, steps) && i < |run|
    ensures var s := run[i];
            && (GuardAdmits(s) <==> s.db.sequence == s.checkpoint.head.sequence)
            && s.checkpoint.head.sequence <= |s.lines|
            && (GuardAdmits(s) ==> s.db.applied == Actions(s.lines[..s.checkpoint.head.sequence]))
  {
    EveryStateHasInv(run, steps, i);
    DatabaseStays(run[i]);
    hide Stores, Running;
  }

  /* ---------- recovery ---------- */

  /** In a reachable state the journal can be read exactly when nothing is torn or too long. */
  lemma ReadableIff(s: State)
    requires Inv(s)
    ensures Loads(s.lines, s.torn, s.key, s.checkpoint, true) <==> !s.torn && Scannable(s.lines)
    ensures Loads(s.lines, s.torn, s.key, s.checkpoint, false)
       <==> !s.torn && Scannable(s.lines) && s.checkpoint.head.sequence == |s.lines|
  {
    hide Extends, DatabaseAt;
  }

  /** A path of steps from s. */
  ghost predicate Path(s: State, run: seq<State>, steps: seq<Step>) {
    && |run| == |steps| + 1 && run[0] == s
    && forall i | 0 <= i < |steps| :: Next(run[i], run[i + 1], steps[i])
  }

  /** Each decision the database has not applied yet is admitted on the tables its predecessors leave. */
  predicate PendingAccepted(s: State) {
    s.db.sequence <= |s.lines| && Accepted(s.rules, s.db.content, Pending(s.lines, s.db.sequence))
  }

  /** Steps of an operator's commands: no restore and no ordinary work comes between them. */
  predicate Operator(step: Step) {
    !step.Restore? && !step.Work?
  }

  ghost predicate OperatorPath(s: State, run: seq<State>, steps: seq<Step>) {
    Path(s, run, steps) && forall i | 0 <= i < |steps| :: Operator(steps[i])
  }

  /**
   From every reachable resting state whose journal can be read and whose pending decisions are
   admitted, the operator's recovery (clear a stale lock, reconcile the checkpoint, replay) runs to its
   end and leaves checkpoint and database at the journal's head, every decision applied once and in
   order, with the guard open.
   */
  lemma RecoveryCompletes(s: State) returns (run: seq<State>, steps: seq<Step>)
    requires Inv(s) && s.process == Idle && !s.torn && Scannable(s.lines) && PendingAccepted(s)
    ensures OperatorPath(s, run, steps) && |steps| <= 8
    ensures var t := run[|run| - 1];
            && t.lines == s.lines && t.process == Idle && !t.locked
            && t.checkpoint.head == HeadAt(s.lines, s.instance, |s.lines|)
            && t.db.sequence == |s.lines| && t.db.applied == Actions(s.lines)
            && GuardAdmits(t)
  {
    DatabaseStays(s);
    hide Recovered, GuardAdmits, HeadAt, Inv, Scannable, PendingAccepted, OperatorPath, Path, Next;
    var u := s.(locked := false);
    SameDecisionsPending(s, u);
    RecoveredIsCurrent(u);
    if s.locked {
      UnlockStep(s, u);
      var more, rest := RecoverUnlocked(u);
      run, steps := UnlockFirst(s, u, more, rest);
    } else {
      run, steps := RecoverUnlocked(u);
    }
  }

  lemma SameDecisionsPending(s: State, u: State)
    requires PendingAccepted(s) && u.rules == s.rules && u.lines == s.lines && u.db == s.db
    ensures PendingAccepted(u)
  {
  }

  lemma UnlockFirst(s: State, u: State, more: seq<State>, rest: seq<Step>) returns (run: seq<State>, steps: seq<Step>)
    requires Next(s, u, ClearLock) && OperatorPath(u, more, rest)
    ensures OperatorPath(s, run, steps) && |steps| == |rest| + 1 && |more| > 0 && run[|run| - 1] == more[|more| - 1]
  {
    OneStep(s, u, ClearLock);
    JoinPaths(s, [s, u], [ClearLock], u, more, rest);
    run, steps := [s, u] + more[1..], [ClearLock] + rest;
    hide Next;
  }

  /** A path of the operator's commands that brings the database to the journal's head. */
  ghost predicate Recovers(s: State, run: seq<State>, steps: seq<Step>) {
    && OperatorPath(s, run, steps)
    && run[|run| - 1].lines == s.lines && run[|run| - 1].db.sequence == |s.lines|
  }

  /**
   The operator's commands, however often and in whatever order, can bring the database to the head
   exactly when each pending decision is admitted on the tables its predecessors leave.
   */
  lemma RecoverableIff(s: State)
    requires Inv(s) && s.process == Idle && !s.torn && Scannable(s.lines)
    ensures (exists run, steps :: Recovers(s, run, steps)) <==> PendingAccepted(s)
  {
    hide Inv, Scannable, PendingAccepted, GuardAdmits, HeadAt, OperatorPath;
    if PendingAccepted(s) {
      var run, steps := RecoveryCompletes(s);
      assert Recovers(s, run, steps);
    } else if exists run, steps :: Recovers(s, run, steps) {
      var run, steps :| Recovers(s, run, steps);
      PathLength(s, run, steps);
      RefusedIsStuck(s, run, steps, |run| - 1);
      NotRefusedAtHead(s);
    }
  }

  lemma PathLength(s: State, run: seq<State>, steps: seq<Step>)
    requires OperatorPath(s, run, steps)
    ensures |run| == |steps| + 1
  {
  }

  lemma NotRefusedAtHead(s: State)
    requires s.db.sequence == |s.lines|
    ensures PendingAccepted(s)
  {
    assert Pending(s.lines, |s.lines|) == [];
  }

  /** Nothing but locks, the checkpoint and an attempt at a replay can have happened since s. */
  ghost predicate Attempts(s: State, t: State) {
    && Inv(t) && t.rules == s.rules && t.lines == s.lines && t.db == s.db
    && (t.process == Idle || t.process.Started? || t.process.Opened? || (t.process.InTx? && !t.process.mode.ApplyMode?))
  }

  lemma AttemptStays(s: State, t: State, u: State, step: Step)
    requires Attempts(s, t) && !PendingAccepted(s) && Next(t, u, step) && Operator(step)
    ensures Attempts(s, u)
  {
    hide Inv, Durable, Running, Stores, PendingAccepted, ReplayFrom, Loads, Prefix, Matches, WholeJournal, DatabaseAt,
         ApplyRecord;
    StepKeepsInv(t, u, step);
    ReplayIsRefused(t);
    ApplyNeedsNothingPending(t);
    if PendingAccepted(t) { SameDecisionsPending(t, s); }
  }

  lemma ReplayIsRefused(t: State)
    requires Inv(t)
    ensures t.process.InTx? && !PendingAccepted(t) ==>
              && t.process.tx == t.db && t.process.tx.sequence <= |t.process.j.entries|
              && ReplayFrom(t.rules, t.process.tx, t.process.j.entries[t.process.tx.sequence..]).None?
  {
    if t.process.InTx? {
      InTxIs(t);
      RestReplays(t);
    }
    hide Stores, ReplayFrom, WholeJournal, DatabaseAt;
  }

  lemma ApplyNeedsNothingPending(t: State)
    requires Inv(t)
    ensures t.process.Opened? && Matches(t.process.j, DatabaseHead(t.db)) ==> PendingAccepted(t)
  {
    if t.process.Opened? && Matches(t.process.j, DatabaseHead(t.db)) {
      PrefixWhole(t);
      NotRefusedAtHead(t);
    }
  }

  /** With a decision that is refused, no sequence of operator commands changes journal or database. */
  lemma {:induction false} RefusedIsStuck(s: State, run: seq<State>, steps: seq<Step>, i: nat)
    requires Inv(s) && s.process == Idle && !PendingAccepted(s) && OperatorPath(s, run, steps) && i < |run|
    ensures Attempts(s, run[i]) && run[i].db == s.db && run[i].lines == s.lines
  {
    hide Inv, Next, PendingAccepted;
    if i > 0 {
      RefusedIsStuck(s, run, steps, i - 1);
      AttemptStays(s, run[i - 1], run[i], steps[i - 1]);
    }
  }

  lemma OneStep(s: State, t: State, step: Step)
    requires Next(s, t, step)
    ensures Path(s, [s, t], [step])
  {
    hide Next;
  }

  lemma RecoveredIsCurrent(s: State)
    requires PendingAccepted(s) && s.db.instance == s.instance
    ensures var t := Recovered(s);
            && t.lines == s.lines && t.process == s.process && t.locked == s.locked
            && t.checkpoint.head == HeadAt(s.lines, s.instance, |s.lines|)
            && t.db.sequence == |s.lines| && t.db.applied == Actions(s.lines)
            && GuardAdmits(t)
  {
    assert s.lines[..|s.lines|] == s.lines;
  }

  lemma UnlockStep(s: State, u: State)
    requires Inv(s) && s.process == Idle && s.locked && u == s.(locked := false)
    ensures Next(s, u, ClearLock) && Inv(u)
  {
    hide Stores, DatabaseAt;
  }

  lemma JoinPaths(s: State, run: seq<State>, steps: seq<Step>, u: State, more: seq<State>, then_: seq<Step>)
    requires Path(s, run, steps) && run[|run| - 1] == u && Path(u, more, then_)
    ensures Path(s, run + more[1..], steps + then_)
  {
    hide Next;
    var r, st := run + more[1..], steps + then_;
    forall i | 0 <= i < |st| ensures Next(r[i], r[i + 1], st[i]) {
      if i < |steps| {
        assert Next(run[i], run[i + 1], steps[i]);
      } else {
        assert Next(more[i - |steps|], more[i - |steps| + 1], then_[i - |steps|]);
      }
    }
  }

  /** The state once recovery is through. */
  ghost function Recovered(s: State): State
    requires PendingAccepted(s)
  {
    var end := Replayed(s.rules, s.lines, s.db).value;
    s.(checkpoint := Checkpoint(HeadAt(s.lines, s.instance, |s.lines|), s.key), db := end, backups := s.backups + {end})
  }

  lemma ReconcileSteps(s: State)
    requires Inv(s) && s.process == Idle && !s.torn && Scannable(s.lines) && !s.locked
    ensures var s1 := s.(locked := true, process := Started(ReconcileMode));
            var s2 := s.(checkpoint := Checkpoint(HeadAt(s.lines, s.instance, |s.lines|), s.key));
            Next(s, s1, Lock(ReconcileMode)) && Next(s1, s2, ReconcileCheckpoint) && Inv(s2)
  {
    var s1 := s.(locked := true, process := Started(ReconcileMode));
    var s2 := s.(checkpoint := Checkpoint(HeadAt(s.lines, s.instance, |s.lines|), s.key));
    ReadableIff(s);
    DatabaseStays(s);
    hide Loads, Stores, DatabaseAt, Scannable;
    StepKeepsInv(s, s1, Lock(ReconcileMode));
    StepKeepsInv(s1, s2, ReconcileCheckpoint);
  }

  /** What reconcile-checkpoint finds on disk, and what it leaves. */
  lemma ReadyToReconcile(s: State)
    requires Inv(s) && s.process == Idle && !s.locked
    ensures Loads(s.lines, s.torn, s.key, s.checkpoint, true) <==> !s.torn && Scannable(s.lines)
    ensures s.checkpoint.head.instance == s.instance
    ensures !s.torn && Scannable(s.lines) ==> Inv(s.(checkpoint := Checkpoint(HeadAt(s.lines, s.instance, |s.lines|),
            s.key)))
    ensures var j := WholeJournal(s.lines, s.instance);
            && j.head == HeadAt(s.lines, s.instance, |s.lines|) && j.head.sequence == |s.lines| == |j.entries|
            && Prefix(j, DatabaseHead(s.db))
            && (Matches(j, DatabaseHead(s.db)) <==> s.db.sequence == |s.lines|)
  {
    ReadableIff(s);
    DatabaseStays(s);
    PrefixWhole(s);
    WholeHead(s.lines, s.instance);
    if !s.torn && Scannable(s.lines) { ReconcileSteps(s); }
    hide Inv, Loads, Scannable, Prefix, Matches;
  }

  lemma OpensForReplay(s: State)
    requires Inv(s) && !s.torn && Scannable(s.lines) && s.checkpoint.head.sequence == |s.lines|
    ensures Loads(s.lines, s.torn, s.key, s.checkpoint, false) && s.checkpoint.head.instance == s.instance
    ensures WholeJournal(s.lines, s.instance).head.sequence == |WholeJournal(s.lines, s.instance).entries|
    ensures Prefix(WholeJournal(s.lines, s.instance), DatabaseHead(s.db))
  {
    ReadableIff(s);
    DatabaseStays(s);
    PrefixIsOnChain(s.lines, s.instance, DatabaseHead(s.db));
    hide Loads, Stores, Prefix;
    assert DatabaseHead(s.db) == HeadAt(s.lines, s.instance, s.db.sequence);
  }

  lemma ReplaySteps(s: State)
    requires Inv(s) && s.process == Idle && !s.torn && Scannable(s.lines) && !s.locked
    requires s.checkpoint.head.sequence == |s.lines| && PendingAccepted(s)
    ensures var j, end := WholeJournal(s.lines, s.instance), Replayed(s.rules, s.lines, s.db).value;
            var s3 := s.(locked := true, process := Started(ReplayMode));
            var s4 := s3.(process := Opened(ReplayMode, j));
            var s5 := s4.(process := InTx(ReplayMode, j, s.db));
            var s6 := s5.(process := Ready(end));
            var s7 := s.(db := end, backups := s.backups + {end});
            && Next(s, s3, Lock(ReplayMode)) && Next(s3, s4, OpenJournal) && Next(s4, s5, BeginTx)
            && Next(s5, s6, ReplayDecisions) && Next(s6, s7, Commit)
  {
    hide Loads, Stores, DatabaseAt, Scannable, WholeJournal, Prefix, ReplayFrom;
    OpensForReplay(s);
    RestReplays(s);
    var j, end := WholeJournal(s.lines, s.instance), Replayed(s.rules, s.lines, s.db).value;
    var s3 := s.(locked := true, process := Started(ReplayMode));
    var s4 := s3.(process := Opened(ReplayMode, j));
    var s5 := s4.(process := InTx(ReplayMode, j, s.db));
    var s6 := s5.(process := Ready(end));
    var s7 := s.(db := end, backups := s.backups + {end});
    assert Next(s, s3, Lock(ReplayMode));
    assert Next(s3, s4, OpenJournal);
    assert Next(s4, s5, BeginTx);
    assert Next(s5, s6, ReplayDecisions);
    assert Next(s6, s7, Commit);
    hide Next;
  }

  lemma RecoverUnlocked(s: State) returns (run: seq<State>, steps: seq<Step>)
    requires Inv(s) && s.process == Idle && !s.torn && Scannable(s.lines) && !s.locked && PendingAccepted(s)
    ensures OperatorPath(s, run, steps) && |steps| == 7 && |run| == 8 && run[7] == Recovered(s)
  {
    hide Next, Inv, Scannable, DatabaseAt, HashAt;
    var j, end := WholeJournal(s.lines, s.instance), Replayed(s.rules, s.lines, s.db).value;
    var s1 := s.(locked := true, process := Started(ReconcileMode));
    var s2 := s.(checkpoint := Checkpoint(HeadAt(s.lines, s.instance, |s.lines|), s.key));
    ReconcileSteps(s);
    ReplaySteps(s2);
    var s3 := s2.(locked := true, process := Started(ReplayMode));
    var s4 := s3.(process := Opened(ReplayMode, j));
    var s5 := s4.(process := InTx(ReplayMode, j, s.db));
    var s6 := s5.(process := Ready(end));
    run := [s, s1, s2, s3, s4, s5, s6, Recovered(s)];
    steps := [Lock(ReconcileMode), ReconcileCheckpoint, Lock(ReplayMode), OpenJournal, BeginTx, ReplayDecisions,
        Commit];
  }

  /** Without a readable journal no command gets past opening it, so nothing durable moves any more. */
  lemma UnreadableIsFrozen(s: State, t: State, step: Step)
    requires Inv(s) && (s.torn || !Scannable(s.lines)) && (s.process == Idle || s.process.Started?)
    requires Next(s, t, step)
    ensures t.lines == s.lines && t.torn == s.torn && t.checkpoint == s.checkpoint
    ensures t.process == Idle || t.process.Started?
  {
    hide Inv, Loads, Scannable, WholeJournal, Prefix, ApplyRecord, ReplayFrom, Appendable;
    ReadableIff(s);
  }

  /**
   So it stays over every run, whatever is restored or done meanwhile: over a journal that cannot be
   read neither journal nor checkpoint moves again, and no command reaches a transaction.
   */
  lemma {:induction false} UnreadableStaysFrozen(s: State, run: seq<State>, steps: seq<Step>, i: nat)
    requires Inv(s) && (s.torn || !Scannable(s.lines)) && (s.process == Idle || s.process.Started?)
    requires Path(s, run, steps) && i < |run|
    ensures Inv(run[i])
    ensures run[i].lines == s.lines && run[i].torn == s.torn && run[i].checkpoint == s.checkpoint
    ensures run[i].process == Idle || run[i].process.Started?
  {
    hide Inv, Next, Scannable;
    if i > 0 {
      UnreadableStaysFrozen(s, run, steps, i - 1);
      StepKeepsInv(run[i - 1], run[i], steps[i - 1]);
      UnreadableIsFrozen(run[i - 1], run[i], steps[i - 1]);
    }
  }
}
