/**
 The lifecycle journal (internal/lifecycle/journal.go, internal/lifecycle/database.go).  Cryptography
 is ideal: a hash is the line it was taken of, a sealed line opens only under the key, instance and
 previous hash it was sealed with, and a checkpoint authenticates only under the key that wrote it.
 */
module Journal {
  import opened Wrappers

  const LINE_LIMIT: nat := 0x20_0000       // 2 << 20
  const CAPACITY: nat := 0x800_0000        // 128 << 20

  datatype Action = Action(instance: string, body: string)

  datatype Hash = NoHash | HashOf(line: Line)

  datatype Record = Record(instance: string, sequence: nat, previous: Hash, action: Action)

  /** One envelope: the record sealed under a key with instance and previous hash as associated data. */
  datatype Line = Line(sealKey: nat, sealInstance: string, sealHash: Hash, record: Record, size: nat)

  datatype Head = Head(instance: string, sequence: nat, hash: Hash)

  datatype Checkpoint = Checkpoint(head: Head, macKey: nat)

  datatype Entry = Entry(record: Record, hash: Hash)

  /** The journal in memory. */
  datatype Loaded = Loaded(head: Head, entries: seq<Entry>)

  datatype LoadError = BadCheckpoint | TooLarge | BadLine | PartialRecord | Truncated

  function Bytes(lines: seq<Line>): nat {
    if lines == [] then 0 else Bytes(lines[..|lines| - 1]) + lines[|lines| - 1].size + 1
  }

  /** Every line takes its own bytes and a newline, wherever it stands. */
  lemma {:induction false} BytesAdd(before: seq<Line>, l: Line, after: seq<Line>)
    ensures Bytes(before + [l] + after) == Bytes(before + after) + l.size + 1
  {
    if after == [] {
      assert before + [l] + after == before + [l] && before + after == before;
      assert (before + [l])[..|before|] == before;
    } else {
      var n := |after| - 1;
      var long, short := before + [l] + after, before + after;
      assert long[..|long| - 1] == before + [l] + after[..n] && short[..|short| - 1] == before + after[..n];
      BytesAdd(before, l, after[..n]);
    }
  }

  /** The hash of the first n lines, to which line n is chained. */
  function HashAt(lines: seq<Line>, n: nat): Hash
    requires n <= |lines|
  {
    if n == 0 then NoHash else HashOf(lines[n - 1])
  }

  /** Opening the envelope under the running head, and the checks on what is inside. */
  predicate Extends(l: Line, key: nat, head: Head) {
    && l.sealKey == key && l.sealInstance == head.instance && l.sealHash == head.hash
    && l.record.instance == head.instance && l.record.sequence == head.sequence + 1
    && l.record.previous == head.hash && l.record.action.instance == head.instance
  }

  function HeadAt(lines: seq<Line>, instance: string, n: nat): Head
    requires n <= |lines|
  {
    Head(instance, n, HashAt(lines, n))
  }

  ghost predicate Chained(lines: seq<Line>, key: nat, instance: string) {
    forall i | 0 <= i < |lines| :: Extends(lines[i], key, HeadAt(lines, instance, i))
  }

  /** The scanner's buffer must hold a line together with its newline. */
  ghost predicate Scannable(lines: seq<Line>) {
    forall i | 0 <= i < |lines| :: lines[i].size < LINE_LIMIT
  }

  function Entries(lines: seq<Line>): (es: seq<Entry>)
    ensures |es| == |lines| && forall i | 0 <= i < |es| :: es[i] == Entry(lines[i].record, HashOf(lines[i]))
  {
    seq(|lines|, i requires 0 <= i < |lines| => Entry(lines[i].record, HashOf(lines[i])))
  }

  function WholeJournal(lines: seq<Line>, instance: string): Loaded {
    Loaded(HeadAt(lines, instance, |lines|), Entries(lines))
  }

  /** The checkpoint names one of the heads the journal went through. */
  ghost predicate Passes(lines: seq<Line>, saved: Head) {
    saved.sequence <= |lines| && saved.hash == HashAt(lines, saved.sequence)
  }

  /** What load accepts: nothing torn, every line readable and chained, and the checkpoint on it. */
  ghost predicate Loads(lines: seq<Line>, torn: bool, key: nat, cp: Checkpoint, allowTail: bool) {
    && cp.macKey == key && cp.head.instance != ""
    && Bytes(lines) <= CAPACITY && !torn
    && Chained(lines, key, cp.head.instance) && Scannable(lines)
    && Passes(lines, cp.head)
    && (allowTail || cp.head.sequence == |lines|)
  }

  lemma ExtendsSequence(l: Line, key: nat, head: Head)
    requires Extends(l, key, head)
    ensures l.record.sequence == head.sequence + 1
  {
  }

  /** The head after a line that extends the one before it. */
  lemma HeadStep(lines: seq<Line>, instance: string, i: nat)
    requires i < |lines|
    ensures HeadAt(lines, instance, i + 1) == Head(instance, i + 1, HashOf(lines[i]))
  {
  }

  /** load: one pass over the lines that advances the head and collects the records. */
  method Load(lines: seq<Line>, torn: bool, key: nat, cp: Checkpoint, allowTail: bool)
      returns (r: Result<Loaded, LoadError>)
    ensures r.Ok? <==> Loads(lines, torn, key, cp, allowTail)
    ensures r.Ok? ==> r.value == WholeJournal(lines, cp.head.instance)
  {
    hide Extends, Bytes;
    if cp.macKey != key || cp.head.instance == "" { return Err(BadCheckpoint); }
    if Bytes(lines) > CAPACITY { return Err(TooLarge); }
    var instance := cp.head.instance;
    var head, entries := Head(instance, 0, NoHash), [];
    var matched := cp.head.sequence == 0 && cp.head.hash == NoHash;
    for i := 0 to |lines|
      invariant head == HeadAt(lines, instance, i)
      invariant |entries| == i && forall k | 0 <= k < i :: entries[k] == Entry(lines[k].record, HashOf(lines[k]))
      invariant forall k | 0 <= k < i ::
                  Extends(lines[k], key, HeadAt(lines, instance, k)) && lines[k].size < LINE_LIMIT
      invariant matched <==> cp.head.sequence <= i && cp.head.hash == HashAt(lines, cp.head.sequence)
    {
      var l := lines[i];
      if l.size >= LINE_LIMIT { return Err(BadLine); }
      if !Extends(l, key, head) { return Err(BadLine); }
      ExtendsSequence(l, key, head);
      HeadStep(lines, instance, i);
      head := Head(instance, l.record.sequence, HashOf(l));
      entries := entries + [Entry(l.record, HashOf(l))];
      if l.record.sequence == cp.head.sequence && HashOf(l) == cp.head.hash { matched := true; }
    }
    if torn { return Err(PartialRecord); }
    if !matched || (!allowTail && (head.sequence != cp.head.sequence || head.hash != cp.head.hash)) {
      return Err(Truncated);
    }
    assert entries == Entries(lines);
    r := Ok(Loaded(head, entries));
  }

  /** What stands in each line of a chain, spelled out. */
  ghost predicate LinkedAt(lines: seq<Line>, key: nat, instance: string, i: nat)
    requires i < |lines|
  {
    var l, before := lines[i], if i == 0 then NoHash else HashOf(lines[i - 1]);
    && l.sealKey == key && l.sealInstance == instance && l.sealHash == before
    && l.record.instance == instance && l.record.action.instance == instance
    && l.record.sequence == i + 1 && l.record.previous == before
  }

  /**
   A journal loads exactly when it has at most 128 MiB, nothing is torn, each line is shorter than 2 MiB,
   sealed under the key and chained to the one before it, and the checkpoint, written under the same key,
   names the start or one of the lines (the last one, unless a tail is allowed).
   */
  lemma LoadsIff(lines: seq<Line>, torn: bool, key: nat, cp: Checkpoint, allowTail: bool)
    ensures Loads(lines, torn, key, cp, allowTail) <==>
            && cp.macKey == key && cp.head.instance != "" && !torn && Bytes(lines) <= 134_217_728
            && (forall i | 0 <= i < |lines| :: LinkedAt(lines, key, cp.head.instance, i) && lines[i].size < 2_097_152)
            && cp.head.sequence <= |lines| && (allowTail || cp.head.sequence == |lines|)
            && cp.head.hash == (if cp.head.sequence == 0 then NoHash else HashOf(lines[cp.head.sequence - 1]))
  {
    hide Bytes, LinkedAt, Chained, Scannable;
    ChainIs(lines, key, cp.head.instance);
    ScannableIs(lines);
  }

  lemma ScannableIs(lines: seq<Line>)
    ensures Scannable(lines) <==> forall i | 0 <= i < |lines| :: lines[i].size < 2_097_152
  {
  }

  lemma ChainIs(lines: seq<Line>, key: nat, instance: string)
    ensures Chained(lines, key, instance) <==> forall i | 0 <= i < |lines| :: LinkedAt(lines, key, instance, i)
  {
    hide Extends, LinkedAt, HeadAt;
    forall i | 0 <= i < |lines|
      ensures Extends(lines[i], key, HeadAt(lines, instance, i)) <==> LinkedAt(lines, key, instance, i)
    {
      LinkIs(lines, key, instance, i);
    }
  }

  lemma LinkIs(lines: seq<Line>, key: nat, instance: string, i: nat)
    requires i < |lines|
    ensures Extends(lines[i], key, HeadAt(lines, instance, i)) <==> LinkedAt(lines, key, instance, i)
  {
  }

  /** Two journals that load under one checkpoint have the same lines up to it. */
  lemma CheckpointFixesPast(a: seq<Line>, b: seq<Line>, key: nat, cp: Checkpoint)
    requires Loads(a, false, key, cp, true) && Loads(b, false, key, cp, true)
    ensures a[..cp.head.sequence] == b[..cp.head.sequence]
  {
    LoadsIff(a, false, key, cp, true);
    LoadsIff(b, false, key, cp, true);
    hide Loads, Bytes;
    SameBefore(a, b, key, cp.head.instance, cp.head.sequence);
  }

  lemma {:induction false} SameBefore(a: seq<Line>, b: seq<Line>, key: nat, instance: string, n: nat)
    requires n <= |a| && n <= |b| && (n > 0 ==> a[n - 1] == b[n - 1])
    requires forall i | 0 <= i < |a| :: LinkedAt(a, key, instance, i)
    requires forall i | 0 <= i < |b| :: LinkedAt(b, key, instance, i)
    ensures a[..n] == b[..n]
  {
    if n > 0 {
      assert LinkedAt(a, key, instance, n - 1) && LinkedAt(b, key, instance, n - 1);
      SameBefore(a, b, key, instance, n - 1);
      assert a[..n] == a[..n - 1] + [a[n - 1]] && b[..n] == b[..n - 1] + [b[n - 1]];
    }
  }

  /** The line that Append writes for an action after the given head. */
  function NextLine(head: Head, key: nat, a: Action, size: nat): Line {
    Line(key, head.instance, head.hash, Record(head.instance, head.sequence + 1, head.hash, a), size)
  }

  /** Append's own tests: the instance, the size of the sealed line, the capacity of the file. */
  predicate Appendable(lines: seq<Line>, head: Head, a: Action, size: nat) {
    a.instance == head.instance && size <= LINE_LIMIT && Bytes(lines) + size + 1 <= CAPACITY
  }

  lemma ChainedAppend(lines: seq<Line>, key: nat, instance: string, a: Action, size: nat)
    requires Chained(lines, key, instance) && a.instance == instance
    ensures Chained(lines + [NextLine(HeadAt(lines, instance, |lines|), key, a, size)], key, instance)
  {
    var more := lines + [NextLine(HeadAt(lines, instance, |lines|), key, a, size)];
    NextExtends(HeadAt(lines, instance, |lines|), key, a, size);
    hide Extends, NextLine;
    forall i | 0 <= i < |more| ensures Extends(more[i], key, HeadAt(more, instance, i)) {
      SameHead(lines, more, instance, i);
    }
  }

  lemma NextExtends(head: Head, key: nat, a: Action, size: nat)
    requires a.instance == head.instance
    ensures Extends(NextLine(head, key, a, size), key, head)
  {
  }

  lemma SameHead(lines: seq<Line>, more: seq<Line>, instance: string, i: nat)
    requires lines <= more && i <= |lines|
    ensures HeadAt(more, instance, i) == HeadAt(lines, instance, i)
  {
  }

  /**
   Append, then load: what was appended to a loadable journal loads again, under the checkpoint that
   follows the append, exactly when the line leaves the scanner room for its newline.
   */
  lemma AppendThenLoad(lines: seq<Line>, key: nat, cp: Checkpoint, a: Action, size: nat)
    requires Loads(lines, false, key, cp, false) && Appendable(lines, cp.head, a, size)
    ensures var more := lines + [NextLine(cp.head, key, a, size)];
            var after := Checkpoint(HeadAt(more, cp.head.instance, |more|), key);
            && (Loads(more, false, key, after, false) <==> size < LINE_LIMIT)
            && (Loads(more, false, key, cp, true) <==> size < LINE_LIMIT)
            && !Loads(more, false, key, cp, false)
  {
    var instance := cp.head.instance;
    var more := lines + [NextLine(cp.head, key, a, size)];
    assert cp.head == HeadAt(lines, instance, |lines|);
    ChainedAppend(lines, key, instance, a, size);
    assert more[..|more| - 1] == lines;
    if size < LINE_LIMIT {
      forall i | 0 <= i < |more| ensures more[i].size < LINE_LIMIT {
        if i < |lines| { assert lines[i].size < LINE_LIMIT; }
      }
    } else {
      assert more[|lines|].size >= LINE_LIMIT;
    }
  }

  /** The boundary: a line of exactly the limit is appended to an empty journal and never read back. */
  lemma BoundaryLineIsLost(a: Action, allowTail: bool)
    requires a.instance != ""
    ensures var cp := Checkpoint(Head(a.instance, 0, NoHash), 7);
            && Loads([], false, 7, cp, false) && Appendable([], cp.head, a, LINE_LIMIT)
            && forall after :: !Loads([NextLine(cp.head, 7, a, LINE_LIMIT)], false, 7, after, allowTail)
  {
    var cp := Checkpoint(Head(a.instance, 0, NoHash), 7);
    var more := [NextLine(cp.head, 7, a, LINE_LIMIT)];
    assert more[0].size == LINE_LIMIT;
  }

  /* ---------- the database's side ---------- */

  /** Everything in the tables that decisions look at and change; what it is does not matter here. */
  type Content = string

  /** Whether the tables admit a decision (holds, origins, memberships, ...), and what it does to them. */
  datatype Rules = Rules(accepts: (Content, Action) -> bool, effect: (Content, Action) -> Content)

  datatype Database = Database(instance: string, sequence: nat, head: Hash, applied: seq<Action>, content: Content)

  function DatabaseHead(db: Database): Head {
    Head(db.instance, db.sequence, db.head)
  }

  predicate Matches(j: Loaded, h: Head) {
    j.head == h
  }

  /** Whether a database head lies on the journal. */
  predicate Prefix(j: Loaded, h: Head)
    requires j.head.sequence == |j.entries|
  {
    if h.instance != j.head.instance || h.sequence > j.head.sequence then false
    else if h.sequence == 0 then h.hash == NoHash
    else j.entries[h.sequence - 1].hash == h.hash
  }

  /** The decision extends the database's own head. */
  predicate ExtendsDatabase(db: Database, e: Entry) {
    && e.record.action.instance == db.instance && e.record.sequence == db.sequence + 1
    && e.record.previous == db.head && e.hash != NoHash
  }

  /** sierx_lifecycle_apply: the decision must extend the head, and the tables must admit it. */
  function ApplyRecord(rules: Rules, db: Database, e: Entry): Option<Database> {
    var a := e.record.action;
    if ExtendsDatabase(db, e) && rules.accepts(db.content, a)
    then Some(Database(db.instance, e.record.sequence, e.hash, db.applied + [a], rules.effect(db.content, a)))
    else None
  }

  function Actions(lines: seq<Line>): (as_: seq<Action>)
    ensures |as_| == |lines| && forall i | 0 <= i < |as_| :: as_[i] == lines[i].record.action
  {
    seq(|lines|, i requires 0 <= i < |lines| => lines[i].record.action)
  }

  /** Each decision is accepted on the tables that its predecessors leave. */
  predicate Accepted(rules: Rules, content: Content, actions: seq<Action>)
    decreases |actions|
  {
    actions == []
    || (rules.accepts(content, actions[0]) && Accepted(rules, rules.effect(content, actions[0]), actions[1..]))
  }

  /** The tables after a list of decisions. */
  function Effects(rules: Rules, content: Content, actions: seq<Action>): Content
    decreases |actions|
  {
    if actions == [] then content else Effects(rules, rules.effect(content, actions[0]), actions[1..])
  }

  /** A database that has applied exactly the first n decisions of the journal, each once and in order. */
  function DatabaseAt(lines: seq<Line>, instance: string, n: nat, content: Content): Database
    requires n <= |lines|
  {
    Database(instance, n, HashAt(lines, n), Actions(lines[..n]), content)
  }

  /** The decisions a database at position n has not applied yet. */
  function Pending(lines: seq<Line>, n: nat): seq<Action>
    requires n <= |lines|
  {
    Actions(lines[n..])
  }

  lemma ActionsStep(lines: seq<Line>, n: nat)
    requires n < |lines|
    ensures Actions(lines[..n + 1]) == Actions(lines[..n]) + [lines[n].record.action]
    ensures Pending(lines, n) == [lines[n].record.action] + Pending(lines, n + 1)
  {
  }

  /** The next decision of a chained journal applies exactly when the tables admit it. */
  lemma NextDecisionApplies(rules: Rules, lines: seq<Line>, key: nat, instance: string, n: nat, content: Content)
    requires Chained(lines, key, instance) && n < |lines|
    ensures Entries(lines)[n].record.sequence == n + 1
    ensures var a := lines[n].record.action;
            ApplyRecord(rules, DatabaseAt(lines, instance, n, content), Entries(lines)[n])
            == if rules.accepts(content, a) then Some(DatabaseAt(lines, instance, n + 1, rules.effect(content, a)))
                else None
  {
    hide Actions, Extends, Pending;
    assert Extends(lines[n], key, HeadAt(lines, instance, n));
    ActionsStep(lines, n);
    ExtendingApplies(rules, DatabaseAt(lines, instance, n, content), lines[n], key);
  }

  lemma ExtendingApplies(rules: Rules, db: Database, l: Line, key: nat)
    requires Extends(l, key, DatabaseHead(db))
    ensures l.record.sequence == db.sequence + 1
    ensures var a := l.record.action;
            ApplyRecord(rules, db, Entry(l.record, HashOf(l)))
            == if rules.accepts(db.content, a)
               then Some(Database(db.instance, db.sequence + 1, HashOf(l), db.applied + [a],
                   rules.effect(db.content, a)))
               else None
  {
  }

  lemma PendingStep(rules: Rules, lines: seq<Line>, n: nat, content: Content)
    requires n < |lines|
    ensures var a := lines[n].record.action;
            && (Accepted(rules, content, Pending(lines, n))
                <==> rules.accepts(content, a) && Accepted(rules, rules.effect(content, a), Pending(lines, n + 1)))
            && Effects(rules, content, Pending(lines, n))
                == Effects(rules, rules.effect(content, a), Pending(lines, n + 1))
  {
    ActionsStep(lines, n);
    assert Pending(lines, n)[1..] == Pending(lines, n + 1);
  }

  /** What replaying the rest of the journal gives: all of it, or nothing when some decision is refused. */
  function Replayed(rules: Rules, lines: seq<Line>, db: Database): Option<Database>
    requires db.sequence <= |lines|
  {
    var rest := Pending(lines, db.sequence);
    if Accepted(rules, db.content, rest)
    then Some(DatabaseAt(lines, db.instance, |lines|, Effects(rules, db.content, rest)))
    else None
  }

  /** One step of replaying. */
  lemma ReplayedStep(rules: Rules, lines: seq<Line>, key: nat, db: Database)
    requires Chained(lines, key, db.instance) && db.sequence < |lines|
    requires db == DatabaseAt(lines, db.instance, db.sequence, db.content)
    ensures var next := ApplyRecord(rules, db, Entries(lines)[db.sequence]);
            && (next.None? ==> Replayed(rules, lines, db) == None)
            && (next.Some? ==> next.value == DatabaseAt(lines, db.instance, db.sequence + 1, next.value.content)
                               && Replayed(rules, lines, db) == Replayed(rules, lines, next.value))
  {
    NextDecisionApplies(rules, lines, key, db.instance, db.sequence, db.content);
    PendingStep(rules, lines, db.sequence, db.content);
    hide Chained, Accepted, Effects, Pending, ApplyRecord, Entries, Actions, HashAt;
  }

  lemma ReplayedAtEnd(rules: Rules, lines: seq<Line>, db: Database)
    requires db.sequence == |lines| && db == DatabaseAt(lines, db.instance, db.sequence, db.content)
    ensures Replayed(rules, lines, db) == Some(db)
  {
    assert Pending(lines, |lines|) == [];
  }

  /** The replay loop: every record past the database's own sequence, in order. */
  method Replay(rules: Rules, j: Loaded, db: Database, ghost lines: seq<Line>, ghost key: nat)
      returns (r: Option<Database>)
    requires Chained(lines, key, db.instance) && j == WholeJournal(lines, db.instance)
    requires db.sequence <= |lines| && db == DatabaseAt(lines, db.instance, db.sequence, db.content)
    ensures r == Replayed(rules, lines, db)
  {
    hide ApplyRecord, Chained, DatabaseAt, Entries, Replayed;
    var tx := db;
    for i := 0 to |j.entries|
      invariant tx.instance == db.instance && tx.sequence == (if i <= db.sequence then db.sequence else i)
      invariant tx == DatabaseAt(lines, tx.instance, tx.sequence, tx.content)
      invariant Replayed(rules, lines, tx) == Replayed(rules, lines, db)
    {
      var e := j.entries[i];
      EntryNumber(lines, key, db.instance, i);
      if e.record.sequence > db.sequence {
        ReplayedStep(rules, lines, key, tx);
        AtPosition(lines, tx.instance, i + 1);
        var next := ApplyRecord(rules, tx, e);
        if next.None? { return None; }
        tx := next.value;
      }
    }
    ReplayedAtEnd(rules, lines, tx);
    r := Some(tx);
  }

  lemma EntryNumber(lines: seq<Line>, key: nat, instance: string, n: nat)
    requires Chained(lines, key, instance) && n < |lines|
    ensures Entries(lines)[n].record.sequence == n + 1
  {
    assert Extends(lines[n], key, HeadAt(lines, instance, n));
  }

  lemma AtPosition(lines: seq<Line>, instance: string, n: nat)
    requires n <= |lines|
    ensures forall c ::
              DatabaseAt(lines, instance, n, c).sequence == n && DatabaseAt(lines, instance, n, c).instance == instance
  {
  }

  /** On a chained journal, Prefix accepts exactly the heads the journal went through. */
  lemma PrefixIsOnChain(lines: seq<Line>, instance: string, h: Head)
    ensures Prefix(WholeJournal(lines, instance), h)
       <==> h.sequence <= |lines| && h == HeadAt(lines, instance, h.sequence)
  {
  }
}
