/**
 How a reachable journal comes to hold a decision that replay can never apply: it was admitted on
 tables that a restore has taken back.
 */
module LifecycleRefusal {
  import opened Wrappers
  import opened Journal
  import opened Lifecycle

  /** Stores at rest that agree, with room for the decision, which the tables admit. */
  ghost predicate ReadyToApply(s: State, a: Action, size: nat) {
    && Inv(s) && s.process == Idle && !s.locked && !s.torn && Scannable(s.lines) && Current(s)
    && size < LINE_LIMIT && Appendable(s.lines, HeadAt(s.lines, s.instance, |s.lines|), a, size)
    && s.rules.accepts(s.db.content, a)
  }

  /** The states that an apply goes through, up to its commit. */
  ghost function ApplyStates(s: State, a: Action, size: nat): seq<State>
  {
    var mode, j := ApplyMode(a, size), WholeJournal(s.lines, s.instance);
    var s1 := s.(locked := true, process := Started(mode));
    var s2 := s1.(process := Opened(mode, j));
    var s3 := s2.(process := InTx(mode, j, s.db));
    var l := NextLine(j.head, s.key, a, size);
    var s4 := s3.(lines := s.lines + [l], process := Written(Extended(j, l), s.db));
    var s5 := s4.(checkpoint := Checkpoint(Extended(j, l).head, s.key), process := Pointed(Extended(j, l), s.db));
    var s6 := s5.(process := Ready(Applied(s, a, size).db));
    [s, s1, s2, s3, s4, s5, s6, Applied(s, a, size)]
  }

  function ApplySteps(a: Action, size: nat): seq<Step> {
    [Lock(ApplyMode(a, size)), OpenJournal, BeginTx, AppendLine, WriteHead, ApplyDecision, Commit]
  }

  /** A journal in step with its stores opens for any command, and its transaction begins. */
  lemma OpenStep(s: State, u: State, v: State, t: State, mode: Mode)
    requires Inv(s) && !s.torn && Scannable(s.lines) && Current(s)
    requires !mode.VerifyMode? && !mode.ReconcileMode? && u == s.(locked := true, process := Started(mode))
    requires v == u.(process := Opened(mode, WholeJournal(s.lines, s.instance)))
    requires t == v.(process := InTx(mode, WholeJournal(s.lines, s.instance), s.db))
    ensures Next(u, v, OpenJournal) && Next(v, t, BeginTx)
  {
    OpensForReplay(s);
    PrefixWhole(s);
    hide Inv, Loads, Scannable, WholeJournal, Prefix, Matches;
    assert OpensJournal(u, v);
    assert BeginsTx(v, t);
    hide OpensJournal, BeginsTx;
  }

  lemma OpeningRuns(s: State, a: Action, size: nat)
    requires ReadyToApply(s, a, size)
    ensures var run, steps := ApplyStates(s, a, size), ApplySteps(a, size);
            Next(run[0], run[1], steps[0]) && Next(run[1], run[2], steps[1]) && Next(run[2], run[3], steps[2])
  {
    hide Inv, Scannable, WholeJournal, Appendable, HeadAt, NextLine, Applied, Extended, Current;
    var run, mode := ApplyStates(s, a, size), ApplyMode(a, size);
    assert Next(run[0], run[1], Lock(mode));
    hide Next;
    OpenStep(s, run[1], run[2], run[3], mode);
  }

  lemma WritingRuns(s: State, a: Action, size: nat)
    requires ReadyToApply(s, a, size)
    ensures var run, steps := ApplyStates(s, a, size), ApplySteps(a, size);
            Next(run[3], run[4], steps[3]) && Next(run[4], run[5], steps[4])
  {
    WholeHead(s.lines, s.instance);
    hide Inv, Scannable, WholeJournal, Appendable, HeadAt, NextLine, Applied, Extended;
  }

  lemma LastEntry(s: State, a: Action, size: nat)
    ensures var j := WholeJournal(s.lines, s.instance);
            var es := Extended(j, NextLine(j.head, s.key, a, size)).entries;
            es != [] && es[|es| - 1] == NextEntry(j.head, s.key, a, size)
  {
    hide WholeJournal;
  }

  lemma DecisionStep(u: State, v: State, done: Database)
    requires u.process.Pointed? && u.process.j.entries != [] && v == u.(process := Ready(done))
    requires ApplyRecord(u.rules, u.process.tx, u.process.j.entries[|u.process.j.entries| - 1]) == Some(done)
    ensures Next(u, v, ApplyDecision)
  {
    hide ApplyRecord;
  }

  lemma CommitStep(v: State, t: State)
    requires v.process.Ready?
    requires t == v.(db := v.process.tx, backups := v.backups + {v.process.tx}, process := Idle, locked := false)
    ensures Next(v, t, Commit)
  {
  }

  lemma CommittingRuns(s: State, a: Action, size: nat)
    requires ReadyToApply(s, a, size)
    ensures var run, steps := ApplyStates(s, a, size), ApplySteps(a, size);
            Next(run[5], run[6], steps[5]) && Next(run[6], run[7], steps[6])
    ensures Inv(Applied(s, a, size))
  {
    AppendedDecision(s, a, size);
    LastEntry(s, a, size);
    hide Inv, Scannable, WholeJournal, Appendable, HeadAt, NextLine, NextEntry, Applied, Announced, Extended,
         ApplyRecord, Current, Next;
    var run := ApplyStates(s, a, size);
    DecisionStep(run[5], run[6], Applied(s, a, size).db);
    CommitStep(run[6], run[7]);
  }

  /** An apply runs through these steps. */
  lemma ApplyRuns(s: State, a: Action, size: nat)
    requires ReadyToApply(s, a, size)
    ensures Path(s, ApplyStates(s, a, size), ApplySteps(a, size)) && Inv(Applied(s, a, size))
  {
    OpeningRuns(s, a, size);
    WritingRuns(s, a, size);
    CommittingRuns(s, a, size);
    hide Next, Inv, ReadyToApply;
  }

  /** Any backup from before the decision whose tables do not admit it brings recovery to a stop. */
  lemma RestoreCanRefuse(s: State, a: Action, size: nat, backup: Database) returns (run: seq<State>, steps: seq<Step>)
    requires ReadyToApply(s, a, size)
    requires backup in s.backups && backup.sequence == |s.lines| && !s.rules.accepts(backup.content, a)
    ensures Path(s, run, steps)
    ensures var t := run[|run| - 1];
            && t.process == Idle && !t.torn && Scannable(t.lines) && Inv(t)
            && t.db == backup && |t.lines| == |s.lines| + 1 && t.checkpoint.head.sequence == |t.lines|
            && !(exists r, st :: Recovers(t, r, st))
  {
    ApplyRuns(s, a, size);
    var done := Applied(s, a, size);
    var t := done.(db := backup);
    RestoreStep(done, t, backup);
    run, steps := ApplyStates(s, a, size) + [t], ApplySteps(a, size) + [Restore(backup)];
    OneMoreStep(s, ApplyStates(s, a, size), ApplySteps(a, size), t, Restore(backup));
    StillScannable(s, a, size);
    LastIsRefused(s, a, size, t);
    RecoverableIff(t);
    hide Inv, Path, Recovers, PendingAccepted, Scannable, ReadyToApply;
  }

  lemma RestoreStep(s: State, t: State, backup: Database)
    requires Inv(s) && s.process == Idle && backup in s.backups && t == s.(db := backup)
    ensures Next(s, t, Restore(backup)) && Inv(t)
  {
    hide Inv;
    StepKeepsInv(s, t, Restore(backup));
  }

  lemma OneMoreStep(s: State, run: seq<State>, steps: seq<Step>, t: State, step: Step)
    requires Path(s, run, steps) && Next(run[|run| - 1], t, step)
    ensures Path(s, run + [t], steps + [step])
  {
    hide Next;
    var r, st := run + [t], steps + [step];
    forall i | 0 <= i < |st| ensures Next(r[i], r[i + 1], st[i]) {
      if i < |steps| { assert Next(run[i], run[i + 1], steps[i]); }
    }
  }

  lemma StillScannable(s: State, a: Action, size: nat)
    requires Scannable(s.lines) && size < LINE_LIMIT
    ensures Scannable(Grown(s, a, size))
  {
  }

  lemma LastIsRefused(s: State, a: Action, size: nat, t: State)
    requires t.lines == Grown(s, a, size) && t.rules == s.rules && t.db.sequence == |s.lines|
    requires !s.rules.accepts(t.db.content, a)
    ensures !PendingAccepted(t)
  {
    PendingStep(t.rules, t.lines, |s.lines|, t.db.content);
    hide Accepted, Pending;
  }

  /* ---------- a reachable case ---------- */

  predicate AcceptsMember(content: Content, a: Action) { content == "member" }

  function Unchanged(content: Content, a: Action): Content { content }

  const RULES: Rules := Rules(AcceptsMember, Unchanged)
  const EMPTY: Database := Database("i", 0, NoHash, [], "")
  const FRESH: State := State(7, "i", RULES, [], false, Checkpoint(Head("i", 0, NoHash), 7), EMPTY, {EMPTY}, false,
      Idle)
  const REMOVAL: Action := Action("i", "remove-member")

  /**
   A new instance, a member added by ordinary work, a decision about the member, and a restore of the
   first backup: the database can never again reach the journal's head, and every later replay changes
   nothing.
   */
  lemma RefusedAfterRestore() returns (run: seq<State>, steps: seq<Step>)
    ensures Behaviour(run, steps)
    ensures var t := run[|run| - 1];
            && t.process == Idle && !t.torn && Scannable(t.lines) && t.db.sequence == 0 && |t.lines| == 1
            && !(exists r, st :: Recovers(t, r, st))
  {
    var now := EMPTY.(content := "member");
    var s := FRESH.(db := now, backups := {EMPTY, now});
    FreshIsReady(s);
    var more, rest := RestoreCanRefuse(s, REMOVAL, 10, EMPTY);
    run, steps := [FRESH] + more, [Work("member")] + rest;
    hide Recovers, Scannable, Inv, ReadyToApply;
    FirstStep(FRESH, s, Work("member"), more, rest);
  }

  lemma FreshIsReady(s: State)
    requires s == FRESH.(db := EMPTY.(content := "member"), backups := {EMPTY, EMPTY.(content := "member")})
    ensures Init(FRESH) && Next(FRESH, s, Work("member")) && ReadyToApply(s, REMOVAL, 10)
  {
    assert EmptyDatabase("i", "") == EMPTY;
    assert Init(FRESH);
    InitHasInv(FRESH);
    assert Next(FRESH, s, Work("member"));
    hide Inv;
    StepKeepsInv(FRESH, s, Work("member"));
  }

  lemma FirstStep(first: State, s: State, step: Step, more: seq<State>, rest: seq<Step>)
    requires Init(first) && Next(first, s, step) && Path(s, more, rest)
    ensures Behaviour([first] + more, [step] + rest)
  {
    hide Next, Init;
    var r, st := [first] + more, [step] + rest;
    forall i | 0 <= i < |st| ensures Next(r[i], r[i + 1], st[i]) {
      if i > 0 { assert Next(more[i - 1], more[i], rest[i - 1]); }
    }
  }
}
