/** Building a mutation (internal/store/events.go): the only way to register a change gives it events. */
module Mutations {
  import opened Wrappers
  import opened Uuids
  import opened Changes
  import opened UnitOfWork
  import S = Store

  datatype BuildError = TitleRequired | OriginRequired | NoFieldChange | NoFieldName | BadCommentAction
                      | ActorRequired | NotAnEndpoint

  /** A link to drop, with the endpoint whose page it is dropped from, if that is known. */
  datatype LinkEnd = LinkEnd(link: Id, from: Id, to: Id, acting: Option<Id>)

  /** What the exported constructors can register. */
  predicate Registered(changes: seq<Change>) {
    forall i | 0 <= i < |changes| :: changes[i].events != [] && !changes[i].op.HardDelete?
  }

  class Mutation {
    var changes: seq<Change>
    var failed: Option<BuildError>
    const hasActor: bool

    ghost predicate Valid()
      reads this
    {
      Registered(changes)
    }

    constructor (hasActor: bool)
      ensures Valid() && changes == [] && failed == None && this.hasActor == hasActor
    {
      changes, failed, this.hasActor := [], None, hasActor;
    }

    /** Keeps the first error. */
    method Fail(e: BuildError)
      modifies this`failed
      ensures failed == if old(failed).Some? then old(failed) else Some(e)
    {
      if failed.None? { failed := Some(e); }
    }

    method Create(id: Id, titled: bool, hasOrigin: bool, op: Op)
      requires Valid() && op.Insert?
      modifies this
      ensures Valid()
      ensures changes == old(changes) + if titled && hasOrigin then [Change(id, op, ["created"])] else []
      ensures failed == if old(failed).None? && !(titled && hasOrigin)
                        then Some(if titled then OriginRequired else TitleRequired) else old(failed)
    {
      if !titled { Fail(TitleRequired); return; }
      if !hasOrigin { Fail(OriginRequired); return; }
      changes := changes + [Change(id, op, ["created"])];
    }

    /** The caller names the fields that changed; each becomes one event. */
    method Update(id: Id, op: Op, fields: seq<string>)
      requires Valid() && op.Update?
      modifies this
      ensures Valid()
      ensures changes == old(changes) + if fields != [] && "" !in fields then [Change(id, op, fields)] else []
      ensures failed == if old(failed).None? && (fields == [] || "" in fields)
                        then Some(if fields == [] then NoFieldChange else NoFieldName) else old(failed)
    {
      if |fields| == 0 { Fail(NoFieldChange); return; }
      for i := 0 to |fields|
        invariant forall k | 0 <= k < i :: fields[k] != ""
        invariant changes == old(changes) && failed == old(failed)
      {
        if fields[i] == "" { Fail(NoFieldName); return; }
      }
      changes := changes + [Change(id, op, fields)];
    }

    method Reparent(id: Id, op: Op)
      requires Valid() && op.Reparent?
      modifies this
      ensures Valid() && failed == old(failed) && changes == old(changes) + [Change(id, op, ["moved"])]
    {
      changes := changes + [Change(id, op, ["moved"])];
    }

    method SoftDelete(id: Id)
      requires Valid()
      modifies this
      ensures Valid() && failed == old(failed) && changes == old(changes) + [Change(id, Op.SoftDelete, ["deleted"])]
    {
      changes := changes + [Change(id, Op.SoftDelete, ["deleted"])];
    }

    method AddLink(link: Id, from: Id, to: Id, kind: string)
      requires Valid()
      modifies this
      ensures Valid() && failed == old(failed)
      ensures changes == old(changes) + [Change(from, Op.AddLink(link, to, kind), ["linked"])]
    {
      changes := changes + [Change(from, Op.AddLink(link, to, kind), ["linked"])];
    }

    /** Recorded on the acting endpoint, by default the one the link starts from; anything else is refused. */
    method Unlink(l: LinkEnd)
      requires Valid()
      modifies this
      ensures Valid()
      ensures l.acting.None? ==> changes == old(changes) + [Change(l.from, DropLink(l.link), ["unlinked"])]
      ensures l.acting.Some? && (l.acting.value == l.from || l.acting.value == l.to) ==>
                changes == old(changes) + [Change(l.acting.value, DropLink(l.link), ["unlinked"])]
      ensures l.acting.Some? && l.acting.value != l.from && l.acting.value != l.to ==>
                changes == old(changes) && failed == if old(failed).None? then Some(NotAnEndpoint) else old(failed)
      ensures l.acting.None? || l.acting.value == l.from || l.acting.value == l.to ==> failed == old(failed)
    {
      var item := l.from;
      if l.acting.Some? { item := l.acting.value; }
      if item != l.from && item != l.to { Fail(NotAnEndpoint); return; }
      changes := changes + [Change(item, DropLink(l.link), ["unlinked"])];
    }

    method Comment(id: Id, action: string, comment: Id)
      requires Valid()
      modifies this
      ensures Valid()
      ensures hasActor && action == "create" ==>
                changes == old(changes) + [Change(id, AddComment(comment), ["comment"])]
      ensures hasActor && action == "edit" ==> changes == old(changes) + [Change(id, EditComment(comment), ["comment"])]
      ensures hasActor && action == "delete" ==>
                changes == old(changes) + [Change(id, DropComment(comment), ["comment"])]
      ensures action in {"create", "edit", "delete"} && hasActor ==> failed == old(failed)
      ensures !(action in {"create", "edit", "delete"} && hasActor) ==> changes == old(changes) && failed.Some?
    {
      if action != "create" && action != "edit" && action != "delete" { Fail(BadCommentAction); return; }
      if !hasActor { Fail(ActorRequired); return; }
      changes := changes + [Change(id, CommentOp(action, comment), ["comment"])];
    }

    /** Runs the mutation on the store, as the callback of Mutate does. */
    method Run(store: S.Store, expected: map<Id, int>) returns (r: Result<S.Receipt, Error>)
      requires Valid() && failed.None? && store.Valid()
      modifies store
      ensures store.Valid()
      ensures match Mutated(old(store.db), changes, expected)
              case Ok(after) => store.db == after && r.Ok?
              case Err(e) => store.db == old(store.db) && r == Err(e) && e != NoEvents
    {
      RegisteredHasNoRebirth(changes);
      RegisteredHasEvents(store.db, changes, expected);
      r := store.Mutate(changes, expected);
    }
  }

  function CommentOp(action: string, comment: Id): Op {
    if action == "create" then AddComment(comment) else if action == "edit" then EditComment(comment)
        else DropComment(comment)
  }

  lemma RegisteredHasNoRebirth(changes: seq<Change>)
    requires Registered(changes)
    ensures NoRebirth(changes)
  {
  }

  /** A row change with no event is not something the constructors can produce. */
  lemma RegisteredHasEvents(db: Db, changes: seq<Change>, expected: map<Id, int>)
    requires Registered(changes)
    ensures Mutated(db, changes, expected) != Err(NoEvents)
  {
    FlushedNeverNoEvents(db, changes, expected);
    hide Flushed;
  }

  lemma FlushedNeverNoEvents(db: Db, changes: seq<Change>, expected: map<Id, int>)
    ensures Flushed(db, changes, expected) != Err(NoEvents)
  {
    AllNeverNoEvents(db, changes, |changes|);
    hide ApplyAll, VersionsMatch, Refreshed, EventRows;
  }

  lemma {:induction false} AllNeverNoEvents(db: Db, changes: seq<Change>, k: nat)
    requires k <= |changes|
    ensures ApplyAll(db, changes, k) != Err(NoEvents)
  {
    if k > 0 {
      AllNeverNoEvents(db, changes, k - 1);
      if ApplyAll(db, changes, k - 1).Ok? {
        NextStep(db, changes, k - 1);
        OpNeverNoEvents(ApplyAll(db, changes, k - 1).value, changes[k - 1].itemId, changes[k - 1].op,
            StampOf(db, changes, k - 1));
      }
    }
    hide ApplyOp;
  }

  lemma OpNeverNoEvents(p: Progress, id: Id, op: Op, changeSeq: nat)
    ensures ApplyOp(p, id, op, changeSeq) != Err(NoEvents)
  {
  }

  /** HardDeleteItem: the one caller of the hard delete, alone in its mutation. */
  method HardDeleteItem(store: S.Store, id: Id) returns (r: Result<S.Receipt, Error>)
    requires store.Valid()
    modifies store
    ensures store.Valid()
    ensures match Mutated(old(store.db), [Change(id, HardDelete, ["deleted"])], map[])
            case Ok(after) => store.db == after && r.Ok?
            case Err(e) => store.db == old(store.db) && r == Err(e)
  {
    r := store.Mutate([Change(id, HardDelete, ["deleted"])], map[]);
  }
}
