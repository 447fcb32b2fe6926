/**
 The listing's order and content, said without the model's own notion of order: what stands before
 what on a page, and which items are there (listItems, internal/api/sxq.go).
 */
module ListingOrder {
  import opened Wrappers
  import opened Sql
  import opened ItemJoins
  import opened Keyset
  import opened ItemPages
  import C = SxqCompile
  import N = SxqNarrow
  import Q = Sxq

  /**
   a may stand before b: nulls come last; different values follow the direction asked for; equal
   values, or two nulls, follow the ids upwards.
   */
  ghost predicate InOrder(less: (Datum, Datum) -> bool, desc: bool, a: Key, b: Key) {
    && (a.sort.Null? ==> b.sort.Null?)
    && (!a.sort.Null? && !b.sort.Null? && a.sort != b.sort ==>
          if desc then less(b.sort, a.sort) else less(a.sort, b.sort))
    && (a.sort == b.sort ==> less(a.id, b.id))
  }

  lemma DirectionIsTheQuerys(l: Listing, q: Q.Query, some: C.Options, all: C.Options, defs: seq<N.Definition>)
    requires Setting(l, q, some, all, defs)
    ensures l.plan.desc == q.desc
  {
    hide N.Loaded, N.Consistent, SoundWorld, Referential, JoinAll, AllJoins, ItemRows, Carries, Reference;
    hide C.FieldSql, C.ExprSql;
  }

  lemma SortedInOrder(l: Listing, s: seq<Entry>, i: nat, j: nat)
    requires Sorted(OrderOf(l), s) && i < j < |s|
    ensures InOrder(l.w.less, l.plan.desc, s[i].key, s[j].key)
  {
    assert Before(OrderOf(l), s[i].key, s[j].key);
  }

  /** The answer as a whole is in order. */
  lemma AnswerIsInOrder(l: Listing, q: Q.Query, some: C.Options, all: C.Options, defs: seq<N.Definition>,
      i: nat, j: nat)
    requires Setting(l, q, some, all, defs) && i < j < |Answer(l, q, all)|
    ensures InOrder(l.w.less, q.desc, Answer(l, q, all)[i].key, Answer(l, q, all)[j].key)
  {
    AnswerIsSorted(l, q, some, all, defs);
    DirectionIsTheQuerys(l, q, some, all, defs);
    hide Setting, Answer, Sorted, Total, OrderOf, InOrder;
    SortedInOrder(l, Answer(l, q, all), i, j);
  }

  /** So is every page, and every row of it comes after the cursor it was asked for with. */
  lemma PageIsInOrder(l: Listing, q: Q.Query, some: C.Options, all: C.Options, defs: seq<N.Definition>,
                      cursor: Option<Key>, limit: Limit, i: nat, j: nat)
    requires Setting(l, q, some, all, defs) && (cursor.Some? ==> Carries(l, cursor.value))
    requires i < j < |RequestPage(l, cursor, limit).data|
    ensures |RequestPage(l, cursor, limit).data| <= limit
    ensures var data := RequestPage(l, cursor, limit).data;
            && InOrder(l.w.less, q.desc, data[i].key, data[j].key)
            && (cursor.Some? ==> InOrder(l.w.less, q.desc, cursor.value, data[i].key))
  {
    AnswerIsSorted(l, q, some, all, defs);
    DirectionIsTheQuerys(l, q, some, all, defs);
    RequestIsPage(l, q, some, all, defs, cursor, limit);
    hide Setting, Answer, RequestPage, Carries;
    PageStaysSorted(l, Answer(l, q, all), cursor, limit, i, j);
  }

  lemma PageStaysSorted(l: Listing, answer: seq<Entry>, cursor: Option<Key>, limit: Limit, i: nat, j: nat)
    requires Sorted(OrderOf(l), answer) && i < j < |PageOf(OrderOf(l), answer, cursor, limit).data|
    ensures var data := PageOf(OrderOf(l), answer, cursor, limit).data;
            && |data| <= limit && InOrder(l.w.less, l.plan.desc, data[i].key, data[j].key)
            && (cursor.Some? ==> InOrder(l.w.less, l.plan.desc, cursor.value, data[i].key))
  {
    var p := (e: Entry) => IsAfter(OrderOf(l), cursor, e.key);
    var rows := Filter(answer, p);
    FilterSorted(OrderOf(l), answer, p);
    SortedInOrder(l, rows, i, j);
    FilterCounts(answer, p);
    assert rows[i] in multiset(rows);
    assert p(rows[i]);
  }

  /** And so are the pages that following the cursors joins together. */
  lemma BrowsedIsInOrder(l: Listing, q: Q.Query, some: C.Options, all: C.Options, defs: seq<N.Definition>,
                         limits: seq<Limit>, i: nat, j: nat)
    requires Setting(l, q, some, all, defs) && i < j < |Browse(l, None, limits).0|
    ensures InOrder(l.w.less, q.desc, Browse(l, None, limits).0[i].key, Browse(l, None, limits).0[j].key)
  {
    hide Setting, Answer, Browse, InOrder, BoundariesFit;
    ListingIsExact(l, q, some, all, defs, limits);
    AnswerIsInOrder(l, q, some, all, defs, i, j);
  }

  /* ---------- content ---------- */

  /** A row the request is about, column by column. */
  ghost predicate AskedFor(l: Listing, q: Q.Query, all: C.Options, row: Row) {
    && ColumnOf(row, I, "workspace_id") == l.w.cast(UuidType, Text(l.request.workspace))
    && ColumnOf(row, I, "deleted_at").Null?
    && (l.request.project == "" || ColumnOf(row, P, "key_prefix") == Text(l.request.project))
    && (q.expr.Some? ==> C.Satisfies(l.w, all, q.expr.value, row) == Yes)
    && !l.w.less(l.w.cast(UuidType, Text(l.request.upper)), ColumnOf(row, I, "id"))
  }

  lemma AskedForIsListed(l: Listing, q: Q.Query, all: C.Options, row: Row)
    requires SoundWorld(l.w) && !ColumnOf(row, I, "id").Null?
    ensures AskedFor(l, q, all, row) <==> Listed(l.w, all, q, l.request, row) && UpTo(l.w, l.request, row)
  {
    assert !l.w.cast(UuidType, Text(l.request.workspace)).Null?;
    assert !l.w.cast(UuidType, Text(l.request.upper)).Null?;
    hide C.Satisfies;
  }

  lemma {:induction false} Picked(rows: seq<Row>, keep: Row -> bool, entry: Row -> Entry, k: nat)
    requires k < |rows| && keep(rows[k])
    ensures entry(rows[k]) in Pick(rows, keep, entry)
  {
    if k < |rows| - 1 { Picked(rows[..|rows| - 1], keep, entry, k); }
  }

  /** The entry that an item's row must give. */
  ghost function EntryOf(l: Listing, q: Q.Query, all: C.Options, row: Row): Entry {
    Entry(Key(C.FieldValue(l.w, all, q.order, row), ColumnOf(row, I, "id")), ItemOf(row))
  }

  /** An entry the reference picks comes from a row that the request asks for, and the other way round. */
  lemma ReferenceIsAskedFor(l: Listing, q: Q.Query, all: C.Options, e: Entry)
    requires SoundWorld(l.w) && Referential(l.t)
    ensures var full := JoinAll(ItemRows(l.t.items), AllJoins(l.t));
            e in Reference(l.w, all, q, l.request, l.t) <==>
            exists k :: 0 <= k < |full| && AskedFor(l, q, all, full[k]) && e == EntryOf(l, q, all, full[k])
  {
    var full := JoinAll(ItemRows(l.t.items), AllJoins(l.t));
    FullRows(l.t);
    forall k | 0 <= k < |full|
      ensures AskedFor(l, q, all, full[k]) <==> Listed(l.w, all, q, l.request, full[k]) && UpTo(l.w, l.request, full[k])
    {
      AskedForIsListed(l, q, all, full[k]);
    }
    hide SoundWorld, Referential, AskedFor, Listed, UpTo, JoinAll, ItemRows, AllJoins, C.FieldValue;
    var keep := (row: Row) => Listed(l.w, all, q, l.request, row) && UpTo(l.w, l.request, row);
    var entry := (row: Row) => ListedEntry(l.w, all, q, row);
    var reference := Reference(l.w, all, q, l.request, l.t);
    assert reference == Pick(full, keep, entry);
    if e in reference {
      var i :| 0 <= i < |reference| && reference[i] == e;
      var a := PickOne(full, keep, entry, i);
      assert AskedFor(l, q, all, full[a]) && e == EntryOf(l, q, all, full[a]);
    }
    if k :| 0 <= k < |full| && AskedFor(l, q, all, full[k]) && e == EntryOf(l, q, all, full[k]) {
      Picked(full, keep, entry, k);
      assert entry(full[k]) == e;
    }
  }

  lemma SettingWorld(l: Listing, q: Q.Query, some: C.Options, all: C.Options, defs: seq<N.Definition>)
    requires Setting(l, q, some, all, defs)
    ensures SoundWorld(l.w) && Referential(l.t)
  {
  }

  /** The answer holds exactly the rows of the full join that the request asks for, under their sort value and id. */
  lemma AnswerIsAskedFor(l: Listing, q: Q.Query, some: C.Options, all: C.Options, defs: seq<N.Definition>, e: Entry)
    requires Setting(l, q, some, all, defs)
    ensures var full := JoinAll(ItemRows(l.t.items), AllJoins(l.t));
            e in Answer(l, q, all) <==>
            exists k :: 0 <= k < |full| && AskedFor(l, q, all, full[k]) && e == EntryOf(l, q, all, full[k])
  {
    SettingWorld(l, q, some, all, defs);
    hide Setting, AskedFor, EntryOf, JoinAll, ItemRows, AllJoins, Answer, Reference;
    SameEntries(l, q, all, e);
    ReferenceIsAskedFor(l, q, all, e);
  }

  lemma SameEntries(l: Listing, q: Q.Query, all: C.Options, e: Entry)
    ensures e in Answer(l, q, all) <==> e in Reference(l.w, all, q, l.request, l.t)
  {
    hide Reference, OrderBy;
    var reference, answer := Reference(l.w, all, q, l.request, l.t), Answer(l, q, all);
    assert multiset(answer) == multiset(reference);
    assert e in answer <==> e in multiset(answer);
    assert e in reference <==> e in multiset(reference);
  }

  lemma {:induction false} DistinctCounts(s: seq<Entry>, e: Entry)
    requires DistinctIds(s)
    ensures multiset(s)[e] <= 1
  {
    if s != [] {
      var n := |s| - 1;
      assert s == s[..n] + [s[n]];
      DistinctCounts(s[..n], e);
      if s[n] == e { assert e !in s[..n]; }
    }
  }

  lemma TwiceCounts(s: seq<Entry>, i: nat, j: nat)
    requires i < j < |s| && s[i] == s[j]
    ensures multiset(s)[s[j]] >= 2
  {
    assert s == s[..j] + [s[j]] + s[j + 1..];
    assert s[..j][i] == s[j];
  }

  /** Listing rows with distinct ids in another order keeps the ids distinct. */
  lemma ReorderedDistinct(a: seq<Entry>, b: seq<Entry>)
    requires DistinctIds(b) && multiset(a) == multiset(b)
    ensures forall i, j | 0 <= i < j < |a| :: a[i].key.id != a[j].key.id
  {
    forall i, j | 0 <= i < j < |a| ensures a[i].key.id != a[j].key.id {
      assert a[i] in multiset(a) && a[j] in multiset(a);
      assert a[i] in b && a[j] in b;
      if a[i] == a[j] {
        TwiceCounts(a, i, j);
        DistinctCounts(b, a[j]);
      } else {
        var x :| 0 <= x < |b| && b[x] == a[i];
        var y :| 0 <= y < |b| && b[y] == a[j];
      }
    }
  }

  /** No item stands in the answer twice. */
  lemma AnswerIsDistinct(l: Listing, q: Q.Query, some: C.Options, all: C.Options, defs: seq<N.Definition>)
    requires Setting(l, q, some, all, defs)
    ensures forall i, j | 0 <= i < j < |Answer(l, q, all)| :: Answer(l, q, all)[i].key.id != Answer(l, q, all)[j].key.id
  {
    SettingReferential(l, q, some, all, defs);
    hide Setting, Reference, Referential, OrderBy, DistinctIds;
    ReferenceIsDistinct(l.w, all, q, l.request, l.t);
    ReorderedDistinct(Answer(l, q, all), Reference(l.w, all, q, l.request, l.t));
  }
}
