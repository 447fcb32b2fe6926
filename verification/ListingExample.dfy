/**
 A listing of two items by body, both 6053 characters long.  It shows that what the listing theorem
 assumes can all hold at once, and that such a listing never gets past its first page of one item.
 */
module ListingExample {
  import opened Wrappers
  import opened Sql
  import opened ItemJoins
  import opened Keyset
  import opened ItemPages
  import C = SxqCompile
  import N = SxqNarrow
  import Q = Sxq

  /* ---------- a total order of all values ---------- */

  predicate TextBefore(a: string, b: string) {
    b != "" && (a == "" || a[0] < b[0] || (a[0] == b[0] && TextBefore(a[1..], b[1..])))
  }

  lemma {:induction false} TextOrder(a: string, b: string, c: string)
    ensures !TextBefore(a, a)
    ensures TextBefore(a, b) && TextBefore(b, c) ==> TextBefore(a, c)
    ensures a == b || TextBefore(a, b) || TextBefore(b, a)
  {
    if a != "" { TextOrder(a[1..], if b == "" then "" else b[1..], if c == "" then "" else c[1..]); }
    if a != "" && b != "" && a[0] == b[0] && a[1..] == b[1..] { assert a == [a[0]] + a[1..] && b == [b[0]] + b[1..]; }
  }

  function TypeTag(t: Type): nat {
    match t
    case TextType => 0
    case NumericType => 1
    case DateType => 2
    case InstantType => 3
    case UuidType => 4
    case BoolType => 5
  }

  function Tag(d: Datum): nat {
    match d
    case Null => 0
    case Text(_) => 1
    case Bool(_) => 2
    case Int(_) => 3
    case Typed(t, _) => 4 + TypeTag(t)
    case Json(_) => 10
    case Vector(_) => 11
  }

  predicate Less(a: Datum, b: Datum) {
    if Tag(a) != Tag(b) then Tag(a) < Tag(b)
    else match a
      case Null => false
      case Text(s) => TextBefore(s, b.text)
      case Bool(x) => !x && b.b
      case Int(n) => n < b.n
      case Typed(_, n) => n < b.image
      case Json(s) => TextBefore(s, b.text)
      case Vector(n) => n < b.image
  }

  lemma LessIsTotal()
    ensures Total(Less)
  {
    forall a: Datum, b: Datum, c: Datum
      ensures !Less(a, a) && (Less(a, b) && Less(b, c) ==> Less(a, c)) && (a == b || Less(a, b) || Less(b, a))
    {
      LessOrder(a, b, c);
    }
  }

  lemma LessOrder(a: Datum, b: Datum, c: Datum)
    ensures !Less(a, a) && (Less(a, b) && Less(b, c) ==> Less(a, c)) && (a == b || Less(a, b) || Less(b, a))
  {
    var x := if a.Text? || a.Json? then a.text else "";
    var y := if b.Text? || b.Json? then b.text else "";
    var z := if c.Text? || c.Json? then c.text else "";
    TextOrder(x, y, z);
  }

  /* ---------- two items with long bodies ---------- */

  const ONE: Datum := Typed(UuidType, 1)
  const TWO: Datum := Typed(UuidType, 2)

  function Xs(n: nat): (s: string)
    ensures |s| == n
  {
    if n == 0 then "" else Xs(n - 1) + "x"
  }

  const LONG: string := Xs(6053)

  function Cast(to: Type, d: Datum): Datum {
    Typed(to, if d == Text("1") then 1 else if d == Text("2") then 2 else 0)
  }

  function IdText(d: Datum): string {
    if d == ONE then "1" else "2"
  }

  function SortArgument(d: Datum): Datum { d }

  const WORLD: World := World(Cast, Less, s => Text(s), s => Vector(0), (d, s) => false)

  function Item(id: Datum): Record {
    Record(map["id" := id, "body" := Text(LONG), "workspace_id" := ONE, "project_id" := ONE, "status_id" := ONE,
               "item_type_id" := ONE], map[])
  }

  const NAMED: Record := Record(map["id" := ONE], map[])

  function Rollup(id: Datum): Record {
    Record(map["item_id" := id], map[])
  }

  const TABLES: Tables := Tables([Item(ONE), Item(TWO)], [NAMED], [NAMED], [NAMED], [], [Rollup(ONE), Rollup(TWO)])
  const QUERY: Q.Query := Q.Query(None, "body", false)
  const OPTIONS: C.Options :=
    C.Options("", 0, 6, map[], C.Library(s => false, s => false, s => false, n => "", n => ""))
  const CODEC: Codec := Codec(IdText, SortArgument)
  const LISTING: Listing :=
    Listing(WORLD, CODEC, TABLES, Request("1", "", "2", [], "", ""),
        C.Plan(True, Column(I, "body"), C.TextKind, false, []))

  lemma TablesAreReferential()
    ensures Referential(TABLES)
  {
    assert Field(Item(ONE), "id") == ONE && Field(Item(TWO), "id") == TWO && Field(NAMED, "id") == ONE;
    assert Field(Rollup(ONE), "item_id") == ONE && Field(Rollup(TWO), "item_id") == TWO;
    assert Present(TABLES.projects, "id", ONE) by { assert Field(TABLES.projects[0], "id") == ONE; }
    assert Present(TABLES.statuses, "id", ONE) by { assert Field(TABLES.statuses[0], "id") == ONE; }
    assert Present(TABLES.types, "id", ONE) by { assert Field(TABLES.types[0], "id") == ONE; }
    assert Present(TABLES.rollups, "item_id", ONE) by { assert Field(TABLES.rollups[0], "item_id") == ONE; }
    assert Present(TABLES.rollups, "item_id", TWO) by { assert Field(TABLES.rollups[1], "item_id") == TWO; }
  }

  lemma QueryCompiles()
    ensures Compiled(LISTING, QUERY, OPTIONS, OPTIONS, [])
    ensures forall row :: C.FieldValue(WORLD, OPTIONS, "body", row) == ColumnOf(row, I, "body")
  {
    assert C.BuiltIn("body") == Some(C.Known(I, "body", C.TextKind));
    hide C.BuiltIn;
    assert C.CompileQuery(QUERY, OPTIONS) == Ok(LISTING.plan);
  }

  lemma WorldIsSound()
    ensures SoundWorld(WORLD)
  {
    LessIsTotal();
    hide Total, Less;
  }

  /** The cursor carries the keys of both rows. */
  lemma KeyIsCarried(id: Datum)
    requires id == ONE || id == TWO
    ensures Carries(LISTING, Key(Text(LONG), id))
  {
    assert WORLD.cast(UuidType, Text("1")) == ONE && WORLD.cast(UuidType, Text("2")) == TWO;
    assert CODEC.idText(ONE) == "1" && CODEC.idText(TWO) == "2";
    hide Less, Xs;
  }

  lemma ItemColumns(row: Row, id: Datum)
    requires I in row && row[I] == Item(id)
    ensures ColumnOf(row, I, "id") == id && ColumnOf(row, I, "workspace_id") == ONE
    ensures ColumnOf(row, I, "deleted_at") == Null && ColumnOf(row, I, "body") == Text(LONG)
  {
  }

  lemma IdTexts()
    ensures WORLD.cast(UuidType, Text("1")) == ONE && WORLD.cast(UuidType, Text("2")) == TWO
  {
  }

  /** Each of the two rows is listed. */
  lemma RowIsListed(row: Row, id: Datum)
    requires I in row && row[I] == Item(id) && (id == ONE || id == TWO)
    ensures Listed(WORLD, OPTIONS, QUERY, LISTING.request, row) && UpTo(WORLD, LISTING.request, row)
    ensures ListedEntry(WORLD, OPTIONS, QUERY, row).key == Key(Text(LONG), id)
  {
    hide C.FieldValue, Compiled, Xs, ColumnOf, Item, Cast;
    QueryCompiles();
    ItemColumns(row, id);
    IdTexts();
  }

  lemma PickBoth(a: Row, b: Row, keep: Row -> bool, entry: Row -> Entry)
    requires keep(a) && keep(b)
    ensures Pick([a, b], keep, entry) == [entry(a), entry(b)]
  {
    assert [a, b][..1] == [a] && [a][..0] == [];
    assert Pick([], keep, entry) == [];
    assert Pick([a], keep, entry) == [entry(a)];
  }

  lemma ReferenceIsBoth() returns (a: Row, b: Row)
    ensures JoinAll(ItemRows(TABLES.items), AllJoins(TABLES)) == [a, b]
    ensures I in a && a[I] == Item(ONE) && I in b && b[I] == Item(TWO)
    ensures Reference(WORLD, OPTIONS, QUERY, LISTING.request, TABLES)
         == [ListedEntry(WORLD, OPTIONS, QUERY, a), ListedEntry(WORLD, OPTIONS, QUERY, b)]
  {
    hide JoinAll, ItemRows, AllJoins, Referential, Listed, UpTo, ListedEntry, Carries, Item, Less, Xs;
    TablesAreReferential();
    FullRows(TABLES);
    var full := JoinAll(ItemRows(TABLES.items), AllJoins(TABLES));
    a, b := full[0], full[1];
    assert full == [a, b];
    RowIsListed(a, ONE);
    RowIsListed(b, TWO);
    PickBoth(a, b, r => Listed(WORLD, OPTIONS, QUERY, LISTING.request, r) && UpTo(WORLD, LISTING.request, r),
             r => ListedEntry(WORLD, OPTIONS, QUERY, r));
  }

  lemma SettingOf(l: Listing, q: Q.Query, o: C.Options)
    requires SoundWorld(l.w) && Referential(l.t) && Compiled(l, q, o, o, [])
    requires forall e | e in Reference(l.w, o, q, l.request, l.t) :: Carries(l, e.key)
    ensures Setting(l, q, o, o, [])
  {
    hide SoundWorld, Referential, Compiled, Reference, Carries, JoinAll, ItemRows, AllJoins;
  }

  lemma EntriesCarry()
    ensures var r := Reference(WORLD, OPTIONS, QUERY, LISTING.request, TABLES);
            |r| == 2 && forall e | e in r :: Carries(LISTING, e.key) && e.key.sort == Text(LONG)
  {
    hide Carries, ListedEntry, Reference, Listed, UpTo, Item, Xs, JoinAll, ItemRows, AllJoins;
    var a, b := ReferenceIsBoth();
    RowIsListed(a, ONE);
    RowIsListed(b, TWO);
    KeyIsCarried(ONE);
    KeyIsCarried(TWO);
    BothCarry(LISTING, LONG, Reference(WORLD, OPTIONS, QUERY, LISTING.request, TABLES),
              ListedEntry(WORLD, OPTIONS, QUERY, a), ListedEntry(WORLD, OPTIONS, QUERY, b));
  }

  lemma BothCarry(l: Listing, text: string, r: seq<Entry>, x: Entry, y: Entry)
    requires r == [x, y] && Carries(l, x.key) && Carries(l, y.key) && x.key.sort == Text(text)
             && y.key.sort == Text(text)
    ensures |r| == 2 && forall e | e in r :: Carries(l, e.key) && e.key.sort == Text(text)
  {
    hide Carries;
  }

  /** Everything the listing theorem assumes holds here, and the answer is the two items. */
  lemma SettingIsPossible()
    ensures Setting(LISTING, QUERY, OPTIONS, OPTIONS, [])
    ensures |Answer(LISTING, QUERY, OPTIONS)| == 2
    ensures forall e | e in Answer(LISTING, QUERY, OPTIONS) :: e.key.sort == Text(LONG)
  {
    WorldIsSound();
    TablesAreReferential();
    QueryCompiles();
    EntriesCarry();
    hide SoundWorld, Referential, Compiled, Reference, Carries, Answer, Setting;
    SettingOf(LISTING, QUERY, OPTIONS);
    AnswerIsReference(LISTING, QUERY, OPTIONS);
  }

  /** One item to a page, the second request is refused: the first item's body is too long for a cursor. */
  lemma LongBodyStopsTheListing() returns (answer: seq<Entry>)
    ensures answer == Answer(LISTING, QUERY, OPTIONS) && |answer| == 2
    ensures Browse(LISTING, None, [1, 1]) == (answer[..1], Rejected)
  {
    SettingIsPossible();
    hide Setting, Answer, Browse, Xs;
    answer := Answer(LISTING, QUERY, OPTIONS);
    assert answer[0] in answer;
    assert |LONG| == 6053;
    LongSortStops(LISTING, QUERY, OPTIONS, OPTIONS, [], LONG);
  }
}
