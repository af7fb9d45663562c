/**
 * Ranks: the place of every item in path order, and in name order with equal names sharing a place. Comparing
 * ranks is comparing the expanded keys, except that timestamps are compared as they are spelled.
 */
module Ranks {
  import opened Wrappers
  import opened Lexicographic
  import opened Utf8
  import opened Alphabets
  import opened NaturalOrder
  import opened Timestamps
  import opened SearchItems
  import opened Sorting
  import opened SearchOrder

  // By item id.
  type RankMap = map<Text, nat>

  ghost predicate PathRanksOk(u: Alphabet, items: seq<Item>, ranks: RankMap) {
    forall x, y :: x in items && y in items ==>
      x.id in ranks && y.id in ranks && (TieLess(u, x, y) <==> ranks[x.id] < ranks[y.id])
  }

  predicate NameLess(u: Alphabet, x: Item, y: Item) {
    KeyLess(Key(u, x.filename), Key(u, y.filename))
  }

  ghost predicate NameRanksOk(u: Alphabet, items: seq<Item>, ranks: RankMap) {
    forall x, y :: x in items && y in items ==>
      x.id in ranks && y.id in ranks && (NameLess(u, x, y) <==> ranks[x.id] < ranks[y.id])
  }

  ghost predicate DistinctItemIds(items: seq<Item>) {
    forall i, j :: 0 <= i < j < |items| ==> items[i].id != items[j].id
  }

  function PathOrder(u: Alphabet): (Item, Item) -> bool {
    (x: Item, y: Item) => TieLess(u, x, y)
  }

  function NameOrder(u: Alphabet): (Item, Item) -> bool {
    (x: Item, y: Item) => NameLess(u, x, y)
  }

  lemma PathOrderIsTotal(u: Alphabet, items: seq<Item>)
    requires DistinctItemIds(items)
    ensures TotalOn(PathOrder(u), items) && Distinct(items)
  {
    forall x, y | x in items && y in items
      ensures !(TieLess(u, x, y) && TieLess(u, y, x)) && (x != y ==> TieLess(u, x, y) || TieLess(u, y, x))
    {
      TieIsTotal(u, x, y);
    }
    forall x, y, z | x in items && y in items && z in items && TieLess(u, x, y) && TieLess(u, y, z) ensures TieLess(u, x, z) {
      TieIsTransitive(u, x, y, z);
    }
  }

  lemma NameOrderIsWeak(u: Alphabet, items: seq<Item>)
    ensures Weak(NameOrder(u), items)
  {
    forall x, y | x in items && y in items ensures !(NameLess(u, x, y) && NameLess(u, y, x)) {
      KeysTotal(Key(u, x.filename), Key(u, y.filename));
    }
    forall x, y, z | x in items && y in items && z in items && NameLess(u, x, y) && NameLess(u, y, z) ensures NameLess(u, x, z) {
      KeysTransitive(Key(u, x.filename), Key(u, y.filename), Key(u, z.filename));
    }
    forall x, y, z | x in items && y in items && z in items && NameLess(u, x, z) ensures NameLess(u, x, y) || NameLess(u, y, z) {
      KeyLessIsWeak(Key(u, x.filename), Key(u, y.filename), Key(u, z.filename));
    }
  }

  // Numbers the ids of a list by the given ranks.
  method Number(sorted: seq<Item>, rank: seq<nat>) returns (ranks: RankMap)
    requires DistinctItemIds(sorted) && |rank| == |sorted|
    ensures forall k :: 0 <= k < |sorted| ==> sorted[k].id in ranks && ranks[sorted[k].id] == rank[k]
  {
    ranks := map[];
    for k := 0 to |sorted|
      invariant forall i :: 0 <= i < k ==> sorted[i].id in ranks && ranks[sorted[i].id] == rank[i]
    {
      ranks := ranks[sorted[k].id := rank[k]];
    }
  }

  lemma SortKeepsIds(less: (Item, Item) -> bool, items: seq<Item>)
    requires DistinctItemIds(items)
    ensures DistinctItemIds(SortBy(less, items))
    ensures forall x :: x in items <==> x in SortBy(less, items)
  {
    var s := SortBy(less, items);
    SortElements(less, items);
    SameElements(s, items);
    IdsAreDistinct(items, s);
  }

  lemma IdsAreDistinct(items: seq<Item>, s: seq<Item>)
    requires DistinctItemIds(items) && multiset(s) == multiset(items)
    ensures DistinctItemIds(s)
  {
    SameElements(s, items);
    forall i, j | 0 <= i < j < |s| ensures s[i].id != s[j].id {
      if s[i].id == s[j].id {
        assert s[i] in items && s[j] in items;
        assert s[i] == s[j];
        TwiceInBoth(s, items, i, j);
      }
    }
  }

  lemma TwiceInBoth(s: seq<Item>, items: seq<Item>, i: nat, j: nat)
    requires i < j < |s| && s[i] == s[j] && multiset(s) == multiset(items)
    ensures !DistinctItemIds(items)
  {
    AtLeastTwo(s, i, j);
    if DistinctItemIds(items) { AtMostOne(items, s[i]); }
  }

  lemma AtLeastTwo(s: seq<Item>, i: nat, j: nat)
    requires i < j < |s| && s[i] == s[j]
    ensures multiset(s)[s[i]] >= 2
  {
    assert s == s[..i] + [s[i]] + s[i + 1..j] + [s[j]] + s[j + 1..];
  }

  lemma {:induction false} AtMostOne(items: seq<Item>, x: Item)
    requires DistinctItemIds(items)
    ensures multiset(items)[x] <= 1
    ensures x !in items ==> multiset(items)[x] == 0
  {
    if items != [] {
      var n := |items| - 1;
      assert items == items[..n] + [items[n]];
      AtMostOne(items[..n], x);
    }
  }

  // The places in path order.
  method PathRanks(u: Alphabet, items: seq<Item>) returns (ranks: RankMap)
    requires DistinctItemIds(items)
    ensures PathRanksOk(u, items, ranks)
  {
    var sorted := SortBy(PathOrder(u), items);
    PathOrderIsTotal(u, items);
    SortIsSorted(PathOrder(u), items);
    SortKeepsIds(PathOrder(u), items);
    var places := seq(|sorted|, k requires 0 <= k < |sorted| => k);
    ranks := Number(sorted, places);
    forall x, y | x in items && y in items
      ensures x.id in ranks && y.id in ranks && (TieLess(u, x, y) <==> ranks[x.id] < ranks[y.id])
    {
      PlacesDecide(u, items, sorted, ranks, x, y);
    }
  }

  lemma PlacesDecide(u: Alphabet, items: seq<Item>, sorted: seq<Item>, ranks: RankMap, x: Item, y: Item)
    requires TotalOn(PathOrder(u), items) && Sorted(PathOrder(u), sorted) && forall z :: z in items <==> z in sorted
    requires forall k :: 0 <= k < |sorted| ==> sorted[k].id in ranks && ranks[sorted[k].id] == k
    requires x in items && y in items
    ensures x.id in ranks && y.id in ranks && (TieLess(u, x, y) <==> ranks[x.id] < ranks[y.id])
  {
    assert x in sorted && y in sorted;
    var a :| 0 <= a < |sorted| && sorted[a] == x;
    var b :| 0 <= b < |sorted| && sorted[b] == y;
    TieIsTotal(u, x, y);
    if a < b {
      assert PathOrder(u)(sorted[a], sorted[b]);
    } else if b < a {
      assert PathOrder(u)(sorted[b], sorted[a]);
    }
  }

  // Equal names share a rank, and every other name gets the next one.
  method Dense(u: Alphabet, sorted: seq<Item>) returns (rank: seq<nat>)
    requires WeaklySorted(NameOrder(u), sorted)
    ensures |rank| == |sorted|
    ensures forall a, b :: 0 <= a < |sorted| && 0 <= b < |sorted| ==> (NameLess(u, sorted[a], sorted[b]) <==> rank[a] < rank[b])
  {
    rank := [];
    for k := 0 to |sorted|
      invariant |rank| == k
      invariant forall a, b :: 0 <= a <= b < k ==> rank[a] <= rank[b] && (rank[a] == rank[b] <==> SameName(u, sorted[a], sorted[b]))
    {
      var next := if k == 0 then 0 else if SameName(u, sorted[k - 1], sorted[k]) then rank[k - 1] else rank[k - 1] + 1;
      if k > 0 { NextRank(u, sorted, rank, k, next); }
      rank := rank + [next];
    }
    forall a, b | 0 <= a < |sorted| && 0 <= b < |sorted|
      ensures NameLess(u, sorted[a], sorted[b]) <==> rank[a] < rank[b]
    {
      RanksDecide(u, sorted, rank, a, b);
    }
  }

  lemma NextRank(u: Alphabet, sorted: seq<Item>, rank: seq<nat>, k: nat, next: nat)
    requires WeaklySorted(NameOrder(u), sorted) && 0 < k < |sorted| && |rank| == k
    requires forall a, b :: 0 <= a <= b < k ==>
               rank[a] <= rank[b] && (rank[a] == rank[b] <==> SameName(u, sorted[a], sorted[b]))
    requires next == if SameName(u, sorted[k - 1], sorted[k]) then rank[k - 1] else rank[k - 1] + 1
    ensures forall a :: 0 <= a < k ==> rank[a] <= next && (rank[a] == next <==> SameName(u, sorted[a], sorted[k]))
  {
    forall a | 0 <= a < k ensures rank[a] <= next && (rank[a] == next <==> SameName(u, sorted[a], sorted[k])) {
      BetweenNames(u, sorted, a, k);
      assert rank[a] <= rank[k - 1];
    }
  }

  predicate SameName(u: Alphabet, x: Item, y: Item) {
    Key(u, x.filename) == Key(u, y.filename)
  }

  // In sorted order, equal names have only equal ones between them.
  lemma BetweenNames(u: Alphabet, sorted: seq<Item>, a: nat, k: nat)
    requires WeaklySorted(NameOrder(u), sorted) && a < k < |sorted|
    ensures SameName(u, sorted[a], sorted[k]) ==> SameName(u, sorted[a], sorted[k - 1])
  {
    if SameName(u, sorted[a], sorted[k]) && a < k - 1 {
      assert !NameOrder(u)(sorted[k - 1], sorted[a]) && !NameOrder(u)(sorted[k], sorted[k - 1]);
      KeysTotal(Key(u, sorted[a].filename), Key(u, sorted[k - 1].filename));
    }
  }

  lemma RanksDecide(u: Alphabet, sorted: seq<Item>, rank: seq<nat>, a: nat, b: nat)
    requires WeaklySorted(NameOrder(u), sorted) && a < |sorted| && b < |sorted| && |rank| == |sorted|
    requires forall i, j :: 0 <= i <= j < |sorted| ==>
               rank[i] <= rank[j] && (rank[i] == rank[j] <==> SameName(u, sorted[i], sorted[j]))
    ensures NameLess(u, sorted[a], sorted[b]) <==> rank[a] < rank[b]
  {
    KeysTotal(Key(u, sorted[a].filename), Key(u, sorted[b].filename));
    if a < b {
      assert !NameOrder(u)(sorted[b], sorted[a]);
    } else if b < a {
      assert !NameOrder(u)(sorted[a], sorted[b]);
    }
  }

  method NameRanks(u: Alphabet, items: seq<Item>) returns (ranks: RankMap)
    requires DistinctItemIds(items)
    ensures NameRanksOk(u, items, ranks)
  {
    var sorted := SortBy(NameOrder(u), items);
    NameOrderIsWeak(u, items);
    SortIsWeaklySorted(NameOrder(u), items);
    SortKeepsIds(NameOrder(u), items);
    var rank := Dense(u, sorted);
    ranks := Number(sorted, rank);
    forall x, y | x in items && y in items
      ensures x.id in ranks && y.id in ranks && (NameLess(u, x, y) <==> ranks[x.id] < ranks[y.id])
    {
      assert x in sorted && y in sorted;
      var a :| 0 <= a < |sorted| && sorted[a] == x;
      var b :| 0 <= b < |sorted| && sorted[b] == y;
    }
  }

  // --- Comparing by ranks ---------------------------------------------------------------------

  function RankOf(ranks: RankMap, item: Item): nat {
    if item.id in ranks then ranks[item.id] else 0
  }

  // The primary part of the sort key; a timestamp is compared as it is spelled.
  predicate FastPrimary(names: RankMap, field: SortField, x: Row, y: Row) {
    match field
    case Relevance => x.score < y.score
    case ByPath => false
    case ByName => RankOf(names, x.item) < RankOf(names, y.item)
    case ModifiedAt => Less(Raw(x.item.modified), Raw(y.item.modified))
    case Size => x.item.size < y.item.size
  }

  // The order of the heap keys: the path rank breaks ties upwards in both directions.
  predicate FastLess(paths: RankMap, names: RankMap, o: Ordering, x: Row, y: Row) {
    var r, s := RankOf(paths, x.item), RankOf(paths, y.item);
    if o.field.ByPath? then if o.descending then r > s else r < s
    else
      var forward, backward := FastPrimary(names, o.field, x, y), FastPrimary(names, o.field, y, x);
      var before, after := if o.descending then backward else forward, if o.descending then forward else backward;
      before || (!after && r < s)
  }

  function Fast(paths: RankMap, names: RankMap, o: Ordering): (Row, Row) -> bool {
    (x: Row, y: Row) => FastLess(paths, names, o, x, y)
  }

  // All spellings can be compared as texts.
  ghost predicate Spelled(rows: seq<Row>) {
    forall x, y :: x in rows && y in rows ==>
      x.item.modified.Valid() && y.item.modified.Valid() && Compatible(x.item.modified, y.item.modified)
  }

  lemma FastIsBefore(u: Alphabet, items: seq<Item>, paths: RankMap, names: RankMap, o: Ordering, x: Row, y: Row)
    requires PathRanksOk(u, items, paths) && (o.field.ByName? ==> NameRanksOk(u, items, names))
    requires x.item in items && y.item in items
    requires o.field.ModifiedAt? ==>
               x.item.modified.Valid() && y.item.modified.Valid() && Compatible(x.item.modified, y.item.modified)
    ensures FastLess(paths, names, o, x, y) == Before(u, o)(x, y)
  {
    if o.field.ModifiedAt? { RawOrderIsInstantOrderIff(x.item.modified, y.item.modified); }
    assert TieLess(u, x.item, y.item) <==> RankOf(paths, x.item) < RankOf(paths, y.item);
    assert TieLess(u, y.item, x.item) <==> RankOf(paths, y.item) < RankOf(paths, x.item);
    if !o.field.ByPath? {
      assert FastPrimary(names, o.field, x, y) == PrimaryLess(u, o.field, x, y);
      assert FastPrimary(names, o.field, y, x) == PrimaryLess(u, o.field, y, x);
    }
  }

  /** Taking the first rows by rank keys gives the first rows of the specification, for every field and direction;
      by modification time, if the spellings are compatible. */
  lemma RankSortIsTheSort(u: Alphabet, items: seq<Item>, paths: RankMap, names: RankMap, o: Ordering, rows: seq<Row>)
    requires PathRanksOk(u, items, paths) && (o.field.ByName? ==> NameRanksOk(u, items, names))
    requires DistinctIds(rows) && forall x :: x in rows ==> x.item in items
    requires o.field.ModifiedAt? ==> Spelled(rows)
    ensures SortBy(Fast(paths, names, o), rows) == SortRows(u, o, rows)
  {
    forall x, y | x in rows && y in rows ensures Fast(paths, names, o)(x, y) == Before(u, o)(x, y) {
      FastIsBefore(u, items, paths, names, o, x, y);
    }
    SameSort(Fast(paths, names, o), Before(u, o), rows);
    SortRowsIsOneSort(u, o, rows);
  }

  // Stamps written with the same number of digits can be compared as texts.
  lemma SameWidthIsSpelled(rows: seq<Row>, width: nat)
    requires forall x :: x in rows ==> x.item.modified.Valid() && |x.item.modified.Fraction()| == width
    ensures Spelled(rows)
  {
  }

  // The spellings can be compared, or they spell one instant and stand as the paths do.
  predicate SameOrder(u: Alphabet, o: Ordering, x: Row, y: Row) {
    var a, b := x.item.modified, y.item.modified;
    Compatible(a, b) ||
    (!Less(InstantKey(a), InstantKey(b)) && !Less(InstantKey(b), InstantKey(a)) &&
     (TieLess(u, x.item, y.item) <==> if o.descending then Less(Raw(b), Raw(a)) else Less(Raw(a), Raw(b))))
  }

  lemma FastAgreesIff(u: Alphabet, items: seq<Item>, paths: RankMap, names: RankMap, o: Ordering, x: Row, y: Row)
    requires PathRanksOk(u, items, paths) && x.item in items && y.item in items && x.item.id != y.item.id
    requires o.field.ModifiedAt? && x.item.modified.Valid() && y.item.modified.Valid()
    ensures FastLess(paths, names, o, x, y) == Before(u, o)(x, y) <==> SameOrder(u, o, x, y)
  {
    var a, b := x.item.modified, y.item.modified;
    RawOrderIsInstantOrderIff(a, b);
    Total(Raw(a), Raw(b));
    Total(InstantKey(a), InstantKey(b));
    Irreflexive(Raw(a));
    TieIsTotal(u, x.item, y.item);
    assert TieLess(u, x.item, y.item) <==> RankOf(paths, x.item) < RankOf(paths, y.item);
    assert TieLess(u, y.item, x.item) <==> RankOf(paths, y.item) < RankOf(paths, x.item);
  }

  function RawPrimary(o: Ordering): (Row, Row) -> bool {
    (x: Row, y: Row) => if o.descending then Less(Raw(y.item.modified), Raw(x.item.modified))
                        else Less(Raw(x.item.modified), Raw(y.item.modified))
  }

  lemma RawIsWeak(o: Ordering, rows: seq<Row>)
    ensures Weak(RawPrimary(o), rows)
  {
    forall x: Row, y: Row ensures !(RawPrimary(o)(x, y) && RawPrimary(o)(y, x)) {
      Total(Raw(x.item.modified), Raw(y.item.modified));
    }
    forall x: Row, y: Row, z: Row
      ensures RawPrimary(o)(x, y) && RawPrimary(o)(y, z) ==> RawPrimary(o)(x, z)
      ensures RawPrimary(o)(x, z) ==> RawPrimary(o)(x, y) || RawPrimary(o)(y, z)
    {
      RawSteps(x, y, z);
      RawSteps(z, y, x);
    }
  }

  lemma RawSteps(x: Row, y: Row, z: Row)
    ensures var a, b, c := Raw(x.item.modified), Raw(y.item.modified), Raw(z.item.modified);
            (Less(a, b) && Less(b, c) ==> Less(a, c)) && (Less(a, c) ==> Less(a, b) || Less(b, c))
  {
    var a, b, c := Raw(x.item.modified), Raw(y.item.modified), Raw(z.item.modified);
    if Less(a, b) && Less(b, c) { Transitive(a, b, c); }
    if Less(a, c) { LessIsWeak(a, b, c); }
  }

  lemma FastIsTotal(u: Alphabet, items: seq<Item>, paths: RankMap, names: RankMap, o: Ordering, rows: seq<Row>)
    requires PathRanksOk(u, items, paths) && o.field.ModifiedAt? && DistinctIds(rows)
    requires forall x :: x in rows ==> x.item in items
    ensures TotalOn(Fast(paths, names, o), rows)
  {
    RawIsWeak(o, rows);
    TieTotalOnRows(u, rows);
    ThenIsTotal(RawPrimary(o), Tie(u), rows);
    forall x, y | x in rows && y in rows ensures Fast(paths, names, o)(x, y) == Then(RawPrimary(o), Tie(u))(x, y) {
      assert TieLess(u, x.item, y.item) <==> RankOf(paths, x.item) < RankOf(paths, y.item);
    }
  }

  /** By modification time, the sort by rank keys is the sort of the specification exactly if every two rows have
      spellings that can be compared, or spell one instant in the order of their paths. */
  lemma RankSortIsTheSortIff(u: Alphabet, items: seq<Item>, paths: RankMap, names: RankMap, o: Ordering, rows: seq<Row>)
    requires PathRanksOk(u, items, paths) && o.field.ModifiedAt? && DistinctIds(rows)
    requires forall x :: x in rows ==> x.item in items && x.item.modified.Valid()
    ensures SortBy(Fast(paths, names, o), rows) == SortRows(u, o, rows) <==>
            forall x, y :: x in rows && y in rows && x != y ==> SameOrder(u, o, x, y)
  {
    FastIsTotal(u, items, paths, names, o, rows);
    BeforeIsTotal(u, o, rows);
    TieTotalOnRows(u, rows);
    SortRowsIsOneSort(u, o, rows);
    SortsAgreeIff(Fast(paths, names, o), Before(u, o), rows);
    forall x, y | x in rows && y in rows && x != y
      ensures Fast(paths, names, o)(x, y) == Before(u, o)(x, y) <==> SameOrder(u, o, x, y)
    {
      FastAgreesIff(u, items, paths, names, o, x, y);
    }
  }

  // --- When spellings are not compatible ------------------------------------------------------

  const Second: seq<int> := [0x32, 0x30, 0x32, 0x36, 0x2D, 0x30, 0x31, 0x2D, 0x30, 0x31, 0x54, 0x30, 0x30, 0x3A, 0x30, 0x30,
                             0x3A, 0x30, 0x30]
  const Whole := Stamp(Second, None)
  const Half := Stamp(Second, Some([0x35]))
  const WholeRow := Row(Item([0x61], [0x61], [0x61], [], 0, Whole), 0)
  const HalfRow := Row(Item([0x62], [0x62], [0x62], [], 0, Half), 0)
  const Earliest := Ordering(ModifiedAt, false)

  lemma HalfReadsFirst()
    ensures Whole.Valid() && Half.Valid() && !Compatible(Whole, Half)
    ensures Less(Raw(Half), Raw(Whole)) && !Less(Raw(Whole), Raw(Half))
    ensures Less(InstantKey(Whole), InstantKey(Half)) && !Less(InstantKey(Half), InstantKey(Whole))
  {
    SameSecond(Whole, Half);
    SameSecond(Half, Whole);
    LongerSpellingFirst(Whole, Half);
    Total(Tail(Whole), Tail(Half));
    Total(StripZeros(Whole.Fraction()), StripZeros(Half.Fraction()));
    assert StripZeros(Half.Fraction()) == [0x35] && StripZeros(Whole.Fraction()) == [];
  }

  lemma ComparisonsDisagree(u: Alphabet, paths: RankMap, names: RankMap)
    ensures FastLess(paths, names, Earliest, HalfRow, WholeRow) && !Before(u, Earliest)(HalfRow, WholeRow)
  {
    HalfReadsFirst();
    assert PrimaryLess(u, ModifiedAt, WholeRow, HalfRow) && !PrimaryLess(u, ModifiedAt, HalfRow, WholeRow);
  }

  lemma NotSpelled(rows: seq<Row>)
    requires WholeRow in rows && HalfRow in rows
    ensures !Spelled(rows)
  {
    HalfReadsFirst();
  }

  // A whole second spelled without a fraction sorts after its own half second as text, and before it as an instant.
  lemma SpellingsCanReorder(u: Alphabet, paths: RankMap, names: RankMap)
    ensures DistinctIds([WholeRow, HalfRow]) && !Spelled([WholeRow, HalfRow])
    ensures SortRows(u, Earliest, [WholeRow, HalfRow]) == [WholeRow, HalfRow]
    ensures SortBy(Fast(paths, names, Earliest), [WholeRow, HalfRow]) == [HalfRow, WholeRow]
  {
    NotSpelled([WholeRow, HalfRow]);
    ComparisonsDisagree(u, paths, names);
    SortRowsIsOneSort(u, Earliest, [WholeRow, HalfRow]);
    TwoRows(Before(u, Earliest), WholeRow, HalfRow);
    TwoRows(Fast(paths, names, Earliest), WholeRow, HalfRow);
  }

  lemma TwoRows(less: (Row, Row) -> bool, x: Row, y: Row)
    ensures SortBy(less, [x, y]) == if less(y, x) then [y, x] else [x, y]
  {
    assert [x, y][..1] == [x] && [x][..0] == [];
    assert SortBy(less, [x]) == [x];
    assert Insert(less, y, []) == [y] && [x][1..] == [];
  }
}
