/**
 * What a search returns, in terms of items: which rows it has, with which score, and in which order.
 */
module SearchMeaning {
  import opened Wrappers
  import opened Lexicographic
  import opened Utf8
  import opened Alphabets
  import opened NaturalOrder
  import opened Timestamps
  import opened SearchItems
  import opened Search
  import opened Sorting
  import opened SearchOrder

  lemma RowsRegroup(a: seq<Row>, b: seq<Row>, c: seq<Row>)
    ensures a + (b + c) == a + b + c
  {
  }

  // The row of an item, if it has one.
  function OwnRows(u: Alphabet, item: Item, q: Query, selected: seq<Marker>): seq<Row> {
    var points := Points(u, item, q);
    if |selected| <= |item.markers| && item.markers[..|selected|] == selected && 0 !in points
    then [Row(item, PointSum(points))] else []
  }

  lemma MatchRowsStep(u: Alphabet, items: seq<Item>, item: Item, q: Query, selected: seq<Marker>)
    ensures MatchRows(u, items + [item], q, selected) == MatchRows(u, items, q, selected) + OwnRows(u, item, q, selected)
  {
    ScoreIsPoints(u, item, q);
    assert (items + [item])[..|items|] == items;
    assert HasChain(item, selected) <==> |selected| <= |item.markers| && item.markers[..|selected|] == selected;
  }

  // What every item gives, one after the other.
  function Collected(items: seq<Item>, own: Item -> seq<Row>): seq<Row> {
    if items == [] then [] else Collected(items[..|items| - 1], own) + own(items[|items| - 1])
  }

  lemma {:induction false} CollectedJoin(a: seq<Item>, b: seq<Item>, own: Item -> seq<Row>)
    ensures Collected(a + b, own) == Collected(a, own) + Collected(b, own)
  {
    if b == [] {
      assert a + b == a;
    } else {
      var n := |b| - 1;
      CollectedJoin(a, b[..n], own);
      assert (a + b)[..|a + b| - 1] == a + b[..n];
      RowsRegroup(Collected(a, own), Collected(b[..n], own), own(b[n]));
    }
  }

  lemma {:induction false} CollectedHas(items: seq<Item>, own: Item -> seq<Row>, r: Row)
    requires forall item :: r in own(item) ==> item == r.item
    ensures r in Collected(items, own) <==> r.item in items && r in own(r.item)
  {
    if items != [] {
      var n := |items| - 1;
      CollectedHas(items[..n], own, r);
      assert items == items[..n] + [items[n]];
    }
  }

  lemma {:induction false} MatchRowsAreCollected(u: Alphabet, items: seq<Item>, q: Query, selected: seq<Marker>,
                                                 own: Item -> seq<Row>)
    requires forall item :: own(item) == OwnRows(u, item, q, selected)
    ensures MatchRows(u, items, q, selected) == Collected(items, own)
  {
    if items != [] {
      var n := |items| - 1;
      MatchRowsAreCollected(u, items[..n], q, selected, own);
      MatchRowsStep(u, items[..n], items[n], q, selected);
      assert items == items[..n] + [items[n]];
    }
  }

  /** An item of the corpus is in the result exactly if its first markers are the selected ones and every part of the query
      is worth something in it; its score is the sum of the points. The corpus order is kept. */
  lemma ItemMatches(u: Alphabet, before: seq<Item>, item: Item, after: seq<Item>, q: Query, selected: seq<Marker>)
    ensures MatchRows(u, before + [item] + after, q, selected) ==
            MatchRows(u, before, q, selected) + OwnRows(u, item, q, selected) + MatchRows(u, after, q, selected)
  {
    var own := (i: Item) => OwnRows(u, i, q, selected);
    MatchRowsAreCollected(u, before + [item] + after, q, selected, own);
    MatchRowsAreCollected(u, before, q, selected, own);
    MatchRowsAreCollected(u, after, q, selected, own);
    CollectedJoin(before + [item], after, own);
    CollectedJoin(before, [item], own);
    CollectedOne(item, own);
  }

  lemma CollectedOne(item: Item, own: Item -> seq<Row>)
    ensures Collected([item], own) == own(item)
  {
    assert [item][..0] == [];
  }

  // By natural order of the paths, then by their characters, then by id.
  predicate PathFirst(u: Alphabet, a: Item, b: Item) {
    if Key(u, a.path) != Key(u, b.path) then KeyLess(Key(u, a.path), Key(u, b.path))
    else if a.path != b.path then Less(a.path, b.path)
    else Less(a.id, b.id)
  }

  // By one number, up or down, and then by path.
  predicate NumberFirst(u: Alphabet, descending: bool, x: Row, m: nat, y: Row, n: nat) {
    if m == n then PathFirst(u, x.item, y.item) else if descending then m > n else m < n
  }

  predicate NameFirst(u: Alphabet, descending: bool, x: Row, y: Row) {
    var m, n := Key(u, x.item.filename), Key(u, y.item.filename);
    if m == n then PathFirst(u, x.item, y.item) else if descending then KeyLess(n, m) else KeyLess(m, n)
  }

  predicate TimeFirst(u: Alphabet, descending: bool, x: Row, y: Row) {
    var m, n := InstantKey(x.item.modified), InstantKey(y.item.modified);
    if m == n then PathFirst(u, x.item, y.item) else if descending then Less(n, m) else Less(m, n)
  }

  // The row comes first in this ordering.
  predicate ComesFirst(u: Alphabet, o: Ordering, x: Row, y: Row) {
    match o.field
    case Relevance => NumberFirst(u, o.descending, x, x.score, y, y.score)
    case Size => NumberFirst(u, o.descending, x, x.item.size, y, y.item.size)
    case ByPath => if o.descending then PathFirst(u, y.item, x.item) else PathFirst(u, x.item, y.item)
    case ByName => NameFirst(u, o.descending, x, y)
    case ModifiedAt => TimeFirst(u, o.descending, x, y)
  }

  lemma PathsDecide(u: Alphabet, a: Item, b: Item)
    requires TieLess(u, a, b)
    ensures PathFirst(u, a, b)
  {
    KeysTotal(Key(u, a.path), Key(u, b.path));
    Total(a.path, b.path);
  }

  lemma BeforeIsFirst(u: Alphabet, o: Ordering, x: Row, y: Row)
    requires Before(u, o)(x, y)
    ensures ComesFirst(u, o, x, y)
  {
    if TieLess(u, x.item, y.item) { PathsDecide(u, x.item, y.item); }
    if TieLess(u, y.item, x.item) { PathsDecide(u, y.item, x.item); }
    KeysTotal(Key(u, x.item.filename), Key(u, y.item.filename));
    Total(InstantKey(x.item.modified), InstantKey(y.item.modified));
  }

  /** Results are ordered by score, size, name, time or path in the direction asked for; rows that are equal there come in
      path order, ascending whatever the direction. They are the matching rows, each once. */
  lemma ResultsAreOrdered(u: Alphabet, o: Ordering, rows: seq<Row>)
    requires DistinctIds(rows)
    ensures var sorted := SortRows(u, o, rows);
            multiset(sorted) == multiset(rows) &&
            forall i, j :: 0 <= i < j < |sorted| ==> ComesFirst(u, o, sorted[i], sorted[j])
  {
    SortRowsIsOneSort(u, o, rows);
    var sorted := SortRows(u, o, rows);
    forall i, j | 0 <= i < j < |sorted| ensures ComesFirst(u, o, sorted[i], sorted[j]) {
      BeforeIsFirst(u, o, sorted[i], sorted[j]);
    }
  }

  /** A row is in the result exactly if its item is in the corpus and has this row. */
  lemma MatchRowsHave(u: Alphabet, items: seq<Item>, q: Query, selected: seq<Marker>, r: Row)
    ensures r in MatchRows(u, items, q, selected) <==> r.item in items && r in OwnRows(u, r.item, q, selected)
  {
    var own := (i: Item) => OwnRows(u, i, q, selected);
    MatchRowsAreCollected(u, items, q, selected, own);
    CollectedHas(items, own, r);
  }

  lemma FirstAre(rows: seq<Row>, limit: nat)
    ensures |First(rows, limit)| == if |rows| < limit then |rows| else limit
    ensures forall i :: 0 <= i < |First(rows, limit)| ==> First(rows, limit)[i] == rows[i]
  {
  }

  // The hits are in order, and whatever else matches comes after all of them.
  ghost predicate AreBest(u: Alphabet, o: Ordering, hits: seq<Row>, rows: seq<Row>) {
    (forall i, j :: 0 <= i < j < |hits| ==> ComesFirst(u, o, hits[i], hits[j])) &&
    (forall i :: 0 <= i < |hits| ==> hits[i] in rows) &&
    forall i, r :: 0 <= i < |hits| && r in rows && r !in hits ==> ComesFirst(u, o, hits[i], r)
  }

  lemma SortedHas(u: Alphabet, o: Ordering, rows: seq<Row>, r: Row)
    requires DistinctIds(rows)
    ensures r in SortRows(u, o, rows) <==> r in rows
  {
    ResultsAreOrdered(u, o, rows);
    assert r in multiset(SortRows(u, o, rows)) <==> r in multiset(rows);
  }

  /** The hits of a search are the best matching items: as many as the limit allows, in order, and every other match comes
      after them. */
  lemma HitsAreBest(u: Alphabet, o: Ordering, rows: seq<Row>, limit: nat)
    requires DistinctIds(rows)
    ensures var hits := First(SortRows(u, o, rows), limit);
            |hits| == (if |rows| < limit then |rows| else limit) && AreBest(u, o, hits, rows)
  {
    var sorted, hits := SortRows(u, o, rows), First(SortRows(u, o, rows), limit);
    ResultsAreOrdered(u, o, rows);
    FirstAre(sorted, limit);
    assert |multiset(sorted)| == |multiset(rows)|;
    forall i | 0 <= i < |hits| ensures hits[i] in rows {
      SortedHas(u, o, rows, hits[i]);
      assert sorted[i] in sorted;
    }
    assert forall k :: 0 <= k < |hits| ==> sorted[k] in hits;
    forall i, r | 0 <= i < |hits| && r in rows && r !in hits ensures ComesFirst(u, o, hits[i], r) {
      SortedHas(u, o, rows, r);
      var j :| 0 <= j < |sorted| && sorted[j] == r;
      assert i < j;
    }
  }

  /** A selection of markers is refused exactly if one is repeated, or there are some and no item begins with them. */
  lemma SelectionIsRefusedIff(items: seq<Item>, selected: seq<Marker>)
    ensures Select(items, selected) == None <==>
            (exists i, j :: 0 <= i < j < |selected| && selected[i] == selected[j]) ||
            (selected != [] && forall k :: 0 <= k < |items| ==> !(selected <= items[k].markers))
  {
    ChainPositionsAreExact(items, selected);
    var positions := ChainPositions(items, selected);
    if positions != [] { assert HasChain(items[positions[0]], selected); }
  }
}
