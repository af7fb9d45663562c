/**
 * Relevance over the engine in three tiers. Each tier that can fill the result returns exactly the first rows of
 * the specification's order.
 */
module TieredSearch {
  import opened Wrappers
  import opened Utf8
  import opened Alphabets
  import opened Tokens
  import opened SearchItems
  import opened Search
  import opened SearchColumns
  import opened SearchClauses
  import opened Sorting
  import opened SearchOrder
  import opened OpenSearchQuery

  const ByRelevance := Ordering(Relevance, true)
  const PathAscending := Ordering(ByPath, false)

  // --- Splitting off the rows with the greatest score -----------------------------------------

  function Not(f: Row -> bool): Row -> bool {
    (r: Row) => !f(r)
  }

  lemma {:induction false} KeepElements(rows: seq<Row>, f: Row -> bool)
    ensures multiset(Keep(rows, f)) + multiset(Keep(rows, Not(f))) == multiset(rows)
    ensures forall x :: x in Keep(rows, f) <==> x in rows && f(x)
  {
    if rows != [] {
      var n := |rows| - 1;
      KeepElements(rows[..n], f);
      assert rows == rows[..n] + [rows[n]];
    }
  }

  lemma {:induction false} KeepDistinct(rows: seq<Row>, f: Row -> bool)
    requires DistinctIds(rows)
    ensures DistinctIds(Keep(rows, f))
  {
    if rows != [] {
      var n := |rows| - 1;
      KeepDistinct(rows[..n], f);
      KeepElements(rows[..n], f);
      forall x | x in Keep(rows[..n], f) ensures x.item.id != rows[n].item.id {
        var k :| 0 <= k < n && rows[..n][k] == x;
      }
    }
  }

  // If the rows kept by f are those with the greatest score, they come first, in path order.
  lemma TopTier(u: Alphabet, rows: seq<Row>, f: Row -> bool, top: nat)
    requires DistinctIds(rows)
    requires forall x :: x in rows ==> x.score <= top && (f(x) <==> x.score == top)
    ensures SortRows(u, ByRelevance, rows) ==
            SortRows(u, PathAscending, Keep(rows, f)) + SortRows(u, ByRelevance, Keep(rows, Not(f)))
  {
    var best, rest := Keep(rows, f), Keep(rows, Not(f));
    var a, b := SortRows(u, PathAscending, best), SortRows(u, ByRelevance, rest);
    KeepElements(rows, f);
    KeepElements(rows, Not(f));
    KeepDistinct(rows, f);
    KeepDistinct(rows, Not(f));
    SortRowsIsOneSort(u, PathAscending, best);
    SortRowsIsOneSort(u, ByRelevance, rest);
    SortRowsIsOneSort(u, ByRelevance, rows);
    SameElements(a, best);
    SameElements(b, rest);
    TiersAreSorted(u, a, b, top);
    BeforeIsTotal(u, ByRelevance, rows);
    SameElements(SortRows(u, ByRelevance, rows), rows);
    assert multiset(a + b) == multiset(rows);
    SmallerStrict(Before(u, ByRelevance), SortRows(u, ByRelevance, rows), rows);
    SortedIsUnique(Before(u, ByRelevance), SortRows(u, ByRelevance, rows), a + b);
  }

  lemma TiersAreSorted(u: Alphabet, a: seq<Row>, b: seq<Row>, top: nat)
    requires Sorted(Before(u, PathAscending), a) && Sorted(Before(u, ByRelevance), b)
    requires forall x :: x in a ==> x.score == top
    requires forall x :: x in b ==> x.score < top
    ensures Sorted(Before(u, ByRelevance), a + b)
  {
    var all := a + b;
    forall i, j | 0 <= i < j < |all| ensures Before(u, ByRelevance)(all[i], all[j]) {
      if j < |a| {
        assert all[i] == a[i] && all[j] == a[j] && a[i] in a && a[j] in a;
        assert Before(u, PathAscending)(a[i], a[j]);
      } else if i < |a| {
        assert all[i] == a[i] && all[j] == b[j - |a|] && a[i] in a && b[j - |a|] in b;
      } else {
        assert all[i] == b[i - |a|] && all[j] == b[j - |a|];
      }
    }
  }

  // --- Levels ---------------------------------------------------------------------------------

  function Sum(levels: seq<nat>): nat {
    if levels == [] then 0 else Sum(levels[..|levels| - 1]) + levels[|levels| - 1]
  }

  ghost predicate Bounded(columns: seq<Column>, clauses: seq<Clause>, levels: seq<nat>) {
    |levels| == |clauses| && forall i :: 0 <= i < |clauses| ==> ClauseScore(columns, clauses[i]) <= levels[i]
  }

  ghost predicate Reached(columns: seq<Column>, clauses: seq<Clause>, levels: seq<nat>) {
    |levels| == |clauses| && forall i :: 0 <= i < |clauses| ==> ClauseScore(columns, clauses[i]) == levels[i]
  }

  /** A total reaches the sum of per-clause bounds exactly if every clause reaches its own. */
  lemma {:induction false} TotalReachesLevels(columns: seq<Column>, clauses: seq<Clause>, levels: seq<nat>)
    requires Bounded(columns, clauses, levels) && ClauseTotal(columns, clauses).Some?
    ensures ClauseTotal(columns, clauses).value <= Sum(levels)
    ensures ClauseTotal(columns, clauses).value == Sum(levels) <==> Reached(columns, clauses, levels)
  {
    if clauses != [] {
      var n := |clauses| - 1;
      TotalReachesLevels(columns, clauses[..n], levels[..n]);
      if Reached(columns, clauses, levels) {
        assert Reached(columns, clauses[..n], levels[..n]);
      }
      if Reached(columns, clauses[..n], levels[..n]) && ClauseScore(columns, clauses[n]) == levels[n] {
        forall i | 0 <= i < |clauses| ensures ClauseScore(columns, clauses[i]) == levels[i] {
          if i < n { assert clauses[..n][i] == clauses[i] && levels[..n][i] == levels[i]; }
        }
      }
    }
  }

  // No clause scores more than an exact match in the filename.
  function NameLevel(clause: Clause): nat {
    match clause
    case TermClause(_) => 10
    case PhraseClause(phrase) => 10 * |phrase|
  }

  function NameLevels(clauses: seq<Clause>): seq<nat> {
    seq(|clauses|, i requires 0 <= i < |clauses| => NameLevel(clauses[i]))
  }

  lemma NameIsBest(u: Alphabet, item: Item, clause: Clause)
    requires Usable(clause)
    ensures ClauseScore(Columns(u, item), clause) <= NameLevel(clause)
    ensures ClauseScore(Columns(u, item), clause) == NameLevel(clause) <==>
              ClauseFilter(EncodeStream(Tokenize(u, item.filename)), clause, true)
  {
    var c := Columns(u, item);
    match clause
    case TermClause(term) => FiveColumns(c[0], c[1], c[2], c[3], c[4], EncodeToken(term));
    case PhraseClause(phrase) => FiveColumnsPhrase(c[0], c[1], c[2], c[3], c[4], EncodeStream(phrase));
  }

  // A document matches a level of a clause if one of its alternatives with that boost does.
  predicate MatchesLevel(columns: seq<Column>, clause: Clause, level: nat) {
    level in AllEngineScores(columns, clause)
  }

  lemma {:induction false} MaxOfIsMember(scores: seq<nat>)
    ensures scores != [] ==> MaxOf(scores) in scores
    ensures forall k :: 0 <= k < |scores| ==> scores[k] <= MaxOf(scores)
  {
    if scores != [] {
      var n := |scores| - 1;
      MaxOfIsMember(scores[..n]);
      forall k | 0 <= k < |scores| ensures scores[k] <= MaxOf(scores) {
        if k < n { assert scores[..n][k] == scores[k]; }
      }
      if MaxOf(scores) != scores[n] {
        assert MaxOf(scores) == MaxOf(scores[..n]) && n > 0;
        var k :| 0 <= k < n && scores[..n][k] == MaxOf(scores[..n]);
        assert scores[k] == MaxOf(scores);
      }
    }
  }

  lemma LevelIsScore(columns: seq<Column>, clause: Clause, level: nat)
    requires Usable(clause) && forall i :: 0 <= i < |columns| ==> columns[i].weight > 0
    requires ClauseScore(columns, clause) <= level && level > 0
    ensures MatchesLevel(columns, clause, level) <==> ClauseScore(columns, clause) == level
  {
    EnginesScoreClauses(columns, clause);
    MaxOfIsMember(AllEngineScores(columns, clause));
  }

  // --- Documents and queries ------------------------------------------------------------------

  // The full scorer: each clause contributes its best alternative.
  function EngineScore(columns: seq<Column>, clauses: seq<Clause>): Option<nat> {
    if clauses == [] then Some(0)
    else AddScore(EngineScore(columns, clauses[..|clauses| - 1]), MaxOf(AllEngineScores(columns, clauses[|clauses| - 1])))
  }

  lemma {:induction false} EngineScoreIsTotal(columns: seq<Column>, clauses: seq<Clause>)
    requires forall i :: 0 <= i < |columns| ==> columns[i].weight > 0
    requires forall i :: 0 <= i < |clauses| ==> Usable(clauses[i])
    ensures EngineScore(columns, clauses) == ClauseTotal(columns, clauses)
  {
    if clauses != [] {
      var n := |clauses| - 1;
      EngineScoreIsTotal(columns, clauses[..n]);
      EnginesScoreClauses(columns, clauses[n]);
    }
  }

  function DocumentRow(u: Alphabet, item: Item, clauses: seq<Clause>): Row {
    var score := EngineScore(Columns(u, item), clauses);
    Row(item, if score.Some? then score.value else 0)
  }

  function Documents(u: Alphabet, items: seq<Item>, clauses: seq<Clause>): seq<Row> {
    seq(|items|, i requires 0 <= i < |items| => DocumentRow(u, items[i], clauses))
  }

  // A search request: the matching documents, ordered by the stored keys, at most `limit` of them.
  function Request(u: Alphabet, rows: seq<Row>, f: Row -> bool, o: Ordering, limit: nat): seq<Row> {
    First(SortBy(EngineOrder(u, o), Keep(rows, f)), limit)
  }

  ghost predicate Corpus(u: Alphabet, schema: Schema, items: seq<Item>) {
    Sound(u) &&
    (forall i :: 0 <= i < |items| ==>
      Built(u, schema, items[i]) && ShortTexts(items[i]) && |items[i].markers| <= MaxDepth) &&
    (forall i, j :: 0 <= i < j < |items| ==> items[i].id != items[j].id)
  }

  function IsCandidate(u: Alphabet, q: Query, selected: seq<Marker>): Row -> bool {
    (r: Row) => Candidate(u, r.item, q, selected)
  }

  lemma KeepAppend(rows: seq<Row>, x: Row, f: Row -> bool)
    ensures Keep(rows + [x], f) == Keep(rows, f) + if f(x) then [x] else []
  {
    assert (rows + [x])[..|rows|] == rows;
  }

  lemma {:induction false} CandidatesAreMatches(u: Alphabet, schema: Schema, items: seq<Item>, q: Query, selected: seq<Marker>)
    requires Corpus(u, schema, items) && Parsed(q)
    requires selected != [] ==> exists item :: Built(u, schema, item) && HasChain(item, selected)
    ensures Keep(Documents(u, items, Clauses(q)), IsCandidate(u, q, selected)) == MatchRows(u, items, q, selected)
  {
    if items != [] {
      var n, clauses := |items| - 1, Clauses(q);
      CandidatesAreMatches(u, schema, items[..n], q, selected);
      LastDocument(u, items, clauses);
      KeepAppend(Documents(u, items[..n], clauses), DocumentRow(u, items[n], clauses), IsCandidate(u, q, selected));
      CandidateIsMatch(u, schema, items[n], q, selected);
    }
  }

  lemma LastDocument(u: Alphabet, items: seq<Item>, clauses: seq<Clause>)
    requires items != []
    ensures Documents(u, items, clauses) ==
            Documents(u, items[..|items| - 1], clauses) + [DocumentRow(u, items[|items| - 1], clauses)]
  {
  }

  lemma CandidateIsMatch(u: Alphabet, schema: Schema, item: Item, q: Query, selected: seq<Marker>)
    requires Sound(u) && Built(u, schema, item) && Parsed(q)
    requires selected != [] ==> exists other :: Built(u, schema, other) && HasChain(other, selected)
    ensures Candidate(u, item, q, selected) <==> HasChain(item, selected) && Score(u, item, q).Some?
    ensures Score(u, item, q).Some? ==> DocumentRow(u, item, Clauses(q)) == Row(item, Score(u, item, q).value)
  {
    ChainByMembership(u, schema, item, selected);
    MembershipByPath(u, schema, item, q);
    RowOfDocument(u, item, q);
  }

  lemma ChainByMembership(u: Alphabet, schema: Schema, item: Item, selected: seq<Marker>)
    requires Built(u, schema, item)
    requires selected != [] ==> exists other :: Built(u, schema, other) && HasChain(other, selected)
    ensures HasMarkers(item, selected) <==> HasChain(item, selected)
  {
    if selected != [] {
      var other :| Built(u, schema, other) && HasChain(other, selected);
      MembersAreChain(u, schema, item, other, selected);
    }
  }

  lemma RowOfDocument(u: Alphabet, item: Item, q: Query)
    requires Parsed(q)
    ensures Score(u, item, q).Some? ==> DocumentRow(u, item, Clauses(q)) == Row(item, Score(u, item, q).value)
  {
    DocumentScore(u, item, q);
  }

  lemma DocumentScore(u: Alphabet, item: Item, q: Query)
    requires Parsed(q)
    ensures Score(u, item, q) == ClauseTotal(Columns(u, item), Clauses(q)) == EngineScore(Columns(u, item), Clauses(q))
  {
    ScoreIsTotal(u, item, q);
    ClausesAreUsable(q);
    EngineScoreIsTotal(Columns(u, item), Clauses(q));
  }

  // --- One tier -------------------------------------------------------------------------------

  lemma {:induction false} KeepKeep(rows: seq<Row>, f: Row -> bool, g: Row -> bool, h: Row -> bool)
    requires forall x :: x in rows ==> h(x) == (f(x) && g(x))
    ensures Keep(rows, h) == Keep(Keep(rows, f), g)
  {
    if rows != [] {
      var n := |rows| - 1;
      assert rows[n] in rows;
      var kept := Keep(rows[..n], f);
      KeepKeep(rows[..n], f, g, h);
      KeepAppend(kept, rows[n], g);
      assert kept + [] == kept && Keep(kept, g) + [] == Keep(kept, g);
    }
  }

  // A tier that fills the result has the first rows of the specification's order.
  lemma TierFills(u: Alphabet, rows: seq<Row>, f: Row -> bool, top: nat, limit: nat)
    requires DistinctIds(rows)
    requires forall x :: x in rows ==> x.score <= top && (f(x) <==> x.score == top)
    requires |Keep(rows, f)| >= limit || |Keep(rows, f)| >= |rows|
    ensures First(SortRows(u, PathAscending, Keep(rows, f)), limit) == First(SortRows(u, ByRelevance, rows), limit)
  {
    var a, b := SortRows(u, PathAscending, Keep(rows, f)), SortRows(u, ByRelevance, Keep(rows, Not(f)));
    TopTier(u, rows, f, top);
    KeepElements(rows, f);
    KeepDistinct(rows, f);
    KeepDistinct(rows, Not(f));
    SortRowsIsOneSort(u, PathAscending, Keep(rows, f));
    SortRowsIsOneSort(u, ByRelevance, Keep(rows, Not(f)));
    SizesAdd(rows, Keep(rows, f), Keep(rows, Not(f)));
    SameSize(a, Keep(rows, f));
    SameSize(b, Keep(rows, Not(f)));
    FirstOfBoth(a, b, limit);
  }

  lemma FirstOfBoth(a: seq<Row>, b: seq<Row>, limit: nat)
    requires |a| >= limit || b == []
    ensures First(a + b, limit) == First(a, limit)
  {
    if b == [] { assert a + b == a; }
  }

  lemma SizesAdd(rows: seq<Row>, a: seq<Row>, b: seq<Row>)
    requires multiset(a) + multiset(b) == multiset(rows)
    ensures |a| + |b| == |rows|
  {
    assert |multiset(a) + multiset(b)| == |a| + |b|;
  }

  lemma SameSize(a: seq<Row>, b: seq<Row>)
    requires multiset(a) == multiset(b)
    ensures |a| == |b|
  {
    assert |multiset(a)| == |a|;
  }

  ghost predicate Sortable(u: Alphabet, rows: seq<Row>) {
    Sound(u) && DistinctIds(rows) && forall x :: x in rows ==> ShortTexts(x.item)
  }

  lemma KeepSortable(u: Alphabet, rows: seq<Row>, f: Row -> bool)
    requires Sortable(u, rows)
    ensures Sortable(u, Keep(rows, f))
  {
    KeepDistinct(rows, f);
    KeepElements(rows, f);
  }

  // What the engine answers is the specification's order of the kept rows.
  lemma RequestIsSort(u: Alphabet, rows: seq<Row>, f: Row -> bool, o: Ordering, limit: nat)
    requires Sortable(u, rows)
    ensures Request(u, rows, f, o, limit) == First(SortRows(u, o, Keep(rows, f)), limit)
  {
    KeepSortable(u, rows, f);
    StoredOrdersAreTheSort(u, o, Keep(rows, f));
  }

  lemma DocumentsSortable(u: Alphabet, schema: Schema, items: seq<Item>, clauses: seq<Clause>)
    requires Corpus(u, schema, items)
    ensures Sortable(u, Documents(u, items, clauses))
  {
  }

  // --- The tiers ------------------------------------------------------------------------------

  // A row of the result, as the scorer sees it.
  ghost predicate ScoredRow(u: Alphabet, q: Query, x: Row) {
    Score(u, x.item, q) == Some(x.score)
  }

  lemma {:induction false} RowsAreScored(u: Alphabet, items: seq<Item>, q: Query, selected: seq<Marker>)
    ensures forall x :: x in MatchRows(u, items, q, selected) ==> ScoredRow(u, q, x) && x.item in items
  {
    if items != [] {
      var n := |items| - 1;
      RowsAreScored(u, items[..n], q, selected);
      assert items == items[..n] + [items[n]];
    }
  }

  lemma NameTierRow(u: Alphabet, q: Query, x: Row)
    requires Parsed(q) && ScoredRow(u, q, x)
    ensures x.score <= Sum(NameLevels(Clauses(q)))
    ensures ExactName(u, x.item, q) <==> x.score == Sum(NameLevels(Clauses(q)))
  {
    var clauses, columns := Clauses(q), Columns(u, x.item);
    var levels := NameLevels(clauses);
    DocumentScore(u, x.item, q);
    ClausesAreUsable(q);
    forall i | 0 <= i < |clauses|
      ensures ClauseScore(columns, clauses[i]) <= levels[i]
      ensures ClauseScore(columns, clauses[i]) == levels[i] <==>
                ClauseFilter(EncodeStream(Tokenize(u, x.item.filename)), clauses[i], true)
    {
      NameIsBest(u, x.item, clauses[i]);
    }
    TotalReachesLevels(columns, clauses, levels);
    ReachedIsFilter(columns, EncodeStream(Tokenize(u, x.item.filename)), clauses, levels);
  }

  lemma ReachedIsFilter(columns: seq<Column>, words: seq<Word>, clauses: seq<Clause>, levels: seq<nat>)
    requires |levels| == |clauses|
    requires forall i :: 0 <= i < |clauses| ==>
               (ClauseScore(columns, clauses[i]) == levels[i] <==> ClauseFilter(words, clauses[i], true))
    ensures Reached(columns, clauses, levels) <==> ColumnFilter(words, clauses, true)
  {
  }

  predicate AtLevels(columns: seq<Column>, clauses: seq<Clause>, levels: seq<nat>)
    requires |levels| == |clauses|
  {
    forall i :: 0 <= i < |clauses| ==> MatchesLevel(columns, clauses[i], levels[i])
  }

  lemma LevelTier(columns: seq<Column>, clauses: seq<Clause>, levels: seq<nat>)
    requires Bounded(columns, clauses, levels) && ClauseTotal(columns, clauses).Some?
    requires forall i :: 0 <= i < |columns| ==> columns[i].weight > 0
    requires forall i :: 0 <= i < |clauses| ==> Usable(clauses[i]) && levels[i] > 0
    ensures ClauseTotal(columns, clauses).value <= Sum(levels)
    ensures AtLevels(columns, clauses, levels) <==> ClauseTotal(columns, clauses).value == Sum(levels)
  {
    forall i | 0 <= i < |clauses|
      ensures MatchesLevel(columns, clauses[i], levels[i]) <==> ClauseScore(columns, clauses[i]) == levels[i]
    {
      LevelIsScore(columns, clauses[i], levels[i]);
    }
    TotalReachesLevels(columns, clauses, levels);
    ReachedIsLevels(columns, clauses, levels);
  }

  lemma LevelTierRow(u: Alphabet, q: Query, levels: seq<nat>, x: Row)
    requires Parsed(q) && ScoredRow(u, q, x) && Bounded(Columns(u, x.item), Clauses(q), levels)
    requires forall i :: 0 <= i < |levels| ==> levels[i] > 0
    ensures x.score <= Sum(levels)
    ensures AtLevels(Columns(u, x.item), Clauses(q), levels) <==> x.score == Sum(levels)
  {
    DocumentScore(u, x.item, q);
    ClausesAreUsable(q);
    PositiveWeights(u, x.item);
    LevelTier(Columns(u, x.item), Clauses(q), levels);
  }

  lemma ReachedIsLevels(columns: seq<Column>, clauses: seq<Clause>, levels: seq<nat>)
    requires |levels| == |clauses|
    requires forall i :: 0 <= i < |clauses| ==>
               (MatchesLevel(columns, clauses[i], levels[i]) <==> ClauseScore(columns, clauses[i]) == levels[i])
    ensures Reached(columns, clauses, levels) <==> AtLevels(columns, clauses, levels)
  {
  }

  // An exact filename match is a match by path.
  lemma ExactNameIsCandidate(u: Alphabet, schema: Schema, item: Item, q: Query, selected: seq<Marker>)
    requires Sound(u) && Built(u, schema, item) && Parsed(q) && ExactName(u, item, q) && HasMarkers(item, selected)
    ensures Candidate(u, item, q, selected)
  {
    var clauses := Clauses(q);
    ClausesAreUsable(q);
    forall i | 0 <= i < |clauses| ensures ClauseFilter(EncodeStream(Tokenize(u, item.path)), clauses[i], false) {
      NameIsBest(u, item, clauses[i]);
      assert NameLevel(clauses[i]) > 0;
      ClauseMatchesByPath(u, schema, item, clauses[i]);
    }
  }
}
