/**
 * The search call over an engine snapshot, in the form of the program.
 */
module SearchSnapshots {
  import opened Wrappers
  import opened Alphabets
  import opened SearchItems
  import opened Search
  import opened SearchColumns
  import opened SearchClauses
  import opened Sorting
  import opened SearchOrder
  import opened OpenSearchQuery
  import opened TieredSearch

  datatype Response = Response(total: Option<nat>, hits: seq<Row>)

  function Min(a: nat, b: nat): nat {
    if a < b then a else b
  }

  // --- Selection ------------------------------------------------------------------------------

  // The chain is checked on any one item that has all its markers.
  method Selection(u: Alphabet, ghost schema: Schema, items: seq<Item>, selected: seq<Marker>) returns (ok: bool)
    requires Corpus(u, schema, items)
    ensures ok <==> Select(items, selected).Some?
  {
    ChainPositionsAreExact(items, selected);
    if selected == [] {
      return true;
    }
    if Repeats(selected) || |selected| > MaxDepth {
      LongChainsAreUnknown(items, selected);
      return false;
    }
    if i :| 0 <= i < |items| && HasMarkers(items[i], selected) {
      ok := selected <= items[i].markers;
      SomeChain(u, schema, items, selected, i);
    } else {
      NoMembersNoChain(items, selected);
      ok := false;
    }
  }

  lemma LongChainsAreUnknown(items: seq<Item>, selected: seq<Marker>)
    requires forall i :: 0 <= i < |items| ==> |items[i].markers| <= MaxDepth
    requires AreChainPositions(ChainPositions(items, selected), items, selected)
    requires Repeats(selected) || |selected| > MaxDepth
    ensures Select(items, selected).None?
  {
    var positions := ChainPositions(items, selected);
    if positions != [] { assert HasChain(items[positions[0]], selected); }
  }

  lemma SomeChain(u: Alphabet, schema: Schema, items: seq<Item>, selected: seq<Marker>, i: nat)
    requires Corpus(u, schema, items) && selected != [] && !Repeats(selected)
    requires AreChainPositions(ChainPositions(items, selected), items, selected)
    requires i < |items| && HasMarkers(items[i], selected)
    ensures HasChain(items[i], selected) <==> Select(items, selected).Some?
  {
    var positions := ChainPositions(items, selected);
    if positions != [] { MembersAreChain(u, schema, items[i], items[positions[0]], selected); }
  }

  lemma ChainIsMembers(item: Item, selected: seq<Marker>)
    ensures HasChain(item, selected) ==> HasMarkers(item, selected)
  {
    if HasChain(item, selected) {
      forall k | 0 <= k < |selected| ensures selected[k] in item.markers {
        assert item.markers[k] == selected[k];
      }
    }
  }

  lemma NoMembersNoChain(items: seq<Item>, selected: seq<Marker>)
    requires selected != [] && forall i :: 0 <= i < |items| ==> !HasMarkers(items[i], selected)
    requires AreChainPositions(ChainPositions(items, selected), items, selected)
    ensures Select(items, selected).None?
  {
    var positions := ChainPositions(items, selected);
    if positions != [] { ChainIsMembers(items[positions[0]], selected); }
  }

  // --- Probing the clauses --------------------------------------------------------------------

  function LevelOf(u: Alphabet, item: Item, clause: Clause): nat {
    MaxOf(AllEngineScores(Columns(u, item), clause))
  }

  lemma LevelOfIsScore(u: Alphabet, item: Item, clause: Clause)
    requires Usable(clause)
    ensures LevelOf(u, item, clause) == ClauseScore(Columns(u, item), clause)
  {
    PositiveWeights(u, item);
    EnginesScoreClauses(Columns(u, item), clause);
  }

  method Highest(scores: seq<nat>) returns (top: nat)
    ensures top == MaxOf(scores)
  {
    top := 0;
    for i := 0 to |scores|
      invariant top == MaxOf(scores[..i])
    {
      assert scores[..i + 1][..i] == scores[..i];
      top := Max(top, scores[i]);
    }
    assert scores[..|scores|] == scores;
  }

  function LevelsOf(u: Alphabet, rows: seq<Row>, clause: Clause): seq<nat> {
    seq(|rows|, k requires 0 <= k < |rows| => LevelOf(u, rows[k].item, clause))
  }

  ghost predicate AllMatch(u: Alphabet, rows: seq<Row>, clause: Clause) {
    forall x :: x in rows ==> ClauseScore(Columns(u, x.item), clause) > 0
  }

  ghost predicate IsTop(u: Alphabet, rows: seq<Row>, clause: Clause, level: nat) {
    level > 0 && forall x :: x in rows ==> ClauseScore(Columns(u, x.item), clause) <= level
  }

  // The score of the best hit for one clause.
  method TopLevel(u: Alphabet, rows: seq<Row>, clause: Clause) returns (level: nat)
    requires Usable(clause) && rows != [] && AllMatch(u, rows, clause)
    ensures IsTop(u, rows, clause, level)
  {
    level := Highest(LevelsOf(u, rows, clause));
    HighestIsTop(u, rows, clause, level);
  }

  lemma HighestIsTop(u: Alphabet, rows: seq<Row>, clause: Clause, level: nat)
    requires Usable(clause) && rows != [] && AllMatch(u, rows, clause) && level == MaxOf(LevelsOf(u, rows, clause))
    ensures IsTop(u, rows, clause, level)
  {
    var levels := LevelsOf(u, rows, clause);
    MaxOfIsMember(levels);
    forall x | x in rows ensures 0 < ClauseScore(Columns(u, x.item), clause) <= level {
      var k :| 0 <= k < |rows| && rows[k] == x;
      LevelOfIsScore(u, rows[k].item, clause);
      assert levels[k] <= level;
    }
    assert rows[0] in rows;
  }

  method MaximumLevels(u: Alphabet, rows: seq<Row>, clauses: seq<Clause>) returns (levels: seq<nat>)
    requires rows != [] && forall i :: 0 <= i < |clauses| ==> Usable(clauses[i]) && AllMatch(u, rows, clauses[i])
    ensures |levels| == |clauses| && forall i :: 0 <= i < |clauses| ==> IsTop(u, rows, clauses[i], levels[i])
  {
    levels := [];
    for i := 0 to |clauses|
      invariant |levels| == i && forall k :: 0 <= k < i ==> IsTop(u, rows, clauses[k], levels[k])
    {
      var level := TopLevel(u, rows, clauses[i]);
      levels := levels + [level];
    }
  }

  // --- The tiers ------------------------------------------------------------------------------

  function ExactNameFilter(u: Alphabet, q: Query, selected: seq<Marker>): Row -> bool {
    (r: Row) => HasMarkers(r.item, selected) && ExactName(u, r.item, q)
  }

  function IsExactName(u: Alphabet, q: Query): Row -> bool {
    (r: Row) => ExactName(u, r.item, q)
  }

  function IsAtLevels(u: Alphabet, clauses: seq<Clause>, levels: seq<nat>): Row -> bool
    requires |levels| == |clauses|
  {
    (r: Row) => AtLevels(Columns(u, r.item), clauses, levels)
  }

  function Both(f: Row -> bool, g: Row -> bool): Row -> bool {
    (r: Row) => f(r) && g(r)
  }

  // Whatever filter a tier uses: if its answer is long enough, it is the answer.
  lemma TierAnswer(u: Alphabet, docs: seq<Row>, cand: Row -> bool, g: Row -> bool, f: Row -> bool, top: nat, limit: nat)
    requires Sortable(u, docs)
    requires forall x :: x in docs ==> f(x) == (cand(x) && g(x))
    requires forall x :: x in Keep(docs, cand) ==> x.score <= top && (g(x) <==> x.score == top)
    ensures var hits, rows := Request(u, docs, f, PathAscending, limit), Keep(docs, cand);
            |hits| >= Min(limit, |rows|) ==> hits == First(SortRows(u, ByRelevance, rows), limit)
  {
    var rows := Keep(docs, cand);
    KeepKeep(docs, cand, g, f);
    RequestIsSort(u, docs, f, PathAscending, limit);
    KeepSortable(u, docs, cand);
    KeepSortable(u, rows, g);
    SortRowsIsOneSort(u, PathAscending, Keep(rows, g));
    SameSize(SortRows(u, PathAscending, Keep(rows, g)), Keep(rows, g));
    if |First(SortRows(u, PathAscending, Keep(rows, g)), limit)| >= Min(limit, |rows|) {
      TierFills(u, rows, g, top, limit);
    }
  }

  // The state in which the tiers are tried: a valid selection and a text.
  ghost predicate Ready(u: Alphabet, schema: Schema, items: seq<Item>, q: Query, selected: seq<Marker>) {
    Corpus(u, schema, items) && Parsed(q) &&
    (selected != [] ==> exists item :: Built(u, schema, item) && HasChain(item, selected))
  }

  lemma NameTier(u: Alphabet, schema: Schema, items: seq<Item>, q: Query, selected: seq<Marker>, limit: nat)
    requires Ready(u, schema, items, q, selected)
    ensures var docs, rows := Documents(u, items, Clauses(q)), MatchRows(u, items, q, selected);
            var hits := Request(u, docs, ExactNameFilter(u, q, selected), PathAscending, limit);
            |hits| >= Min(limit, |rows|) ==> hits == First(SortRows(u, ByRelevance, rows), limit)
  {
    var docs, cand := Documents(u, items, Clauses(q)), IsCandidate(u, q, selected);
    var f, g := ExactNameFilter(u, q, selected), IsExactName(u, q);
    CandidatesAreMatches(u, schema, items, q, selected);
    DocumentsSortable(u, schema, items, Clauses(q));
    RowsAreScored(u, items, q, selected);
    forall x | x in docs ensures f(x) == (cand(x) && g(x)) {
      if f(x) { ExactNameIsCandidate(u, schema, x.item, q, selected); }
    }
    forall x | x in Keep(docs, cand)
      ensures x.score <= Sum(NameLevels(Clauses(q))) && (g(x) <==> x.score == Sum(NameLevels(Clauses(q))))
    {
      NameTierRow(u, q, x);
    }
    TierAnswer(u, docs, cand, g, f, Sum(NameLevels(Clauses(q))), limit);
  }

  lemma BestLevelsTier(u: Alphabet, schema: Schema, items: seq<Item>, q: Query, selected: seq<Marker>, levels: seq<nat>,
                       limit: nat)
    requires Ready(u, schema, items, q, selected)
    requires |levels| == |Clauses(q)| && forall i :: 0 <= i < |levels| ==> levels[i] > 0
    requires forall x :: x in MatchRows(u, items, q, selected) ==> Bounded(Columns(u, x.item), Clauses(q), levels)
    ensures var docs, rows := Documents(u, items, Clauses(q)), MatchRows(u, items, q, selected);
            var f := Both(IsCandidate(u, q, selected), IsAtLevels(u, Clauses(q), levels));
            var hits := Request(u, docs, f, PathAscending, limit);
            |hits| >= Min(limit, |rows|) ==> hits == First(SortRows(u, ByRelevance, rows), limit)
  {
    var docs, cand := Documents(u, items, Clauses(q)), IsCandidate(u, q, selected);
    var g := IsAtLevels(u, Clauses(q), levels);
    CandidatesAreMatches(u, schema, items, q, selected);
    DocumentsSortable(u, schema, items, Clauses(q));
    RowsAreScored(u, items, q, selected);
    forall x | x in Keep(docs, cand) ensures x.score <= Sum(levels) && (g(x) <==> x.score == Sum(levels)) {
      LevelTierRow(u, q, levels, x);
    }
    TierAnswer(u, docs, cand, g, Both(cand, g), Sum(levels), limit);
  }

  // The full scorer, and every other order, over the matching rows.
  lemma FullTier(u: Alphabet, schema: Schema, items: seq<Item>, q: Query, selected: seq<Marker>, o: Ordering, limit: nat)
    requires Ready(u, schema, items, q, selected)
    ensures Request(u, Documents(u, items, Clauses(q)), IsCandidate(u, q, selected), o, limit) ==
            First(SortRows(u, o, MatchRows(u, items, q, selected)), limit)
  {
    CandidatesAreMatches(u, schema, items, q, selected);
    DocumentsSortable(u, schema, items, Clauses(q));
    RequestIsSort(u, Documents(u, items, Clauses(q)), IsCandidate(u, q, selected), o, limit);
  }

  // The documents that the full scorer returns: all clauses have an alternative that matches.
  function ScorerFilter(u: Alphabet, q: Query, selected: seq<Marker>): Row -> bool {
    (r: Row) => HasMarkers(r.item, selected) && EngineScore(Columns(u, r.item), Clauses(q)).Some?
  }

  lemma {:induction false} SameKeep(rows: seq<Row>, f: Row -> bool, g: Row -> bool)
    requires forall x :: x in rows ==> f(x) == g(x)
    ensures Keep(rows, f) == Keep(rows, g)
  {
    if rows != [] {
      assert rows[|rows| - 1] in rows;
      SameKeep(rows[..|rows| - 1], f, g);
    }
  }

  lemma ScorerTier(u: Alphabet, schema: Schema, items: seq<Item>, q: Query, selected: seq<Marker>, limit: nat)
    requires Ready(u, schema, items, q, selected)
    ensures Request(u, Documents(u, items, Clauses(q)), ScorerFilter(u, q, selected), ByRelevance, limit) ==
            First(SortRows(u, ByRelevance, MatchRows(u, items, q, selected)), limit)
  {
    var docs := Documents(u, items, Clauses(q));
    forall x | x in docs ensures ScorerFilter(u, q, selected)(x) == IsCandidate(u, q, selected)(x) {
      MembershipByPath(u, schema, x.item, q);
      DocumentScore(u, x.item, q);
    }
    SameKeep(docs, ScorerFilter(u, q, selected), IsCandidate(u, q, selected));
    FullTier(u, schema, items, q, selected, ByRelevance, limit);
  }

  lemma MatchesHaveAllClauses(u: Alphabet, q: Query, x: Row)
    requires Parsed(q) && ScoredRow(u, q, x)
    ensures forall i :: 0 <= i < |Clauses(q)| ==> ClauseScore(Columns(u, x.item), Clauses(q)[i]) > 0
  {
    DocumentScore(u, x.item, q);
    TotalIfAll(Columns(u, x.item), Clauses(q));
  }

  lemma MatchesMatchAll(u: Alphabet, items: seq<Item>, q: Query, selected: seq<Marker>)
    requires Parsed(q)
    ensures forall i :: 0 <= i < |Clauses(q)| ==>
              Usable(Clauses(q)[i]) && AllMatch(u, MatchRows(u, items, q, selected), Clauses(q)[i])
  {
    RowsAreScored(u, items, q, selected);
    ClausesAreUsable(q);
    forall i | 0 <= i < |Clauses(q)| ensures AllMatch(u, MatchRows(u, items, q, selected), Clauses(q)[i]) {
      forall x | x in MatchRows(u, items, q, selected) ensures ClauseScore(Columns(u, x.item), Clauses(q)[i]) > 0 {
        MatchesHaveAllClauses(u, q, x);
      }
    }
  }

  lemma TopsAreBounds(u: Alphabet, rows: seq<Row>, clauses: seq<Clause>, levels: seq<nat>)
    requires |levels| == |clauses| && forall i :: 0 <= i < |clauses| ==> IsTop(u, rows, clauses[i], levels[i])
    ensures forall i :: 0 <= i < |levels| ==> levels[i] > 0
    ensures forall x :: x in rows ==> Bounded(Columns(u, x.item), clauses, levels)
  {
    forall i | 0 <= i < |levels| ensures levels[i] > 0 {
      assert IsTop(u, rows, clauses[i], levels[i]);
    }
  }

  method Probe(u: Alphabet, items: seq<Item>, q: Query, selected: seq<Marker>, rows: seq<Row>) returns (levels: seq<nat>)
    requires Parsed(q) && rows == MatchRows(u, items, q, selected) && rows != []
    ensures |levels| == |Clauses(q)| && forall i :: 0 <= i < |levels| ==> levels[i] > 0
    ensures forall x :: x in rows ==> Bounded(Columns(u, x.item), Clauses(q), levels)
  {
    MatchesMatchAll(u, items, q, selected);
    levels := MaximumLevels(u, rows, Clauses(q));
    TopsAreBounds(u, rows, Clauses(q), levels);
  }

  /** Relevance: whichever of the three queries answers, the hits are the first ones of the specification's order. */
  method Relevant(u: Alphabet, ghost schema: Schema, items: seq<Item>, q: Query, selected: seq<Marker>, limit: nat)
    returns (hits: seq<Row>)
    requires Ready(u, schema, items, q, selected) && MatchRows(u, items, q, selected) != []
    ensures hits == First(SortRows(u, ByRelevance, MatchRows(u, items, q, selected)), limit)
  {
    var clauses := Clauses(q);
    var docs := Documents(u, items, clauses);
    var rows := Keep(docs, IsCandidate(u, q, selected));
    var total := |rows|;
    CandidatesAreMatches(u, schema, items, q, selected);
    hits := Request(u, docs, ExactNameFilter(u, q, selected), PathAscending, limit);
    NameTier(u, schema, items, q, selected, limit);
    if |hits| < Min(limit, total) && total > MaxScoreProbeThreshold && |clauses| <= MaxProbedClauses {
      var levels := Probe(u, items, q, selected, rows);
      hits := Request(u, docs, Both(IsCandidate(u, q, selected), IsAtLevels(u, clauses, levels)), PathAscending, limit);
      BestLevelsTier(u, schema, items, q, selected, levels, limit);
    }
    if |hits| < Min(limit, total) {
      hits := Request(u, docs, ScorerFilter(u, q, selected), ByRelevance, limit);
      ScorerTier(u, schema, items, q, selected, limit);
    }
  }

  predicate Refused(items: seq<Item>, q: Query, selected: seq<Marker>, o: Ordering) {
    Select(items, selected).None? || (o.field.Relevance? && (Clauses(q) == [] || !o.descending))
  }

  /** A search answers like the specification: refused for the same requests, the same total, and the first hits of
      the same order. Without a text or a selection there is no result list. */
  method SearchItemsOf(u: Alphabet, ghost schema: Schema, items: seq<Item>, q: Query, selected: seq<Marker>, o: Ordering,
                       limit: nat)
    returns (response: Option<Response>)
    requires Corpus(u, schema, items) && Parsed(q) && limit >= 1
    ensures response.None? <==> Refused(items, q, selected, o)
    ensures response.Some? && selected == [] && Clauses(q) == [] ==> response.value == Response(None, [])
    ensures response.Some? && (selected != [] || Clauses(q) != []) ==>
              var rows := MatchRows(u, items, q, selected);
              response.value == Response(Some(|rows|), First(SortRows(u, o, rows), limit))
  {
    var ok := Selection(u, schema, items, selected);
    if !ok || (o.field.Relevance? && (Clauses(q) == [] || !o.descending)) {
      return None;
    }
    SelectionIsReady(u, schema, items, q, selected);
    if selected == [] && Clauses(q) == [] {
      return Some(Response(None, []));
    }
    var answer := Answer(u, schema, items, q, selected, o, limit);
    return Some(answer);
  }

  method Answer(u: Alphabet, ghost schema: Schema, items: seq<Item>, q: Query, selected: seq<Marker>, o: Ordering,
                limit: nat)
    returns (response: Response)
    requires Ready(u, schema, items, q, selected) && limit >= 1
    requires o.field.Relevance? ==> o.descending
    ensures var rows := MatchRows(u, items, q, selected);
            response == Response(Some(|rows|), First(SortRows(u, o, rows), limit))
  {
    CandidatesAreMatches(u, schema, items, q, selected);
    var docs := Documents(u, items, Clauses(q));
    var total := |Keep(docs, IsCandidate(u, q, selected))|;
    var hits := [];
    if total > 0 {
      if o.field.Relevance? {
        assert o == ByRelevance;
        hits := Relevant(u, schema, items, q, selected, limit);
      } else {
        hits := Request(u, docs, IsCandidate(u, q, selected), o, limit);
        FullTier(u, schema, items, q, selected, o, limit);
      }
    } else {
      SortOfNone(u, o);
    }
    response := Response(Some(total), hits);
  }

  lemma SortOfNone(u: Alphabet, o: Ordering)
    ensures SortRows(u, o, []) == []
  {
    SortRowsIsOneSort(u, o, []);
  }

  lemma SelectionIsReady(u: Alphabet, schema: Schema, items: seq<Item>, q: Query, selected: seq<Marker>)
    requires Corpus(u, schema, items) && Parsed(q) && Select(items, selected).Some?
    ensures Ready(u, schema, items, q, selected)
  {
    ChainPositionsAreExact(items, selected);
    if selected != [] {
      var p := ChainPositions(items, selected)[0];
      assert Built(u, schema, items[p]) && HasChain(items[p], selected);
    }
  }
}
