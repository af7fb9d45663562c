/**
 * The in-memory index of one generation: filled once by its constructor, matched by walking postings, and sorted
 * by cached ranks when only the first rows are wanted.
 */
module SearchIndexes {
  import opened Wrappers
  import opened Lexicographic
  import opened Utf8
  import opened Alphabets
  import opened NaturalOrder
  import opened Tokens
  import opened Timestamps
  import opened SearchItems
  import opened Search
  import opened Sorting
  import opened SearchOrder
  import opened Postings
  import opened IndexTables
  import opened Ranks

  // --- From scores to rows --------------------------------------------------------------------

  function RowsAt(items: seq<Item>, positions: seq<nat>): seq<Row>
    requires InRange(items, positions)
  {
    seq(|positions|, i requires 0 <= i < |positions| => Row(items[positions[i]], 0))
  }

  // Without a text, the matches are the items with the chain.
  lemma {:induction false} ChainRows(u: Alphabet, items: seq<Item>, selected: seq<Marker>, q: Query)
    requires q == Query([], [])
    ensures InRange(items, ChainPositions(items, selected))
    ensures RowsAt(items, ChainPositions(items, selected)) == MatchRows(u, items, q, selected)
  {
    ChainPositionsAreExact(items, selected);
    if items != [] {
      var n := |items| - 1;
      ChainRows(u, items[..n], selected, q);
      var init := ChainPositions(items[..n], selected);
      assert forall i :: 0 <= i < |init| ==> items[..n][init[i]] == items[init[i]];
      assert Score(u, items[n], q) == Some(0);
    }
  }

  // These scores are exactly the specification's, for the items with the chain.
  ghost predicate ScoresAre(u: Alphabet, items: seq<Item>, q: Query, selected: seq<Marker>, scores: Scores) {
    forall p: nat :: p < |items| ==>
      (p in scores <==> HasChain(items[p], selected) && Score(u, items[p], q).Some?) &&
      (p in scores ==> Score(u, items[p], q) == Some(scores[p]))
  }

  // The rows of the scores in corpus order.
  method CollectRows(u: Alphabet, items: seq<Item>, q: Query, selected: seq<Marker>, scores: Scores) returns (rows: seq<Row>)
    requires ScoresAre(u, items, q, selected, scores)
    ensures rows == MatchRows(u, items, q, selected)
  {
    rows := [];
    for p := 0 to |items|
      invariant rows == MatchRows(u, items[..p], q, selected)
    {
      assert items[..p + 1][..p] == items[..p];
      if p in scores {
        rows := rows + [Row(items[p], scores[p])];
      }
    }
    assert items[..|items|] == items;
  }

  lemma {:induction false} NoRows(u: Alphabet, items: seq<Item>, q: Query, selected: seq<Marker>)
    requires forall p: nat :: p < |items| ==> !HasChain(items[p], selected) || Score(u, items[p], q).None?
    ensures MatchRows(u, items, q, selected) == []
  {
    if items != [] {
      var n := |items| - 1;
      assert forall p: nat :: p < n ==> items[..n][p] == items[p];
      NoRows(u, items[..n], q, selected);
    }
  }

  // If some of the terms do not match, in whatever order, the query does not.
  lemma SomeTermsFail(fields: seq<Field>, path: Stream, order: seq<Token>, k: nat, q: Query)
    requires k <= |order| && multiset(order) == multiset(q.terms) && TermsScore(fields, order[..k]).None?
    ensures PhrasesScore(fields, path, TermsScore(fields, q.terms), q.phrases).None?
  {
    TermsNoneStays(fields, order[..k], order[k..]);
    assert order[..k] + order[k..] == order;
    OrderOfTermsIsFree(fields, order, q.terms);
    NoneStays(fields, path, TermsScore(fields, q.terms), q.phrases);
  }

  // Once no position is left after some of the terms, nothing matches.
  lemma NothingAfterTerms(u: Alphabet, items: seq<Item>, q: Query, selected: seq<Marker>, positions: seq<nat>,
                          order: seq<Token>, k: nat, scope: Option<Scores>)
    requires AreChainPositions(positions, items, selected) && k <= |order| && multiset(order) == multiset(q.terms)
    requires TermScoresOk(u, items, positions, order[..k], scope) && scope == Some(map[])
    ensures MatchRows(u, items, q, selected) == []
  {
    forall p: nat | p < |items| ensures !HasChain(items[p], selected) || Score(u, items[p], q).None? {
      if HasChain(items[p], selected) {
        var fields := Fields(u, items[p]);
        assert ScoredAt(scope, p in positions, TermTotal(u, items, order[..k], p), p);
        SomeTermsFail(fields, Tokenize(u, items[p].path), order, k, q);
      }
    }
    NoRows(u, items, q, selected);
  }

  lemma NothingAfterPhrases(u: Alphabet, items: seq<Item>, q: Query, selected: seq<Marker>, positions: seq<nat>, k: nat,
                            scope: Option<Scores>)
    requires AreChainPositions(positions, items, selected) && k <= |q.phrases|
    requires PhraseScoresOk(u, items, positions, q.terms, q.phrases[..k], scope) && scope == Some(map[])
    ensures MatchRows(u, items, q, selected) == []
  {
    forall p: nat | p < |items| ensures !HasChain(items[p], selected) || Score(u, items[p], q).None? {
      if HasChain(items[p], selected) {
        var fields, path := Fields(u, items[p]), Tokenize(u, items[p].path);
        assert ScoredAt(scope, p in positions, PhraseTotal(u, items, q.terms, q.phrases[..k], p), p);
        PhrasesNoneStays(fields, path, TermsScore(fields, q.terms), q.phrases[..k], q.phrases[k..]);
        assert q.phrases[..k] + q.phrases[k..] == q.phrases;
      }
    }
    NoRows(u, items, q, selected);
  }

  lemma TermsDone(u: Alphabet, items: seq<Item>, positions: seq<nat>, order: seq<Token>, terms: seq<Token>, scope: Option<Scores>)
    requires TermScoresOk(u, items, positions, order, scope) && multiset(order) == multiset(terms)
    ensures PhraseScoresOk(u, items, positions, terms, [], scope)
  {
    forall p: nat ensures ScoredAt(scope, p in positions, PhraseTotal(u, items, terms, [], p), p) {
      assert ScoredAt(scope, p in positions, TermTotal(u, items, order, p), p);
      if p < |items| { OrderOfTermsIsFree(Fields(u, items[p]), order, terms); }
    }
  }

  lemma AllDone(u: Alphabet, items: seq<Item>, q: Query, selected: seq<Marker>, positions: seq<nat>, scores: Scores)
    requires AreChainPositions(positions, items, selected)
    requires PhraseScoresOk(u, items, positions, q.terms, q.phrases, Some(scores))
    ensures ScoresAre(u, items, q, selected, scores)
  {
    forall p: nat | p < |items|
      ensures p in scores <==> HasChain(items[p], selected) && Score(u, items[p], q).Some?
      ensures p in scores ==> Score(u, items[p], q) == Some(scores[p])
    {
      assert ScoredAt(Some(scores), p in positions, PhraseTotal(u, items, q.terms, q.phrases, p), p);
    }
  }

  function Size(table: TokenTable, tokens: seq<Token>): nat {
    if tokens == [] then 0 else Size(table, tokens[..|tokens| - 1]) + |RowOf(table, tokens[|tokens| - 1])|
  }

  // The words found for each term.
  type Found = map<Token, seq<Token>>

  function BySize(table: TokenTable, found: Found): (Token, Token) -> bool {
    (s: Token, t: Token) =>
      s in found && t in found && Size(table, found[s]) < Size(table, found[t])
  }

  ghost predicate FoundOk(table: TokenTable, term: Token, tokens: seq<Token>) {
    (forall k :: 0 <= k < |tokens| ==> Prefix(term, tokens[k]) && tokens[k] in table) &&
    forall t :: t in table && Prefix(term, t) ==> t in tokens
  }

  ghost predicate FieldsOk(u: Alphabet, items: seq<Item>, fields: seq<seq<Field>>) {
    |fields| == |items| && forall p: nat :: p < |items| ==> fields[p] == Fields(u, items[p])
  }

  ghost predicate TablesOk(u: Alphabet, items: seq<Item>, chains: ChainTable, table: TokenTable, fields: seq<seq<Field>>) {
    ChainsOk(items, chains) && TokensOk(u, items, table) && FieldsOk(u, items, fields)
  }

  lemma OneMoreItemFields(u: Alphabet, before: seq<Item>, item: Item, fields: seq<seq<Field>>)
    requires FieldsOk(u, before, fields)
    ensures FieldsOk(u, before + [item], fields + [Fields(u, item)])
  {
  }

  // One more item enters every table.
  method AddToTables(u: Alphabet, ghost before: seq<Item>, p: nat, item: Item, chains: ChainTable, table: TokenTable,
                     fields: seq<seq<Field>>)
    returns (wider: ChainTable, longer: TokenTable, more: seq<seq<Field>>)
    requires TablesOk(u, before, chains, table, fields) && p == |before|
    ensures TablesOk(u, before + [item], wider, longer, more)
  {
    FieldsArePositive(u, item);
    wider := AddChain(chains, p, item.markers);
    OneMoreItemChains(before, item, chains, wider);
    longer := AddFields(table, p, Fields(u, item));
    OneMoreItemTokens(u, before, item, table, longer);
    more := fields + [Fields(u, item)];
    OneMoreItemFields(u, before, item, fields);
  }

  class SearchIndex {
    const u: Alphabet
    const items: seq<Item>
    var chains: ChainTable
    var table: TokenTable
    var fields: seq<seq<Field>>
    var vocabulary: seq<Token>
    var pathRanks: Option<RankMap>
    var nameRanks: Option<RankMap>

    ghost predicate Valid()
      reads this
    {
      TablesOk(u, items, chains, table, fields) && Ascending(vocabulary) &&
      forall t :: t in vocabulary <==> t in table
    }

    constructor (u: Alphabet, items: seq<Item>)
      ensures Valid() && RanksOk() && this.u == u && this.items == items
    {
      this.u, this.items := u, items;
      chains, table, fields, vocabulary := map[], map[], [], [];
      pathRanks, nameRanks := None, None;
      new;
      assert forall c :: ChainPositions([], c) == [];
      for p := 0 to |items|
        invariant this.u == u && this.items == items && pathRanks.None? && nameRanks.None?
        invariant TablesOk(u, items[..p], chains, table, fields)
      {
        assert items[..p + 1] == items[..p] + [items[p]];
        chains, table, fields := AddToTables(u, items[..p], p, items[p], chains, table, fields);
      }
      assert items[..|items|] == items;
      vocabulary := Vocabulary(table.Keys);
    }

    // The rank caches are filled when they are first needed, and stay.
    ghost predicate RanksOk()
      reads this
    {
      (pathRanks.Some? ==> PathRanksOk(u, items, pathRanks.value)) &&
      (nameRanks.Some? ==> NameRanksOk(u, items, nameRanks.value))
    }

    method FillRanks(field: SortField)
      requires RanksOk() && DistinctItemIds(items)
      modifies this`pathRanks, this`nameRanks
      ensures RanksOk() && pathRanks.Some? && (field.ByName? ==> nameRanks.Some?)
      ensures (old(pathRanks).Some? ==> pathRanks == old(pathRanks)) && (old(nameRanks).Some? ==> nameRanks == old(nameRanks))
    {
      if pathRanks.None? {
        var ranks := PathRanks(u, items);
        pathRanks := Some(ranks);
      }
      if field.ByName? && nameRanks.None? {
        var ranks := NameRanks(u, items);
        nameRanks := Some(ranks);
      }
    }

    /** The first rows in order: all of them by the full sort, or the first `limit` of them by their rank keys. */
    method SortTop(rows: seq<Row>, o: Ordering, limit: nat) returns (hits: seq<Row>)
      requires RanksOk() && DistinctItemIds(items) && DistinctIds(rows) && forall x :: x in rows ==> x.item in items
      requires o.field.ModifiedAt? && |rows| > limit ==> Spelled(rows)
      modifies this`pathRanks, this`nameRanks
      ensures RanksOk()
      ensures hits == First(SortRows(u, o, rows), limit)
    {
      SortRowsIsOneSort(u, o, rows);
      SortElements(Before(u, o), rows);
      if |rows| <= limit {
        return SortRows(u, o, rows);
      }
      FillRanks(o.field);
      var names := if nameRanks.Some? then nameRanks.value else map[];
      var ranked := SortBy(Fast(pathRanks.value, names, o), rows);
      RankSortIsTheSort(u, items, pathRanks.value, names, o, rows);
      hits := ranked[..limit];
    }

    method Positions(selected: seq<Marker>) returns (positions: Option<seq<nat>>)
      requires Valid()
      ensures positions == Select(items, selected)
      ensures positions.Some? ==> AreChainPositions(positions.value, items, selected)
    {
      ChainPositionsAreExact(items, selected);
      var found := Lookup(chains, selected);
      positions := if Repeats(selected) || (selected != [] && found == []) then None else Some(found);
    }

    // The terms with the words that continue them, the cheapest first.
    method OrderTerms(terms: seq<Token>) returns (order: seq<Token>, found: Found)
      requires Valid()
      ensures multiset(order) == multiset(terms)
      ensures forall k :: 0 <= k < |order| ==> order[k] in found && FoundOk(table, order[k], found[order[k]])
    {
      found := map[];
      for i := 0 to |terms|
        invariant forall k :: 0 <= k < i ==> terms[k] in found
        invariant forall t :: t in found ==> FoundOk(table, t, found[t])
      {
        var tokens := TermTokens(vocabulary, terms[i]);
        found := found[terms[i] := tokens];
      }
      order := SortBy(BySize(table, found), terms);
      SortElements(BySize(table, found), terms);
      SameElements(order, terms);
      forall k | 0 <= k < |order| ensures order[k] in found && FoundOk(table, order[k], found[order[k]]) {
        assert order[k] in terms;
      }
    }

    method NextTerm(scope: Option<Scores>, positions: seq<nat>, ghost done: seq<Token>, tokens: seq<Token>, term: Token)
      returns (later: Scores)
      requires Valid() && Increasing(positions) && InRange(items, positions)
      requires TermScoresOk(u, items, positions, done, scope) && FoundOk(table, term, tokens)
      ensures TermScoresOk(u, items, positions, done + [term], Some(later))
    {
      var matched := MatchTerm(scope, positions, table, tokens, term);
      forall p: nat | p < |items|
        ensures At(matched, p) == (if InScope(scope, positions, p) then TermBest(Fields(u, items[p]), term) else 0)
      {
        FoundTokensContinue(u, items, table, tokens, term, p);
      }
      MatchedInRange(scope, positions, tokens, term, matched);
      later := Added(scope, matched);
      TermAdds(u, items, positions, done, scope, matched, term);
    }

    lemma MatchedInRange(scope: Option<Scores>, positions: seq<nat>, tokens: seq<Token>, term: Token, matched: Scores)
      requires Valid() && forall p :: p in matched ==> matched[p] > 0
      requires forall p: nat :: At(matched, p) == if InScope(scope, positions, p) then TableBest(table, tokens, term, p) else 0
      ensures forall p :: p in matched ==> p < |items|
    {
      forall p: nat | p in matched ensures p < |items| {
        if p >= |items| { NothingOutside(u, items, table, tokens, term, p); }
      }
    }

    method NextPhrase(scope: Option<Scores>, positions: seq<nat>, ghost terms: seq<Token>, ghost done: seq<Stream>, phrase: Stream)
      returns (later: Scores)
      requires Valid() && Increasing(positions) && InRange(items, positions) && phrase != []
      requires PhraseScoresOk(u, items, positions, terms, done, scope)
      ensures PhraseScoresOk(u, items, positions, terms, done + [phrase], Some(later))
    {
      ghost var token;
      var row;
      row, token := SmallestRow(table, phrase);
      forall p | p in row ensures p < |fields| {
        assert PostedWeight(table, token, p) > 0;
      }
      var matched := MatchPhrase(scope, positions, fields, row, phrase);
      forall p: nat | p < |items|
        ensures At(matched, p) == (if InScope(scope, positions, p) then PhraseBest(Fields(u, items[p]), phrase) else 0)
      {
        if PhraseBest(Fields(u, items[p]), phrase) > 0 { PhraseInRow(u, items, table, phrase, token, p); }
      }
      forall p | p in matched ensures p < |items| {
        assert At(matched, p) > 0;
      }
      later := Added(scope, matched);
      PhraseAdds(u, items, positions, terms, done, scope, matched, phrase);
    }

    /** The matching items with their scores, in corpus order: the same list as scoring every item with the chain. */
    method Match(q: Query, selected: seq<Marker>) returns (rows: Option<seq<Row>>)
      requires Valid() && Parsed(q)
      ensures rows == if Select(items, selected).None? then None else Some(MatchRows(u, items, q, selected))
    {
      var selection := Positions(selected);
      if selection.None? {
        return None;
      }
      var found := MatchAt(q, selected, selection.value);
      return Some(found);
    }

    method MatchAt(q: Query, selected: seq<Marker>, positions: seq<nat>) returns (rows: seq<Row>)
      requires Valid() && Parsed(q) && positions == ChainPositions(items, selected)
      requires AreChainPositions(positions, items, selected)
      ensures rows == MatchRows(u, items, q, selected)
    {
      var left, scope := MatchTerms(q, selected, positions);
      if !left {
        return [];
      }
      left, scope := MatchPhrases(q, selected, positions, scope);
      if !left {
        return [];
      }
      match scope
      case None =>
        ChainRows(u, items, selected, q);
        rows := RowsAt(items, positions);
      case Some(scores) =>
        AllDone(u, items, q, selected, positions, scores);
        rows := CollectRows(u, items, q, selected, scores);
    }

    method MatchTerms(q: Query, ghost selected: seq<Marker>, positions: seq<nat>) returns (left: bool, scope: Option<Scores>)
      requires Valid() && AreChainPositions(positions, items, selected)
      ensures left ==> PhraseScoresOk(u, items, positions, q.terms, [], scope)
      ensures left ==> (scope.None? <==> q.terms == [])
      ensures !left ==> MatchRows(u, items, q, selected) == []
    {
      var order, found := OrderTerms(q.terms);
      assert |order| == |multiset(order)| == |q.terms|;
      scope := None;
      for k := 0 to |order|
        invariant TermScoresOk(u, items, positions, order[..k], scope) && (scope.None? <==> k == 0)
      {
        assert order[..k + 1] == order[..k] + [order[k]];
        var later := NextTerm(scope, positions, order[..k], found[order[k]], order[k]);
        scope := Some(later);
        if later == map[] {
          NothingAfterTerms(u, items, q, selected, positions, order, k + 1, scope);
          return false, scope;
        }
      }
      assert order[..|order|] == order;
      TermsDone(u, items, positions, order, q.terms, scope);
      left := true;
    }

    method MatchPhrases(q: Query, ghost selected: seq<Marker>, positions: seq<nat>, terms: Option<Scores>)
      returns (left: bool, scope: Option<Scores>)
      requires Valid() && Parsed(q) && AreChainPositions(positions, items, selected)
      requires PhraseScoresOk(u, items, positions, q.terms, [], terms) && (terms.None? <==> q.terms == [])
      ensures left ==> PhraseScoresOk(u, items, positions, q.terms, q.phrases, scope)
      ensures left ==> (scope.None? <==> q == Query([], []))
      ensures !left ==> MatchRows(u, items, q, selected) == []
    {
      scope := terms;
      for k := 0 to |q.phrases|
        invariant PhraseScoresOk(u, items, positions, q.terms, q.phrases[..k], scope)
        invariant scope.None? <==> q.terms == [] && k == 0
      {
        assert q.phrases[..k + 1] == q.phrases[..k] + [q.phrases[k]];
        var later := NextPhrase(scope, positions, q.terms, q.phrases[..k], q.phrases[k]);
        scope := Some(later);
        if later == map[] {
          NothingAfterPhrases(u, items, q, selected, positions, k + 1, scope);
          return false, scope;
        }
      }
      assert q.phrases[..|q.phrases|] == q.phrases;
      left := true;
    }
  }

  lemma {:induction false} NothingOutside(u: Alphabet, items: seq<Item>, table: TokenTable, tokens: seq<Token>, term: Token, p: nat)
    requires TokensOk(u, items, table) && p >= |items|
    ensures TableBest(table, tokens, term, p) == 0
  {
    if tokens != [] {
      NothingOutside(u, items, table, tokens[..|tokens| - 1], term, p);
      assert PostedWeight(table, tokens[|tokens| - 1], p) == 0;
    }
  }
}
