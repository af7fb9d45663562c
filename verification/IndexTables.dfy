/**
 * The tables of the in-memory index: chains of markers, postings of tokens and a sorted vocabulary, how they are
 * filled, and how one clause of a query walks them.
 */
module IndexTables {
  import opened Wrappers
  import opened Lexicographic
  import opened Utf8
  import opened Alphabets
  import opened Tokens
  import opened SearchItems
  import opened Search
  import opened Sorting
  import opened SearchOrder
  import opened Postings

  type Scores = map<nat, nat>
  type TokenTable = map<Token, Scores>
  type ChainTable = map<seq<Marker>, seq<nat>>

  // --- Filling the tables ---------------------------------------------------------------------

  function PostedWeight(table: TokenTable, t: Token, p: nat): nat {
    if t in table && p in table[t] then table[t][p] else 0
  }

  ghost predicate Positive(table: TokenTable) {
    forall t, p :: t in table && p in table[t] ==> table[t][p] > 0
  }

  function AddToken(table: TokenTable, t: Token, p: nat, weight: nat): TokenTable {
    var row := if t in table then table[t] else map[];
    table[t := row[p := Max(weight, if p in row then row[p] else 0)]]
  }

  // One field of the item at position p.
  method AddStream(table: TokenTable, p: nat, weight: nat, tokens: Stream) returns (later: TokenTable)
    requires Positive(table) && weight > 0
    ensures Positive(later)
    ensures forall t: Token, k: nat :: PostedWeight(later, t, k) ==
              if k == p && t in tokens then Max(PostedWeight(table, t, k), weight) else PostedWeight(table, t, k)
  {
    later := table;
    for i := 0 to |tokens|
      invariant Positive(later)
      invariant forall t: Token, k: nat :: PostedWeight(later, t, k) ==
                  if k == p && t in tokens[..i] then Max(PostedWeight(table, t, k), weight) else PostedWeight(table, t, k)
    {
      later := AddToken(later, tokens[i], p, weight);
    }
  }

  // All fields of the item at position p.
  method AddFields(table: TokenTable, p: nat, fields: seq<Field>) returns (later: TokenTable)
    requires Positive(table) && forall i :: 0 <= i < |fields| ==> fields[i].weight > 0
    ensures Positive(later)
    ensures forall t: Token, k: nat :: PostedWeight(later, t, k) ==
              if k == p then Max(PostedWeight(table, t, k), TokenWeight(fields, t)) else PostedWeight(table, t, k)
  {
    later := table;
    for i := 0 to |fields|
      invariant Positive(later)
      invariant forall t: Token, k: nat :: PostedWeight(later, t, k) ==
                  if k == p then Max(PostedWeight(table, t, k), TokenWeight(fields[..i], t)) else PostedWeight(table, t, k)
    {
      assert fields[..i + 1][..i] == fields[..i];
      later := AddStream(later, p, fields[i].weight, fields[i].tokens);
    }
    assert fields[..|fields|] == fields;
  }

  function Lookup(chains: ChainTable, c: seq<Marker>): seq<nat> {
    if c in chains then chains[c] else []
  }

  // The item at position p has every prefix of its markers as a chain.
  method AddChain(chains: ChainTable, p: nat, markers: seq<Marker>) returns (later: ChainTable)
    ensures forall c :: Lookup(later, c) == if c <= markers then Lookup(chains, c) + [p] else Lookup(chains, c)
  {
    later := chains[[] := Lookup(chains, []) + [p]];
    for d := 0 to |markers|
      invariant forall c :: Lookup(later, c) == if ShortChain(c, markers, d) then Lookup(chains, c) + [p] else Lookup(chains, c)
    {
      var chain := markers[..d + 1];
      forall c ensures ShortChain(c, markers, d + 1) <==> ShortChain(c, markers, d) || c == chain {
        if c <= markers && |c| == d + 1 { assert c == chain; }
      }
      later := later[chain := Lookup(later, chain) + [p]];
    }
  }

  predicate ShortChain(c: seq<Marker>, markers: seq<Marker>, d: nat) {
    c <= markers && |c| <= d
  }

  ghost predicate TokensOk(u: Alphabet, items: seq<Item>, table: TokenTable) {
    Positive(table) &&
    forall t: Token, p: nat :: PostedWeight(table, t, p) == if p < |items| then TokenWeight(Fields(u, items[p]), t) else 0
  }

  ghost predicate ChainsOk(items: seq<Item>, chains: ChainTable) {
    forall c :: Lookup(chains, c) == ChainPositions(items, c)
  }

  lemma FieldsArePositive(u: Alphabet, item: Item)
    ensures forall i :: 0 <= i < |Fields(u, item)| ==> Fields(u, item)[i].weight > 0
  {
    MarkerFieldsArePositive(u, item.markers);
  }

  lemma {:induction false} MarkerFieldsArePositive(u: Alphabet, markers: seq<Marker>)
    ensures forall i :: 0 <= i < |MarkerFields(u, markers)| ==> MarkerFields(u, markers)[i].weight > 0
  {
    if markers != [] { MarkerFieldsArePositive(u, markers[..|markers| - 1]); }
  }

  lemma OneMoreItemTokens(u: Alphabet, items: seq<Item>, item: Item, table: TokenTable, later: TokenTable)
    requires TokensOk(u, items, table) && Positive(later)
    requires forall t: Token, k: nat :: PostedWeight(later, t, k) ==
               if k == |items| then Max(PostedWeight(table, t, k), TokenWeight(Fields(u, item), t)) else PostedWeight(table, t, k)
    ensures TokensOk(u, items + [item], later)
  {
  }

  lemma OneMoreItemChains(items: seq<Item>, item: Item, chains: ChainTable, later: ChainTable)
    requires ChainsOk(items, chains)
    requires forall c :: Lookup(later, c) == if c <= item.markers then Lookup(chains, c) + [|items|] else Lookup(chains, c)
    ensures ChainsOk(items + [item], later)
  {
    assert (items + [item])[..|items|] == items;
  }

  // --- The vocabulary -------------------------------------------------------------------------

  method Listed(tokens: set<Token>) returns (list: seq<Token>)
    ensures Distinct(list) && forall t :: t in list <==> t in tokens
  {
    list := [];
    var rest := tokens;
    while rest != {}
      invariant Distinct(list) && rest <= tokens
      invariant forall t :: t in list <==> t in tokens && t !in rest
      decreases |rest|
    {
      var t :| t in rest;
      rest := rest - {t};
      list := list + [t];
    }
  }

  function TokenOrder(): (Token, Token) -> bool {
    (s: Token, t: Token) => Less(s, t)
  }

  lemma TokensAreOrdered(list: seq<Token>)
    ensures TotalOn(TokenOrder(), list)
  {
    forall x, y | x in list && y in list
      ensures !(Less(x, y) && Less(y, x)) && (x != y ==> Less(x, y) || Less(y, x))
    {
      Total(x, y);
    }
    forall x, y, z | x in list && y in list && z in list && Less(x, y) && Less(y, z) ensures Less(x, z) {
      Transitive(x, y, z);
    }
  }

  method Vocabulary(tokens: set<Token>) returns (vocabulary: seq<Token>)
    ensures Ascending(vocabulary) && forall t :: t in vocabulary <==> t in tokens
  {
    var list := Listed(tokens);
    vocabulary := SortBy(TokenOrder(), list);
    TokensAreOrdered(list);
    SortIsSorted(TokenOrder(), list);
    SortElements(TokenOrder(), list);
    SameElements(vocabulary, list);
    forall i, j | 0 <= i < j < |vocabulary| ensures Less(vocabulary[i], vocabulary[j]) {
      assert TokenOrder()(vocabulary[i], vocabulary[j]);
    }
  }

  // The first word that is not below the term.
  method BisectTokens(vocabulary: seq<Token>, term: Token) returns (start: nat)
    requires Ascending(vocabulary)
    ensures start <= |vocabulary|
    ensures forall i :: 0 <= i < start ==> Less(vocabulary[i], term)
    ensures forall i :: start <= i < |vocabulary| ==> !Less(vocabulary[i], term)
  {
    var low, high := 0, |vocabulary|;
    while low < high
      invariant low <= high <= |vocabulary|
      invariant forall i :: 0 <= i < low ==> Less(vocabulary[i], term)
      invariant forall i :: high <= i < |vocabulary| ==> !Less(vocabulary[i], term)
    {
      var middle := (low + high) / 2;
      if Less(vocabulary[middle], term) {
        forall i | 0 <= i < middle ensures Less(vocabulary[i], term) {
          Transitive(vocabulary[i], vocabulary[middle], term);
        }
        low := middle + 1;
      } else {
        forall i | middle < i < |vocabulary| ensures !Less(vocabulary[i], term) {
          if Less(vocabulary[i], term) { Transitive(vocabulary[middle], vocabulary[i], term); }
        }
        high := middle;
      }
    }
    start := low;
  }

  /** The words that continue a term: the scan starts where the term would stand and stops at the first other word. */
  method TermTokens(vocabulary: seq<Token>, term: Token) returns (tokens: seq<Token>)
    requires Ascending(vocabulary)
    ensures forall k :: 0 <= k < |tokens| ==> Prefix(term, tokens[k]) && tokens[k] in vocabulary
    ensures forall t :: t in vocabulary && Prefix(term, t) ==> t in tokens
  {
    var start := BisectTokens(vocabulary, term);
    var offset := start;
    while offset < |vocabulary| && Prefix(term, vocabulary[offset])
      invariant start <= offset <= |vocabulary|
      invariant forall k :: start <= k < offset ==> Prefix(term, vocabulary[k])
    {
      offset := offset + 1;
    }
    tokens := vocabulary[start..offset];
    forall t | t in vocabulary && Prefix(term, t) ensures t in tokens {
      var k :| 0 <= k < |vocabulary| && vocabulary[k] == t;
      if k < start { SmallerIsNoContinuation(term, t); }
      if k > offset { ContinuationsStandTogether(term, vocabulary[offset], t); }
      assert vocabulary[start..offset][k - start] == t;
    }
  }

  // --- Positions ------------------------------------------------------------------------------

  ghost predicate Increasing(positions: seq<nat>) {
    forall i, j :: 0 <= i < j < |positions| ==> positions[i] < positions[j]
  }

  method Contains(positions: seq<nat>, p: nat) returns (found: bool)
    requires Increasing(positions)
    ensures found <==> p in positions
  {
    var low, high := 0, |positions|;
    while low < high
      invariant low <= high <= |positions|
      invariant forall i :: 0 <= i < low ==> positions[i] < p
      invariant forall i :: high <= i < |positions| ==> positions[i] >= p
    {
      var middle := (low + high) / 2;
      if positions[middle] < p { low := middle + 1; } else { high := middle; }
    }
    found := low < |positions| && positions[low] == p;
  }

  // --- Scores ---------------------------------------------------------------------------------

  // The positions still in the running: those with a score so far, or all those with the chain.
  predicate InScope(scope: Option<Scores>, positions: seq<nat>, p: nat) {
    if scope.Some? then p in scope.value else p in positions
  }

  function ScoreSoFar(scope: Option<Scores>, p: nat): nat {
    if scope.Some? && p in scope.value then scope.value[p] else 0
  }

  function At(scores: Scores, p: nat): nat {
    if p in scores then scores[p] else 0
  }

  // The side that is walked: the smaller of the scores and the postings.
  function Walked(scope: Option<Scores>, row: Scores): set<nat> {
    if scope.Some? && |scope.value| < |row| then scope.value.Keys else row.Keys
  }

  // What one token contributes to a position.
  function Part(scope: Option<Scores>, positions: seq<nat>, row: Scores, multiplier: nat, p: nat): nat {
    if InScope(scope, positions, p) && p in row then row[p] * multiplier else 0
  }

  method MergeToken(matched: Scores, scope: Option<Scores>, positions: seq<nat>, row: Scores, multiplier: nat)
    returns (later: Scores)
    requires Increasing(positions) && multiplier > 0
    requires (forall p :: p in row ==> row[p] > 0) && forall p :: p in matched ==> matched[p] > 0
    ensures forall p :: p in later ==> later[p] > 0
    ensures forall p: nat :: At(later, p) == Max(At(matched, p), Part(scope, positions, row, multiplier, p))
  {
    later := matched;
    var rest := Walked(scope, row);
    while rest != {}
      invariant rest <= Walked(scope, row)
      invariant forall p :: p in later ==> later[p] > 0
      invariant forall p: nat :: At(later, p) ==
                  if p in rest then At(matched, p) else Max(At(matched, p), Part(scope, positions, row, multiplier, p))
      decreases |rest|
    {
      var p :| p in rest;
      rest := rest - {p};
      if p in row {
        var inScope := false;
        if scope.Some? { inScope := p in scope.value; } else { inScope := Contains(positions, p); }
        if inScope {
          PositiveProduct(row[p], multiplier);
          later := later[p := Max(row[p] * multiplier, At(later, p))];
        }
      }
    }
  }

  lemma PositiveProduct(a: nat, b: nat)
    requires a > 0 && b > 0
    ensures a * b > 0
  {
  }

  // Adds a clause's scores to the scores so far.
  function Added(scope: Option<Scores>, matched: Scores): Scores {
    map p | p in matched :: ScoreSoFar(scope, p) + matched[p]
  }

  method MatchTerm(scope: Option<Scores>, positions: seq<nat>, table: TokenTable, tokens: seq<Token>, term: Token)
    returns (matched: Scores)
    requires Increasing(positions) && Positive(table) && forall k :: 0 <= k < |tokens| ==> tokens[k] in table
    ensures forall p :: p in matched ==> matched[p] > 0
    ensures forall p: nat :: At(matched, p) == if InScope(scope, positions, p) then TableBest(table, tokens, term, p) else 0
  {
    matched := map[];
    for k := 0 to |tokens|
      invariant forall p :: p in matched ==> matched[p] > 0
      invariant forall p: nat :: At(matched, p) ==
                  if InScope(scope, positions, p) then TableBest(table, tokens[..k], term, p) else 0
    {
      assert tokens[..k + 1][..k] == tokens[..k];
      matched := MergeToken(matched, scope, positions, table[tokens[k]], Multiplier(tokens[k], term));
    }
    assert tokens[..|tokens|] == tokens;
  }

  // The best over these tokens according to the table.
  function TableBest(table: TokenTable, tokens: seq<Token>, term: Token, p: nat): nat {
    if tokens == [] then 0
    else
      var t := tokens[|tokens| - 1];
      Max(TableBest(table, tokens[..|tokens| - 1], term, p), PostedWeight(table, t, p) * Multiplier(t, term))
  }

  lemma {:induction false} TableBestIsBestOver(table: TokenTable, fields: seq<Field>, tokens: seq<Token>, term: Token, p: nat)
    requires forall t: Token :: PostedWeight(table, t, p) == TokenWeight(fields, t)
    ensures TableBest(table, tokens, term, p) == BestOver(tokens, fields, term)
  {
    if tokens != [] { TableBestIsBestOver(table, fields, tokens[..|tokens| - 1], term, p); }
  }

  // The words found for a term cover all its continuations in every item.
  lemma FoundTokensContinue(u: Alphabet, items: seq<Item>, table: TokenTable, tokens: seq<Token>, term: Token, p: nat)
    requires TokensOk(u, items, table) && p < |items|
    requires forall k :: 0 <= k < |tokens| ==> Prefix(term, tokens[k])
    requires forall t :: t in table && Prefix(term, t) ==> t in tokens
    ensures TableBest(table, tokens, term, p) == TermBest(Fields(u, items[p]), term)
  {
    TableBestIsBestOver(table, Fields(u, items[p]), tokens, term, p);
    forall t: Token | Prefix(term, t) && TokenWeight(Fields(u, items[p]), t) > 0 ensures t in tokens {
      assert PostedWeight(table, t, p) > 0;
    }
    BestOverIsTermBest(tokens, Fields(u, items[p]), term);
  }

  // The scores so far say of a position what the specification says: it is still in the running with this total.
  ghost predicate ScoredAt(scope: Option<Scores>, candidate: bool, total: Option<nat>, p: nat) {
    match scope
    case None => total == Some(0)
    case Some(scores) => (p in scores <==> candidate && total.Some?) && (p in scores ==> total == Some(scores[p]))
  }

  lemma AddAt(scope: Option<Scores>, positions: seq<nat>, total: Option<nat>, matched: Scores, part: nat, p: nat)
    requires ScoredAt(scope, p in positions, total, p) && (p in matched ==> matched[p] > 0)
    requires At(matched, p) == if InScope(scope, positions, p) then part else 0
    ensures ScoredAt(Some(Added(scope, matched)), p in positions, AddScore(total, part), p)
  {
  }

  function TermTotal(u: Alphabet, items: seq<Item>, done: seq<Token>, p: nat): Option<nat> {
    if p < |items| then TermsScore(Fields(u, items[p]), done) else Some(0)
  }

  // The scores after some terms, in whatever order they were taken.
  ghost predicate TermScoresOk(u: Alphabet, items: seq<Item>, positions: seq<nat>, done: seq<Token>, scope: Option<Scores>) {
    forall p: nat :: ScoredAt(scope, p in positions, TermTotal(u, items, done, p), p)
  }

  ghost predicate InRange(items: seq<Item>, positions: seq<nat>) {
    forall i :: 0 <= i < |positions| ==> positions[i] < |items|
  }

  lemma TermAdds(u: Alphabet, items: seq<Item>, positions: seq<nat>, done: seq<Token>, scope: Option<Scores>, matched: Scores,
                 term: Token)
    requires TermScoresOk(u, items, positions, done, scope) && InRange(items, positions)
    requires forall p :: p in matched ==> matched[p] > 0
    requires forall p: nat :: p < |items| ==>
               At(matched, p) == (if InScope(scope, positions, p) then TermBest(Fields(u, items[p]), term) else 0)
    requires forall p :: p in matched ==> p < |items|
    ensures TermScoresOk(u, items, positions, done + [term], Some(Added(scope, matched)))
  {
    forall p: nat
      ensures ScoredAt(Some(Added(scope, matched)), p in positions, TermTotal(u, items, done + [term], p), p)
    {
      if p < |items| {
        TermsScoreAppend(Fields(u, items[p]), done, term);
        AddAt(scope, positions, TermTotal(u, items, done, p), matched, TermBest(Fields(u, items[p]), term), p);
      }
    }
  }

  // --- Phrases --------------------------------------------------------------------------------

  function RowOf(table: TokenTable, t: Token): Scores {
    if t in table then table[t] else map[]
  }

  // The shortest postings among the words of a phrase.
  method SmallestRow(table: TokenTable, phrase: Stream) returns (row: Scores, ghost token: Token)
    requires phrase != []
    ensures token in phrase && row == RowOf(table, token)
    ensures forall i :: 0 <= i < |phrase| ==> |row| <= |RowOf(table, phrase[i])|
  {
    row, token := RowOf(table, phrase[0]), phrase[0];
    for i := 1 to |phrase|
      invariant token in phrase && row == RowOf(table, token)
      invariant forall k :: 0 <= k < i ==> |row| <= |RowOf(table, phrase[k])|
    {
      if |RowOf(table, phrase[i])| < |row| {
        row, token := RowOf(table, phrase[i]), phrase[i];
      }
    }
  }

  function PhrasePartAt(scope: Option<Scores>, positions: seq<nat>, fields: seq<seq<Field>>, row: Scores, phrase: Stream, p: nat): nat {
    if InScope(scope, positions, p) && p in row && p < |fields| then PhraseBest(fields[p], phrase) else 0
  }

  method MatchPhrase(scope: Option<Scores>, positions: seq<nat>, fields: seq<seq<Field>>, row: Scores, phrase: Stream)
    returns (matched: Scores)
    requires Increasing(positions) && forall p :: p in row ==> p < |fields|
    ensures forall p :: p in matched ==> matched[p] > 0
    ensures forall p: nat :: At(matched, p) == PhrasePartAt(scope, positions, fields, row, phrase, p)
  {
    matched := map[];
    var rest := Walked(scope, row);
    while rest != {}
      invariant rest <= Walked(scope, row)
      invariant forall p :: p in matched ==> matched[p] > 0
      invariant forall p: nat :: At(matched, p) ==
                  if p in rest then 0 else PhrasePartAt(scope, positions, fields, row, phrase, p)
      decreases |rest|
    {
      var p :| p in rest;
      rest := rest - {p};
      var inScope := false;
      if scope.Some? { inScope := p in scope.value; } else { inScope := Contains(positions, p); }
      if p in row && inScope {
        var best := BestPhrase(fields[p], phrase);
        if best > 0 {
          matched := matched[p := best];
        }
      }
    }
  }

  // A phrase of a field is in the postings of each of its words.
  lemma PhraseInRow(u: Alphabet, items: seq<Item>, table: TokenTable, phrase: Stream, token: Token, p: nat)
    requires TokensOk(u, items, table) && token in phrase && p < |items| && PhraseBest(Fields(u, items[p]), phrase) > 0
    ensures p in RowOf(table, token)
  {
    PhraseHasTokens(Fields(u, items[p]), phrase, token);
    assert PostedWeight(table, token, p) > 0;
  }

  function PhraseTotal(u: Alphabet, items: seq<Item>, terms: seq<Token>, done: seq<Stream>, p: nat): Option<nat> {
    if p < |items|
    then PhrasesScore(Fields(u, items[p]), Tokenize(u, items[p].path), TermsScore(Fields(u, items[p]), terms), done)
    else Some(0)
  }

  ghost predicate PhraseScoresOk(u: Alphabet, items: seq<Item>, positions: seq<nat>, terms: seq<Token>, done: seq<Stream>,
                                 scope: Option<Scores>)
  {
    forall p: nat :: ScoredAt(scope, p in positions, PhraseTotal(u, items, terms, done, p), p)
  }

  lemma PhraseAdds(u: Alphabet, items: seq<Item>, positions: seq<nat>, terms: seq<Token>, done: seq<Stream>,
                   scope: Option<Scores>, matched: Scores, phrase: Stream)
    requires PhraseScoresOk(u, items, positions, terms, done, scope) && InRange(items, positions) && phrase != []
    requires forall p :: p in matched ==> matched[p] > 0 && p < |items|
    requires forall p: nat :: p < |items| ==>
               At(matched, p) == (if InScope(scope, positions, p) then PhraseBest(Fields(u, items[p]), phrase) else 0)
    ensures PhraseScoresOk(u, items, positions, terms, done + [phrase], Some(Added(scope, matched)))
  {
    forall p: nat
      ensures ScoredAt(Some(Added(scope, matched)), p in positions, PhraseTotal(u, items, terms, done + [phrase], p), p)
    {
      if p < |items| {
        var fields, path := Fields(u, items[p]), Tokenize(u, items[p].path);
        PhrasesScoreAppend(fields, path, TermsScore(fields, terms), done, phrase);
        PathPhraseHasField(u, items[p], phrase);
        AddAt(scope, positions, PhraseTotal(u, items, terms, done, p), matched, PhraseBest(fields, phrase), p);
      }
    }
  }
}
