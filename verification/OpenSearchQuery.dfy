/**
 * Search over the engine: membership is decided on the path alone, and relevance is answered by the cheapest of
 * three queries that fills the result: exact filename matches, matches at the best level of every clause, or
 * the full scorer. Whatever query answers, the result is the one of the specification.
 */
module OpenSearchQuery {
  import opened Wrappers
  import opened Lexicographic
  import opened Utf8
  import opened Alphabets
  import opened Tokens
  import opened SearchItems
  import opened Search
  import opened SearchColumns
  import opened SearchClauses
  import opened Sorting
  import opened SearchOrder

  const MaxScoreProbeThreshold := 10_000
  const MaxProbedClauses := 8
  const MaxDepth := 64

  function Keep(rows: seq<Row>, f: Row -> bool): seq<Row> {
    if rows == [] then []
    else Keep(rows[..|rows| - 1], f) + if f(rows[|rows| - 1]) then [rows[|rows| - 1]] else []
  }

  // --- Membership by path alone ---------------------------------------------------------------

  lemma SliceOfSlice<T>(s: seq<T>, n: nat, m: nat, k: nat, l: nat)
    requires n + m <= |s| && k + l <= m
    ensures s[n..n + m][k..k + l] == s[n + k..n + k + l]
  {
    var x, y := s[n..n + m][k..k + l], s[n + k..n + k + l];
    forall i | 0 <= i < l ensures x[i] == y[i] {
      assert x[i] == s[n..n + m][k + i];
    }
  }

  lemma WithinTransitive(a: Stream, b: Stream, c: Stream)
    requires Within(a, b) && Within(b, c)
    ensures Within(a, c)
  {
    var k: nat :| k <= |b| && StandsAt(a, b, k);
    var n: nat :| n <= |c| && StandsAt(b, c, n);
    SliceOfSlice(c, n, |b|, k, |a|);
    assert StandsAt(a, c, n + k);
  }

  lemma WithinHas(a: Stream, b: Stream, token: Token)
    requires Within(a, b) && token in a
    ensures token in b
  {
    var k: nat :| k <= |b| && StandsAt(a, b, k);
    var i :| 0 <= i < |a| && a[i] == token;
    assert b[k..k + |a|][i] == b[k + i];
  }

  // Every field's tokens stand in the path's.
  ghost predicate Covered(fields: seq<Field>, path: Stream) {
    forall i :: 0 <= i < |fields| ==> fields[i].weight > 0 && Within(fields[i].tokens, path)
  }

  // And the path is a field itself if it has tokens.
  ghost predicate PathCovers(fields: seq<Field>, path: Stream) {
    Covered(fields, path) && (path != [] ==> Field(1, path) in fields)
  }

  lemma WithinItself(a: Stream)
    ensures Within(a, a)
  {
    assert a[0..|a|] == a;
    assert StandsAt(a, a, 0);
  }

  lemma WithFieldCovered(fields: seq<Field>, weight: nat, tokens: Stream, path: Stream)
    requires Covered(fields, path) && weight > 0 && Within(tokens, path)
    ensures Covered(WithField(fields, weight, tokens), path)
  {
  }

  lemma {:induction false} MarkerFieldsCovered(u: Alphabet, markers: seq<Marker>, path: Stream)
    requires forall i :: 0 <= i < |markers| && markers[i].Value? ==> Within(Tokenize(u, markers[i].value), path)
    ensures Covered(MarkerFields(u, markers), path)
  {
    if markers != [] {
      var init, m := markers[..|markers| - 1], markers[|markers| - 1];
      MarkerFieldsCovered(u, init, path);
      if m.Value? { WithFieldCovered(MarkerFields(u, init), Weight(m.level), Tokenize(u, m.value), path); }
    }
  }

  lemma ConcatCovered(a: seq<Field>, b: seq<Field>, path: Stream)
    requires Covered(a, path) && Covered(b, path)
    ensures Covered(a + b, path)
  {
  }

  lemma PathFieldLast(head: seq<Field>, path: Stream)
    requires Covered(head, path)
    ensures PathCovers(WithField(head, 1, path), path)
  {
    WithinItself(path);
    WithFieldCovered(head, 1, path, path);
    if path != [] { assert WithField(head, 1, path)[|head|] == Field(1, path); }
  }

  lemma ItemIsCovered(u: Alphabet, schema: Schema, item: Item)
    requires Sound(u) && Built(u, schema, item)
    ensures PathCovers(Fields(u, item), Tokenize(u, item.path))
  {
    var path, name := Tokenize(u, item.path), Tokenize(u, item.filename);
    FieldsStandInPath(u, schema, item);
    MarkerFieldsCovered(u, item.markers, path);
    WithFieldCovered([], 5, name, path);
    ConcatCovered(WithField([], 5, name), MarkerFields(u, item.markers), path);
    PathFieldLast(WithField([], 5, name) + MarkerFields(u, item.markers), path);
  }

  lemma TermMatchesByPath(fields: seq<Field>, path: Stream, term: Token)
    requires PathCovers(fields, path)
    ensures TermBest(fields, term) > 0 <==> HasPrefix(EncodeStream(path), EncodeToken(term))
  {
    TermBestIsMax(fields, term);
    if TermBest(fields, term) > 0 {
      var i :| 0 <= i < |fields| && TokensBest(fields[i].weight, fields[i].tokens, term) == TermBest(fields, term);
      TokensBestIsMax(fields[i].weight, fields[i].tokens, term);
      var k :| 0 <= k < |fields[i].tokens| && HitScore(fields[i].weight, fields[i].tokens[k], term) > 0;
      WithinHas(fields[i].tokens, path, fields[i].tokens[k]);
      var n :| 0 <= n < |path| && path[n] == fields[i].tokens[k];
      EncodedTokens(term, path[n]);
      assert Prefix(EncodeToken(term), EncodeStream(path)[n]);
    }
    if HasPrefix(EncodeStream(path), EncodeToken(term)) {
      var n :| 0 <= n < |path| && Prefix(EncodeToken(term), EncodeStream(path)[n]);
      EncodedTokens(term, path[n]);
      TokensBestIsMax(1, path, term);
      var i :| 0 <= i < |fields| && fields[i] == Field(1, path);
      assert HitScore(1, path[n], term) > 0;
    }
  }

  lemma PhraseMatchesByPath(fields: seq<Field>, path: Stream, phrase: Stream)
    requires PathCovers(fields, path) && phrase != []
    ensures PhraseBest(fields, phrase) > 0 <==> HasPhrase(EncodeStream(path), EncodeStream(phrase))
  {
    StreamPhrase(phrase, path);
    PhraseBestIsMax(fields, phrase);
    if PhraseBest(fields, phrase) > 0 {
      var i :| 0 <= i < |fields| && PhraseScore(fields[i].weight, fields[i].tokens, phrase) > 0;
      WithinTransitive(phrase, fields[i].tokens, path);
    }
    if Within(phrase, path) {
      var k: nat :| k <= |path| && StandsAt(phrase, path, k);
      assert path != [];
      var i :| 0 <= i < |fields| && fields[i] == Field(1, path);
      assert PhraseScore(1, path, phrase) > 0;
    }
  }

  // The filter on one column: every term, exactly or as a prefix, and every phrase.
  predicate ColumnFilter(words: seq<Word>, clauses: seq<Clause>, exact: bool) {
    forall i :: 0 <= i < |clauses| ==> ClauseFilter(words, clauses[i], exact)
  }

  predicate ClauseFilter(words: seq<Word>, clause: Clause, exact: bool) {
    match clause
    case TermClause(term) =>
      if exact then HasWord(words, EncodeToken(term)) else HasPrefix(words, EncodeToken(term))
    case PhraseClause(phrase) => HasPhrase(words, EncodeStream(phrase))
  }

  predicate HasMarkers(item: Item, selected: seq<Marker>) {
    forall i :: 0 <= i < |selected| ==> selected[i] in item.markers
  }

  predicate Candidate(u: Alphabet, item: Item, q: Query, selected: seq<Marker>) {
    HasMarkers(item, selected) && ColumnFilter(EncodeStream(Tokenize(u, item.path)), Clauses(q), false)
  }

  predicate ExactName(u: Alphabet, item: Item, q: Query) {
    ColumnFilter(EncodeStream(Tokenize(u, item.filename)), Clauses(q), true)
  }

  lemma ClauseMatchesByPath(u: Alphabet, schema: Schema, item: Item, clause: Clause)
    requires Sound(u) && Built(u, schema, item) && Usable(clause)
    ensures ClauseScore(Columns(u, item), clause) > 0 <==>
              ClauseFilter(EncodeStream(Tokenize(u, item.path)), clause, false)
  {
    ItemIsCovered(u, schema, item);
    match clause
    case TermClause(term) =>
      ColumnsTermIsBest(u, item, term);
      TermMatchesByPath(Fields(u, item), Tokenize(u, item.path), term);
    case PhraseClause(phrase) =>
      ColumnsPhraseIsBest(u, item, phrase);
      PhraseMatchesByPath(Fields(u, item), Tokenize(u, item.path), phrase);
  }

  lemma {:induction false} TotalIfAll(columns: seq<Column>, clauses: seq<Clause>)
    ensures ClauseTotal(columns, clauses).Some? <==> forall i :: 0 <= i < |clauses| ==> ClauseScore(columns, clauses[i]) > 0
  {
    if clauses != [] {
      var n := |clauses| - 1;
      TotalIfAll(columns, clauses[..n]);
      if forall i :: 0 <= i < |clauses| ==> ClauseScore(columns, clauses[i]) > 0 {
        assert forall i :: 0 <= i < n ==> clauses[..n][i] == clauses[i];
      }
      if ClauseTotal(columns, clauses).Some? {
        forall i | 0 <= i < |clauses| ensures ClauseScore(columns, clauses[i]) > 0 {
          if i < n { assert clauses[..n][i] == clauses[i]; }
        }
      }
    }
  }

  lemma ClausesAreUsable(q: Query)
    requires Parsed(q)
    ensures forall i :: 0 <= i < |Clauses(q)| ==> Usable(Clauses(q)[i])
  {
  }

  lemma FilterIsTotal(columns: seq<Column>, words: seq<Word>, clauses: seq<Clause>)
    requires forall i :: 0 <= i < |clauses| ==>
               (ClauseScore(columns, clauses[i]) > 0 <==> ClauseFilter(words, clauses[i], false))
    ensures ClauseTotal(columns, clauses).Some? <==> ColumnFilter(words, clauses, false)
  {
    TotalIfAll(columns, clauses);
  }

  /** The text of a query matches an item exactly if every clause matches its path. */
  lemma MembershipByPath(u: Alphabet, schema: Schema, item: Item, q: Query)
    requires Sound(u) && Built(u, schema, item) && Parsed(q)
    ensures Score(u, item, q).Some? <==> ColumnFilter(EncodeStream(Tokenize(u, item.path)), Clauses(q), false)
  {
    var clauses, words := Clauses(q), EncodeStream(Tokenize(u, item.path));
    ScoreIsTotal(u, item, q);
    ClausesAreUsable(q);
    forall i | 0 <= i < |clauses|
      ensures ClauseScore(Columns(u, item), clauses[i]) > 0 <==> ClauseFilter(words, clauses[i], false)
    {
      ClauseMatchesByPath(u, schema, item, clauses[i]);
    }
    FilterIsTotal(Columns(u, item), words, clauses);
  }

  // --- Chains by membership -------------------------------------------------------------------

  lemma MarkerKnowsItsDepth(u: Alphabet, schema: Schema, item: Item, i: nat)
    requires Built(u, schema, item) && i < |item.markers|
    ensures |item.markers[i].parents| == i
  {
    BuiltParts(u, schema, item);
    var parts := Components(item.path);
    var dirs := parts[..|parts| - 1];
    assert dirs[..0] == [];
    MarkersFollowDirectories(u, schema, dirs, 0);
    assert Follows(item.markers[i], dirs, i);
  }

  lemma MemberStandsAtDepth(u: Alphabet, schema: Schema, item: Item, other: Item, i: nat)
    requires Built(u, schema, item) && Built(u, schema, other) && i < |other.markers| && other.markers[i] in item.markers
    ensures MarkerAt(item, i, other.markers[i])
  {
    var j :| 0 <= j < |item.markers| && item.markers[j] == other.markers[i];
    MarkerKnowsItsDepth(u, schema, item, j);
    MarkerKnowsItsDepth(u, schema, other, i);
  }

  /** An item that has every marker of some item's chain has them as its own chain: a marker id is derived from the
      directories above it. */
  lemma MembersAreChain(u: Alphabet, schema: Schema, item: Item, other: Item, selected: seq<Marker>)
    requires Built(u, schema, item) && Built(u, schema, other) && HasChain(other, selected)
    ensures HasMarkers(item, selected) <==> HasChain(item, selected)
  {
    DepthsAreChain(item, selected);
    DepthsAreChain(other, selected);
    forall i | 0 <= i < |selected| ensures selected[i] in item.markers <==> MarkerAt(item, i, selected[i]) {
      assert MarkerAt(other, i, selected[i]);
      if selected[i] in item.markers { MemberStandsAtDepth(u, schema, item, other, i); }
    }
  }
}
