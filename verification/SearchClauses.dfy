/**
 * A query as a list of clauses over encoded columns, and how the specification's score is the sum of the
 * clauses' scores.
 */
module SearchClauses {
  import opened Wrappers
  import opened Lexicographic
  import opened Utf8
  import opened Alphabets
  import opened Tokens
  import opened SearchItems
  import opened Search
  import opened SearchColumns

  datatype Clause = TermClause(term: Token) | PhraseClause(phrase: Stream)

  function TermClauses(terms: seq<Token>): seq<Clause> {
    seq(|terms|, i requires 0 <= i < |terms| => TermClause(terms[i]))
  }

  function PhraseClauses(phrases: seq<Stream>): seq<Clause> {
    seq(|phrases|, i requires 0 <= i < |phrases| => PhraseClause(phrases[i]))
  }

  function Clauses(q: Query): seq<Clause> {
    TermClauses(q.terms) + PhraseClauses(q.phrases)
  }

  // The score of a clause for one document, or 0.
  function ClauseScore(columns: seq<Column>, c: Clause): nat {
    match c
    case TermClause(term) => ColumnsTerm(columns, EncodeToken(term))
    case PhraseClause(phrase) => ColumnsPhrase(columns, EncodeStream(phrase))
  }

  function ClauseTotal(columns: seq<Column>, clauses: seq<Clause>): Option<nat> {
    if clauses == [] then Some(0)
    else AddScore(ClauseTotal(columns, clauses[..|clauses| - 1]), ClauseScore(columns, clauses[|clauses| - 1]))
  }

  lemma TotalAppend(columns: seq<Column>, clauses: seq<Clause>, c: Clause)
    ensures ClauseTotal(columns, clauses + [c]) == AddScore(ClauseTotal(columns, clauses), ClauseScore(columns, c))
  {
    assert (clauses + [c])[..|clauses|] == clauses;
  }

  // The columns score every term and phrase as the fields do.
  ghost predicate SameBest(columns: seq<Column>, fields: seq<Field>) {
    (forall term: Token :: ColumnsTerm(columns, EncodeToken(term)) == TermBest(fields, term)) &&
    (forall phrase: Stream :: phrase != [] ==> ColumnsPhrase(columns, EncodeStream(phrase)) == PhraseBest(fields, phrase))
  }

  lemma {:induction false} TermsAreTotal(columns: seq<Column>, fields: seq<Field>, terms: seq<Token>)
    requires SameBest(columns, fields)
    ensures TermsScore(fields, terms) == ClauseTotal(columns, TermClauses(terms))
  {
    if terms != [] {
      var n := |terms| - 1;
      TermsAreTotal(columns, fields, terms[..n]);
      assert TermClauses(terms) == TermClauses(terms[..n]) + [TermClause(terms[n])];
      TotalAppend(columns, TermClauses(terms[..n]), TermClause(terms[n]));
    }
  }

  lemma {:induction false} PhrasesAreTotal(columns: seq<Column>, fields: seq<Field>, path: Stream, before: seq<Clause>,
                                           phrases: seq<Stream>)
    requires SameBest(columns, fields)
    requires forall i :: 0 <= i < |phrases| ==>
               phrases[i] != [] && PhrasePart(fields, path, phrases[i]) == PhraseBest(fields, phrases[i])
    ensures PhrasesScore(fields, path, ClauseTotal(columns, before), phrases) == ClauseTotal(columns, before + PhraseClauses(phrases))
  {
    if phrases == [] {
      assert before + PhraseClauses(phrases) == before;
    } else {
      var n := |phrases| - 1;
      PhrasesAreTotal(columns, fields, path, before, phrases[..n]);
      LastPhrase(before, phrases);
      TotalAppend(columns, before + PhraseClauses(phrases[..n]), PhraseClause(phrases[n]));
    }
  }

  lemma LastPhrase(before: seq<Clause>, phrases: seq<Stream>)
    requires phrases != []
    ensures before + PhraseClauses(phrases) ==
            before + PhraseClauses(phrases[..|phrases| - 1]) + [PhraseClause(phrases[|phrases| - 1])]
  {
  }

  lemma ColumnsAgree(u: Alphabet, item: Item)
    ensures SameBest(Columns(u, item), Fields(u, item))
  {
    forall term: Token ensures ColumnsTerm(Columns(u, item), EncodeToken(term)) == TermBest(Fields(u, item), term) {
      ColumnsTermIsBest(u, item, term);
    }
    forall phrase: Stream | phrase != []
      ensures ColumnsPhrase(Columns(u, item), EncodeStream(phrase)) == PhraseBest(Fields(u, item), phrase)
    {
      ColumnsPhraseIsBest(u, item, phrase);
    }
  }

  /** The specification's score is the sum of the clause scores over the encoded columns, if every clause matches. */
  lemma ScoreIsTotal(u: Alphabet, item: Item, q: Query)
    requires Parsed(q)
    ensures Score(u, item, q) == ClauseTotal(Columns(u, item), Clauses(q))
  {
    var columns, fields := Columns(u, item), Fields(u, item);
    ColumnsAgree(u, item);
    TermsAreTotal(columns, fields, q.terms);
    forall i | 0 <= i < |q.phrases|
      ensures PhrasePart(fields, Tokenize(u, item.path), q.phrases[i]) == PhraseBest(fields, q.phrases[i])
    {
      PathPhraseHasField(u, item, q.phrases[i]);
    }
    PhrasesAreTotal(columns, fields, Tokenize(u, item.path), TermClauses(q.terms), q.phrases);
  }

  // --- What the engines compute per document --------------------------------------------------

  function MaxOf(scores: seq<nat>): nat {
    if scores == [] then 0 else Max(MaxOf(scores[..|scores| - 1]), scores[|scores| - 1])
  }

  lemma {:induction false} MaxOfAppend(a: seq<nat>, b: seq<nat>)
    ensures MaxOf(a + b) == Max(MaxOf(a), MaxOf(b))
  {
    if b == [] {
      assert a + b == a;
    } else {
      MaxOfAppend(a, b[..|b| - 1]);
      assert (a + b)[..|a + b| - 1] == a + b[..|b| - 1];
    }
  }

  // The SQL statements that return a row for this column: exact matches, and prefixes that are not exact.
  function SqlScores(c: Column, clause: Clause): seq<nat> {
    match clause
    case TermClause(term) =>
      var word := EncodeToken(term);
      (if HasWord(c.words, word) then [2 * c.weight] else []) +
      (if HasPrefix(c.words, word) && !HasWord(c.words, word) then [c.weight] else [])
    case PhraseClause(phrase) =>
      if HasPhrase(c.words, EncodeStream(phrase)) then [2 * |phrase| * c.weight] else []
  }

  // The engine's alternatives for this column: the prefix query also matches exact words.
  function EngineScores(c: Column, clause: Clause): seq<nat> {
    match clause
    case TermClause(term) =>
      var word := EncodeToken(term);
      (if HasWord(c.words, word) then [2 * c.weight] else []) +
      (if HasPrefix(c.words, word) then [c.weight] else [])
    case PhraseClause(phrase) =>
      if HasPhrase(c.words, EncodeStream(phrase)) then [2 * |phrase| * c.weight] else []
  }

  function AllSqlScores(columns: seq<Column>, clause: Clause): seq<nat> {
    if columns == [] then []
    else AllSqlScores(columns[..|columns| - 1], clause) + SqlScores(columns[|columns| - 1], clause)
  }

  function AllEngineScores(columns: seq<Column>, clause: Clause): seq<nat> {
    if columns == [] then []
    else AllEngineScores(columns[..|columns| - 1], clause) + EngineScores(columns[|columns| - 1], clause)
  }

  predicate Usable(clause: Clause) {
    clause.PhraseClause? ==> clause.phrase != []
  }

  lemma OneColumn(c: Column, clause: Clause)
    ensures ClauseScore([c], clause) ==
            match clause
            case TermClause(term) => TermScore(c.weight, c.words, EncodeToken(term))
            case PhraseClause(phrase) => PhraseWordScore(c.weight, c.words, EncodeStream(phrase))
  {
    assert [c][..0] == [];
    match clause
    case TermClause(term) => assert ColumnsTerm([], EncodeToken(term)) == 0;
    case PhraseClause(phrase) => assert ColumnsPhrase([], EncodeStream(phrase)) == 0;
  }

  lemma WordIsPrefix(words: seq<Word>, word: Word)
    requires HasWord(words, word)
    ensures HasPrefix(words, word)
  {
    var k :| 0 <= k < |words| && words[k] == word;
    assert Prefix(word, words[k]);
  }

  lemma OneColumnMax(c: Column, clause: Clause)
    requires c.weight > 0 && Usable(clause)
    ensures MaxOf(SqlScores(c, clause)) == MaxOf(EngineScores(c, clause)) == ClauseScore([c], clause)
    ensures SqlScores(c, clause) != [] <==> ClauseScore([c], clause) > 0
    ensures EngineScores(c, clause) != [] <==> ClauseScore([c], clause) > 0
  {
    OneColumn(c, clause);
    match clause
    case TermClause(term) =>
      MaxOfOne(c.weight);
      MaxOfOne(2 * c.weight);
      MaxOfAppend([2 * c.weight], [c.weight]);
      if HasWord(c.words, EncodeToken(term)) { WordIsPrefix(c.words, EncodeToken(term)); }
    case PhraseClause(phrase) =>
      MaxOfOne(2 * |phrase| * c.weight);
      assert 2 * |phrase| * c.weight > 0;
  }

  lemma MaxOfOne(n: nat)
    ensures MaxOf([n]) == n
  {
    assert [n][..0] == [];
  }

  lemma ClauseScoreSplit(columns: seq<Column>, clause: Clause)
    requires columns != []
    ensures ClauseScore(columns, clause) ==
            Max(ClauseScore(columns[..|columns| - 1], clause), ClauseScore([columns[|columns| - 1]], clause))
  {
    OneColumn(columns[|columns| - 1], clause);
  }

  /** Taking the maximum over the SQL statements, or over the engine's alternatives, gives the clause score; a document
      is returned at all exactly if that score is positive. */
  lemma {:induction false} EnginesScoreClauses(columns: seq<Column>, clause: Clause)
    requires Usable(clause) && forall i :: 0 <= i < |columns| ==> columns[i].weight > 0
    ensures MaxOf(AllSqlScores(columns, clause)) == MaxOf(AllEngineScores(columns, clause)) == ClauseScore(columns, clause)
    ensures AllSqlScores(columns, clause) != [] <==> ClauseScore(columns, clause) > 0
    ensures AllEngineScores(columns, clause) != [] <==> ClauseScore(columns, clause) > 0
  {
    if columns != [] {
      var init, c := columns[..|columns| - 1], columns[|columns| - 1];
      EnginesScoreClauses(init, clause);
      OneColumnMax(c, clause);
      ClauseScoreSplit(columns, clause);
      MaxOfAppend(AllSqlScores(init, clause), SqlScores(c, clause));
      MaxOfAppend(AllEngineScores(init, clause), EngineScores(c, clause));
    }
  }

  lemma PositiveWeights(u: Alphabet, item: Item)
    ensures forall i :: 0 <= i < |Columns(u, item)| ==> Columns(u, item)[i].weight > 0
  {
  }
}
