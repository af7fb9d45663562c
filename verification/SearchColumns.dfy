/**
 * The encoded columns that both stored indexes share: every token becomes one ASCII word, and the fields of
 * equal weight share a column, kept apart by a sentinel.
 */
module SearchColumns {
  import opened Lexicographic
  import opened Utf8
  import opened Alphabets
  import opened Tokens
  import opened SearchItems
  import opened Search

  type Word = seq<int>
  datatype Column = Column(weight: nat, words: seq<Word>)

  const Sentinel: Word := [0x73]

  function HexDigit(d: int): int {
    if d < 10 then 0x30 + d else 0x57 + d
  }

  function Hex(bytes: seq<Byte>): Word {
    if bytes == [] then [] else [HexDigit(bytes[0] / 16), HexDigit(bytes[0] % 16)] + Hex(bytes[1..])
  }

  function EncodeToken(token: Token): Word {
    [0x78] + Hex(Encode(token))
  }

  function EncodeStream(tokens: Stream): seq<Word> {
    seq(|tokens|, i requires 0 <= i < |tokens| => EncodeToken(tokens[i]))
  }

  // The words of the markers of one weight.
  function Bucket(u: Alphabet, markers: seq<Marker>, weight: nat): seq<Word> {
    if markers == [] then []
    else
      var m := markers[|markers| - 1];
      var words := Bucket(u, markers[..|markers| - 1], weight);
      if m.Value? && Weight(m.level) == weight && Tokenize(u, m.value) != []
      then AddField(words, EncodeStream(Tokenize(u, m.value))) else words
  }

  function AddField(words: seq<Word>, field: seq<Word>): seq<Word> {
    if words == [] then field else words + [Sentinel] + field
  }

  function Columns(u: Alphabet, item: Item): seq<Column> {
    [Column(5, EncodeStream(Tokenize(u, item.filename))), Column(4, Bucket(u, item.markers, 4)),
     Column(3, Bucket(u, item.markers, 3)), Column(1, Bucket(u, item.markers, 1)),
     Column(1, EncodeStream(Tokenize(u, item.path)))]
  }

  // --- The encoding ---------------------------------------------------------------------------

  lemma {:induction false} HexKeepsPrefixes(a: seq<Byte>, b: seq<Byte>)
    ensures Prefix(Hex(a), Hex(b)) <==> Prefix(a, b)
    ensures Hex(a) == Hex(b) <==> a == b
  {
    if a != [] && b != [] {
      HexKeepsPrefixes(a[1..], b[1..]);
      var x, y := [HexDigit(a[0] / 16), HexDigit(a[0] % 16)], [HexDigit(b[0] / 16), HexDigit(b[0] % 16)];
      assert a == [a[0]] + a[1..] && b == [b[0]] + b[1..];
      if a[0] == b[0] {
        PrefixCancels(x, Hex(a[1..]), Hex(b[1..]));
        PrefixCancels([a[0]], a[1..], b[1..]);
      } else {
        assert x[0] != y[0] || x[1] != y[1];
        assert Hex(a)[0] == x[0] && Hex(a)[1] == x[1] && Hex(b)[0] == y[0] && Hex(b)[1] == y[1];
      }
    }
  }

  /** Words are equal, or one a prefix of the other, exactly when the tokens are. */
  lemma EncodedTokens(s: Token, t: Token)
    ensures Prefix(EncodeToken(s), EncodeToken(t)) <==> Prefix(s, t)
    ensures EncodeToken(s) == EncodeToken(t) <==> s == t
    ensures !Prefix(EncodeToken(s), Sentinel) && EncodeToken(s) != Sentinel
  {
    EncodingKeepsOrder(s, t);
    HexKeepsPrefixes(Encode(s), Encode(t));
    PrefixCancels([0x78], Hex(Encode(s)), Hex(Encode(t)));
    assert EncodeToken(s)[0] == 0x78;
  }

  // --- Term matches in a column ---------------------------------------------------------------

  predicate HasWord(words: seq<Word>, word: Word) {
    word in words
  }

  predicate HasPrefix(words: seq<Word>, word: Word) {
    exists k :: 0 <= k < |words| && Prefix(word, words[k])
  }

  // An exact match counts double; a prefix match counts only when there is no exact one.
  function TermScore(weight: nat, words: seq<Word>, word: Word): nat {
    if HasWord(words, word) then 2 * weight else if HasPrefix(words, word) then weight else 0
  }

  lemma TermScoreAppend(weight: nat, a: seq<Word>, b: seq<Word>, word: Word)
    ensures TermScore(weight, a + b, word) == Max(TermScore(weight, a, word), TermScore(weight, b, word))
  {
    if HasPrefix(a, word) {
      var k :| 0 <= k < |a| && Prefix(word, a[k]);
      assert (a + b)[k] == a[k];
    }
    if HasPrefix(b, word) {
      var k :| 0 <= k < |b| && Prefix(word, b[k]);
      assert (a + b)[|a| + k] == b[k];
    }
    if HasPrefix(a + b, word) {
      var k :| 0 <= k < |a + b| && Prefix(word, (a + b)[k]);
      assert if k < |a| then (a + b)[k] == a[k] else (a + b)[k] == b[k - |a|];
    }
  }

  lemma {:induction false} StreamTermScore(weight: nat, tokens: Stream, term: Token)
    ensures TermScore(weight, EncodeStream(tokens), EncodeToken(term)) == TokensBest(weight, tokens, term)
  {
    if tokens != [] {
      var n := |tokens| - 1;
      StreamTermScore(weight, tokens[..n], term);
      assert EncodeStream(tokens) == EncodeStream(tokens[..n]) + [EncodeToken(tokens[n])];
      TermScoreAppend(weight, EncodeStream(tokens[..n]), [EncodeToken(tokens[n])], EncodeToken(term));
      OneWordScore(weight, tokens[n], term);
    }
  }

  lemma OneWordScore(weight: nat, token: Token, term: Token)
    ensures TermScore(weight, [EncodeToken(token)], EncodeToken(term)) == HitScore(weight, token, term)
  {
    EncodedTokens(term, token);
    if Prefix(term, token) { assert Prefix(EncodeToken(term), [EncodeToken(token)][0]); }
  }

  lemma AddFieldTermScore(weight: nat, words: seq<Word>, tokens: Stream, term: Token)
    ensures TermScore(weight, AddField(words, EncodeStream(tokens)), EncodeToken(term)) ==
            Max(TermScore(weight, words, EncodeToken(term)), TokensBest(weight, tokens, term))
  {
    StreamTermScore(weight, tokens, term);
    EncodedTokens(term, term);
    assert TermScore(weight, [Sentinel], EncodeToken(term)) == 0;
    TermScoreAppend(weight, words + [Sentinel], EncodeStream(tokens), EncodeToken(term));
    TermScoreAppend(weight, words, [Sentinel], EncodeToken(term));
  }

  function BucketsTerm(u: Alphabet, markers: seq<Marker>, word: Word): nat {
    Max(TermScore(4, Bucket(u, markers, 4), word),
        Max(TermScore(3, Bucket(u, markers, 3), word), TermScore(1, Bucket(u, markers, 1), word)))
  }

  lemma BucketsTermStep(u: Alphabet, init: seq<Marker>, m: Marker, term: Token)
    requires m.Value?
    ensures BucketsTerm(u, init + [m], EncodeToken(term)) ==
            Max(BucketsTerm(u, init, EncodeToken(term)), TokensBest(Weight(m.level), Tokenize(u, m.value), term))
  {
    assert (init + [m])[..|init|] == init;
    AddFieldTermScore(Weight(m.level), Bucket(u, init, Weight(m.level)), Tokenize(u, m.value), term);
  }

  lemma {:induction false} BucketsTermBest(u: Alphabet, markers: seq<Marker>, term: Token)
    ensures BucketsTerm(u, markers, EncodeToken(term)) == TermBest(MarkerFields(u, markers), term)
  {
    if markers != [] {
      var init, m := markers[..|markers| - 1], markers[|markers| - 1];
      assert markers == init + [m];
      BucketsTermBest(u, init, term);
      if m.Value? {
        BucketsTermStep(u, init, m, term);
        WithFieldTermBest(MarkerFields(u, init), Weight(m.level), Tokenize(u, m.value), term);
      }
    }
  }

  lemma TermBestAppend(fields: seq<Field>, f: Field, term: Token)
    ensures TermBest(fields + [f], term) == Max(TermBest(fields, term), TokensBest(f.weight, f.tokens, term))
  {
    assert (fields + [f])[..|fields|] == fields;
  }

  lemma {:induction false} TermBestConcat(a: seq<Field>, b: seq<Field>, term: Token)
    ensures TermBest(a + b, term) == Max(TermBest(a, term), TermBest(b, term))
  {
    if b == [] {
      assert a + b == a;
    } else {
      TermBestConcat(a, b[..|b| - 1], term);
      assert a + b == a + b[..|b| - 1] + [b[|b| - 1]];
      TermBestAppend(a + b[..|b| - 1], b[|b| - 1], term);
    }
  }

  function ColumnsTerm(columns: seq<Column>, word: Word): nat {
    if columns == [] then 0
    else
      var c := columns[|columns| - 1];
      Max(ColumnsTerm(columns[..|columns| - 1], word), TermScore(c.weight, c.words, word))
  }

  lemma WithFieldTermBest(fields: seq<Field>, weight: nat, tokens: Stream, term: Token)
    ensures TermBest(WithField(fields, weight, tokens), term) == Max(TermBest(fields, term), TokensBest(weight, tokens, term))
  {
    if tokens != [] { TermBestAppend(fields, Field(weight, tokens), term); }
  }

  lemma FiveColumns(a: Column, b: Column, c: Column, d: Column, e: Column, word: Word)
    ensures ColumnsTerm([a, b, c, d, e], word) ==
            Max(TermScore(a.weight, a.words, word),
            Max(TermScore(b.weight, b.words, word),
            Max(TermScore(c.weight, c.words, word),
            Max(TermScore(d.weight, d.words, word), TermScore(e.weight, e.words, word)))))
  {
    assert [a, b, c, d, e][..4] == [a, b, c, d] && [a, b, c, d][..3] == [a, b, c];
    assert [a, b, c][..2] == [a, b] && [a, b][..1] == [a] && [a][..0] == [];
    assert ColumnsTerm([a], word) == TermScore(a.weight, a.words, word);
    assert ColumnsTerm([a, b], word) == Max(ColumnsTerm([a], word), TermScore(b.weight, b.words, word));
    assert ColumnsTerm([a, b, c], word) == Max(ColumnsTerm([a, b], word), TermScore(c.weight, c.words, word));
  }

  /** The best column match of a term is the best field match of the specification. */
  lemma ColumnsTermIsBest(u: Alphabet, item: Item, term: Token)
    ensures ColumnsTerm(Columns(u, item), EncodeToken(term)) == TermBest(Fields(u, item), term)
  {
    var name, path := Tokenize(u, item.filename), Tokenize(u, item.path);
    var c := Columns(u, item);
    FiveColumns(c[0], c[1], c[2], c[3], c[4], EncodeToken(term));
    StreamTermScore(5, name, term);
    StreamTermScore(1, path, term);
    BucketsTermBest(u, item.markers, term);
    WithFieldTermBest([], 5, name, term);
    TermBestConcat(WithField([], 5, name), MarkerFields(u, item.markers), term);
    WithFieldTermBest(WithField([], 5, name) + MarkerFields(u, item.markers), 1, path, term);
  }

  // --- Phrase matches in a column -------------------------------------------------------------

  predicate WordsAt(words: seq<Word>, column: seq<Word>, k: nat) {
    k + |words| <= |column| && column[k..k + |words|] == words
  }

  predicate HasPhrase(column: seq<Word>, words: seq<Word>) {
    exists k: nat {:trigger WordsAt(words, column, k)} :: k <= |column| && WordsAt(words, column, k)
  }

  function PhraseWordScore(weight: nat, column: seq<Word>, words: seq<Word>): nat {
    if HasPhrase(column, words) then 2 * |words| * weight else 0
  }

  lemma EncodedStreams(a: Stream, b: Stream)
    ensures EncodeStream(a) == EncodeStream(b) <==> a == b
  {
    if EncodeStream(a) == EncodeStream(b) {
      assert |a| == |EncodeStream(a)| == |b|;
      forall i | 0 <= i < |a| ensures a[i] == b[i] {
        assert EncodeStream(a)[i] == EncodeStream(b)[i];
        EncodedTokens(a[i], b[i]);
      }
    }
  }

  lemma EncodedStandsAt(phrase: Stream, tokens: Stream, k: nat)
    ensures WordsAt(EncodeStream(phrase), EncodeStream(tokens), k) <==> StandsAt(phrase, tokens, k)
  {
    if k + |phrase| <= |tokens| {
      assert EncodeStream(tokens)[k..k + |phrase|] == EncodeStream(tokens[k..k + |phrase|]);
      EncodedStreams(tokens[k..k + |phrase|], phrase);
    }
  }

  lemma StreamPhrase(phrase: Stream, tokens: Stream)
    ensures HasPhrase(EncodeStream(tokens), EncodeStream(phrase)) <==> Within(phrase, tokens)
  {
    if HasPhrase(EncodeStream(tokens), EncodeStream(phrase)) {
      var k: nat :| k <= |tokens| && WordsAt(EncodeStream(phrase), EncodeStream(tokens), k);
      EncodedStandsAt(phrase, tokens, k);
    }
    if Within(phrase, tokens) {
      var k: nat :| k <= |tokens| && StandsAt(phrase, tokens, k);
      EncodedStandsAt(phrase, tokens, k);
    }
  }

  // No phrase of user text crosses a sentinel.
  lemma SentinelCuts(a: seq<Word>, b: seq<Word>, words: seq<Word>)
    requires words != [] && Sentinel !in words
    ensures HasPhrase(a + [Sentinel] + b, words) <==> HasPhrase(a, words) || HasPhrase(b, words)
  {
    var all := a + [Sentinel] + b;
    if HasPhrase(a, words) {
      var k: nat :| k <= |a| && WordsAt(words, a, k);
      assert all[k..k + |words|] == a[k..k + |words|];
      assert WordsAt(words, all, k);
    }
    if HasPhrase(b, words) {
      var k: nat :| k <= |b| && WordsAt(words, b, k);
      var n := |a| + 1 + k;
      assert all[n..n + |words|] == b[k..k + |words|];
      assert WordsAt(words, all, n);
    }
    if HasPhrase(all, words) {
      var k: nat :| k <= |all| && WordsAt(words, all, k);
      SentinelSide(a, b, words, k);
    }
  }

  lemma SentinelSide(a: seq<Word>, b: seq<Word>, words: seq<Word>, k: nat)
    requires words != [] && Sentinel !in words && WordsAt(words, a + [Sentinel] + b, k)
    ensures HasPhrase(a, words) || HasPhrase(b, words)
  {
    var all := a + [Sentinel] + b;
    if k + |words| <= |a| {
      assert a[k..k + |words|] == all[k..k + |words|];
      assert WordsAt(words, a, k);
    } else if k > |a| {
      var n := k - |a| - 1;
      assert b[n..n + |words|] == all[k..k + |words|];
      assert WordsAt(words, b, n);
    } else {
      WordAt(words, all, k, |a|);
    }
  }

  lemma WordAt(words: seq<Word>, column: seq<Word>, k: nat, i: nat)
    requires WordsAt(words, column, k) && k <= i < k + |words|
    ensures column[i] in words
  {
    assert column[k..k + |words|][i - k] == column[i];
  }

  lemma AddFieldPhrase(weight: nat, words: seq<Word>, tokens: Stream, phrase: Stream)
    requires phrase != []
    ensures PhraseWordScore(weight, AddField(words, EncodeStream(tokens)), EncodeStream(phrase)) ==
            Max(PhraseWordScore(weight, words, EncodeStream(phrase)), PhraseScore(weight, tokens, phrase))
  {
    StreamPhrase(phrase, tokens);
    if words == [] {
      assert !HasPhrase(words, EncodeStream(phrase));
    } else {
      forall i | 0 <= i < |phrase| ensures EncodeStream(phrase)[i] != Sentinel {
        EncodedTokens(phrase[i], phrase[i]);
      }
      SentinelCuts(words, EncodeStream(tokens), EncodeStream(phrase));
    }
  }

  function BucketsPhrase(u: Alphabet, markers: seq<Marker>, words: seq<Word>): nat {
    Max(PhraseWordScore(4, Bucket(u, markers, 4), words),
        Max(PhraseWordScore(3, Bucket(u, markers, 3), words), PhraseWordScore(1, Bucket(u, markers, 1), words)))
  }

  lemma PhraseBestAppend(fields: seq<Field>, f: Field, phrase: Stream)
    ensures PhraseBest(fields + [f], phrase) == Max(PhraseBest(fields, phrase), PhraseScore(f.weight, f.tokens, phrase))
  {
    assert (fields + [f])[..|fields|] == fields;
  }

  lemma BucketsPhraseStep(u: Alphabet, init: seq<Marker>, m: Marker, phrase: Stream)
    requires phrase != [] && m.Value?
    ensures BucketsPhrase(u, init + [m], EncodeStream(phrase)) ==
            Max(BucketsPhrase(u, init, EncodeStream(phrase)), PhraseScore(Weight(m.level), Tokenize(u, m.value), phrase))
  {
    assert (init + [m])[..|init|] == init;
    AddFieldPhrase(Weight(m.level), Bucket(u, init, Weight(m.level)), Tokenize(u, m.value), phrase);
  }

  lemma {:induction false} BucketsPhraseBest(u: Alphabet, markers: seq<Marker>, phrase: Stream)
    requires phrase != []
    ensures BucketsPhrase(u, markers, EncodeStream(phrase)) == PhraseBest(MarkerFields(u, markers), phrase)
  {
    if markers != [] {
      var init, m := markers[..|markers| - 1], markers[|markers| - 1];
      assert markers == init + [m];
      BucketsPhraseBest(u, init, phrase);
      if m.Value? {
        BucketsPhraseStep(u, init, m, phrase);
        WithFieldPhraseBest(MarkerFields(u, init), Weight(m.level), Tokenize(u, m.value), phrase);
      }
    }
  }

  lemma {:induction false} PhraseBestConcat(a: seq<Field>, b: seq<Field>, phrase: Stream)
    ensures PhraseBest(a + b, phrase) == Max(PhraseBest(a, phrase), PhraseBest(b, phrase))
  {
    if b == [] {
      assert a + b == a;
    } else {
      PhraseBestConcat(a, b[..|b| - 1], phrase);
      assert a + b == a + b[..|b| - 1] + [b[|b| - 1]];
      PhraseBestAppend(a + b[..|b| - 1], b[|b| - 1], phrase);
    }
  }

  function ColumnsPhrase(columns: seq<Column>, words: seq<Word>): nat {
    if columns == [] then 0
    else
      var c := columns[|columns| - 1];
      Max(ColumnsPhrase(columns[..|columns| - 1], words), PhraseWordScore(c.weight, c.words, words))
  }

  lemma WithFieldPhraseBest(fields: seq<Field>, weight: nat, tokens: Stream, phrase: Stream)
    requires phrase != []
    ensures PhraseBest(WithField(fields, weight, tokens), phrase) ==
            Max(PhraseBest(fields, phrase), PhraseScore(weight, tokens, phrase))
  {
    if tokens != [] { PhraseBestAppend(fields, Field(weight, tokens), phrase); }
  }

  lemma FiveColumnsPhrase(a: Column, b: Column, c: Column, d: Column, e: Column, words: seq<Word>)
    ensures ColumnsPhrase([a, b, c, d, e], words) ==
            Max(PhraseWordScore(a.weight, a.words, words),
            Max(PhraseWordScore(b.weight, b.words, words),
            Max(PhraseWordScore(c.weight, c.words, words),
            Max(PhraseWordScore(d.weight, d.words, words), PhraseWordScore(e.weight, e.words, words)))))
  {
    assert [a, b, c, d, e][..4] == [a, b, c, d] && [a, b, c, d][..3] == [a, b, c];
    assert [a, b, c][..2] == [a, b] && [a, b][..1] == [a] && [a][..0] == [];
    assert ColumnsPhrase([a], words) == PhraseWordScore(a.weight, a.words, words);
    assert ColumnsPhrase([a, b], words) == Max(ColumnsPhrase([a], words), PhraseWordScore(b.weight, b.words, words));
    assert ColumnsPhrase([a, b, c], words) == Max(ColumnsPhrase([a, b], words), PhraseWordScore(c.weight, c.words, words));
  }

  /** The best column match of a phrase is the best field match of the specification: the sentinel keeps phrases from
      crossing from one marker into the next. */
  lemma ColumnsPhraseIsBest(u: Alphabet, item: Item, phrase: Stream)
    requires phrase != []
    ensures ColumnsPhrase(Columns(u, item), EncodeStream(phrase)) == PhraseBest(Fields(u, item), phrase)
  {
    var name, path := Tokenize(u, item.filename), Tokenize(u, item.path);
    var c := Columns(u, item);
    FiveColumnsPhrase(c[0], c[1], c[2], c[3], c[4], EncodeStream(phrase));
    StreamPhrase(phrase, name);
    StreamPhrase(phrase, path);
    BucketsPhraseBest(u, item.markers, phrase);
    WithFieldPhraseBest([], 5, name, phrase);
    PhraseBestConcat(WithField([], 5, name), MarkerFields(u, item.markers), phrase);
    WithFieldPhraseBest(WithField([], 5, name) + MarkerFields(u, item.markers), 1, path, phrase);
  }
}
