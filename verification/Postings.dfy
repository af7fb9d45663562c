/**
 * What the postings of a corpus say: for every token, the greatest weight of a field that has it. The best
 * match of a term is the best over the tokens it is a prefix of, which stand together in sorted order.
 */
module Postings {
  import opened Wrappers
  import opened Lexicographic
  import opened Utf8
  import opened Alphabets
  import opened Tokens
  import opened SearchItems
  import opened Search

  // The greatest weight of a field with this token, or 0.
  function TokenWeight(fields: seq<Field>, token: Token): nat {
    if fields == [] then 0
    else
      var f := fields[|fields| - 1];
      Max(TokenWeight(fields[..|fields| - 1], token), if token in f.tokens then f.weight else 0)
  }

  function Multiplier(token: Token, term: Token): nat {
    if token == term then 2 else 1
  }

  // The best match of a term through these tokens.
  function BestOver(tokens: seq<Token>, fields: seq<Field>, term: Token): nat {
    if tokens == [] then 0
    else
      var t := tokens[|tokens| - 1];
      Max(BestOver(tokens[..|tokens| - 1], fields, term), Multiplier(t, term) * TokenWeight(fields, t))
  }

  lemma {:induction false} TokenWeightIsMax(fields: seq<Field>, token: Token)
    ensures forall i :: 0 <= i < |fields| && token in fields[i].tokens ==> fields[i].weight <= TokenWeight(fields, token)
    ensures TokenWeight(fields, token) == 0 ||
            exists i :: 0 <= i < |fields| && token in fields[i].tokens && fields[i].weight == TokenWeight(fields, token)
  {
    if fields != [] {
      var n := |fields| - 1;
      TokenWeightIsMax(fields[..n], token);
      forall i | 0 <= i < |fields| && token in fields[i].tokens ensures fields[i].weight <= TokenWeight(fields, token) {
        if i < n { assert fields[..n][i] == fields[i]; }
      }
      if TokenWeight(fields, token) > 0 && TokenWeight(fields, token) == TokenWeight(fields[..n], token) {
        var i :| 0 <= i < n && token in fields[..n][i].tokens && fields[..n][i].weight == TokenWeight(fields[..n], token);
        assert fields[i] == fields[..n][i];
      }
    }
  }

  lemma {:induction false} BestOverIsMax(tokens: seq<Token>, fields: seq<Field>, term: Token)
    ensures forall k :: 0 <= k < |tokens| ==>
              Multiplier(tokens[k], term) * TokenWeight(fields, tokens[k]) <= BestOver(tokens, fields, term)
    ensures BestOver(tokens, fields, term) == 0 ||
            exists k :: 0 <= k < |tokens| &&
                        Multiplier(tokens[k], term) * TokenWeight(fields, tokens[k]) == BestOver(tokens, fields, term)
  {
    if tokens != [] {
      var n := |tokens| - 1;
      BestOverIsMax(tokens[..n], fields, term);
      forall k | 0 <= k < |tokens|
        ensures Multiplier(tokens[k], term) * TokenWeight(fields, tokens[k]) <= BestOver(tokens, fields, term)
      {
        if k < n { assert tokens[..n][k] == tokens[k]; }
      }
      if BestOver(tokens, fields, term) > 0 && BestOver(tokens, fields, term) == BestOver(tokens[..n], fields, term) {
        var k :| 0 <= k < n && Multiplier(tokens[..n][k], term) * TokenWeight(fields, tokens[..n][k]) == BestOver(tokens[..n], fields, term);
        assert tokens[k] == tokens[..n][k];
      }
    }
  }

  // These are tokens that continue the term, and every token of the fields that does is among them.
  ghost predicate Continues(tokens: seq<Token>, fields: seq<Field>, term: Token) {
    (forall k :: 0 <= k < |tokens| ==> Prefix(term, tokens[k])) &&
    forall t: Token :: Prefix(term, t) && TokenWeight(fields, t) > 0 ==> t in tokens
  }

  lemma HitIsCovered(tokens: seq<Token>, fields: seq<Field>, term: Token, i: nat, k: nat)
    requires Continues(tokens, fields, term) && i < |fields| && k < |fields[i].tokens|
    ensures HitScore(fields[i].weight, fields[i].tokens[k], term) <= BestOver(tokens, fields, term)
  {
    var t := fields[i].tokens[k];
    if Prefix(term, t) && fields[i].weight > 0 {
      TokenWeightIsMax(fields, t);
      BestOverIsMax(tokens, fields, term);
      var j :| 0 <= j < |tokens| && tokens[j] == t;
      assert Multiplier(t, term) * fields[i].weight <= Multiplier(t, term) * TokenWeight(fields, t);
    }
  }

  lemma TokenIsHit(fields: seq<Field>, term: Token, t: Token)
    requires Prefix(term, t)
    ensures Multiplier(t, term) * TokenWeight(fields, t) <= TermBest(fields, term)
  {
    TokenWeightIsMax(fields, t);
    if TokenWeight(fields, t) > 0 {
      var i :| 0 <= i < |fields| && t in fields[i].tokens && fields[i].weight == TokenWeight(fields, t);
      var k :| 0 <= k < |fields[i].tokens| && fields[i].tokens[k] == t;
      TokensBestIsMax(fields[i].weight, fields[i].tokens, term);
      TermBestIsMax(fields, term);
      assert HitScore(fields[i].weight, fields[i].tokens[k], term) == Multiplier(t, term) * fields[i].weight;
    }
  }

  /** The best match of a term in the fields is the best over the tokens it is a prefix of. */
  lemma BestOverIsTermBest(tokens: seq<Token>, fields: seq<Field>, term: Token)
    requires Continues(tokens, fields, term)
    ensures BestOver(tokens, fields, term) == TermBest(fields, term)
  {
    BestOverIsMax(tokens, fields, term);
    if BestOver(tokens, fields, term) > 0 {
      var k :| 0 <= k < |tokens| && Multiplier(tokens[k], term) * TokenWeight(fields, tokens[k]) == BestOver(tokens, fields, term);
      TokenIsHit(fields, term, tokens[k]);
    }
    TermBestIsMax(fields, term);
    if TermBest(fields, term) > 0 {
      var i :| 0 <= i < |fields| && TokensBest(fields[i].weight, fields[i].tokens, term) == TermBest(fields, term);
      TokensBestIsMax(fields[i].weight, fields[i].tokens, term);
      var k :| 0 <= k < |fields[i].tokens| && HitScore(fields[i].weight, fields[i].tokens[k], term) == TermBest(fields, term);
      HitIsCovered(tokens, fields, term, i, k);
    }
  }

  // --- Sorted vocabularies --------------------------------------------------------------------

  ghost predicate Ascending(vocabulary: seq<Token>) {
    forall i, j :: 0 <= i < j < |vocabulary| ==> Less(vocabulary[i], vocabulary[j])
  }

  // A token below the term does not continue it.
  lemma SmallerIsNoContinuation(term: Token, t: Token)
    requires Less(t, term)
    ensures !Prefix(term, t)
  {
    if Prefix(term, t) {
      PrefixIsLess(term, t);
      Total(term, t);
    }
  }

  lemma {:induction false} LessNoPrefixClashes(a: seq<int>, b: seq<int>)
    requires Less(a, b) && !Prefix(a, b)
    ensures Clash(a, b)
  {
    if a[0] == b[0] {
      assert a == [a[0]] + a[1..] && b == [b[0]] + b[1..];
      PrefixCancels([a[0]], a[1..], b[1..]);
      LessNoPrefixClashes(a[1..], b[1..]);
    }
  }

  /** Past the first token that does not continue the term, none does: the continuations stand together. */
  lemma ContinuationsStandTogether(term: Token, t: Token, later: Token)
    requires !Less(t, term) && !Prefix(term, t) && Less(t, later)
    ensures !Prefix(term, later)
  {
    Total(t, term);
    assert Prefix(t, t);
    LessNoPrefixClashes(term, t);
    if Prefix(term, later) {
      var rest := later[|term|..];
      assert later == term + rest && t + [] == t;
      ClashDecides(term, t, rest, []);
      Total(t, later);
    }
  }

  // --- The order of the terms does not matter -------------------------------------------------

  function Without<T>(s: seq<T>, i: nat): seq<T>
    requires i < |s|
  {
    s[..i] + s[i + 1..]
  }

  lemma WithoutKeepsLast<T>(s: seq<T>, i: nat)
    requires i < |s| - 1
    ensures Without(s, i) == Without(s[..|s| - 1], i) + [s[|s| - 1]]
  {
  }

  lemma WithoutElements<T>(s: seq<T>, i: nat)
    requires i < |s|
    ensures multiset(Without(s, i)) == multiset(s) - multiset{s[i]}
  {
    assert s == s[..i] + [s[i]] + s[i + 1..];
  }

  lemma PartsCommute(total: Option<nat>, x: nat, y: nat)
    ensures AddScore(AddScore(total, x), y) == AddScore(AddScore(total, y), x)
  {
  }

  lemma {:induction false} TakeOut(fields: seq<Field>, terms: seq<Token>, i: nat)
    requires i < |terms|
    ensures TermsScore(fields, terms) == AddScore(TermsScore(fields, Without(terms, i)), TermBest(fields, terms[i]))
    decreases |terms|
  {
    var n := |terms| - 1;
    var init, last := terms[..n], terms[n];
    if i == n {
      assert Without(terms, i) == init;
    } else {
      var rest := Without(init, i);
      TakeOut(fields, init, i);
      WithoutKeepsLast(terms, i);
      TermsScoreAppend(fields, rest, last);
      PartsCommute(TermsScore(fields, rest), TermBest(fields, init[i]), TermBest(fields, last));
    }
  }

  /** Scoring the terms in another order gives the same score. */
  lemma {:induction false} OrderOfTermsIsFree(fields: seq<Field>, a: seq<Token>, b: seq<Token>)
    requires multiset(a) == multiset(b)
    ensures TermsScore(fields, a) == TermsScore(fields, b)
    decreases |a|
  {
    assert |a| == |multiset(a)| == |multiset(b)| == |b|;
    if a != [] {
      var n := |a| - 1;
      assert a[n] in multiset(b);
      var i :| 0 <= i < |b| && b[i] == a[n];
      WithoutElements(a, n);
      WithoutElements(b, i);
      assert Without(a, n) == a[..n];
      OrderOfTermsIsFree(fields, a[..n], Without(b, i));
      TakeOut(fields, b, i);
    }
  }

  // --- Phrases --------------------------------------------------------------------------------

  // A field with the phrase has each of its tokens.
  lemma PhraseHasTokens(fields: seq<Field>, phrase: Stream, token: Token)
    requires PhraseBest(fields, phrase) > 0 && token in phrase
    ensures TokenWeight(fields, token) > 0
  {
    PhraseBestIsMax(fields, phrase);
    TokenWeightIsMax(fields, token);
    var i :| 0 <= i < |fields| && PhraseScore(fields[i].weight, fields[i].tokens, phrase) > 0;
    var k: nat :| k <= |fields[i].tokens| && StandsAt(phrase, fields[i].tokens, k);
    var j :| 0 <= j < |phrase| && phrase[j] == token;
    assert fields[i].tokens[k..k + |phrase|][j] == fields[i].tokens[k + j];
    PositiveFactor(2 * |phrase|, fields[i].weight);
  }

  lemma PositiveFactor(a: nat, b: nat)
    requires a * b > 0
    ensures b > 0
  {
  }
}
