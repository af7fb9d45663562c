/**
 * The specification of search: how an item's fields are matched and scored, and which items of a corpus a
 * query returns before ordering.
 */
module Search {
  import opened Wrappers
  import opened Lexicographic
  import opened Utf8
  import opened Alphabets
  import opened Tokens
  import opened SearchItems

  datatype Field = Field(weight: nat, tokens: Stream)

  datatype Query = Query(terms: seq<Token>, phrases: seq<Stream>)

  // What the parser of query texts guarantees.
  predicate Parsed(q: Query) {
    (forall i :: 0 <= i < |q.terms| ==> q.terms[i] != []) &&
    (forall i :: 0 <= i < |q.phrases| ==> q.phrases[i] != [])
  }

  function Weight(level: string): nat {
    if level == "level-project" then 4 else if level == "level-company" then 3 else 1
  }

  function WithField(fields: seq<Field>, weight: nat, tokens: Stream): seq<Field> {
    if tokens == [] then fields else fields + [Field(weight, tokens)]
  }

  function MarkerFields(u: Alphabet, markers: seq<Marker>): seq<Field> {
    if markers == [] then []
    else
      var m := markers[|markers| - 1];
      var fields := MarkerFields(u, markers[..|markers| - 1]);
      if m.Value? then WithField(fields, Weight(m.level), Tokenize(u, m.value)) else fields
  }

  function Fields(u: Alphabet, item: Item): seq<Field> {
    WithField(WithField([], 5, Tokenize(u, item.filename)) + MarkerFields(u, item.markers), 1, Tokenize(u, item.path))
  }

  // --- Scores ---------------------------------------------------------------------------------

  function Max(a: nat, b: nat): nat {
    if a < b then b else a
  }

  function HitScore(weight: nat, token: Token, term: Token): nat {
    if !Prefix(term, token) then 0 else if token == term then 2 * weight else weight
  }

  function TokensBest(weight: nat, tokens: Stream, term: Token): nat {
    if tokens == [] then 0
    else Max(TokensBest(weight, tokens[..|tokens| - 1], term), HitScore(weight, tokens[|tokens| - 1], term))
  }

  // The best match of a term in any field, or 0.
  function TermBest(fields: seq<Field>, term: Token): nat {
    if fields == [] then 0
    else
      var f := fields[|fields| - 1];
      Max(TermBest(fields[..|fields| - 1], term), TokensBest(f.weight, f.tokens, term))
  }

  function PhraseScore(weight: nat, tokens: Stream, phrase: Stream): nat {
    if Within(phrase, tokens) then 2 * |phrase| * weight else 0
  }

  // The best match of a phrase in any field, or 0.
  function PhraseBest(fields: seq<Field>, phrase: Stream): nat {
    if fields == [] then 0
    else
      var f := fields[|fields| - 1];
      Max(PhraseBest(fields[..|fields| - 1], phrase), PhraseScore(f.weight, f.tokens, phrase))
  }

  function AddScore(total: Option<nat>, part: nat): Option<nat> {
    if total.None? || part == 0 then None else Some(total.value + part)
  }

  function TermsScore(fields: seq<Field>, terms: seq<Token>): Option<nat> {
    if terms == [] then Some(0)
    else AddScore(TermsScore(fields, terms[..|terms| - 1]), TermBest(fields, terms[|terms| - 1]))
  }

  // A phrase that only crosses fields counts with weight 1.
  function PhrasePart(fields: seq<Field>, path: Stream, phrase: Stream): nat {
    var best := PhraseBest(fields, phrase);
    if best > 0 then best else if Within(phrase, path) then 2 * |phrase| else 0
  }

  function PhrasesScore(fields: seq<Field>, path: Stream, total: Option<nat>, phrases: seq<Stream>): Option<nat> {
    if phrases == [] then total
    else AddScore(PhrasesScore(fields, path, total, phrases[..|phrases| - 1]), PhrasePart(fields, path, phrases[|phrases| - 1]))
  }

  function Score(u: Alphabet, item: Item, q: Query): Option<nat> {
    var fields := Fields(u, item);
    PhrasesScore(fields, Tokenize(u, item.path), TermsScore(fields, q.terms), q.phrases)
  }

  // --- A part that does not match ends it ---------------------------------------------------

  lemma TermsScoreAppend(fields: seq<Field>, terms: seq<Token>, term: Token)
    ensures TermsScore(fields, terms + [term]) == AddScore(TermsScore(fields, terms), TermBest(fields, term))
  {
    assert (terms + [term])[..|terms|] == terms;
  }

  lemma PhrasesScoreAppend(fields: seq<Field>, path: Stream, total: Option<nat>, phrases: seq<Stream>, phrase: Stream)
    ensures PhrasesScore(fields, path, total, phrases + [phrase]) ==
            AddScore(PhrasesScore(fields, path, total, phrases), PhrasePart(fields, path, phrase))
  {
    assert (phrases + [phrase])[..|phrases|] == phrases;
  }

  lemma {:induction false} NoneStays(fields: seq<Field>, path: Stream, total: Option<nat>, phrases: seq<Stream>)
    requires total.None?
    ensures PhrasesScore(fields, path, total, phrases).None?
  {
    if phrases != [] { NoneStays(fields, path, total, phrases[..|phrases| - 1]); }
  }

  lemma {:induction false} TermsNoneStays(fields: seq<Field>, a: seq<Token>, b: seq<Token>)
    requires TermsScore(fields, a).None?
    ensures TermsScore(fields, a + b).None?
  {
    if b == [] {
      assert a + b == a;
    } else {
      TermsNoneStays(fields, a, b[..|b| - 1]);
      assert a + b == a + b[..|b| - 1] + [b[|b| - 1]];
      TermsScoreAppend(fields, a + b[..|b| - 1], b[|b| - 1]);
    }
  }

  lemma {:induction false} PhrasesNoneStays(fields: seq<Field>, path: Stream, total: Option<nat>, a: seq<Stream>, b: seq<Stream>)
    requires PhrasesScore(fields, path, total, a).None?
    ensures PhrasesScore(fields, path, total, a + b).None?
  {
    if b == [] {
      assert a + b == a;
    } else {
      PhrasesNoneStays(fields, path, total, a, b[..|b| - 1]);
      assert a + b == a + b[..|b| - 1] + [b[|b| - 1]];
      PhrasesScoreAppend(fields, path, total, a + b[..|b| - 1], b[|b| - 1]);
    }
  }

  // --- What a match is worth ------------------------------------------------------------------

  // The markers that count more than others.
  datatype Place = Project | Company | Elsewhere

  predicate StandsFor(m: Marker, place: Place) {
    m.Value? &&
    match place
    case Project => m.level == "level-project"
    case Company => m.level == "level-company"
    case Elsewhere => m.level != "level-project" && m.level != "level-company"
  }

  predicate Begins(tokens: Stream, term: Token) {
    exists k :: 0 <= k < |tokens| && Prefix(term, tokens[k])
  }

  predicate MarkerExact(u: Alphabet, markers: seq<Marker>, place: Place, term: Token) {
    exists i :: 0 <= i < |markers| && StandsFor(markers[i], place) && term in Tokenize(u, markers[i].value)
  }

  predicate MarkerBegins(u: Alphabet, markers: seq<Marker>, place: Place, term: Token) {
    exists i :: 0 <= i < |markers| && StandsFor(markers[i], place) && Begins(Tokenize(u, markers[i].value), term)
  }

  predicate MarkerWithin(u: Alphabet, markers: seq<Marker>, place: Place, phrase: Stream) {
    exists i :: 0 <= i < |markers| && StandsFor(markers[i], place) && Within(phrase, Tokenize(u, markers[i].value))
  }

  // Ten for the filename, eight for a project, six for a company, two for the rest of the path; a token that only
  // begins with the term is worth half.
  function TermPoints(u: Alphabet, item: Item, term: Token): nat {
    var name, path, markers := Tokenize(u, item.filename), Tokenize(u, item.path), item.markers;
    if term in name then 10
    else if MarkerExact(u, markers, Project, term) then 8
    else if MarkerExact(u, markers, Company, term) then 6
    else if Begins(name, term) then 5
    else if MarkerBegins(u, markers, Project, term) then 4
    else if MarkerBegins(u, markers, Company, term) then 3
    else if term in path || MarkerExact(u, markers, Elsewhere, term) then 2
    else if Begins(path, term) || MarkerBegins(u, markers, Elsewhere, term) then 1
    else 0
  }

  // Two points for each token of the phrase, times five, four, three or one.
  function PhrasePoints(u: Alphabet, item: Item, phrase: Stream): nat {
    var n := |phrase|;
    if Within(phrase, Tokenize(u, item.filename)) then 10 * n
    else if MarkerWithin(u, item.markers, Project, phrase) then 8 * n
    else if MarkerWithin(u, item.markers, Company, phrase) then 6 * n
    else if Within(phrase, Tokenize(u, item.path)) || MarkerWithin(u, item.markers, Elsewhere, phrase) then 2 * n
    else 0
  }

  function PointSum(points: seq<nat>): nat {
    if points == [] then 0 else PointSum(points[..|points| - 1]) + points[|points| - 1]
  }

  // The points of every part of a query.
  function Points(u: Alphabet, item: Item, q: Query): seq<nat> {
    seq(|q.terms|, i requires 0 <= i < |q.terms| => TermPoints(u, item, q.terms[i])) +
    seq(|q.phrases|, i requires 0 <= i < |q.phrases| => PhrasePoints(u, item, q.phrases[i]))
  }

  lemma {:induction false} TokensBestIs(weight: nat, tokens: Stream, term: Token)
    ensures TokensBest(weight, tokens, term) ==
            if term in tokens then 2 * weight else if Begins(tokens, term) then weight else 0
  {
    if tokens != [] {
      var n := |tokens| - 1;
      TokensBestIs(weight, tokens[..n], term);
      assert tokens == tokens[..n] + [tokens[n]];
      assert Begins(tokens, term) <==> Begins(tokens[..n], term) || Prefix(term, tokens[n]) by {
        if Begins(tokens[..n], term) {
          var k :| 0 <= k < n && Prefix(term, tokens[..n][k]);
          assert Prefix(term, tokens[k]);
        }
        if Begins(tokens, term) && !Prefix(term, tokens[n]) {
          var k :| 0 <= k < |tokens| && Prefix(term, tokens[k]);
          assert Prefix(term, tokens[..n][k]);
        }
      }
    }
  }

  lemma {:induction false} TermBestConcat(a: seq<Field>, b: seq<Field>, term: Token)
    ensures TermBest(a + b, term) == Max(TermBest(a, term), TermBest(b, term))
  {
    if b == [] {
      assert a + b == a;
    } else {
      TermBestConcat(a, b[..|b| - 1], term);
      assert (a + b)[..|a + b| - 1] == a + b[..|b| - 1];
    }
  }

  lemma PhraseBestAppend(fields: seq<Field>, f: Field, phrase: Stream)
    ensures PhraseBest(fields + [f], phrase) == Max(PhraseBest(fields, phrase), PhraseScore(f.weight, f.tokens, phrase))
  {
    assert (fields + [f])[..|fields|] == fields;
  }

  lemma {:induction false} PhraseBestConcat(a: seq<Field>, b: seq<Field>, phrase: Stream)
    ensures PhraseBest(a + b, phrase) == Max(PhraseBest(a, phrase), PhraseBest(b, phrase))
  {
    if b == [] {
      assert a + b == a;
    } else {
      var n := |b| - 1;
      PhraseBestConcat(a, b[..n], phrase);
      PhraseBestAppend(a + b[..n], b[n], phrase);
      assert b == b[..n] + [b[n]] && a + b == a + b[..n] + [b[n]];
    }
  }

  lemma OneFieldTerm(fields: seq<Field>, weight: nat, tokens: Stream, term: Token)
    ensures TermBest(WithField(fields, weight, tokens), term) ==
            Max(TermBest(fields, term), if term in tokens then 2 * weight else if Begins(tokens, term) then weight else 0)
  {
    TokensBestIs(weight, tokens, term);
    if tokens != [] { assert (fields + [Field(weight, tokens)])[..|fields|] == fields; }
  }

  lemma OneFieldPhrase(fields: seq<Field>, weight: nat, tokens: Stream, phrase: Stream, points: nat)
    requires points == 2 * |phrase| * weight
    ensures PhraseBest(WithField(fields, weight, tokens), phrase) ==
            Max(PhraseBest(fields, phrase), if Within(phrase, tokens) then points else 0)
  {
    if tokens != [] {
      assert (fields + [Field(weight, tokens)])[..|fields|] == fields;
    } else if Within(phrase, tokens) {
      assert phrase == [];
    }
  }

  lemma LastMarker(u: Alphabet, markers: seq<Marker>, place: Place, term: Token)
    requires markers != []
    ensures var n := |markers| - 1;
            var m := markers[n];
            (MarkerExact(u, markers, place, term) <==>
               MarkerExact(u, markers[..n], place, term) || (StandsFor(m, place) && term in Tokenize(u, m.value))) &&
            (MarkerBegins(u, markers, place, term) <==>
               MarkerBegins(u, markers[..n], place, term) || (StandsFor(m, place) && Begins(Tokenize(u, m.value), term)))
  {
    var n := |markers| - 1;
    assert forall i :: 0 <= i < n ==> markers[..n][i] == markers[i];
  }

  lemma LastMarkerWithin(u: Alphabet, markers: seq<Marker>, place: Place, phrase: Stream)
    requires markers != []
    ensures var n := |markers| - 1;
            var m := markers[n];
            MarkerWithin(u, markers, place, phrase) <==>
              MarkerWithin(u, markers[..n], place, phrase) || (StandsFor(m, place) && Within(phrase, Tokenize(u, m.value)))
  {
    var n := |markers| - 1;
    assert forall i :: 0 <= i < n ==> markers[..n][i] == markers[i];
  }

  function MarkerPoints(project: bool, company: bool, projectBegins: bool, companyBegins: bool, other: bool, otherBegins: bool): nat {
    if project then 8 else if company then 6 else if projectBegins then 4 else if companyBegins then 3
    else if other then 2 else if otherBegins then 1 else 0
  }

  lemma {:induction false} MarkersTerm(u: Alphabet, markers: seq<Marker>, term: Token)
    ensures TermBest(MarkerFields(u, markers), term) == MarkerPoints(
              MarkerExact(u, markers, Project, term), MarkerExact(u, markers, Company, term),
              MarkerBegins(u, markers, Project, term), MarkerBegins(u, markers, Company, term),
              MarkerExact(u, markers, Elsewhere, term), MarkerBegins(u, markers, Elsewhere, term))
  {
    if markers != [] {
      var n := |markers| - 1;
      var m := markers[n];
      MarkersTerm(u, markers[..n], term);
      LastMarker(u, markers, Project, term);
      LastMarker(u, markers, Company, term);
      LastMarker(u, markers, Elsewhere, term);
      if m.Value? {
        OneFieldTerm(MarkerFields(u, markers[..n]), Weight(m.level), Tokenize(u, m.value), term);
      }
    }
  }

  lemma {:induction false} MarkersPhrase(u: Alphabet, markers: seq<Marker>, phrase: Stream)
    ensures PhraseBest(MarkerFields(u, markers), phrase) ==
            if MarkerWithin(u, markers, Project, phrase) then 8 * |phrase|
            else if MarkerWithin(u, markers, Company, phrase) then 6 * |phrase|
            else if MarkerWithin(u, markers, Elsewhere, phrase) then 2 * |phrase|
            else 0
  {
    if markers != [] {
      var n := |markers| - 1;
      var m := markers[n];
      MarkersPhrase(u, markers[..n], phrase);
      LastMarkerWithin(u, markers, Project, phrase);
      LastMarkerWithin(u, markers, Company, phrase);
      LastMarkerWithin(u, markers, Elsewhere, phrase);
      if m.Value? { OneFieldPhrase(MarkerFields(u, markers[..n]), Weight(m.level), Tokenize(u, m.value), phrase, 2 * |phrase| * Weight(m.level)); }
    }
  }

  /** The best match of a term, in points. */
  lemma TermBestIsPoints(u: Alphabet, item: Item, term: Token)
    ensures TermBest(Fields(u, item), term) == TermPoints(u, item, term)
  {
    var name, markers := WithField([], 5, Tokenize(u, item.filename)), MarkerFields(u, item.markers);
    OneFieldTerm([], 5, Tokenize(u, item.filename), term);
    MarkersTerm(u, item.markers, term);
    TermBestConcat(name, markers, term);
    OneFieldTerm(name + markers, 1, Tokenize(u, item.path), term);
  }

  lemma PhraseBestIsPoints(u: Alphabet, item: Item, phrase: Stream)
    ensures PhraseBest(Fields(u, item), phrase) == PhrasePoints(u, item, phrase)
  {
    var name, markers := WithField([], 5, Tokenize(u, item.filename)), MarkerFields(u, item.markers);
    OneFieldPhrase([], 5, Tokenize(u, item.filename), phrase, 10 * |phrase|);
    MarkersPhrase(u, item.markers, phrase);
    PhraseBestConcat(name, markers, phrase);
    OneFieldPhrase(name + markers, 1, Tokenize(u, item.path), phrase, 2 * |phrase|);
  }

  /** The best match of a phrase, in points. */
  lemma PhrasePartIsPoints(u: Alphabet, item: Item, phrase: Stream)
    ensures PhrasePart(Fields(u, item), Tokenize(u, item.path), phrase) == PhrasePoints(u, item, phrase)
  {
    PhraseBestIsPoints(u, item, phrase);
  }

  lemma {:induction false} SumConcat(a: seq<nat>, b: seq<nat>)
    ensures PointSum(a + b) == PointSum(a) + PointSum(b)
  {
    if b == [] {
      assert a + b == a;
    } else {
      SumConcat(a, b[..|b| - 1]);
      assert (a + b)[..|a + b| - 1] == a + b[..|b| - 1];
    }
  }

  function TotalOf(points: seq<nat>, before: nat): Option<nat> {
    if 0 in points then None else Some(before + PointSum(points))
  }

  lemma AddsLast(points: seq<nat>, before: nat)
    requires points != []
    ensures TotalOf(points, before) == AddScore(TotalOf(points[..|points| - 1], before), points[|points| - 1])
  {
    assert points == points[..|points| - 1] + [points[|points| - 1]];
  }

  lemma {:induction false} TermsScoreIsSum(fields: seq<Field>, terms: seq<Token>, points: seq<nat>)
    requires |points| == |terms| && forall i :: 0 <= i < |terms| ==> points[i] == TermBest(fields, terms[i])
    ensures TermsScore(fields, terms) == TotalOf(points, 0)
  {
    if terms != [] {
      var n := |terms| - 1;
      TermsScoreIsSum(fields, terms[..n], points[..n]);
      AddsLast(points, 0);
    }
  }

  lemma {:induction false} PhrasesScoreIsSum(fields: seq<Field>, path: Stream, total: nat, phrases: seq<Stream>, points: seq<nat>)
    requires |points| == |phrases|
    requires forall i :: 0 <= i < |phrases| ==> points[i] == PhrasePart(fields, path, phrases[i])
    ensures PhrasesScore(fields, path, Some(total), phrases) == TotalOf(points, total)
  {
    if phrases != [] {
      var n := |phrases| - 1;
      PhrasesScoreIsSum(fields, path, total, phrases[..n], points[..n]);
      AddsLast(points, total);
    }
  }

  /** An item is found exactly if every part of the query is worth something, and its score is the sum of the points. */
  lemma ScoreIsPoints(u: Alphabet, item: Item, q: Query)
    ensures Score(u, item, q) == if 0 in Points(u, item, q) then None else Some(PointSum(Points(u, item, q)))
  {
    var fields, path := Fields(u, item), Tokenize(u, item.path);
    var first := seq(|q.terms|, i requires 0 <= i < |q.terms| => TermPoints(u, item, q.terms[i]));
    var second := seq(|q.phrases|, i requires 0 <= i < |q.phrases| => PhrasePoints(u, item, q.phrases[i]));
    forall i | 0 <= i < |q.terms| ensures first[i] == TermBest(fields, q.terms[i]) {
      TermBestIsPoints(u, item, q.terms[i]);
    }
    forall i | 0 <= i < |q.phrases| ensures second[i] == PhrasePart(fields, path, q.phrases[i]) {
      PhrasePartIsPoints(u, item, q.phrases[i]);
    }
    PartsAddUp(fields, path, q, first, second);
  }

  lemma PartsAddUp(fields: seq<Field>, path: Stream, q: Query, first: seq<nat>, second: seq<nat>)
    requires |first| == |q.terms| && forall i :: 0 <= i < |q.terms| ==> first[i] == TermBest(fields, q.terms[i])
    requires |second| == |q.phrases| &&
             forall i :: 0 <= i < |q.phrases| ==> second[i] == PhrasePart(fields, path, q.phrases[i])
    ensures PhrasesScore(fields, path, TermsScore(fields, q.terms), q.phrases) ==
            if 0 in first + second then None else Some(PointSum(first + second))
  {
    TermsScoreIsSum(fields, q.terms, first);
    SumConcat(first, second);
    if 0 in first {
      NoneStays(fields, path, None, q.phrases);
    } else {
      PhrasesScoreIsSum(fields, path, PointSum(first), q.phrases, second);
    }
  }

  // --- The scorer as a program ----------------------------------------------------------------

  method BestMatch(fields: seq<Field>, term: Token) returns (best: nat)
    ensures best == TermBest(fields, term)
  {
    best := 0;
    for i := 0 to |fields|
      invariant best == TermBest(fields[..i], term)
    {
      var f := fields[i];
      var here := 0;
      for k := 0 to |f.tokens|
        invariant here == TokensBest(f.weight, f.tokens[..k], term)
      {
        assert f.tokens[..k + 1][..k] == f.tokens[..k];
        here := Max(here, HitScore(f.weight, f.tokens[k], term));
      }
      assert f.tokens[..|f.tokens|] == f.tokens && fields[..i + 1][..i] == fields[..i];
      best := Max(best, here);
    }
    assert fields[..|fields|] == fields;
  }

  method ContainsPhrase(stream: Stream, phrase: Stream) returns (found: bool)
    ensures found <==> Within(phrase, stream)
  {
    found := false;
    var offset := 0;
    while offset + |phrase| <= |stream| && !found
      invariant found ==> Within(phrase, stream)
      invariant !found ==> forall k: nat {:trigger StandsAt(phrase, stream, k)} :: k < offset ==> !StandsAt(phrase, stream, k)
      decreases |stream| - offset, !found
    {
      if stream[offset..offset + |phrase|] == phrase {
        assert StandsAt(phrase, stream, offset);
        found := true;
      } else {
        offset := offset + 1;
      }
    }
  }

  method BestPhrase(fields: seq<Field>, phrase: Stream) returns (best: nat)
    ensures best == PhraseBest(fields, phrase)
  {
    best := 0;
    for i := 0 to |fields|
      invariant best == PhraseBest(fields[..i], phrase)
    {
      assert fields[..i + 1][..i] == fields[..i];
      var found := ContainsPhrase(fields[i].tokens, phrase);
      best := Max(best, if found then 2 * |phrase| * fields[i].weight else 0);
    }
    assert fields[..|fields|] == fields;
  }

  method MatchesAndScore(u: Alphabet, item: Item, q: Query) returns (score: Option<nat>)
    ensures score == Score(u, item, q)
    ensures score == if 0 in Points(u, item, q) then None else Some(PointSum(Points(u, item, q)))
  {
    ScoreIsPoints(u, item, q);
    var fields := Fields(u, item);
    score := ScoreTerms(fields, q.terms);
    if score.None? {
      NoneStays(fields, Tokenize(u, item.path), score, q.phrases);
      return None;
    }
    score := ScorePhrases(fields, Tokenize(u, item.path), score.value, q.phrases);
  }

  method ScoreTerms(fields: seq<Field>, terms: seq<Token>) returns (score: Option<nat>)
    ensures score == TermsScore(fields, terms)
  {
    var total := 0;
    for i := 0 to |terms|
      invariant TermsScore(fields, terms[..i]) == Some(total)
    {
      assert terms[..i + 1][..i] == terms[..i];
      var best := BestMatch(fields, terms[i]);
      if best == 0 {
        assert terms == terms[..i + 1] + terms[i + 1..];
        TermsNoneStays(fields, terms[..i + 1], terms[i + 1..]);
        return None;
      }
      total := total + best;
    }
    assert terms[..|terms|] == terms;
    return Some(total);
  }

  method ScorePhrases(fields: seq<Field>, path: Stream, before: nat, phrases: seq<Stream>) returns (score: Option<nat>)
    ensures score == PhrasesScore(fields, path, Some(before), phrases)
  {
    var total := before;
    for i := 0 to |phrases|
      invariant PhrasesScore(fields, path, Some(before), phrases[..i]) == Some(total)
    {
      assert phrases[..i + 1][..i] == phrases[..i];
      var best := BestPhrase(fields, phrases[i]);
      var crosses := ContainsPhrase(path, phrases[i]);
      var part := if best > 0 then best else if crosses then 2 * |phrases[i]| else 0;
      if part == 0 {
        assert phrases == phrases[..i + 1] + phrases[i + 1..];
        PhrasesNoneStays(fields, path, Some(before), phrases[..i + 1], phrases[i + 1..]);
        return None;
      }
      total := total + part;
    }
    assert phrases[..|phrases|] == phrases;
    return Some(total);
  }

  // --- What the best match is -----------------------------------------------------------------

  lemma {:induction false} TokensBestIsMax(weight: nat, tokens: Stream, term: Token)
    ensures forall k :: 0 <= k < |tokens| ==> HitScore(weight, tokens[k], term) <= TokensBest(weight, tokens, term)
    ensures TokensBest(weight, tokens, term) == 0 ||
            exists k :: 0 <= k < |tokens| && HitScore(weight, tokens[k], term) == TokensBest(weight, tokens, term)
  {
    if tokens != [] {
      var n := |tokens| - 1;
      TokensBestIsMax(weight, tokens[..n], term);
      forall k | 0 <= k < |tokens| ensures HitScore(weight, tokens[k], term) <= TokensBest(weight, tokens, term) {
        assert k < n ==> tokens[..n][k] == tokens[k];
      }
      if TokensBest(weight, tokens[..n], term) == TokensBest(weight, tokens, term) > 0 {
        var k :| 0 <= k < n && HitScore(weight, tokens[..n][k], term) == TokensBest(weight, tokens[..n], term);
        assert HitScore(weight, tokens[k], term) == TokensBest(weight, tokens, term);
      }
    }
  }

  lemma {:induction false} TermBestIsMax(fields: seq<Field>, term: Token)
    ensures forall i :: 0 <= i < |fields| ==> TokensBest(fields[i].weight, fields[i].tokens, term) <= TermBest(fields, term)
    ensures TermBest(fields, term) == 0 ||
            exists i :: 0 <= i < |fields| && TokensBest(fields[i].weight, fields[i].tokens, term) == TermBest(fields, term)
  {
    if fields != [] {
      var n := |fields| - 1;
      TermBestIsMax(fields[..n], term);
      forall i | 0 <= i < |fields|
        ensures TokensBest(fields[i].weight, fields[i].tokens, term) <= TermBest(fields, term)
      {
        assert i < n ==> fields[..n][i] == fields[i];
      }
      if TermBest(fields[..n], term) == TermBest(fields, term) > 0 {
        var i :| 0 <= i < n && TokensBest(fields[..n][i].weight, fields[..n][i].tokens, term) == TermBest(fields[..n], term);
        assert TokensBest(fields[i].weight, fields[i].tokens, term) == TermBest(fields, term);
      }
    }
  }

  lemma {:induction false} PhraseBestIsMax(fields: seq<Field>, phrase: Stream)
    ensures forall i :: 0 <= i < |fields| ==> PhraseScore(fields[i].weight, fields[i].tokens, phrase) <= PhraseBest(fields, phrase)
    ensures PhraseBest(fields, phrase) == 0 ||
            exists i :: 0 <= i < |fields| && PhraseScore(fields[i].weight, fields[i].tokens, phrase) == PhraseBest(fields, phrase)
  {
    if fields != [] {
      var n := |fields| - 1;
      PhraseBestIsMax(fields[..n], phrase);
      forall i | 0 <= i < |fields|
        ensures PhraseScore(fields[i].weight, fields[i].tokens, phrase) <= PhraseBest(fields, phrase)
      {
        assert i < n ==> fields[..n][i] == fields[i];
      }
      if PhraseBest(fields[..n], phrase) == PhraseBest(fields, phrase) > 0 {
        var i :| 0 <= i < n && PhraseScore(fields[..n][i].weight, fields[..n][i].tokens, phrase) == PhraseBest(fields[..n], phrase);
        assert PhraseScore(fields[i].weight, fields[i].tokens, phrase) == PhraseBest(fields, phrase);
      }
    }
  }

  // The path is itself a field, so a phrase that stands in the path is always scored by a field.
  lemma PathPhraseHasField(u: Alphabet, item: Item, phrase: Stream)
    requires phrase != []
    ensures PhrasePart(Fields(u, item), Tokenize(u, item.path), phrase) == PhraseBest(Fields(u, item), phrase)
  {
    var path := Tokenize(u, item.path);
    if Within(phrase, path) {
      var fields := Fields(u, item);
      var k: nat :| k <= |path| && StandsAt(phrase, path, k);
      assert path != [];
      PhraseBestIsMax(fields, phrase);
      assert fields[|fields| - 1] == Field(1, path);
      assert PhraseScore(1, path, phrase) == 2 * |phrase|;
    }
  }

  // --- Corpora --------------------------------------------------------------------------------

  predicate HasChain(item: Item, selected: seq<Marker>) {
    selected <= item.markers
  }

  // Each selected marker stands at its depth.
  predicate MarkerAt(item: Item, depth: nat, marker: Marker) {
    depth < |item.markers| && item.markers[depth] == marker
  }

  predicate MarkersAtDepths(item: Item, selected: seq<Marker>) {
    forall d :: 0 <= d < |selected| ==> MarkerAt(item, d, selected[d])
  }

  lemma DepthsAreChain(item: Item, selected: seq<Marker>)
    ensures MarkersAtDepths(item, selected) <==> HasChain(item, selected)
  {
    if MarkersAtDepths(item, selected) && selected != [] {
      assert MarkerAt(item, |selected| - 1, selected[|selected| - 1]);
    }
    if HasChain(item, selected) {
      forall d | 0 <= d < |selected| ensures MarkerAt(item, d, selected[d]) {
      }
    }
  }

  function ChainPositions(items: seq<Item>, selected: seq<Marker>): seq<nat> {
    if items == [] then []
    else
      var n := |items| - 1;
      ChainPositions(items[..n], selected) + if HasChain(items[n], selected) then [n] else []
  }

  predicate Repeats(selected: seq<Marker>) {
    exists i, j :: 0 <= i < j < |selected| && selected[i] == selected[j]
  }

  // A repeated marker, and a chain that no item has, are refused.
  function Select(items: seq<Item>, selected: seq<Marker>): Option<seq<nat>> {
    var positions := ChainPositions(items, selected);
    if Repeats(selected) || (selected != [] && positions == []) then None else Some(positions)
  }

  // Exactly the positions of the items with the chain, in corpus order.
  ghost predicate AreChainPositions(positions: seq<nat>, items: seq<Item>, selected: seq<Marker>) {
    (forall i :: 0 <= i < |positions| ==> positions[i] < |items| && HasChain(items[positions[i]], selected)) &&
    (forall i, j :: 0 <= i < j < |positions| ==> positions[i] < positions[j]) &&
    (forall p :: 0 <= p < |items| && HasChain(items[p], selected) ==> p in positions)
  }

  lemma OneMoreItem(positions: seq<nat>, items: seq<Item>, item: Item, selected: seq<Marker>)
    requires AreChainPositions(positions, items, selected)
    ensures AreChainPositions(positions + (if HasChain(item, selected) then [|items|] else []), items + [item], selected)
  {
    var later := positions + if HasChain(item, selected) then [|items|] else [];
    forall p | 0 <= p < |items| + 1 && HasChain((items + [item])[p], selected) ensures p in later {
      if p < |items| { assert p in positions; }
    }
  }

  lemma {:induction false} ChainPositionsAreExact(items: seq<Item>, selected: seq<Marker>)
    ensures AreChainPositions(ChainPositions(items, selected), items, selected)
  {
    if items != [] {
      var n := |items| - 1;
      ChainPositionsAreExact(items[..n], selected);
      OneMoreItem(ChainPositions(items[..n], selected), items[..n], items[n], selected);
      assert items[..n] + [items[n]] == items;
    }
  }
}
