/**
 * Query texts: parsing into terms and quoted phrases, and the applied text that is shown back. Parsing the
 * applied text again gives the same query.
 */
module QueryText {
  import opened Wrappers
  import opened Utf8
  import opened Alphabets
  import opened Tokens

  datatype Chunk = Chunk(quoted: bool, group: Stream)
  datatype Parsed = Parsed(terms: seq<Token>, phrases: seq<Stream>, applied: Text)

  type Spaces = CodePoint -> bool

  // --- Parsing --------------------------------------------------------------------------------

  function WordLength(space: Spaces, value: Text): (n: nat)
    ensures n <= |value| && forall i :: 0 <= i < n ==> !space(value[i]) && value[i] != Quote
    ensures n < |value| ==> space(value[n]) || value[n] == Quote
  {
    if value == [] || space(value[0]) || value[0] == Quote then 0 else 1 + WordLength(space, value[1..])
  }

  // The next quote, or the length.
  function ToQuote(value: Text): (n: nat)
    ensures n <= |value| && (forall i :: 0 <= i < n ==> value[i] != Quote) && (n < |value| ==> value[n] == Quote)
  {
    if value == [] || value[0] == Quote then 0 else 1 + ToQuote(value[1..])
  }

  function Prepend(c: Chunk, rest: Option<seq<Chunk>>): Option<seq<Chunk>> {
    if c.group == [] || rest.None? then None else Some([c] + rest.value)
  }

  function Parse(u: Alphabet, space: Spaces, value: Text): Option<seq<Chunk>>
    decreases |value|
  {
    if value == [] then Some([])
    else if space(value[0]) then Parse(u, space, value[1..])
    else if value[0] == Quote then
      var n := ToQuote(value[1..]);
      if n == |value| - 1 then None
      else
        var rest := value[n + 2..];
        if rest != [] && !space(rest[0]) then None
        else Prepend(Chunk(true, Tokenize(u, value[1..n + 1])), Parse(u, space, rest))
    else
      var n := WordLength(space, value);
      if n < |value| && value[n] == Quote then None
      else Prepend(Chunk(false, Tokenize(u, value[..n])), Parse(u, space, value[n..]))
  }

  // --- The query and its applied text ---------------------------------------------------------

  function Unique<T(==)>(s: seq<T>): seq<T> {
    if s == [] then []
    else
      var init := Unique(s[..|s| - 1]);
      if s[|s| - 1] in init then init else init + [s[|s| - 1]]
  }

  function TermsOf(chunks: seq<Chunk>): seq<Token> {
    if chunks == [] then []
    else TermsOf(chunks[..|chunks| - 1]) + if chunks[|chunks| - 1].quoted then [] else chunks[|chunks| - 1].group
  }

  function PhrasesOf(chunks: seq<Chunk>): seq<Stream> {
    if chunks == [] then []
    else PhrasesOf(chunks[..|chunks| - 1]) + if chunks[|chunks| - 1].quoted then [chunks[|chunks| - 1].group] else []
  }

  function Spaced(texts: seq<Text>): Text {
    if texts == [] then [] else if |texts| == 1 then texts[0] else texts[0] + [Space] + Spaced(texts[1..])
  }

  function ChunkText(c: Chunk): Text {
    if c.quoted then [Quote] + Spaced(c.group) + [Quote] else Spaced(c.group)
  }

  function ChunkTexts(chunks: seq<Chunk>): seq<Text> {
    seq(|chunks|, i requires 0 <= i < |chunks| => ChunkText(chunks[i]))
  }

  function Query(chunks: seq<Chunk>): Parsed {
    Parsed(Unique(TermsOf(chunks)), Unique(PhrasesOf(chunks)), Spaced(ChunkTexts(chunks)))
  }

  function ParseQuery(u: Alphabet, space: Spaces, value: Text): Option<Parsed> {
    var chunks := Parse(u, space, value);
    if chunks.None? then None else Some(Query(chunks.value))
  }

  // --- The parser as a program ----------------------------------------------------------------

  // The chunk at the start of the rest, and its length; none if it is malformed or empty.
  method NextChunk(u: Alphabet, space: Spaces, rest: Text) returns (chunk: Option<Chunk>, n: nat)
    requires rest != [] && !space(rest[0])
    ensures chunk.None? ==> Parse(u, space, rest).None?
    ensures chunk.Some? ==> chunk.value.group != [] && 0 < n <= |rest| &&
                            Parse(u, space, rest) == Prepend(chunk.value, Parse(u, space, rest[n..]))
  {
    n := if rest[0] == Quote then ToQuote(rest[1..]) + 2 else WordLength(space, rest);
    if Broken(space, rest, n) {
      return None, n;
    }
    OneChunk(u, space, rest, n);
    var c := ChunkAt(u, rest, n);
    if c.group == [] {
      return None, n;
    }
    return Some(c), n;
  }

  method ParseChunks(u: Alphabet, space: Spaces, value: Text) returns (chunks: Option<seq<Chunk>>)
    ensures chunks == Parse(u, space, value)
  {
    var done: seq<Chunk> := [];
    var rest := value;
    JoinedEnds([], Parse(u, space, value));
    while rest != []
      invariant Parse(u, space, value) == Joined(done, Parse(u, space, rest))
      decreases |rest|
    {
      if space(rest[0]) {
        rest := rest[1..];
      } else {
        var chunk, n := NextChunk(u, space, rest);
        if chunk.None? {
          return None;
        }
        JoinedMore(done, chunk.value, Parse(u, space, rest[n..]));
        done, rest := done + [chunk.value], rest[n..];
      }
    }
    JoinedEnds(done, Some([]));
    return Some(done);
  }

  method ParseText(u: Alphabet, space: Spaces, value: Text) returns (query: Option<Parsed>)
    ensures query == ParseQuery(u, space, value)
  {
    var chunks := ParseChunks(u, space, value);
    if chunks.None? {
      return None;
    }
    var terms, phrases := Collect(chunks.value);
    return Some(Parsed(terms, phrases, Spaced(ChunkTexts(chunks.value))));
  }

  // Terms and phrases in order of appearance, each once.
  method Collect(chunks: seq<Chunk>) returns (terms: seq<Token>, phrases: seq<Stream>)
    ensures terms == Unique(TermsOf(chunks)) && phrases == Unique(PhrasesOf(chunks))
  {
    terms, phrases := [], [];
    for i := 0 to |chunks|
      invariant terms == Unique(TermsOf(chunks[..i])) && phrases == Unique(PhrasesOf(chunks[..i]))
    {
      assert chunks[..i + 1][..i] == chunks[..i];
      if chunks[i].quoted {
        phrases := AddPhrase(PhrasesOf(chunks[..i]), phrases, chunks[i].group);
        assert TermsOf(chunks[..i]) + [] == TermsOf(chunks[..i]);
      } else {
        terms := AddTerms(TermsOf(chunks[..i]), terms, chunks[i].group);
        assert PhrasesOf(chunks[..i]) + [] == PhrasesOf(chunks[..i]);
      }
    }
    assert chunks[..|chunks|] == chunks;
  }

  method AddPhrase(ghost all: seq<Stream>, phrases: seq<Stream>, group: Stream) returns (more: seq<Stream>)
    requires phrases == Unique(all)
    ensures more == Unique(all + [group])
  {
    assert (all + [group])[..|all|] == all;
    more := if group in phrases then phrases else phrases + [group];
  }

  method AddTerms(ghost all: seq<Token>, terms: seq<Token>, group: Stream) returns (more: seq<Token>)
    requires terms == Unique(all)
    ensures more == Unique(all + group)
  {
    more := terms;
    assert all + group[..0] == all;
    for k := 0 to |group|
      invariant more == Unique(all + group[..k])
    {
      assert all + group[..k + 1] == (all + group[..k]) + [group[k]];
      assert ((all + group[..k]) + [group[k]])[..|all + group[..k]|] == all + group[..k];
      if group[k] !in more {
        more := more + [group[k]];
      }
    }
    assert group[..|group|] == group;
  }

  // A quote that is not closed, or that does not stand apart.
  predicate Broken(space: Spaces, rest: Text, n: nat)
    requires rest != []
  {
    if rest[0] == Quote then n > |rest| || (n < |rest| && !space(rest[n]))
    else n < |rest| && rest[n] == Quote
  }

  function ChunkAt(u: Alphabet, rest: Text, n: nat): Chunk
    requires rest != [] && n <= |rest| && (rest[0] == Quote ==> n >= 2)
  {
    if rest[0] == Quote then Chunk(true, Tokenize(u, rest[1..n - 1])) else Chunk(false, Tokenize(u, rest[..n]))
  }

  function Joined(done: seq<Chunk>, rest: Option<seq<Chunk>>): Option<seq<Chunk>> {
    if rest.None? then None else Some(done + rest.value)
  }

  lemma JoinedMore(done: seq<Chunk>, c: Chunk, rest: Option<seq<Chunk>>)
    requires c.group != []
    ensures Joined(done, Prepend(c, rest)) == Joined(done + [c], rest)
  {
    if rest.Some? { assert done + ([c] + rest.value) == done + [c] + rest.value; }
  }

  lemma JoinedEnds(done: seq<Chunk>, rest: Option<seq<Chunk>>)
    ensures done == [] ==> Joined(done, rest) == rest
    ensures rest == Some([]) ==> Joined(done, rest) == Some(done)
  {
    assert done + [] == done;
    if rest.Some? { assert [] + rest.value == rest.value; }
  }

  lemma OneChunk(u: Alphabet, space: Spaces, rest: Text, n: nat)
    requires rest != [] && !space(rest[0])
    requires n == if rest[0] == Quote then ToQuote(rest[1..]) + 2 else WordLength(space, rest)
    requires !Broken(space, rest, n)
    ensures n > 0 && n <= |rest|
    ensures Parse(u, space, rest) == Prepend(ChunkAt(u, rest, n), Parse(u, space, rest[n..]))
  {
  }

  // --- Tokens stay tokens ---------------------------------------------------------------------

  // Spaces separate, and a quote is neither a space nor a separator.
  ghost predicate Spacing(u: Alphabet, space: Spaces) {
    space(Space) && !space(Quote) && !u.Separates(Quote) && forall c: CodePoint :: space(c) ==> u.Separates(c)
  }

  // Folding is idempotent, and makes neither separators nor quotes; it may change a letter into a mark, or back.
  ghost predicate Stable(u: Alphabet, space: Spaces) {
    Spacing(u, space) && forall c: CodePoint :: !u.Separates(c) && c != Quote ==> FoldsWell(u, c)
  }

  ghost predicate FoldsWell(u: Alphabet, c: CodePoint) {
    u.fold(c) != [] &&
    forall i :: 0 <= i < |u.fold(c)| ==> u.fold(c)[i] != Quote && !u.Separates(u.fold(c)[i]) && Fixed(u, u.fold(c)[i])
  }

  predicate Fixed(u: Alphabet, c: CodePoint) {
    u.fold(c) == [c]
  }

  predicate KeepsClass(u: Alphabet, c: CodePoint) {
    forall i :: 0 <= i < |u.fold(c)| ==> u.classOf(u.fold(c)[i]) == u.classOf(c)
  }

  // A run of plain characters, as the parser folds them.
  ghost predicate IsPlain(u: Alphabet, w: Text) {
    w != [] && forall i :: 0 <= i < |w| ==> !u.Separates(w[i]) && w[i] != Quote
  }

  // A run of plain characters without a boundary.
  ghost predicate IsWord(u: Alphabet, w: Text) {
    IsPlain(u, w) && NoBoundary(u, w)
  }

  ghost predicate IsFixed(u: Alphabet, w: Text) {
    IsPlain(u, w) && forall i :: 0 <= i < |w| ==> Fixed(u, w[i])
  }

  ghost predicate IsToken(u: Alphabet, w: Text) {
    IsFixed(u, w) && NoBoundary(u, w)
  }

  // No letter next to a digit.
  predicate NoBoundary(u: Alphabet, s: Text) {
    forall i :: 0 < i < |s| ==> !Boundary(u, s[i - 1], s[i])
  }

  ghost predicate NoQuote(s: Text) {
    forall i :: 0 <= i < |s| ==> s[i] != Quote
  }

  lemma {:induction false} FoldedTokens(u: Alphabet, w: Text)
    requires forall i :: 0 <= i < |w| ==> Fixed(u, w[i])
    ensures u.Fold(w) == w
  {
    if w != [] { FoldedTokens(u, w[..|w| - 1]); }
  }

  lemma {:induction false} FoldIsFixed(u: Alphabet, space: Spaces, w: Text)
    requires Stable(u, space) && IsPlain(u, w)
    ensures IsFixed(u, u.Fold(w))
  {
    var n := |w| - 1;
    assert FoldsWell(u, w[n]);
    if n == 0 {
      assert u.Fold(w[..0]) == [] && u.Fold(w) == u.fold(w[0]);
    } else {
      FoldIsFixed(u, space, w[..n]);
    }
  }

  // Folding that keeps the classes of a word keeps it a word, with the class of its last character.
  lemma {:induction false} FoldIsToken(u: Alphabet, space: Spaces, w: Text)
    requires Stable(u, space) && IsWord(u, w) && forall i :: 0 <= i < |w| ==> KeepsClass(u, w[i])
    ensures IsToken(u, u.Fold(w)) && u.classOf(u.Fold(w)[|u.Fold(w)| - 1]) == u.classOf(w[|w| - 1])
  {
    var n := |w| - 1;
    assert FoldsWell(u, w[n]) && KeepsClass(u, w[n]);
    if n == 0 {
      assert u.Fold(w[..0]) == [];
      assert u.Fold(w) == u.fold(w[0]);
    } else {
      InitIsWord(u, w);
      FoldIsToken(u, space, w[..n]);
      TokensJoin(u, u.Fold(w[..n]), u.fold(w[n]));
    }
  }

  lemma InitIsWord(u: Alphabet, w: Text)
    requires IsWord(u, w) && |w| > 1
    ensures IsWord(u, w[..|w| - 1]) && w[..|w| - 1][|w| - 2] == w[|w| - 2] && !Boundary(u, w[|w| - 2], w[|w| - 1])
  {
  }

  lemma TokensJoin(u: Alphabet, a: Text, b: Text)
    requires IsToken(u, a) && b != [] && !Boundary(u, a[|a| - 1], b[0])
    requires forall i :: 0 <= i < |b| ==>
               !u.Separates(b[i]) && b[i] != Quote && u.classOf(b[i]) == u.classOf(b[0]) && Fixed(u, b[i])
    ensures IsToken(u, a + b)
  {
    var w := a + b;
    forall i | 0 < i < |w| ensures !Boundary(u, w[i - 1], w[i]) {
      if i > |a| { assert u.classOf(b[i - 1 - |a|]) == u.classOf(b[i - |a|]); }
    }
  }

  lemma {:induction false} SeparateCuts(u: Alphabet, text: Text)
    requires u.Separates(Space) && NoQuote(text)
    ensures NoBoundary(u, Separate(u, text)) && NoQuote(Separate(u, text))
    ensures text != [] ==> Separate(u, text) != [] && Separate(u, text)[|Separate(u, text)| - 1] == text[|text| - 1]
  {
    if |text| > 1 { SeparateCuts(u, text[..|text| - 1]); }
  }

  ghost predicate AreWords(u: Alphabet, words: seq<Text>) {
    forall k :: 0 <= k < |words| ==> IsWord(u, words[k])
  }

  lemma {:induction false} SplitGivesWords(u: Alphabet, s: Text)
    requires NoBoundary(u, s) && NoQuote(s)
    ensures AreWords(u, Split(u, s))
    ensures !Fresh(u, s) ==> var w := Split(u, s)[|Split(u, s)| - 1]; w[|w| - 1] == s[|s| - 1]
  {
    if s != [] {
      var n := |s| - 1;
      SplitGivesWords(u, s[..n]);
      if !u.Separates(s[n]) && !Fresh(u, s[..n]) {
        var words := Split(u, s[..n]);
        assert !Boundary(u, s[n - 1], s[n]);
        OneMorePoint(u, words[|words| - 1], s[n]);
      }
    }
  }

  lemma OneMorePoint(u: Alphabet, w: Text, c: CodePoint)
    requires IsWord(u, w) && !u.Separates(c) && c != Quote && !Boundary(u, w[|w| - 1], c)
    ensures IsWord(u, w + [c])
  {
  }

  // Every character is a separator or of one kind.
  ghost predicate Made(u: Alphabet, ok: CodePoint -> bool, text: Text) {
    forall i :: 0 <= i < |text| ==> u.Separates(text[i]) || ok(text[i])
  }

  ghost predicate Of(ok: CodePoint -> bool, w: Text) {
    forall i :: 0 <= i < |w| ==> ok(w[i])
  }

  lemma {:induction false} SeparateMade(u: Alphabet, ok: CodePoint -> bool, text: Text)
    requires u.Separates(Space) && Made(u, ok, text)
    ensures Made(u, ok, Separate(u, text))
  {
    if |text| > 1 { SeparateMade(u, ok, text[..|text| - 1]); }
  }

  lemma {:induction false} SplitMade(u: Alphabet, ok: CodePoint -> bool, s: Text)
    requires Made(u, ok, s)
    ensures forall k :: 0 <= k < |Split(u, s)| ==> Of(ok, Split(u, s)[k])
  {
    if s != [] {
      var n := |s| - 1;
      SplitMade(u, ok, s[..n]);
      var words := Split(u, s[..n]);
      if !u.Separates(s[n]) && !Fresh(u, s[..n]) {
        assert Of(ok, words[|words| - 1]);
      }
    }
  }

  // The words of a text are words, and made of its characters.
  lemma WordsOfText(u: Alphabet, space: Spaces, ok: CodePoint -> bool, text: Text)
    requires Spacing(u, space) && NoQuote(text) && Made(u, ok, text)
    ensures var words := Split(u, Separate(u, text));
            AreWords(u, words) && forall k :: 0 <= k < |words| ==> Of(ok, words[k])
  {
    SeparateCuts(u, text);
    SplitGivesWords(u, Separate(u, text));
    SeparateMade(u, ok, text);
    SplitMade(u, ok, Separate(u, text));
  }

  ghost function Fixeds(u: Alphabet): CodePoint -> bool {
    (c: CodePoint) => Fixed(u, c)
  }

  ghost function Keepers(u: Alphabet): CodePoint -> bool {
    (c: CodePoint) => KeepsClass(u, c)
  }

  // The groups that the parser makes.
  ghost predicate AreTokens(u: Alphabet, group: Stream) {
    forall k :: 0 <= k < |group| ==> IsToken(u, group[k])
  }

  ghost predicate AreFixed(u: Alphabet, group: Stream) {
    forall k :: 0 <= k < |group| ==> IsFixed(u, group[k])
  }

  lemma TokenizeGivesFixed(u: Alphabet, space: Spaces, text: Text)
    requires Stable(u, space) && NoQuote(text)
    ensures AreFixed(u, Tokenize(u, text))
  {
    WordsOfText(u, space, (c: CodePoint) => true, text);
    var words := Split(u, Separate(u, text));
    forall k | 0 <= k < |words| ensures IsFixed(u, FoldAll(u, words)[k]) {
      assert IsWord(u, words[k]);
      FoldIsFixed(u, space, words[k]);
    }
  }

  // Characters that keep their class make no new boundary.
  lemma TokenizeKeepsClasses(u: Alphabet, space: Spaces, text: Text)
    requires Stable(u, space) && NoQuote(text) && Made(u, Keepers(u), text)
    ensures AreTokens(u, Tokenize(u, text))
  {
    WordsOfText(u, space, Keepers(u), text);
    var words := Split(u, Separate(u, text));
    forall k | 0 <= k < |words| ensures IsToken(u, FoldAll(u, words)[k]) {
      assert IsWord(u, words[k]) && Of(Keepers(u), words[k]);
      FoldIsToken(u, space, words[k]);
    }
  }

  // A folded text has only tokens without a boundary: they are cut where one would be.
  lemma TokenizeSettled(u: Alphabet, space: Spaces, text: Text)
    requires Spacing(u, space) && NoQuote(text) && Made(u, Fixeds(u), text)
    ensures AreTokens(u, Tokenize(u, text))
  {
    WordsOfText(u, space, Fixeds(u), text);
    var words := Split(u, Separate(u, text));
    forall k | 0 <= k < |words| ensures IsToken(u, FoldAll(u, words)[k]) {
      assert IsWord(u, words[k]) && Of(Fixeds(u), words[k]);
      FoldedTokens(u, words[k]);
    }
  }

  lemma {:induction false} WordStaysWhole(u: Alphabet, w: Text)
    requires w != [] && NoBoundary(u, w) && forall i :: 0 <= i < |w| ==> !u.Separates(w[i])
    ensures Separate(u, w) == w && Split(u, w) == [w]
  {
    if |w| > 1 {
      WordStaysWhole(u, w[..|w| - 1]);
    } else {
      assert w[..0] == [] && w == [w[0]];
    }
  }

  lemma TokenIsOneToken(u: Alphabet, t: Token)
    requires IsToken(u, t)
    ensures Tokenize(u, t) == [t]
  {
    WordStaysWhole(u, t);
    FoldedTokens(u, t);
    assert FoldAll(u, [t]) == [t];
  }

  /** Tokens printed with spaces between them are read back as the same tokens. */
  lemma {:induction false} SpacedTokens(u: Alphabet, group: Stream)
    requires u.Separates(Space) && AreTokens(u, group)
    ensures Tokenize(u, Spaced(group)) == group && NoQuote(Spaced(group))
  {
    if |group| == 0 {
      assert Tokenize(u, []) == [];
    } else if |group| == 1 {
      TokenIsOneToken(u, group[0]);
    } else {
      SpacedTokens(u, group[1..]);
      TokenIsOneToken(u, group[0]);
      TokenizeAt(u, group[0], Space, Spaced(group[1..]));
      assert group == [group[0]] + group[1..];
    }
  }

  // --- Parsing what was printed ---------------------------------------------------------------

  // Chunks as the parser reads printed ones: tokens outside of quotes stand alone.
  ghost predicate Plain(u: Alphabet, chunks: seq<Chunk>) {
    forall i :: 0 <= i < |chunks| ==>
      chunks[i].group != [] && AreTokens(u, chunks[i].group) && (!chunks[i].quoted ==> |chunks[i].group| == 1)
  }

  // What follows a printed chunk: nothing, or a space and more.
  ghost predicate Apart(space: Spaces, rest: Text) {
    rest == [] || space(rest[0])
  }

  lemma PrintedWord(u: Alphabet, space: Spaces, t: Token, rest: Text)
    requires Spacing(u, space) && IsToken(u, t) && Apart(space, rest)
    ensures Parse(u, space, t + rest) == Prepend(Chunk(false, [t]), Parse(u, space, rest))
  {
    var value := t + rest;
    WordEnds(space, t, rest);
    assert value[..|t|] == t && value[|t|..] == rest;
    TokenIsOneToken(u, t);
  }

  lemma {:induction false} WordEnds(space: Spaces, t: Text, rest: Text)
    requires (forall i :: 0 <= i < |t| ==> !space(t[i]) && t[i] != Quote) && Apart(space, rest)
    ensures WordLength(space, t + rest) == |t|
  {
    if t == [] {
      assert t + rest == rest;
    } else {
      assert (t + rest)[1..] == t[1..] + rest;
      WordEnds(space, t[1..], rest);
    }
  }

  lemma {:induction false} QuoteEnds(s: Text, rest: Text)
    requires NoQuote(s)
    ensures ToQuote(s + [Quote] + rest) == |s|
  {
    if s == [] {
      assert s + [Quote] + rest == [Quote] + rest;
    } else {
      assert (s + [Quote] + rest)[1..] == s[1..] + [Quote] + rest;
      QuoteEnds(s[1..], rest);
    }
  }

  lemma QuotedParses(u: Alphabet, space: Spaces, s: Text, rest: Text)
    requires !space(Quote) && NoQuote(s) && Apart(space, rest)
    ensures Parse(u, space, [Quote] + s + [Quote] + rest) == Prepend(Chunk(true, Tokenize(u, s)), Parse(u, space, rest))
  {
    var value := [Quote] + s + [Quote] + rest;
    assert value[1..] == s + [Quote] + rest;
    QuoteEnds(s, rest);
    assert value[1..|s| + 1] == s && value[|s| + 2..] == rest;
  }

  lemma PrintedPhrase(u: Alphabet, space: Spaces, group: Stream, rest: Text)
    requires Spacing(u, space) && group != [] && AreTokens(u, group) && Apart(space, rest)
    ensures Parse(u, space, ChunkText(Chunk(true, group)) + rest) == Prepend(Chunk(true, group), Parse(u, space, rest))
  {
    SpacedTokens(u, group);
    QuotedParses(u, space, Spaced(group), rest);
  }

  lemma PrintedChunk(u: Alphabet, space: Spaces, c: Chunk, rest: Text)
    requires Spacing(u, space) && c.group != [] && AreTokens(u, c.group) && (!c.quoted ==> |c.group| == 1)
    requires Apart(space, rest)
    ensures Parse(u, space, ChunkText(c) + rest) == Prepend(c, Parse(u, space, rest))
  {
    if c.quoted {
      PrintedPhrase(u, space, c.group, rest);
    } else {
      PrintedWord(u, space, c.group[0], rest);
      assert c.group == [c.group[0]];
    }
  }

  lemma ParseSpace(u: Alphabet, space: Spaces, rest: Text)
    requires space(Space)
    ensures Parse(u, space, [Space] + rest) == Parse(u, space, rest)
  {
    assert ([Space] + rest)[1..] == rest;
  }

  /** Parsing the text of plain chunks gives these chunks. */
  lemma {:induction false} ParsePrinted(u: Alphabet, space: Spaces, chunks: seq<Chunk>)
    requires Spacing(u, space) && Plain(u, chunks)
    ensures Parse(u, space, Spaced(ChunkTexts(chunks))) == Some(chunks)
  {
    assert u.Separates(Space);
    if chunks != [] {
      var c, tail := chunks[0], chunks[1..];
      ParsePrinted(u, space, tail);
      var rest := if tail == [] then [] else [Space] + Spaced(ChunkTexts(tail));
      FirstText(chunks);
      if tail != [] { ParseSpace(u, space, Spaced(ChunkTexts(tail))); }
      PrintedChunk(u, space, c, rest);
      assert chunks == [c] + tail;
    }
  }

  lemma FirstText(chunks: seq<Chunk>)
    requires chunks != []
    ensures Spaced(ChunkTexts(chunks)) ==
            ChunkText(chunks[0]) + if chunks[1..] == [] then [] else [Space] + Spaced(ChunkTexts(chunks[1..]))
  {
    assert ChunkTexts(chunks)[1..] == ChunkTexts(chunks[1..]);
  }

  // --- The fixpoint ---------------------------------------------------------------------------

  ghost predicate WellGrouped(u: Alphabet, chunks: seq<Chunk>) {
    forall i :: 0 <= i < |chunks| ==> chunks[i].group != [] && AreTokens(u, chunks[i].group)
  }

  lemma QuotedContent(value: Text, n: nat)
    requires value != [] && n == ToQuote(value[1..]) < |value| - 1
    ensures NoQuote(value[1..n + 1])
  {
    var content := value[1..n + 1];
    forall i | 0 <= i < |content| ensures content[i] != Quote {
      assert content[i] == value[1..][i];
    }
  }

  // A group of tokens comes from a part of the text.
  ghost predicate From(u: Alphabet, value: Text, group: Stream) {
    exists content :: Part(content, value) && group == Tokenize(u, content)
  }

  ghost predicate Part(content: Text, value: Text) {
    NoQuote(content) && forall i :: 0 <= i < |content| ==> content[i] in value
  }

  ghost predicate AllFrom(u: Alphabet, value: Text, chunks: seq<Chunk>) {
    forall i :: 0 <= i < |chunks| ==> chunks[i].group != [] && From(u, value, chunks[i].group)
  }

  lemma FromTail(u: Alphabet, value: Text, n: nat, chunks: seq<Chunk>)
    requires n <= |value| && AllFrom(u, value[n..], chunks)
    ensures AllFrom(u, value, chunks)
  {
    forall i | 0 <= i < |chunks| ensures From(u, value, chunks[i].group) {
      var content :| Part(content, value[n..]) && chunks[i].group == Tokenize(u, content);
      assert Part(content, value);
    }
  }

  lemma {:induction false} ParsedFrom(u: Alphabet, space: Spaces, value: Text)
    requires Parse(u, space, value).Some?
    ensures AllFrom(u, value, Parse(u, space, value).value)
    decreases |value|
  {
    if value != [] {
      if space(value[0]) {
        ParsedFrom(u, space, value[1..]);
        FromTail(u, value, 1, Parse(u, space, value[1..]).value);
      } else if value[0] == Quote {
        var n := ToQuote(value[1..]);
        QuotedContent(value, n);
        assert Part(value[1..n + 1], value);
        ParsedFrom(u, space, value[n + 2..]);
        FromTail(u, value, n + 2, Parse(u, space, value[n + 2..]).value);
      } else {
        var n := WordLength(space, value);
        assert Part(value[..n], value);
        ParsedFrom(u, space, value[n..]);
        FromTail(u, value, n, Parse(u, space, value[n..]).value);
      }
    }
  }

  ghost predicate FixedGroups(u: Alphabet, chunks: seq<Chunk>) {
    forall i :: 0 <= i < |chunks| ==> chunks[i].group != [] && AreFixed(u, chunks[i].group)
  }

  lemma ParsedIsFixed(u: Alphabet, space: Spaces, value: Text)
    requires Stable(u, space) && Parse(u, space, value).Some?
    ensures FixedGroups(u, Parse(u, space, value).value)
  {
    ParsedFrom(u, space, value);
    var chunks := Parse(u, space, value).value;
    forall i | 0 <= i < |chunks| ensures AreFixed(u, chunks[i].group) {
      assert From(u, value, chunks[i].group);
      var content :| Part(content, value) && chunks[i].group == Tokenize(u, content);
      TokenizeGivesFixed(u, space, content);
    }
  }

  // A text of folded characters, separators and quotes.
  ghost predicate Settled(u: Alphabet, text: Text) {
    forall i :: 0 <= i < |text| ==> u.Separates(text[i]) || text[i] == Quote || Fixed(u, text[i])
  }

  lemma SettledParses(u: Alphabet, space: Spaces, value: Text)
    requires Spacing(u, space) && Settled(u, value) && Parse(u, space, value).Some?
    ensures WellGrouped(u, Parse(u, space, value).value)
  {
    ParsedFrom(u, space, value);
    var chunks := Parse(u, space, value).value;
    forall i | 0 <= i < |chunks| ensures AreTokens(u, chunks[i].group) {
      assert From(u, value, chunks[i].group);
      var content :| Part(content, value) && chunks[i].group == Tokenize(u, content);
      TokenizeSettled(u, space, content);
    }
  }

  lemma {:induction false} SpacedSettles(u: Alphabet, texts: seq<Text>)
    requires u.Separates(Space) && forall k :: 0 <= k < |texts| ==> Settled(u, texts[k])
    ensures Settled(u, Spaced(texts))
  {
    if |texts| > 1 { SpacedSettles(u, texts[1..]); }
  }

  lemma AppliedIsSettled(u: Alphabet, chunks: seq<Chunk>)
    requires u.Separates(Space) && FixedGroups(u, chunks)
    ensures Settled(u, Spaced(ChunkTexts(chunks)))
  {
    var texts := ChunkTexts(chunks);
    forall k | 0 <= k < |texts| ensures Settled(u, texts[k]) {
      var group := chunks[k].group;
      forall i | 0 <= i < |group| ensures Settled(u, group[i]) { assert IsFixed(u, group[i]); }
      SpacedSettles(u, group);
    }
    SpacedSettles(u, texts);
  }

  function Singles(group: Stream): seq<Chunk> {
    seq(|group|, i requires 0 <= i < |group| => Chunk(false, [group[i]]))
  }

  // The same chunks with every token outside of quotes on its own.
  function Normal(chunks: seq<Chunk>): seq<Chunk> {
    if chunks == [] then []
    else
      var c := chunks[|chunks| - 1];
      Normal(chunks[..|chunks| - 1]) + if c.quoted then [c] else Singles(c.group)
  }

  lemma {:induction false} NormalIsPlain(u: Alphabet, chunks: seq<Chunk>)
    requires WellGrouped(u, chunks)
    ensures Plain(u, Normal(chunks)) && (chunks != [] ==> Normal(chunks) != [])
  {
    if chunks != [] { NormalIsPlain(u, chunks[..|chunks| - 1]); }
  }

  lemma TermsOfOneMore(a: seq<Chunk>, c: Chunk)
    ensures TermsOf(a + [c]) == TermsOf(a) + (if c.quoted then [] else c.group)
    ensures PhrasesOf(a + [c]) == PhrasesOf(a) + (if c.quoted then [c.group] else [])
  {
    assert (a + [c])[..|a|] == a;
  }

  lemma Regroup<T>(a: seq<T>, b: seq<T>, c: seq<T>)
    ensures a + b + c == a + (b + c)
  {
  }

  lemma {:induction false} TermsConcat(a: seq<Chunk>, b: seq<Chunk>)
    ensures TermsOf(a + b) == TermsOf(a) + TermsOf(b) && PhrasesOf(a + b) == PhrasesOf(a) + PhrasesOf(b)
  {
    if b == [] {
      assert a + b == a;
    } else {
      var init, c := b[..|b| - 1], b[|b| - 1];
      TermsConcat(a, init);
      ConcatOneMore(a, init, c);
      assert b == init + [c];
    }
  }

  lemma ConcatOneMore(a: seq<Chunk>, init: seq<Chunk>, c: Chunk)
    requires TermsOf(a + init) == TermsOf(a) + TermsOf(init) && PhrasesOf(a + init) == PhrasesOf(a) + PhrasesOf(init)
    ensures TermsOf(a + (init + [c])) == TermsOf(a) + TermsOf(init + [c])
    ensures PhrasesOf(a + (init + [c])) == PhrasesOf(a) + PhrasesOf(init + [c])
  {
    Regroup(a, init, [c]);
    TermsOfOneMore(a + init, c);
    TermsOfOneMore(init, c);
    Regroup(TermsOf(a), TermsOf(init), if c.quoted then [] else c.group);
    Regroup(PhrasesOf(a), PhrasesOf(init), if c.quoted then [c.group] else []);
  }

  lemma {:induction false} TermsOfSingles(group: Stream)
    ensures TermsOf(Singles(group)) == group && PhrasesOf(Singles(group)) == []
  {
    if group != [] {
      var n := |group| - 1;
      TermsOfSingles(group[..n]);
      assert Singles(group)[..n] == Singles(group[..n]);
    }
  }

  lemma OneTerm(c: Chunk)
    ensures TermsOf([c]) == (if c.quoted then [] else c.group) && PhrasesOf([c]) == (if c.quoted then [c.group] else [])
  {
    assert [c][..0] == [];
  }

  lemma {:induction false} NormalKeepsTerms(chunks: seq<Chunk>)
    ensures TermsOf(Normal(chunks)) == TermsOf(chunks) && PhrasesOf(Normal(chunks)) == PhrasesOf(chunks)
  {
    if chunks != [] {
      var init, c := chunks[..|chunks| - 1], chunks[|chunks| - 1];
      NormalKeepsTerms(init);
      TermsConcat(Normal(init), if c.quoted then [c] else Singles(c.group));
      OneTerm(c);
      TermsOfSingles(c.group);
    }
  }

  lemma {:induction false} SpacedConcat(a: seq<Text>, b: seq<Text>)
    requires a != [] && b != []
    ensures Spaced(a + b) == Spaced(a) + [Space] + Spaced(b)
  {
    assert (a + b)[0] == a[0];
    if |a| == 1 {
      assert (a + b)[1..] == b;
    } else {
      assert (a + b)[1..] == a[1..] + b;
      SpacedConcat(a[1..], b);
    }
  }

  lemma TextsOfSingles(group: Stream)
    ensures ChunkTexts(Singles(group)) == group
  {
  }

  lemma {:induction false} NormalKeepsText(chunks: seq<Chunk>)
    requires forall i :: 0 <= i < |chunks| ==> chunks[i].group != []
    ensures Spaced(ChunkTexts(Normal(chunks))) == Spaced(ChunkTexts(chunks))
    ensures chunks != [] ==> Normal(chunks) != []
  {
    if chunks != [] {
      var init, c := chunks[..|chunks| - 1], chunks[|chunks| - 1];
      var last := if c.quoted then [c] else Singles(c.group);
      NormalKeepsText(init);
      TextsOfSingles(c.group);
      LastText(c, last);
      TextsConcat(Normal(init), last);
      TextsConcat(init, [c]);
      assert chunks == init + [c];
      if init == [] {
        assert Normal(chunks) == last && chunks == [c];
      } else {
        SpacedConcat(ChunkTexts(Normal(init)), ChunkTexts(last));
        SpacedConcat(ChunkTexts(init), ChunkTexts([c]));
      }
    }
  }

  lemma LastText(c: Chunk, last: seq<Chunk>)
    requires last == if c.quoted then [c] else Singles(c.group)
    ensures Spaced(ChunkTexts(last)) == Spaced(ChunkTexts([c]))
  {
    assert ChunkTexts([c]) == [ChunkText(c)];
    TextsOfSingles(c.group);
  }

  lemma TextsConcat(a: seq<Chunk>, b: seq<Chunk>)
    ensures ChunkTexts(a + b) == ChunkTexts(a) + ChunkTexts(b)
  {
  }

  lemma {:induction false} UniqueKeeps<T>(s: seq<T>)
    ensures forall x :: x in Unique(s) <==> x in s
  {
    if s != [] {
      UniqueKeeps(s[..|s| - 1]);
      assert s == s[..|s| - 1] + [s[|s| - 1]];
    }
  }

  // Every token is one of a term or of a phrase.
  lemma {:induction false} GroupIsListed(chunks: seq<Chunk>, i: nat)
    requires i < |chunks|
    ensures if chunks[i].quoted then chunks[i].group in PhrasesOf(chunks)
            else forall k :: 0 <= k < |chunks[i].group| ==> chunks[i].group[k] in TermsOf(chunks)
  {
    if i < |chunks| - 1 { GroupIsListed(chunks[..|chunks| - 1], i); }
  }

  ghost predicate WithoutBoundary(u: Alphabet, group: Stream) {
    forall k :: 0 <= k < |group| ==> NoBoundary(u, group[k])
  }

  ghost predicate ListsUnbroken(u: Alphabet, terms: seq<Token>, phrases: seq<Stream>) {
    WithoutBoundary(u, terms) && forall k :: 0 <= k < |phrases| ==> WithoutBoundary(u, phrases[k])
  }

  // No token of the query has a letter next to a digit.
  ghost predicate Unbroken(u: Alphabet, q: Parsed) {
    ListsUnbroken(u, q.terms, q.phrases)
  }

  lemma UniqueUnbroken(u: Alphabet, terms: seq<Token>, phrases: seq<Stream>)
    ensures ListsUnbroken(u, Unique(terms), Unique(phrases)) <==> ListsUnbroken(u, terms, phrases)
  {
    UniqueKeeps(terms);
    UniqueKeeps(phrases);
    if ListsUnbroken(u, Unique(terms), Unique(phrases)) {
      SameUnbroken(u, Unique(terms), Unique(phrases), terms, phrases);
    }
    if ListsUnbroken(u, terms, phrases) { SameUnbroken(u, terms, phrases, Unique(terms), Unique(phrases)); }
  }

  lemma SameUnbroken(u: Alphabet, terms: seq<Token>, phrases: seq<Stream>, others: seq<Token>, more: seq<Stream>)
    requires ListsUnbroken(u, terms, phrases)
    requires (forall t :: t in others ==> t in terms) && forall p :: p in more ==> p in phrases
    ensures ListsUnbroken(u, others, more)
  {
    forall k | 0 <= k < |others| ensures NoBoundary(u, others[k]) {
      assert others[k] in others;
    }
    forall k | 0 <= k < |more| ensures WithoutBoundary(u, more[k]) {
      assert more[k] in more;
    }
  }

  lemma GroupUnbroken(u: Alphabet, chunks: seq<Chunk>, i: nat)
    requires ListsUnbroken(u, TermsOf(chunks), PhrasesOf(chunks)) && i < |chunks|
    ensures WithoutBoundary(u, chunks[i].group)
  {
    GroupIsListed(chunks, i);
    if !chunks[i].quoted {
      forall k | 0 <= k < |chunks[i].group| ensures NoBoundary(u, chunks[i].group[k]) {
        assert chunks[i].group[k] in TermsOf(chunks);
      }
    }
  }

  lemma FixedAreTokens(u: Alphabet, group: Stream)
    requires AreFixed(u, group)
    ensures WithoutBoundary(u, group) <==> AreTokens(u, group)
  {
    forall k | 0 <= k < |group| ensures IsToken(u, group[k]) <==> NoBoundary(u, group[k]) {
      assert IsFixed(u, group[k]);
    }
  }

  lemma UnbrokenIsWell(u: Alphabet, chunks: seq<Chunk>)
    requires FixedGroups(u, chunks) && ListsUnbroken(u, TermsOf(chunks), PhrasesOf(chunks))
    ensures WellGrouped(u, chunks)
  {
    forall i | 0 <= i < |chunks| ensures AreTokens(u, chunks[i].group) {
      GroupUnbroken(u, chunks, i);
      FixedAreTokens(u, chunks[i].group);
    }
  }

  lemma {:induction false} WellIsUnbroken(u: Alphabet, chunks: seq<Chunk>)
    requires WellGrouped(u, chunks)
    ensures ListsUnbroken(u, TermsOf(chunks), PhrasesOf(chunks))
  {
    if chunks != [] {
      var n := |chunks| - 1;
      WellIsUnbroken(u, chunks[..n]);
      forall k | 0 <= k < |chunks[n].group| ensures NoBoundary(u, chunks[n].group[k]) {
        assert IsToken(u, chunks[n].group[k]);
      }
    }
  }

  lemma WellIsFixpoint(u: Alphabet, space: Spaces, chunks: seq<Chunk>)
    requires Spacing(u, space) && WellGrouped(u, chunks)
    ensures ParseQuery(u, space, Query(chunks).applied) == Some(Query(chunks))
  {
    NormalIsPlain(u, chunks);
    NormalKeepsTerms(chunks);
    NormalKeepsText(chunks);
    ParsePrinted(u, space, Normal(chunks));
  }

  /** The applied text of a query is a query text for the same query, with the same terms, phrases and applied text,
      exactly if folding has put no letter next to a digit in any of its tokens. */
  lemma AppliedTextIsFixpointIff(u: Alphabet, space: Spaces, value: Text)
    requires Stable(u, space) && ParseQuery(u, space, value).Some?
    ensures var q := ParseQuery(u, space, value).value;
            ParseQuery(u, space, q.applied) == Some(q) <==> Unbroken(u, q)
  {
    var chunks := Parse(u, space, value).value;
    ParsedIsFixed(u, space, value);
    UniqueUnbroken(u, TermsOf(chunks), PhrasesOf(chunks));
    if Unbroken(u, Query(chunks)) {
      UnbrokenIsWell(u, chunks);
      WellIsFixpoint(u, space, chunks);
    }
    AppliedIsSettled(u, chunks);
    var again := Parse(u, space, Query(chunks).applied);
    if again.Some? && Query(again.value) == Query(chunks) {
      SettledParses(u, space, Query(chunks).applied);
      WellIsUnbroken(u, again.value);
      UniqueUnbroken(u, TermsOf(again.value), PhrasesOf(again.value));
    }
  }

  /** In particular it is one for every text whose characters keep their class when they are folded. */
  lemma AppliedTextIsFixpoint(u: Alphabet, space: Spaces, value: Text)
    requires Stable(u, space) && ParseQuery(u, space, value).Some?
    requires forall i :: 0 <= i < |value| ==> u.Separates(value[i]) || value[i] == Quote || KeepsClass(u, value[i])
    ensures ParseQuery(u, space, ParseQuery(u, space, value).value.applied) == ParseQuery(u, space, value)
  {
    var chunks := Parse(u, space, value).value;
    ParsedFrom(u, space, value);
    forall i | 0 <= i < |chunks| ensures AreTokens(u, chunks[i].group) {
      assert From(u, value, chunks[i].group);
      var content :| Part(content, value) && chunks[i].group == Tokenize(u, content);
      TokenizeKeepsClasses(u, space, content);
    }
    WellIsFixpoint(u, space, chunks);
  }

  // --- Why folding must keep classes ----------------------------------------------------------

  const One: CodePoint := 0x31
  const Iota: CodePoint := 0x3B9
  const Subscript: CodePoint := 0x345

  // A combining mark that folds to a letter, as U+0345 does.
  const MarkFolds := Alphabet(
    (c: CodePoint) => if c == Space || c == Slash then Separator else if c == One then Digit else if c == Iota then Letter else Other,
    (c: CodePoint) => 1,
    (c: CodePoint) => if c == Subscript then [Iota] else [c])

  const OnlySpace: Spaces := (c: CodePoint) => c == Space

  // A text without spaces and quotes is one chunk.
  lemma OneChunkText(u: Alphabet, w: Text, group: Stream)
    requires w != [] && NoQuote(w) && (forall i :: 0 <= i < |w| ==> w[i] != Space)
    requires Tokenize(u, w) == group && group != []
    ensures Parse(u, OnlySpace, w) == Some([Chunk(false, group)])
  {
    assert w + [] == w && w[..|w|] == w && w[|w|..] == [];
    WordEnds(OnlySpace, w, []);
    assert [Chunk(false, group)] + [] == [Chunk(false, group)];
  }

  lemma OneWordQuery(u: Alphabet, w: Text, t: Token)
    requires w != [] && NoQuote(w) && (forall i :: 0 <= i < |w| ==> w[i] != Space) && Tokenize(u, w) == [t]
    ensures ParseQuery(u, OnlySpace, w) == Some(Parsed([t], [], t))
  {
    OneChunkText(u, w, [t]);
    QueryOfOne(t);
  }

  lemma UniqueOne<T>(s: seq<T>)
    requires |s| == 1
    ensures Unique(s) == s
  {
    assert Unique(s[..0]) == [];
  }

  lemma QueryOfOne(t: Token)
    ensures Query([Chunk(false, [t])]) == Parsed([t], [], t)
  {
    var c := Chunk(false, [t]);
    OneTerm(c);
    UniqueOne([t]);
    TextOfOne(c);
  }

  lemma TextOfOne(c: Chunk)
    ensures Spaced(ChunkTexts([c])) == ChunkText(c)
  {
    assert ChunkTexts([c]) == [ChunkText(c)];
  }

  lemma MarkedDigit()
    ensures Tokenize(MarkFolds, [One, Subscript]) == [[One, Iota]]
  {
    var w := [One, Subscript];
    WordStaysWhole(MarkFolds, w);
    assert w[..1] == [One];
    FoldOne(MarkFolds, One);
    assert MarkFolds.Fold(w) == [One, Iota];
    assert FoldAll(MarkFolds, [w]) == [[One, Iota]];
  }

  lemma MarksAreStable()
    ensures Sound(MarkFolds) && Stable(MarkFolds, OnlySpace)
  {
  }

  // A digit with such a mark is one token, and its folded form reads as two.
  lemma ApplyingCanSplitTokens()
    ensures Sound(MarkFolds) && Stable(MarkFolds, OnlySpace)
    ensures ParseQuery(MarkFolds, OnlySpace, [One, Subscript]) == Some(Parsed([[One, Iota]], [], [One, Iota]))
    ensures ParseQuery(MarkFolds, OnlySpace, [One, Iota]) != ParseQuery(MarkFolds, OnlySpace, [One, Subscript])
  {
    MarksAreStable();
    MarkedDigit();
    OneWordQuery(MarkFolds, [One, Subscript], [One, Iota]);
    TwoTokens();
  }

  lemma FoldOne(u: Alphabet, c: CodePoint)
    ensures u.Fold([c]) == u.fold(c)
  {
    assert [c][..0] == [] && u.Fold([]) == [];
  }

  lemma TwoTokens()
    ensures ParseQuery(MarkFolds, OnlySpace, [One, Iota]) != Some(Parsed([[One, Iota]], [], [One, Iota]))
  {
    var u := MarkFolds;
    assert [One, Iota][..1] == [One];
    assert Separate(u, [One, Iota]) == [One, Space, Iota];
    SplitAt(u, [One], Space, [Iota]);
    assert [One] + [Space] + [Iota] == [One, Space, Iota];
    WordStaysWhole(u, [One]);
    WordStaysWhole(u, [Iota]);
    FoldOne(u, One);
    FoldOne(u, Iota);
    assert Split(u, [One, Space, Iota]) == [[One], [Iota]];
    assert Tokenize(u, [One, Iota]) == [[One], [Iota]];
    TwoTokenQuery(u, [One, Iota], [One], [Iota]);
  }

  lemma TwoTokenQuery(u: Alphabet, w: Text, s: Token, t: Token)
    requires w != [] && NoQuote(w) && (forall i :: 0 <= i < |w| ==> w[i] != Space) && Tokenize(u, w) == [s, t] && s != t
    ensures ParseQuery(u, OnlySpace, w).Some? && |ParseQuery(u, OnlySpace, w).value.terms| == 2
  {
    OneChunkText(u, w, [s, t]);
    OneTerm(Chunk(false, [s, t]));
    UniqueOne([s]);
    assert [s, t][..1] == [s];
  }
}
