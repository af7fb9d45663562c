/**
 * How a query text is read, piece by piece: these rules cover every text, so they say what the parser accepts, what it
 * rejects, and what the query and its applied text are.
 */
module QueryMeaning {
  import opened Wrappers
  import opened Utf8
  import opened Alphabets
  import opened Tokens
  import opened QueryText

  // Words hold neither white space nor quotes.
  ghost predicate Wordlike(space: Spaces, w: Text) {
    w != [] && forall i :: 0 <= i < |w| ==> !space(w[i]) && w[i] != 0x22
  }

  // The text ends here, or goes on after white space.
  predicate Apart(space: Spaces, rest: Text) {
    rest == [] || space(rest[0])
  }

  // A piece in front of what the rest is read as; a piece without a token is an error.
  function Reads(quoted: bool, group: Stream, rest: Option<seq<Chunk>>): Option<seq<Chunk>> {
    match rest
    case None => None
    case Some(chunks) => if group == [] then None else Some([Chunk(quoted, group)] + chunks)
  }

  lemma {:induction false} WordEnds(space: Spaces, w: Text, rest: Text)
    requires forall i :: 0 <= i < |w| ==> !space(w[i]) && w[i] != 0x22
    requires rest == [] || space(rest[0]) || rest[0] == 0x22
    ensures WordLength(space, w + rest) == |w|
  {
    if w == [] {
      assert w + rest == rest;
    } else {
      assert (w + rest)[1..] == w[1..] + rest;
      WordEnds(space, w[1..], rest);
    }
  }

  lemma {:induction false} QuoteEnds(inner: Text, rest: Text)
    requires 0x22 !in inner && (rest == [] || rest[0] == 0x22)
    ensures ToQuote(inner + rest) == |inner|
  {
    if inner == [] {
      assert inner + rest == rest;
    } else {
      assert (inner + rest)[1..] == inner[1..] + rest;
      QuoteEnds(inner[1..], rest);
    }
  }

  /** White space between pieces means nothing. */
  lemma SpaceIsSkipped(u: Alphabet, space: Spaces, c: CodePoint, rest: Text)
    requires space(c)
    ensures Parse(u, space, []) == Some([])
    ensures Parse(u, space, [c] + rest) == Parse(u, space, rest)
  {
    assert ([c] + rest)[1..] == rest;
  }

  /** A word up to white space or the end is one piece of terms; a quote that touches it is an error. */
  lemma WordIsRead(u: Alphabet, space: Spaces, w: Text, rest: Text)
    requires Wordlike(space, w) && !space(0x22)
    ensures Apart(space, rest) ==> Parse(u, space, w + rest) == Reads(false, Tokenize(u, w), Parse(u, space, rest))
    ensures rest != [] && rest[0] == 0x22 ==> Parse(u, space, w + rest) == None
  {
    if Apart(space, rest) || rest[0] == 0x22 {
      WordEnds(space, w, rest);
      assert (w + rest)[0] == w[0] && (w + rest)[..|w|] == w && (w + rest)[|w|..] == rest;
    }
  }

  /** What stands between two quotes is one phrase, if white space or the end follows; otherwise, and without the second
      quote, it is an error. */
  lemma PhraseIsRead(u: Alphabet, space: Spaces, inner: Text, rest: Text)
    requires 0x22 !in inner && !space(0x22)
    ensures Apart(space, rest) ==>
              Parse(u, space, [0x22] + inner + [0x22] + rest) == Reads(true, Tokenize(u, inner), Parse(u, space, rest))
    ensures !Apart(space, rest) ==> Parse(u, space, [0x22] + inner + [0x22] + rest) == None
    ensures Parse(u, space, [0x22] + inner) == None
  {
    var value := [0x22] + inner + [0x22] + rest;
    assert value[1..] == inner + ([0x22] + rest) && value[0] == 0x22;
    QuoteEnds(inner, [0x22] + rest);
    assert value[1..|inner| + 1] == inner && value[|inner| + 2..] == rest;
    assert ([0x22] + inner)[1..] == inner && inner + [] == inner;
    QuoteEnds(inner, []);
  }

  // --- The query --------------------------------------------------------------------------------

  // The words of a group that are not there yet, each once, in order.
  function WithNew<T(==)>(all: seq<T>, more: seq<T>): seq<T>
    decreases |more|
  {
    if more == [] then all
    else WithNew(if more[0] in all then all else all + [more[0]], more[1..])
  }

  lemma {:induction false} UniqueGrows<T>(s: seq<T>, more: seq<T>)
    ensures Unique(s + more) == WithNew(Unique(s), more)
    decreases |more|
  {
    if more == [] {
      assert s + more == s;
    } else {
      assert (s + [more[0]])[..|s|] == s;
      UniqueGrows(s + [more[0]], more[1..]);
      assert s + more == s + [more[0]] + more[1..];
    }
  }

  lemma {:induction false} SpacedGrows(texts: seq<Text>, t: Text)
    ensures Spaced(texts + [t]) == if texts == [] then t else Spaced(texts) + [0x20] + t
  {
    if texts != [] {
      SpacedGrows(texts[1..], t);
      assert (texts + [t])[1..] == texts[1..] + [t];
    }
  }

  lemma TermsGrow(chunks: seq<Chunk>, c: Chunk)
    ensures TermsOf(chunks + [c]) == if c.quoted then TermsOf(chunks) else TermsOf(chunks) + c.group
    ensures PhrasesOf(chunks + [c]) == if c.quoted then PhrasesOf(chunks) + [c.group] else PhrasesOf(chunks)
  {
    assert (chunks + [c])[..|chunks|] == chunks;
    assert TermsOf(chunks) + [] == TermsOf(chunks) && PhrasesOf(chunks) + [] == PhrasesOf(chunks);
  }

  lemma AppliedGrows(chunks: seq<Chunk>, c: Chunk)
    ensures Spaced(ChunkTexts(chunks + [c])) ==
            (if chunks == [] then [] else Spaced(ChunkTexts(chunks)) + [0x20]) +
            (if c.quoted then [0x22] + Spaced(c.group) + [0x22] else Spaced(c.group))
  {
    assert ChunkTexts(chunks + [c]) == ChunkTexts(chunks) + [ChunkText(c)];
    SpacedGrows(ChunkTexts(chunks), ChunkText(c));
  }

  /** Each piece adds its new words to the terms, or itself to the phrases unless it is there, and itself to the applied
      text, after a space and between its quotes. */
  lemma PieceIsAdded(chunks: seq<Chunk>, c: Chunk)
    ensures Query([]) == Parsed([], [], [])
    ensures var before, after := Query(chunks), Query(chunks + [c]);
            var words := Spaced(c.group);
            after.terms == (if c.quoted then before.terms else WithNew(before.terms, c.group)) &&
            after.phrases == (if c.quoted then WithNew(before.phrases, [c.group]) else before.phrases) &&
            after.applied == (if chunks == [] then [] else before.applied + [0x20]) +
                             (if c.quoted then [0x22] + words + [0x22] else words)
  {
    TermsGrow(chunks, c);
    UniqueGrows(TermsOf(chunks), c.group);
    UniqueGrows(PhrasesOf(chunks), [c.group]);
    AppliedGrows(chunks, c);
  }
}
