/**
 * Splitting text into search tokens: a space is put between letters and digits, the text is cut at runs of
 * separators, and the pieces are folded.
 */
module Tokens {
  import opened Utf8
  import opened Alphabets

  type Token = Text
  type Stream = seq<Token>

  predicate Boundary(u: Alphabet, a: CodePoint, b: CodePoint) {
    (u.classOf(a).Letter? && u.classOf(b).Digit?) || (u.classOf(a).Digit? && u.classOf(b).Letter?)
  }

  function Separate(u: Alphabet, text: Text): Text {
    if |text| <= 1 then text
    else
      var n := |text| - 1;
      Separate(u, text[..n]) + (if Boundary(u, text[n - 1], text[n]) then [Space, text[n]] else [text[n]])
  }

  // One more character: it starts a word after a separator, and extends the last word otherwise.
  function AddPoint(u: Alphabet, words: seq<Text>, begins: bool, c: CodePoint): seq<Text> {
    if u.Separates(c) then words
    else if begins || words == [] then words + [[c]]
    else words[..|words| - 1] + [words[|words| - 1] + [c]]
  }

  predicate Fresh(u: Alphabet, text: Text) {
    text == [] || u.Separates(text[|text| - 1])
  }

  // The maximal runs without separators.
  function Split(u: Alphabet, text: Text): (words: seq<Text>)
    ensures !Fresh(u, text) ==> words != []
  {
    if text == [] then []
    else
      var n := |text| - 1;
      AddPoint(u, Split(u, text[..n]), Fresh(u, text[..n]), text[n])
  }

  function FoldAll(u: Alphabet, words: seq<Text>): Stream {
    seq(|words|, i requires 0 <= i < |words| => u.Fold(words[i]))
  }

  function Tokenize(u: Alphabet, text: Text): Stream {
    FoldAll(u, Split(u, Separate(u, text)))
  }

  // --- Cutting at a separator -----------------------------------------------------------------

  lemma {:induction false} SeparateAfter(u: Alphabet, left: Text, b: Text)
    requires left != [] && u.Separates(left[|left| - 1])
    ensures Separate(u, left + b) == Separate(u, left) + Separate(u, b)
  {
    var text := left + b;
    if b == [] {
      assert text == left;
    } else {
      var m := |b| - 1;
      SeparateAfter(u, left, b[..m]);
      assert text[..|text| - 1] == left + b[..m];
      assert text[|text| - 2] == if m == 0 then left[|left| - 1] else b[m - 1];
    }
  }

  lemma SeparateEnd(u: Alphabet, a: Text, c: CodePoint)
    requires u.Separates(c)
    ensures Separate(u, a + [c]) == Separate(u, a) + [c]
  {
    assert (a + [c])[..|a|] == a;
    if a != [] { assert !Boundary(u, a[|a| - 1], c); }
  }

  lemma SeparateAt(u: Alphabet, a: Text, c: CodePoint, b: Text)
    requires u.Separates(c)
    ensures Separate(u, a + [c] + b) == Separate(u, a) + [c] + Separate(u, b)
  {
    SeparateAfter(u, a + [c], b);
    SeparateEnd(u, a, c);
  }

  lemma AddToBoth(u: Alphabet, a: seq<Text>, b: seq<Text>, begins: bool, c: CodePoint)
    requires begins || b != []
    ensures AddPoint(u, a + b, begins, c) == a + AddPoint(u, b, begins, c)
  {
  }

  lemma {:induction false} SplitAfter(u: Alphabet, left: Text, b: Text)
    requires left != [] && Fresh(u, left)
    ensures Split(u, left + b) == Split(u, left) + Split(u, b)
  {
    if b == [] {
      assert left + b == left;
    } else {
      var init, c := b[..|b| - 1], b[|b| - 1];
      SplitAfter(u, left, init);
      SplitStep(u, left, init, c);
      assert left + b == left + init + [c] && b == init + [c];
      assert (init + [c])[..|init|] == init;
      AddToBoth(u, Split(u, left), Split(u, init), Fresh(u, init), c);
    }
  }

  lemma SplitStep(u: Alphabet, left: Text, init: Text, c: CodePoint)
    requires left != [] && Fresh(u, left)
    ensures Split(u, left + init + [c]) == AddPoint(u, Split(u, left + init), Fresh(u, init), c)
  {
    var text := left + init;
    assert (text + [c])[..|text|] == text;
    assert Fresh(u, text) == Fresh(u, init);
  }

  lemma SplitAt(u: Alphabet, a: Text, c: CodePoint, b: Text)
    requires u.Separates(c)
    ensures Split(u, a + [c] + b) == Split(u, a) + Split(u, b)
  {
    SplitAfter(u, a + [c], b);
    assert (a + [c])[..|a|] == a;
  }

  lemma FoldAllAppend(u: Alphabet, a: seq<Text>, b: seq<Text>)
    ensures FoldAll(u, a + b) == FoldAll(u, a) + FoldAll(u, b)
  {
  }

  /** A separator cuts the token stream: nothing crosses it. */
  lemma TokenizeAt(u: Alphabet, a: Text, c: CodePoint, b: Text)
    requires u.Separates(c)
    ensures Tokenize(u, a + [c] + b) == Tokenize(u, a) + Tokenize(u, b)
  {
    SeparateAt(u, a, c, b);
    SplitAt(u, Separate(u, a), c, Separate(u, b));
    FoldAllAppend(u, Split(u, Separate(u, a)), Split(u, Separate(u, b)));
  }

  // --- Cutting between letters and digits ---------------------------------------------------------

  lemma {:induction false} SeparateBetween(u: Alphabet, a: Text, b: Text)
    requires a != [] && b != [] && Boundary(u, a[|a| - 1], b[0])
    ensures Separate(u, a + b) == Separate(u, a) + [Space] + Separate(u, b)
  {
    var n := |b| - 1;
    assert (a + b)[..|a + b| - 1] == a + b[..n];
    if n == 0 {
      assert a + b[..0] == a;
      assert Separate(u, b) == b;
    } else {
      SeparateBetween(u, a, b[..n]);
      assert (a + b)[|a + b| - 2] == b[n - 1];
    }
  }

  /** A letter next to a digit ends a token there, on both sides. */
  lemma LettersAndDigitsPart(u: Alphabet, a: Text, b: Text)
    requires Sound(u) && a != [] && b != []
    requires (u.classOf(a[|a| - 1]) == Letter && u.classOf(b[0]) == Digit) ||
             (u.classOf(a[|a| - 1]) == Digit && u.classOf(b[0]) == Letter)
    ensures Tokenize(u, a + b) == Tokenize(u, a) + Tokenize(u, b)
  {
    SeparateBetween(u, a, b);
    SplitAt(u, Separate(u, a), Space, Separate(u, b));
    FoldAllAppend(u, Split(u, Separate(u, a)), Split(u, Separate(u, b)));
  }

  // No separator, and no letter next to a digit.
  ghost predicate Unbroken(u: Alphabet, text: Text) {
    (forall i :: 0 <= i < |text| ==> u.classOf(text[i]) != Separator) &&
    forall i :: 0 < i < |text| ==>
      !(u.classOf(text[i - 1]) == Letter && u.classOf(text[i]) == Digit) &&
      !(u.classOf(text[i - 1]) == Digit && u.classOf(text[i]) == Letter)
  }

  lemma {:induction false} UnbrokenStays(u: Alphabet, text: Text)
    requires Unbroken(u, text)
    ensures Separate(u, text) == text
  {
    if |text| > 1 {
      var n := |text| - 1;
      UnbrokenStays(u, text[..n]);
      assert !Boundary(u, text[n - 1], text[n]);
      assert text == text[..n] + [text[n]];
    }
  }

  lemma {:induction false} UnbrokenIsOneWord(u: Alphabet, text: Text)
    requires text != [] && forall i :: 0 <= i < |text| ==> !u.Separates(text[i])
    ensures Split(u, text) == [text]
  {
    var n := |text| - 1;
    assert text == text[..n] + [text[n]];
    if n == 0 {
      assert Split(u, text[..0]) == [];
    } else {
      UnbrokenIsOneWord(u, text[..n]);
    }
  }

  /** What is not cut is one token, folded. */
  lemma UnbrokenIsOneToken(u: Alphabet, text: Text)
    requires Unbroken(u, text)
    ensures Tokenize(u, text) == if text == [] then [] else [u.Fold(text)]
  {
    UnbrokenStays(u, text);
    if text != [] { UnbrokenIsOneWord(u, text); }
  }

  // --- Paths ----------------------------------------------------------------------------------

  function Concat(streams: seq<Stream>): Stream {
    if streams == [] then [] else Concat(streams[..|streams| - 1]) + streams[|streams| - 1]
  }

  function TokenizeAll(u: Alphabet, parts: seq<Text>): seq<Stream> {
    seq(|parts|, i requires 0 <= i < |parts| => Tokenize(u, parts[i]))
  }

  // The words stand in the stream next to each other, from position k on.
  predicate StandsAt(words: Stream, stream: Stream, k: nat) {
    k + |words| <= |stream| && stream[k..k + |words|] == words
  }

  predicate Within(inner: Stream, outer: Stream) {
    exists k: nat {:trigger StandsAt(inner, outer, k)} :: k <= |outer| && StandsAt(inner, outer, k)
  }

  lemma {:induction false} ComponentWithin(streams: seq<Stream>, i: nat)
    requires i < |streams|
    ensures Within(streams[i], Concat(streams))
  {
    var n := |streams| - 1;
    var head := Concat(streams[..n]);
    if i == n {
      assert StandsAt(streams[i], Concat(streams), |head|);
    } else {
      ComponentWithin(streams[..n], i);
      var k: nat :| k <= |head| && StandsAt(streams[..n][i], head, k);
      assert Concat(streams)[k..k + |streams[i]|] == head[k..k + |streams[i]|];
      assert StandsAt(streams[i], Concat(streams), k);
    }
  }
}
