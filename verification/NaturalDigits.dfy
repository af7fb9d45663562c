/**
 * What natural order says about the texts themselves: runs of digits compare digit by digit once leading zeros are
 * dropped, other runs compare by folded characters, and both decide at the first run that differs.
 */
module NaturalDigits {
  import opened Lexicographic
  import opened Utf8
  import opened Alphabets
  import opened NaturalOrder

  function Digits(u: Alphabet, run: Text): seq<nat> {
    seq<nat>(|run|, i requires 0 <= i < |run| => u.digit(run[i]))
  }

  function Significant(digits: seq<nat>): seq<nat> {
    if digits != [] && digits[0] == 0 then Significant(digits[1..]) else digits
  }

  ghost predicate Decimals(digits: seq<nat>) {
    forall i :: 0 <= i < |digits| ==> digits[i] < 10
  }

  // Fewer digits, or a smaller one at the first place where they differ.
  ghost predicate Smaller(a: seq<nat>, b: seq<nat>) {
    |a| < |b| || (|a| == |b| && DiffersBelow(a, b))
  }

  ghost predicate DiffersBelow(a: seq<nat>, b: seq<nat>) {
    exists i :: 0 <= i < |a| && i < |b| && a[..i] == b[..i] && a[i] < b[i]
  }

  predicate DigitRun(u: Alphabet, run: Text) {
    run != [] && forall i :: 0 <= i < |run| ==> u.IsDigit(run[i])
  }

  predicate OtherRun(u: Alphabet, run: Text) {
    run != [] && forall i :: 0 <= i < |run| ==> !u.IsDigit(run[i])
  }

  // --- Numbers ----------------------------------------------------------------------------------

  function Number(digits: seq<nat>): nat {
    if digits == [] then 0 else 10 * Number(digits[..|digits| - 1]) + digits[|digits| - 1]
  }

  lemma {:induction false} ValueIsNumber(u: Alphabet, run: Text)
    ensures Value(u, run) == Number(Digits(u, run))
  {
    if run != [] {
      var n := |run| - 1;
      ValueIsNumber(u, run[..n]);
      assert Digits(u, run)[..n] == Digits(u, run[..n]);
    }
  }

  lemma {:induction false} LeadingZero(digits: seq<nat>)
    ensures Number([0] + digits) == Number(digits)
  {
    if digits != [] {
      var n := |digits| - 1;
      LeadingZero(digits[..n]);
      assert ([0] + digits)[..n + 1] == [0] + digits[..n];
    } else {
      assert [0] + digits == [0] && Number([0][..0]) == 0;
    }
  }

  lemma {:induction false} SameNumber(digits: seq<nat>)
    ensures Number(Significant(digits)) == Number(digits)
    ensures Significant(digits) == [] || Significant(digits)[0] != 0
    ensures Decimals(digits) ==> Decimals(Significant(digits))
  {
    if digits != [] && digits[0] == 0 {
      SameNumber(digits[1..]);
      LeadingZero(digits[1..]);
      assert digits == [0] + digits[1..];
    }
  }

  lemma {:induction false} IsPositive(b: seq<nat>)
    requires b != [] && b[0] != 0
    ensures Number(b) > 0
  {
    if |b| > 1 { IsPositive(b[..|b| - 1]); }
  }

  lemma {:induction false} FewerIsLess(a: seq<nat>, b: seq<nat>)
    requires Decimals(a) && b != [] && b[0] != 0 && |a| < |b|
    ensures Number(a) < Number(b)
  {
    if a == [] {
      IsPositive(b);
    } else {
      FewerIsLess(a[..|a| - 1], b[..|b| - 1]);
    }
  }

  lemma {:induction false} FirstDecides(a: seq<nat>, b: seq<nat>, i: nat)
    requires |a| == |b| && i < |a| && a[..i] == b[..i] && a[i] < b[i] && Decimals(a)
    ensures Number(a) < Number(b)
  {
    var n := |a| - 1;
    if i < n {
      assert a[..n][..i] == a[..i] && b[..n][..i] == b[..i];
      FirstDecides(a[..n], b[..n], i);
    }
  }

  lemma {:induction false} SomeDiffers(a: seq<nat>, b: seq<nat>)
    requires |a| == |b| && a != b
    ensures DiffersBelow(a, b) || DiffersBelow(b, a)
  {
    var n := |a| - 1;
    if a[..n] == b[..n] {
      assert a == a[..n] + [a[n]] && b == b[..n] + [b[n]];
    } else {
      SomeDiffers(a[..n], b[..n]);
      Carries(a, b);
      Carries(b, a);
    }
  }

  lemma Carries(a: seq<nat>, b: seq<nat>)
    requires |a| == |b| > 0
    ensures DiffersBelow(a[..|a| - 1], b[..|b| - 1]) ==> DiffersBelow(a, b)
  {
    var n := |a| - 1;
    if DiffersBelow(a[..n], b[..n]) {
      var i :| 0 <= i < n && a[..n][..i] == b[..n][..i] && a[..n][i] < b[..n][i];
      assert a[..i] == a[..n][..i] && b[..i] == b[..n][..i];
    }
  }

  lemma SmallerIsLess(a: seq<nat>, b: seq<nat>)
    requires Decimals(a) && Smaller(a, b) && (b != [] ==> b[0] != 0)
    ensures Number(a) < Number(b)
  {
    if |a| < |b| {
      FewerIsLess(a, b);
    } else {
      var i :| 0 <= i < |a| && i < |b| && a[..i] == b[..i] && a[i] < b[i];
      FirstDecides(a, b, i);
    }
  }

  // Number order of digits without leading zeros.
  lemma NumbersAsDigits(a: seq<nat>, b: seq<nat>)
    requires Decimals(a) && Decimals(b) && (a != [] ==> a[0] != 0) && (b != [] ==> b[0] != 0)
    ensures Number(a) < Number(b) <==> Smaller(a, b)
    ensures Number(a) == Number(b) <==> a == b
  {
    if Smaller(a, b) {
      SmallerIsLess(a, b);
    } else if Smaller(b, a) {
      SmallerIsLess(b, a);
    } else if a != b {
      SomeDiffers(a, b);
    }
  }

  /** Two digit runs are the same number exactly if their digits agree after leading zeros are dropped; otherwise the one
      with fewer digits left is smaller, and at equal length the first digit that differs decides. */
  lemma DigitsDecide(u: Alphabet, a: Text, b: Text)
    requires Sound(u) && DigitRun(u, a) && DigitRun(u, b)
    ensures PartOf(u, a) == PartOf(u, b) <==> Significant(Digits(u, a)) == Significant(Digits(u, b))
    ensures PartLess(PartOf(u, a), PartOf(u, b)) <==> Smaller(Significant(Digits(u, a)), Significant(Digits(u, b)))
  {
    ValueIsNumber(u, a);
    ValueIsNumber(u, b);
    SameNumber(Digits(u, a));
    SameNumber(Digits(u, b));
    NumbersAsDigits(Significant(Digits(u, a)), Significant(Digits(u, b)));
  }

  // --- Runs of a text ---------------------------------------------------------------------------

  // No run goes on from one text into the other.
  predicate Breaks(u: Alphabet, a: Text, b: Text) {
    a == [] || b == [] || u.IsDigit(a[|a| - 1]) != u.IsDigit(b[0])
  }

  lemma {:induction false} RunStops(u: Alphabet, a: Text, b: Text, digits: bool)
    requires a != [] && Breaks(u, a, b) && u.IsDigit(a[0]) == digits
    ensures Run(u, a + b, digits) == Run(u, a, digits)
  {
    assert (a + b)[0] == a[0] && (a + b)[1..] == a[1..] + b;
    if |a| > 1 {
      if u.IsDigit(a[1]) == digits {
        RunStops(u, a[1..], b, digits);
      } else {
        assert (a[1..] + b)[0] == a[1];
      }
    } else {
      assert a[1..] == [] && a[1..] + b == b;
    }
  }

  lemma Regroup(a: seq<Part>, b: seq<Part>, c: seq<Part>)
    ensures a + (b + c) == a + b + c
  {
  }

  lemma KeyStarts(u: Alphabet, a: Text, b: Text) returns (n: nat)
    requires a != [] && Breaks(u, a, b)
    ensures 0 < n <= |a| && Breaks(u, a[n..], b)
    ensures Key(u, a) == [PartOf(u, a[..n])] + Key(u, a[n..])
    ensures Key(u, a + b) == [PartOf(u, a[..n])] + Key(u, a[n..] + b)
  {
    n := Run(u, a, u.IsDigit(a[0]));
    RunStops(u, a, b, u.IsDigit(a[0]));
    assert (a + b)[0] == a[0] && (a + b)[..n] == a[..n] && (a + b)[n..] == a[n..] + b;
    assert a[n..] != [] ==> a[n..][|a[n..]| - 1] == a[|a| - 1];
  }

  lemma {:induction false} KeySplits(u: Alphabet, a: Text, b: Text)
    requires Breaks(u, a, b)
    ensures Key(u, a + b) == Key(u, a) + Key(u, b)
    decreases |a|
  {
    if a == [] {
      assert a + b == b;
    } else {
      var n := KeyStarts(u, a, b);
      KeySplits(u, a[n..], b);
      Regroup([PartOf(u, a[..n])], Key(u, a[n..]), Key(u, b));
    }
  }

  lemma {:induction false} WholeRun(u: Alphabet, text: Text, digits: bool)
    requires forall i :: 0 <= i < |text| ==> u.IsDigit(text[i]) == digits
    ensures Run(u, text, digits) == |text|
  {
    if text != [] { WholeRun(u, text[1..], digits); }
  }

  lemma KeyOfRun(u: Alphabet, run: Text)
    requires DigitRun(u, run) || OtherRun(u, run)
    ensures Key(u, run) == [PartOf(u, run)]
  {
    WholeRun(u, run, u.IsDigit(run[0]));
    assert run[..|run|] == run && run[|run|..] == [];
  }

  // What is around a run: runs of the other kind, or nothing.
  ghost predicate Around(u: Alphabet, prefix: Text, run: Text, rest: Text) {
    (DigitRun(u, run) || OtherRun(u, run)) && Breaks(u, prefix, run) && Breaks(u, run, rest)
  }

  lemma KeyAround(u: Alphabet, prefix: Text, run: Text, rest: Text)
    requires Around(u, prefix, run, rest)
    ensures Key(u, prefix + run + rest) == Key(u, prefix) + ([PartOf(u, run)] + Key(u, rest))
  {
    KeySplits(u, prefix, run);
    KeyOfRun(u, run);
    KeySplits(u, prefix + run, rest);
    Regroup(Key(u, prefix), [PartOf(u, run)], Key(u, rest));
  }

  lemma {:induction false} KeyLessAfter(k: seq<Part>, a: seq<Part>, b: seq<Part>)
    ensures KeyLess(k + a, k + b) <==> KeyLess(a, b)
  {
    if k == [] {
      assert k + a == a && k + b == b;
    } else {
      KeyLessAfter(k[1..], a, b);
      assert (k + a)[1..] == k[1..] + a && (k + b)[1..] == k[1..] + b;
    }
  }

  lemma FirstPartDecides(k: seq<Part>, p: Part, x: seq<Part>, q: Part, y: seq<Part>)
    ensures KeyLess(k + ([p] + x), k + ([q] + y)) <==> PartLess(p, q) || (p == q && KeyLess(x, y))
    ensures k + ([p] + x) == k + ([q] + y) <==> p == q && x == y
  {
    KeyLessAfter(k, [p] + x, [q] + y);
    assert ([p] + x)[1..] == x && ([q] + y)[1..] == y;
    PartsTotal(p, q);
    if k + ([p] + x) == k + ([q] + y) {
      assert [p] + x == (k + ([p] + x))[|k|..] && [q] + y == (k + ([q] + y))[|k|..];
      assert p == ([p] + x)[0] && q == ([q] + y)[0];
    }
  }

  // --- Natural order of texts -------------------------------------------------------------------

  /** Texts that agree up to a run of digits are ordered by those digits, and by what follows only if the numbers are the
      same. */
  lemma NumbersDecide(u: Alphabet, prefix: Text, a: Text, x: Text, b: Text, y: Text)
    requires Sound(u) && DigitRun(u, a) && DigitRun(u, b) && Around(u, prefix, a, x) && Around(u, prefix, b, y)
    ensures var m, n := Significant(Digits(u, a)), Significant(Digits(u, b));
            (KeyLess(Key(u, prefix + a + x), Key(u, prefix + b + y)) <==>
               Smaller(m, n) || (m == n && KeyLess(Key(u, x), Key(u, y)))) &&
            (Key(u, prefix + a + x) == Key(u, prefix + b + y) <==> m == n && Key(u, x) == Key(u, y))
  {
    KeyAround(u, prefix, a, x);
    KeyAround(u, prefix, b, y);
    DigitsDecide(u, a, b);
    FirstPartDecides(Key(u, prefix), PartOf(u, a), Key(u, x), PartOf(u, b), Key(u, y));
  }

  /** Texts that agree up to a run without digits are ordered by its folded characters, and a number comes before it. */
  lemma CharactersDecide(u: Alphabet, prefix: Text, a: Text, x: Text, b: Text, y: Text)
    requires OtherRun(u, b) && Around(u, prefix, b, y) && Around(u, prefix, a, x)
    ensures KeyLess(Key(u, prefix + a + x), Key(u, prefix + b + y)) <==>
            DigitRun(u, a) || Less(u.Fold(a), u.Fold(b)) || (u.Fold(a) == u.Fold(b) && KeyLess(Key(u, x), Key(u, y)))
    ensures Key(u, prefix + a + x) == Key(u, prefix + b + y) <==>
            OtherRun(u, a) && u.Fold(a) == u.Fold(b) && Key(u, x) == Key(u, y)
  {
    KeyAround(u, prefix, a, x);
    KeyAround(u, prefix, b, y);
    FirstPartDecides(Key(u, prefix), PartOf(u, a), Key(u, x), PartOf(u, b), Key(u, y));
  }

  /** The stored keys of a prefix and a number have the order of the digits. */
  lemma BlobsFollowDigits(u: Alphabet, prefix: Text, a: Text, b: Text)
    requires Sound(u) && DigitRun(u, a) && DigitRun(u, b) && Breaks(u, prefix, a) && Breaks(u, prefix, b)
    requires |prefix| + |a| < 0x1_0000_0000 && |prefix| + |b| < 0x1_0000_0000
    ensures var m, n := Significant(Digits(u, a)), Significant(Digits(u, b));
            (Less(Blob(u, prefix + a), Blob(u, prefix + b)) <==> Smaller(m, n)) &&
            (Blob(u, prefix + a) == Blob(u, prefix + b) <==> m == n)
  {
    NumbersDecide(u, prefix, a, [], b, []);
    assert prefix + a + [] == prefix + a && prefix + b + [] == prefix + b;
    BlobKeepsNaturalOrder(u, prefix + a, prefix + b);
  }

  lemma {:induction false} FoldsJoin(u: Alphabet, a: Text, b: Text)
    ensures u.Fold(a + b) == u.Fold(a) + u.Fold(b)
  {
    if b == [] {
      assert a + b == a;
    } else {
      FoldsJoin(u, a, b[..|b| - 1]);
      assert (a + b)[..|a + b| - 1] == a + b[..|b| - 1];
    }
  }

  /** Folding replaces each character by its folding, in place. */
  lemma FoldsEachCharacter(u: Alphabet, a: Text, c: CodePoint, b: Text)
    ensures u.Fold(a + [c] + b) == u.Fold(a) + u.fold(c) + u.Fold(b)
  {
    FoldsJoin(u, a + [c], b);
    assert (a + [c])[..|a|] == a;
  }
}
