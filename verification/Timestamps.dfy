/**
 * UTC timestamps (section 5.6 of RFC 3339) as they are spelled, and the key that orders them as instants.
 */
module Timestamps {
  import opened Wrappers
  import opened Lexicographic

  predicate Digits(s: seq<int>) {
    forall i :: 0 <= i < |s| ==> 0x30 <= s[i] <= 0x39
  }

  // Date and time to the second, always 19 characters, and the digits of the fraction if one is spelled.
  datatype Stamp = Stamp(second: seq<int>, fraction: Option<seq<int>>)
  {
    predicate Valid() {
      |second| == 19 && (fraction.Some? ==> fraction.value != [] && Digits(fraction.value))
    }

    function Fraction(): seq<int> {
      if fraction.None? then [] else fraction.value
    }
  }

  function StripZeros(f: seq<int>): seq<int> {
    if f != [] && f[|f| - 1] == 0x30 then StripZeros(f[..|f| - 1]) else f
  }

  // The text itself: second, then a point and the fraction if there is one, then Z.
  function Raw(t: Stamp): seq<int> {
    t.second + (if t.fraction.None? then [] else [0x2E] + t.fraction.value) + [0x5A]
  }

  function InstantKey(t: Stamp): seq<int> {
    t.second + [0x2E] + StripZeros(t.Fraction())
  }

  // Same second: one spelled fraction continues the other.
  predicate Compatible(a: Stamp, b: Stamp) {
    a.second == b.second ==>
      a.Fraction() == b.Fraction() || (!Prefix(a.Fraction(), b.Fraction()) && !Prefix(b.Fraction(), a.Fraction()))
  }

  lemma {:induction false} StripIsPrefix(f: seq<int>)
    ensures StripZeros(f) <= f
    ensures forall k :: |StripZeros(f)| <= k < |f| ==> f[k] == 0x30
  {
    if f != [] && f[|f| - 1] == 0x30 { StripIsPrefix(f[..|f| - 1]); }
  }

  // A longer fraction is never an earlier instant.
  lemma StripOfPrefix(f: seq<int>, g: seq<int>)
    requires Prefix(f, g)
    ensures !Less(StripZeros(g), StripZeros(f))
  {
    StripIsPrefix(f);
    StripIsPrefix(g);
    var x, y := StripZeros(f), StripZeros(g);
    if |y| < |x| {
      assert f[|x| - 1] == 0x30;
      StripStops(f);
    } else {
      assert x <= y;
      PrefixNotGreater(x, y);
    }
  }

  lemma {:induction false} StripStops(f: seq<int>)
    ensures StripZeros(f) != [] ==> StripZeros(f)[|StripZeros(f)| - 1] != 0x30
  {
    if f != [] && f[|f| - 1] == 0x30 { StripStops(f[..|f| - 1]); }
  }

  lemma PrefixNotGreater(x: seq<int>, y: seq<int>)
    requires x <= y
    ensures !Less(y, x)
  {
    PrefixIsLess(x, y);
    Total(x, y);
  }

  // Two fractions that differ at a digit: the instants are ordered by that digit.
  lemma DifferAtDigit(f: seq<int>, g: seq<int>)
    requires Clash(f, g) && Digits(f) && Digits(g)
    ensures Less(StripZeros(f), StripZeros(g))
  {
    var k := FirstClash(f, g);
    StripIsPrefix(f);
    StripIsPrefix(g);
    var x, y := StripZeros(f), StripZeros(g);
    assert g[k] > 0x30 && |y| > k;
    if |x| <= k {
      assert x == g[..|x|] && x <= y;
      PrefixIsLess(x, y);
    } else {
      assert x[..k] == y[..k];
      ClashFrom(x, y, k);
      ClashDecides(x, y, [], []);
    }
  }

  lemma {:induction false} FirstClash(f: seq<int>, g: seq<int>) returns (k: nat)
    requires Clash(f, g)
    ensures k < |f| && k < |g| && f[k] < g[k] && f[..k] == g[..k]
  {
    if f[0] < g[0] {
      k := 0;
    } else {
      var i := FirstClash(f[1..], g[1..]);
      k := i + 1;
      assert f[..k] == [f[0]] + f[1..][..i] && g[..k] == [g[0]] + g[1..][..i];
    }
  }

  lemma {:induction false} ClashFrom(x: seq<int>, y: seq<int>, k: nat)
    requires k < |x| && k < |y| && x[k] < y[k] && x[..k] == y[..k]
    ensures Clash(x, y)
  {
    if k > 0 {
      assert x[0] == x[..k][0] == y[..k][0] == y[0];
      assert x[1..][..k - 1] == x[..k][1..] == y[..k][1..] == y[1..][..k - 1];
      ClashFrom(x[1..], y[1..], k - 1);
    }
  }

  // Reading the spelled tail: a point and digits come before the Z that ends a shorter spelling.
  function Tail(t: Stamp): seq<int> {
    (if t.fraction.None? then [] else [0x2E] + t.fraction.value) + [0x5A]
  }

  lemma SameSecond(a: Stamp, b: Stamp)
    requires a.second == b.second
    ensures Less(Raw(a), Raw(b)) == Less(Tail(a), Tail(b))
    ensures Less(InstantKey(a), InstantKey(b)) == Less(StripZeros(a.Fraction()), StripZeros(b.Fraction()))
  {
    assert Raw(a) == a.second + Tail(a) && Raw(b) == b.second + Tail(b);
    SamePrefix(a.second, Tail(a), Tail(b));
    SamePrefix(a.second + [0x2E], StripZeros(a.Fraction()), StripZeros(b.Fraction()));
  }

  lemma LongerSpellingFirst(a: Stamp, b: Stamp)
    requires a.Valid() && b.Valid() && Prefix(a.Fraction(), b.Fraction()) && a.Fraction() != b.Fraction()
    ensures Less(Tail(b), Tail(a))
  {
    var f, g := a.Fraction(), b.Fraction();
    if a.fraction.Some? {
      var rest := g[|f|..];
      assert g == f + rest && rest[0] < 0x5A;
      assert Tail(b) == ([0x2E] + f) + (rest + [0x5A]) && Tail(a) == ([0x2E] + f) + [0x5A];
      SamePrefix([0x2E] + f, rest + [0x5A], [0x5A]);
    }
  }

  lemma DifferentSpellings(a: Stamp, b: Stamp)
    requires a.Valid() && b.Valid() && Clash(a.Fraction(), b.Fraction())
    ensures Less(Tail(a), Tail(b)) && Less(StripZeros(a.Fraction()), StripZeros(b.Fraction()))
  {
    var f, g := a.Fraction(), b.Fraction();
    DifferAtDigit(f, g);
    SamePrefix([0x2E], f, g);
    ClashDecides([0x2E] + f, [0x2E] + g, [0x5A], [0x5A]);
  }

  lemma DifferentSeconds(a: Stamp, b: Stamp)
    requires a.Valid() && b.Valid() && a.second != b.second
    ensures Less(Raw(a), Raw(b)) == Less(InstantKey(a), InstantKey(b)) == Less(a.second, b.second)
  {
    Total(a.second, b.second);
    if Less(a.second, b.second) {
      SecondsDecide(a, b);
    } else {
      SecondsDecide(b, a);
      Total(Raw(a), Raw(b));
      Total(InstantKey(a), InstantKey(b));
    }
  }

  lemma SecondsDecide(a: Stamp, b: Stamp)
    requires |a.second| == |b.second| && Less(a.second, b.second)
    ensures Less(Raw(a), Raw(b)) && Less(InstantKey(a), InstantKey(b))
  {
    EqualLengthClash(a.second, b.second);
    assert Raw(a) == a.second + Tail(a) && Raw(b) == b.second + Tail(b);
    ClashDecides(a.second, b.second, Tail(a), Tail(b));
    ClashDecides(a.second, b.second, [0x2E] + StripZeros(a.Fraction()), [0x2E] + StripZeros(b.Fraction()));
    assert InstantKey(a) == a.second + ([0x2E] + StripZeros(a.Fraction()));
    assert InstantKey(b) == b.second + ([0x2E] + StripZeros(b.Fraction()));
  }

  lemma {:induction false} EqualLengthClash(a: seq<int>, b: seq<int>)
    requires |a| == |b| && Less(a, b)
    ensures Clash(a, b)
  {
    if a[0] == b[0] { EqualLengthClash(a[1..], b[1..]); }
  }

  lemma {:induction false} ClashOrPrefix(a: seq<int>, b: seq<int>)
    ensures Clash(a, b) || Clash(b, a) || Prefix(a, b) || Prefix(b, a)
  {
    if a != [] && b != [] && a[0] == b[0] {
      ClashOrPrefix(a[1..], b[1..]);
      assert a == [a[0]] + a[1..] && b == [b[0]] + b[1..];
    }
  }

  /** Comparing the spelled texts orders two timestamps as instants exactly when they are compatible: fixed-width
      fractions always are, and a spelling that continues another one never is. */
  lemma RawOrderIsInstantOrderIff(a: Stamp, b: Stamp)
    requires a.Valid() && b.Valid()
    ensures Compatible(a, b) <==>
              Less(Raw(a), Raw(b)) == Less(InstantKey(a), InstantKey(b)) &&
              Less(Raw(b), Raw(a)) == Less(InstantKey(b), InstantKey(a))
  {
    if a.second != b.second {
      DifferentSeconds(a, b);
      DifferentSeconds(b, a);
    } else {
      SameSecond(a, b);
      SameSecond(b, a);
      SpellingsAgreeIff(a, b);
    }
  }

  lemma SpellingsAgreeIff(a: Stamp, b: Stamp)
    requires a.Valid() && b.Valid() && a.second == b.second
    ensures Compatible(a, b) <==>
              Less(Tail(a), Tail(b)) == Less(StripZeros(a.Fraction()), StripZeros(b.Fraction())) &&
              Less(Tail(b), Tail(a)) == Less(StripZeros(b.Fraction()), StripZeros(a.Fraction()))
  {
    var f, g := a.Fraction(), b.Fraction();
    ClashOrPrefix(f, g);
    Total(Tail(a), Tail(b));
    Total(StripZeros(f), StripZeros(g));
    if f == g {
      assert Tail(a) == Tail(b);
      Irreflexive(Tail(a));
      Irreflexive(StripZeros(f));
    } else if Prefix(f, g) {
      LongerSpellingFirst(a, b);
      StripOfPrefix(f, g);
    } else if Prefix(g, f) {
      LongerSpellingFirst(b, a);
      StripOfPrefix(g, f);
    } else if Clash(f, g) {
      DifferentSpellings(a, b);
    } else {
      DifferentSpellings(b, a);
    }
  }

  // --- Instants as numbers ------------------------------------------------------------------------

  // A fraction of a second, to n digits.
  function Padded(f: seq<int>, n: nat): seq<int>
    decreases n - |f|
  {
    if |f| >= n then f else Padded(f + [0x30], n)
  }

  lemma {:induction false} PaddedIs(f: seq<int>, n: nat)
    requires |f| <= n
    ensures |Padded(f, n)| == n && StripZeros(Padded(f, n)) == StripZeros(f) && (Digits(f) ==> Digits(Padded(f, n)))
    ensures forall k :: 0 <= k < n ==> Padded(f, n)[k] == if k < |f| then f[k] else 0x30
    decreases n - |f|
  {
    if |f| < n {
      PaddedIs(f + [0x30], n);
      assert (f + [0x30])[..|f|] == f;
    }
  }

  lemma EqualWidthFractions(x: seq<int>, y: seq<int>)
    requires |x| == |y| && Digits(x) && Digits(y)
    ensures Less(StripZeros(x), StripZeros(y)) <==> Less(x, y)
    ensures StripZeros(x) == StripZeros(y) <==> x == y
  {
    Total(x, y);
    Total(StripZeros(x), StripZeros(y));
    if Less(x, y) {
      EqualLengthClash(x, y);
      DifferAtDigit(x, y);
    } else if Less(y, x) {
      EqualLengthClash(y, x);
      DifferAtDigit(y, x);
    }
  }

  /** Timestamps compare as instants: by the second, and then by the fraction written to any number of digits that holds
      both. */
  lemma InstantsCompareDigits(a: Stamp, b: Stamp, n: nat)
    requires a.Valid() && b.Valid() && |a.Fraction()| <= n && |b.Fraction()| <= n
    ensures Less(InstantKey(a), InstantKey(b)) <==>
            Less(a.second, b.second) || (a.second == b.second && Less(Padded(a.Fraction(), n), Padded(b.Fraction(), n)))
    ensures InstantKey(a) == InstantKey(b) <==>
            a.second == b.second && Padded(a.Fraction(), n) == Padded(b.Fraction(), n)
  {
    PaddedIs(a.Fraction(), n);
    PaddedIs(b.Fraction(), n);
    EqualWidthFractions(Padded(a.Fraction(), n), Padded(b.Fraction(), n));
    if a.second == b.second {
      SameSecond(a, b);
      Irreflexive(a.second);
      assert InstantKey(a)[20..] == StripZeros(a.Fraction()) && InstantKey(b)[20..] == StripZeros(b.Fraction());
    } else {
      DifferentSeconds(a, b);
      assert InstantKey(a)[..19] == a.second && InstantKey(b)[..19] == b.second;
    }
  }
}
