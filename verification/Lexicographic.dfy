/**
 * Lexicographic order of integer sequences, the order of byte strings and of strings by code point.
 */
module Lexicographic {
  predicate Prefix<T(==)>(p: seq<T>, s: seq<T>) {
    p <= s
  }

  predicate Less(a: seq<int>, b: seq<int>) {
    if b == [] then false
    else if a == [] then true
    else if a[0] != b[0] then a[0] < b[0]
    else Less(a[1..], b[1..])
  }

  // The sequences differ at a position inside both, and a is smaller there: what follows does not matter.
  predicate Clash(a: seq<int>, b: seq<int>) {
    a != [] && b != [] && (a[0] < b[0] || (a[0] == b[0] && Clash(a[1..], b[1..])))
  }

  lemma {:induction false} Irreflexive(a: seq<int>)
    ensures !Less(a, a)
  {
    if a != [] { Irreflexive(a[1..]); }
  }

  lemma {:induction false} Total(a: seq<int>, b: seq<int>)
    ensures Less(a, b) || Less(b, a) || a == b
    ensures !(Less(a, b) && Less(b, a))
  {
    if a != [] && b != [] && a[0] == b[0] {
      Total(a[1..], b[1..]);
      assert a == [a[0]] + a[1..] && b == [b[0]] + b[1..];
    }
  }

  lemma {:induction false} Transitive(a: seq<int>, b: seq<int>, c: seq<int>)
    requires Less(a, b) && Less(b, c)
    ensures Less(a, c)
  {
    if a != [] && a[0] == b[0] == c[0] { Transitive(a[1..], b[1..], c[1..]); }
  }

  lemma {:induction false} ClashDecides(a: seq<int>, b: seq<int>, x: seq<int>, y: seq<int>)
    requires Clash(a, b)
    ensures Clash(a + x, b + y) && Less(a + x, b + y) && Less(a, b)
  {
    assert (a + x)[1..] == a[1..] + x && (b + y)[1..] == b[1..] + y;
    if a[0] == b[0] { ClashDecides(a[1..], b[1..], x, y); }
  }

  lemma {:induction false} SamePrefix(p: seq<int>, a: seq<int>, b: seq<int>)
    ensures Less(p + a, p + b) == Less(a, b)
    ensures Clash(p + a, p + b) == Clash(a, b)
  {
    if p == [] {
      assert p + a == a && p + b == b;
    } else {
      assert (p + a)[1..] == p[1..] + a && (p + b)[1..] == p[1..] + b;
      SamePrefix(p[1..], a, b);
    }
  }

  lemma {:induction false} PrefixIsLess(p: seq<int>, s: seq<int>)
    requires Prefix(p, s)
    ensures p == s || Less(p, s)
  {
    if p != [] { PrefixIsLess(p[1..], s[1..]); }
  }

  lemma {:induction false} ClashAt(a: seq<int>, b: seq<int>) returns (k: nat)
    requires Clash(a, b)
    ensures k < |a| && k < |b| && a[k] < b[k]
  {
    if a[0] < b[0] {
      k := 0;
    } else {
      var i := ClashAt(a[1..], b[1..]);
      k := i + 1;
    }
  }

  lemma ClashIsNoPrefix(a: seq<int>, b: seq<int>)
    requires Clash(a, b)
    ensures !Prefix(a, b) && !Prefix(b, a)
  {
    var k := ClashAt(a, b);
  }
}
