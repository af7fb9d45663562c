/**
 * UTF-8 (section 3 of RFC 3629) on code points, and the escaping of U+0000. Both keep the order of strings.
 */
module Utf8 {
  import opened Lexicographic

  // A Unicode scalar value; text with surrogates is not encodable and never reaches the index.
  type CodePoint = c: int | 0 <= c < 0x110000 && !(0xD800 <= c < 0xE000)
  type Text = seq<CodePoint>
  type Byte = b: int | 0 <= b < 256

  function EncodePoint(c: CodePoint): (r: seq<Byte>)
    ensures r != []
  {
    if c < 0x80 then [c]
    else if c < 0x800 then [0xC0 + c / 0x40, 0x80 + c % 0x40]
    else if c < 0x10000 then [0xE0 + c / 0x1000, 0x80 + c / 0x40 % 0x40, 0x80 + c % 0x40]
    else [0xF0 + c / 0x40000, 0x80 + c / 0x1000 % 0x40, 0x80 + c / 0x40 % 0x40, 0x80 + c % 0x40]
  }

  function Encode(text: Text): seq<Byte> {
    if text == [] then [] else EncodePoint(text[0]) + Encode(text[1..])
  }

  // A byte that continues a character holds six of its bits.
  predicate Continues(b: Byte) {
    0x80 <= b <= 0xBF
  }

  function Above(b: int, mark: int): int {
    b - mark
  }

  /** Every scalar value is encoded by the form of its range, with its bits in order (the table in section 3 of RFC 3629). */
  lemma EncodingIsUtf8(c: CodePoint)
    ensures var r := EncodePoint(c);
            if c <= 0x7F then r == [c]
            else if c <= 0x7FF then
              |r| == 2 && 0xC0 <= r[0] <= 0xDF && Continues(r[1]) && c == Above(r[0], 0xC0) * 0x40 + Above(r[1], 0x80)
            else if c <= 0xFFFF then
              |r| == 3 && 0xE0 <= r[0] <= 0xEF && Continues(r[1]) && Continues(r[2]) &&
              c == Above(r[0], 0xE0) * 0x1000 + Above(r[1], 0x80) * 0x40 + Above(r[2], 0x80)
            else
              |r| == 4 && 0xF0 <= r[0] <= 0xF7 && Continues(r[1]) && Continues(r[2]) && Continues(r[3]) &&
              c == Above(r[0], 0xF0) * 0x40000 + Above(r[1], 0x80) * 0x1000 + Above(r[2], 0x80) * 0x40 + Above(r[3], 0x80)
  {
    if c >= 0x10000 {
      FourBytes(c);
    } else if c >= 0x800 {
      ThreeBytes(c);
    }
  }

  lemma PointsClash(c: CodePoint, d: CodePoint)
    requires c < d
    ensures Clash(EncodePoint(c), EncodePoint(d))
  {
    if c < 0x80 || d < 0x800 {
      assert c >= 0x80 ==> c == c / 0x40 * 0x40 + c % 0x40 && d == d / 0x40 * 0x40 + d % 0x40;
    } else if c >= 0x800 && d < 0x10000 {
      ThreeBytes(c);
      ThreeBytes(d);
    } else if c >= 0x10000 {
      FourBytes(c);
      FourBytes(d);
      FourClash(EncodePoint(c), EncodePoint(d));
    }
  }

  lemma FourClash(a: seq<int>, b: seq<int>)
    requires |a| == |b| == 4
    requires a[0] < b[0] || (a[0] == b[0] && (a[1] < b[1] || (a[1] == b[1] && (a[2] < b[2] || (a[2] == b[2] && a[3] < b[3])))))
    ensures Clash(a, b)
  {
    var x, y := a[1..], b[1..];
    assert x[1..][0] == a[2] && y[1..][0] == b[2] && x[1..][1..][0] == a[3] && y[1..][1..][0] == b[3];
    assert a[0] == b[0] && a[1] == b[1] && a[2] == b[2] ==> Clash(x[1..][1..], y[1..][1..]);
    assert a[0] == b[0] && a[1] == b[1] ==> Clash(x[1..], y[1..]);
    assert a[0] == b[0] ==> Clash(x, y);
  }

  lemma ThreeBytes(c: int)
    requires c >= 0
    ensures c == c / 0x1000 * 0x1000 + c / 0x40 % 0x40 * 0x40 + c % 0x40
  {
    assert c / 0x1000 == c / 0x40 / 0x40;
  }

  lemma FourBytes(c: int)
    requires c >= 0
    ensures c == c / 0x40000 * 0x40000 + c / 0x1000 % 0x40 * 0x1000 + c / 0x40 % 0x40 * 0x40 + c % 0x40
  {
    ThreeBytes(c);
    assert c / 0x40000 == c / 0x1000 / 0x40;
  }

  /** UTF-8 keeps the order of strings and their prefixes, in both directions. */
  lemma {:induction false} EncodingKeepsOrder(s: Text, t: Text)
    ensures Less(Encode(s), Encode(t)) <==> Less(s, t)
    ensures Prefix(Encode(s), Encode(t)) <==> Prefix(s, t)
    ensures Encode(s) == Encode(t) <==> s == t
  {
    if s == [] {
    } else if t == [] {
    } else {
      var a, b := EncodePoint(s[0]), EncodePoint(t[0]);
      var x, y := Encode(s[1..]), Encode(t[1..]);
      assert s == [s[0]] + s[1..] && t == [t[0]] + t[1..];
      if s[0] == t[0] {
        EncodingKeepsOrder(s[1..], t[1..]);
        SamePrefix(a, x, y);
        PrefixCancels(a, x, y);
        PrefixCancels([s[0]], s[1..], t[1..]);
      } else if s[0] < t[0] {
        PointsClash(s[0], t[0]);
        Differ(a, b, x, y);
      } else {
        PointsClash(t[0], s[0]);
        Differ(b, a, y, x);
      }
    }
  }

  lemma Differ(a: seq<int>, b: seq<int>, x: seq<int>, y: seq<int>)
    requires Clash(a, b)
    ensures Less(a + x, b + y) && !Less(b + y, a + x) && !Prefix(a + x, b + y) && !Prefix(b + y, a + x) && a + x != b + y
  {
    ClashDecides(a, b, x, y);
    ClashIsNoPrefix(a + x, b + y);
    Total(a + x, b + y);
    Irreflexive(a + x);
  }

  lemma PrefixCancels<T>(p: seq<T>, x: seq<T>, y: seq<T>)
    ensures Prefix(p + x, p + y) <==> Prefix(x, y)
    ensures p + x == p + y <==> x == y
  {
    if p + x == p + y { assert x == (p + x)[|p|..] == (p + y)[|p|..] == y; }
    if Prefix(p + x, p + y) {
      assert x == (p + x)[|p|..] && (p + x) == (p + y)[..|p| + |x|];
      assert (p + y)[..|p| + |x|][|p|..] == y[..|x|];
    }
    if Prefix(x, y) {
      assert y == x + y[|x|..] && p + y == p + x + y[|x|..];
    }
  }

  // --- Escaping -------------------------------------------------------------------------------

  // The encoding of U+0000 becomes 00 FF, so that 00 00 can end a chunk.
  function EscapePoint(c: CodePoint): (r: seq<Byte>)
    ensures r != []
  {
    if c == 0 then [0, 0xFF] else EncodePoint(c)
  }

  function Escaped(text: Text): seq<Byte> {
    if text == [] then [] else EscapePoint(text[0]) + Escaped(text[1..])
  }

  // Replaces every zero byte, as the program does after encoding the whole chunk.
  function ReplaceZero(bytes: seq<Byte>): seq<Byte> {
    if bytes == [] then [] else (if bytes[0] == 0 then [0, 0xFF] else [bytes[0]]) + ReplaceZero(bytes[1..])
  }

  lemma {:induction false} ReplaceZeroAppend(a: seq<Byte>, b: seq<Byte>)
    ensures ReplaceZero(a + b) == ReplaceZero(a) + ReplaceZero(b)
  {
    if a == [] {
      assert a + b == b;
    } else {
      assert (a + b)[1..] == a[1..] + b;
      ReplaceZeroAppend(a[1..], b);
    }
  }

  lemma {:induction false} NoZeroStays(a: seq<Byte>)
    requires forall i :: 0 <= i < |a| ==> a[i] != 0
    ensures ReplaceZero(a) == a
  {
    if a != [] { NoZeroStays(a[1..]); }
  }

  lemma {:induction false} EscapedIsReplaced(text: Text)
    ensures ReplaceZero(Encode(text)) == Escaped(text)
  {
    if text != [] {
      var c := text[0];
      ReplaceZeroAppend(EncodePoint(c), Encode(text[1..]));
      EscapedIsReplaced(text[1..]);
      if c == 0 {
        assert EncodePoint(c)[1..] == [];
        assert ReplaceZero([0]) == [0, 0xFF];
      } else {
        NoZeroStays(EncodePoint(c));
      }
    }
  }

  lemma EscapedPointsClash(c: CodePoint, d: CodePoint)
    requires c < d
    ensures Clash(EscapePoint(c), EscapePoint(d))
  {
    if c > 0 { PointsClash(c, d); }
  }

  const End: seq<Byte> := [0, 0]

  // With its terminator, an escaped chunk is a prefix of no other, and the order of the chunks is decided inside both.
  lemma {:induction false} EscapedClash(s: Text, t: Text)
    requires Less(s, t)
    ensures Clash(Escaped(s) + End, Escaped(t) + End)
  {
    if s == [] {
      var d := EscapePoint(t[0]);
      assert Escaped(t) + End == d + (Escaped(t[1..]) + End);
      assert Escaped(s) + End == End;
      assert Clash(End, d) by {
        if t[0] == 0 { assert End[1..] == [0] && d[1..] == [0xFF]; }
      }
      ClashDecides(End, d, [], Escaped(t[1..]) + End);
      assert End + [] == End;
    } else {
      var a, b := EscapePoint(s[0]), EscapePoint(t[0]);
      assert Escaped(s) + End == a + (Escaped(s[1..]) + End) && Escaped(t) + End == b + (Escaped(t[1..]) + End);
      if s[0] == t[0] {
        EscapedClash(s[1..], t[1..]);
        SamePrefix(a, Escaped(s[1..]) + End, Escaped(t[1..]) + End);
      } else {
        EscapedPointsClash(s[0], t[0]);
        ClashDecides(a, b, Escaped(s[1..]) + End, Escaped(t[1..]) + End);
      }
    }
  }
}
