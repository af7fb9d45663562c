/**
 * Natural order: runs of digits compare as numbers, other runs as folded text. The binary key that the index
 * stores orders and identifies values exactly as the tuple key of the in-memory search does.
 */
module NaturalOrder {
  import opened Lexicographic
  import opened Utf8
  import opened Alphabets

  datatype Part = Num(n: nat) | Txt(t: Text)

  predicate PartLess(p: Part, q: Part) {
    match (p, q)
    case (Num(n), Num(m)) => n < m
    case (Num(_), Txt(_)) => true
    case (Txt(_), Num(_)) => false
    case (Txt(s), Txt(t)) => Less(s, t)
  }

  predicate KeyLess(a: seq<Part>, b: seq<Part>) {
    if b == [] then false
    else if a == [] then true
    else if a[0] != b[0] then PartLess(a[0], b[0])
    else KeyLess(a[1..], b[1..])
  }

  // --- Chunks ---------------------------------------------------------------------------------

  // How far the first run of digits, or of non-digits, reaches.
  function Run(u: Alphabet, text: Text, digits: bool): (n: nat)
    ensures n <= |text| && (forall i :: 0 <= i < n ==> u.IsDigit(text[i]) == digits)
    ensures n < |text| ==> u.IsDigit(text[n]) != digits
  {
    if text == [] || u.IsDigit(text[0]) != digits then 0 else 1 + Run(u, text[1..], digits)
  }

  function Value(u: Alphabet, chunk: Text): nat {
    if chunk == [] then 0 else 10 * Value(u, chunk[..|chunk| - 1]) + u.digit(chunk[|chunk| - 1])
  }

  function PartOf(u: Alphabet, chunk: Text): Part
    requires chunk != []
  {
    if u.IsDigit(chunk[0]) then Num(Value(u, chunk)) else Txt(u.Fold(chunk))
  }

  // The tuple key.
  function Key(u: Alphabet, text: Text): seq<Part> {
    if text == [] then []
    else
      var n := Run(u, text, u.IsDigit(text[0]));
      [PartOf(u, text[..n])] + Key(u, text[n..])
  }

  // --- The binary key -------------------------------------------------------------------------

  function Decimal(n: nat): seq<Byte> {
    if n < 10 then [0x30 + n] else Decimal(n / 10) + [0x30 + n % 10]
  }

  // Big-endian; longer magnitudes, which the program refuses, do not occur in texts below that length.
  function Big32(n: nat): seq<Byte> {
    [n / 0x100_0000 % 0x100, n / 0x1_0000 % 0x100, n / 0x100 % 0x100, n % 0x100]
  }

  predicate Encodable(p: Part) {
    p.Num? ==> |Decimal(p.n)| < 0x1_0000_0000
  }

  predicate AllEncodable(parts: seq<Part>) {
    forall i :: 0 <= i < |parts| ==> Encodable(parts[i])
  }

  function Bytes(p: Part): seq<Byte> {
    match p
    case Num(n) => [1] + Big32(|Decimal(n)|) + Decimal(n) + End
    case Txt(t) => [2] + Escaped(t) + End
  }

  function KeyBytes(parts: seq<Part>): seq<Byte> {
    if parts == [] then [] else Bytes(parts[0]) + KeyBytes(parts[1..])
  }

  lemma {:induction false} DecimalLength(u: Alphabet, chunk: Text)
    requires Sound(u) && chunk != [] && forall i :: 0 <= i < |chunk| ==> u.IsDigit(chunk[i])
    ensures |Decimal(Value(u, chunk))| <= |chunk|
  {
    var n := |chunk| - 1;
    var d := u.digit(chunk[n]);
    if n > 0 {
      DecimalLength(u, chunk[..n]);
      var v := Value(u, chunk[..n]);
      assert (10 * v + d) / 10 == v;
    } else {
      assert Value(u, chunk[..0]) == 0;
    }
  }

  // Lengths below 2^32 are what the four length bytes can hold.
  lemma {:induction false} KeyIsEncodable(u: Alphabet, text: Text)
    requires Sound(u) && |text| < 0x1_0000_0000
    ensures AllEncodable(Key(u, text))
    decreases |text|
  {
    if text != [] {
      var n := Run(u, text, u.IsDigit(text[0]));
      KeyIsEncodable(u, text[n..]);
      if u.IsDigit(text[0]) { DecimalLength(u, text[..n]); }
    }
  }

  function Blob(u: Alphabet, text: Text): seq<Byte> {
    KeyBytes(Key(u, text))
  }

  method ChunkBytes(u: Alphabet, chunk: Text) returns (bytes: seq<Byte>)
    requires chunk != []
    ensures bytes == Bytes(PartOf(u, chunk))
  {
    if u.IsDigit(chunk[0]) {
      var magnitude := Decimal(Value(u, chunk));
      bytes := [1] + Big32(|magnitude|) + magnitude + End;
    } else {
      EscapedIsReplaced(u.Fold(chunk));
      bytes := [2] + ReplaceZero(Encode(u.Fold(chunk))) + End;
    }
  }

  lemma BlobStep(u: Alphabet, text: Text, n: nat)
    requires text != [] && n == Run(u, text, u.IsDigit(text[0]))
    ensures n > 0
    ensures Blob(u, text) == Bytes(PartOf(u, text[..n])) + Blob(u, text[n..])
  {
    assert Key(u, text) == [PartOf(u, text[..n])] + Key(u, text[n..]);
    assert Key(u, text)[1..] == Key(u, text[n..]);
  }

  lemma Associative(a: seq<Byte>, b: seq<Byte>, c: seq<Byte>)
    ensures a + b + c == a + (b + c)
  {
  }

  // Writes the key chunk by chunk, as the program extends its buffer.
  method NaturalBlob(u: Alphabet, text: Text) returns (result: seq<Byte>)
    ensures result == Blob(u, text)
  {
    result := [];
    var rest := text;
    while rest != []
      invariant Blob(u, text) == result + Blob(u, rest)
      decreases |rest|
    {
      var n := Run(u, rest, u.IsDigit(rest[0]));
      BlobStep(u, rest, n);
      var bytes := ChunkBytes(u, rest[..n]);
      Associative(result, bytes, Blob(u, rest[n..]));
      result := result + bytes;
      rest := rest[n..];
    }
  }

  // --- Order ----------------------------------------------------------------------------------

  lemma {:induction false} SmallerDecimal(n: nat, m: nat)
    requires n < m
    ensures |Decimal(n)| < |Decimal(m)| || (|Decimal(n)| == |Decimal(m)| && Clash(Decimal(n), Decimal(m)))
  {
    if n < 10 && m < 10 {
    } else if n >= 10 {
      if n / 10 < m / 10 {
        SmallerDecimal(n / 10, m / 10);
        if |Decimal(n / 10)| == |Decimal(m / 10)| {
          ClashDecides(Decimal(n / 10), Decimal(m / 10), [0x30 + n % 10], [0x30 + m % 10]);
        }
      } else {
        assert n / 10 == m / 10 && n % 10 < m % 10;
        SamePrefix(Decimal(n / 10), [0x30 + n % 10], [0x30 + m % 10]);
      }
    } else {
      assert |Decimal(m / 10)| >= 1;
    }
  }

  lemma Big32Clash(n: nat, m: nat)
    requires n < m < 0x1_0000_0000
    ensures Clash(Big32(n), Big32(m))
  {
    FourDigits(n);
    FourDigits(m);
    FourClash(Big32(n), Big32(m));
  }

  lemma FourDigits(n: nat)
    ensures n == n / 0x100_0000 * 0x100_0000 + n / 0x1_0000 % 0x100 * 0x1_0000 + n / 0x100 % 0x100 * 0x100 + n % 0x100
  {
    assert n / 0x1_0000 == n / 0x100 / 0x100 && n / 0x100_0000 == n / 0x1_0000 / 0x100;
  }

  lemma NumberClash(a: seq<Byte>, x: seq<Byte>, b: seq<Byte>, y: seq<Byte>)
    requires Clash(a, b) || (a == b && Clash(x, y))
    ensures Clash([1] + a + x + End, [1] + b + y + End)
  {
    assert [1] + a + x + End == [1] + (a + (x + End)) && [1] + b + y + End == [1] + (b + (y + End));
    if Clash(a, b) {
      ClashDecides(a, b, x + End, y + End);
    } else {
      ClashDecides(x, y, End, End);
      SamePrefix(a, x + End, y + End);
    }
    SamePrefix([1], a + (x + End), b + (y + End));
  }

  lemma NumsClash(n: nat, m: nat)
    requires n < m && Encodable(Num(n)) && Encodable(Num(m))
    ensures Clash(Bytes(Num(n)), Bytes(Num(m)))
  {
    SmallerDecimal(n, m);
    if |Decimal(n)| < |Decimal(m)| { Big32Clash(|Decimal(n)|, |Decimal(m)|); }
    NumberClash(Big32(|Decimal(n)|), Decimal(n), Big32(|Decimal(m)|), Decimal(m));
  }

  // The order of two different parts is decided inside both encodings.
  lemma PartsClash(p: Part, q: Part)
    requires PartLess(p, q) && Encodable(p) && Encodable(q)
    ensures Clash(Bytes(p), Bytes(q))
  {
    match (p, q)
    case (Num(n), Num(m)) => NumsClash(n, m);
    case (Num(n), Txt(_)) =>
    case (Txt(s), Txt(t)) =>
      EscapedClash(s, t);
      assert Bytes(p) == [2] + (Escaped(s) + End) && Bytes(q) == [2] + (Escaped(t) + End);
      SamePrefix([2], Escaped(s) + End, Escaped(t) + End);
  }

  lemma PartsTotal(p: Part, q: Part)
    ensures PartLess(p, q) || PartLess(q, p) || p == q
    ensures !(PartLess(p, q) && PartLess(q, p))
  {
    if p.Txt? && q.Txt? { Total(p.t, q.t); }
  }

  lemma {:induction false} KeyBytesKeepOrder(a: seq<Part>, b: seq<Part>)
    requires AllEncodable(a)
    requires AllEncodable(b)
    ensures Less(KeyBytes(a), KeyBytes(b)) <==> KeyLess(a, b)
    ensures KeyBytes(a) == KeyBytes(b) <==> a == b
  {
    if a != [] && b != [] {
      var x, y := KeyBytes(a[1..]), KeyBytes(b[1..]);
      assert a == [a[0]] + a[1..] && b == [b[0]] + b[1..];
      PartsTotal(a[0], b[0]);
      if a[0] == b[0] {
        KeyBytesKeepOrder(a[1..], b[1..]);
        SamePrefix(Bytes(a[0]), x, y);
        PrefixCancels(Bytes(a[0]), x, y);
      } else if PartLess(a[0], b[0]) {
        PartsClash(a[0], b[0]);
        Differ(Bytes(a[0]), Bytes(b[0]), x, y);
      } else {
        PartsClash(b[0], a[0]);
        Differ(Bytes(b[0]), Bytes(a[0]), y, x);
      }
    }
  }

  /** The binary key is an order embedding: byte order of the keys is natural order of the texts, and two keys are
      equal exactly when the natural keys are. */
  lemma BlobKeepsNaturalOrder(u: Alphabet, a: Text, b: Text)
    requires Sound(u) && |a| < 0x1_0000_0000 && |b| < 0x1_0000_0000
    ensures Less(Blob(u, a), Blob(u, b)) <==> KeyLess(Key(u, a), Key(u, b))
    ensures Blob(u, a) == Blob(u, b) <==> Key(u, a) == Key(u, b)
  {
    KeyIsEncodable(u, a);
    KeyIsEncodable(u, b);
    KeyBytesKeepOrder(Key(u, a), Key(u, b));
  }

  // --- Natural order is a strict total order of keys ------------------------------------------

  lemma {:induction false} KeysTotal(a: seq<Part>, b: seq<Part>)
    ensures KeyLess(a, b) || KeyLess(b, a) || a == b
    ensures !(KeyLess(a, b) && KeyLess(b, a))
  {
    if a != [] && b != [] {
      assert a == [a[0]] + a[1..] && b == [b[0]] + b[1..];
      PartsTotal(a[0], b[0]);
      if a[0] == b[0] { KeysTotal(a[1..], b[1..]); }
    }
  }

  lemma PartsTransitive(p: Part, q: Part, r: Part)
    requires PartLess(p, q) && PartLess(q, r)
    ensures PartLess(p, r)
  {
    if p.Txt? && q.Txt? && r.Txt? { Transitive(p.t, q.t, r.t); }
  }

  lemma {:induction false} KeysTransitive(a: seq<Part>, b: seq<Part>, c: seq<Part>)
    requires KeyLess(a, b) && KeyLess(b, c)
    ensures KeyLess(a, c)
  {
    if a != [] {
      if a[0] == b[0] == c[0] {
        KeysTransitive(a[1..], b[1..], c[1..]);
      } else if a[0] != b[0] && b[0] != c[0] {
        PartsTransitive(a[0], b[0], c[0]);
        PartsTotal(a[0], b[0]);
      }
    }
  }
}
