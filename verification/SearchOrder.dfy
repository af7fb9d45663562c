/**
 * Result order: the two-pass sorts of the specification, the one comparison they amount to, and the ORDER BY
 * clauses of the stored indexes, which compare binary keys.
 */
module SearchOrder {
  import opened Wrappers
  import opened Lexicographic
  import opened Utf8
  import opened Alphabets
  import opened NaturalOrder
  import opened Timestamps
  import opened SearchItems
  import opened Search
  import opened SearchColumns
  import opened Sorting

  datatype SortField = Relevance | ByPath | ByName | ModifiedAt | Size
  datatype Ordering = Ordering(field: SortField, descending: bool)

  // An item with its score: the rows that are sorted.
  datatype Row = Row(item: Item, score: nat)

  // The matching items of a corpus with their scores, in corpus order.
  function MatchRows(u: Alphabet, items: seq<Item>, q: Query, selected: seq<Marker>): seq<Row> {
    if items == [] then []
    else
      var item := items[|items| - 1];
      var score := Score(u, item, q);
      MatchRows(u, items[..|items| - 1], q, selected) +
      (if HasChain(item, selected) && score.Some? then [Row(item, score.value)] else [])
  }

  function First(rows: seq<Row>, limit: nat): seq<Row> {
    if |rows| <= limit then rows else rows[..limit]
  }

  // --- The specification ----------------------------------------------------------------------

  predicate TieLess(u: Alphabet, a: Item, b: Item) {
    var p, q := Key(u, a.path), Key(u, b.path);
    KeyLess(p, q) || (p == q && (Less(a.path, b.path) || (a.path == b.path && Less(a.id, b.id))))
  }

  function Tie(u: Alphabet): (Row, Row) -> bool {
    (x: Row, y: Row) => TieLess(u, x.item, y.item)
  }

  predicate PrimaryLess(u: Alphabet, field: SortField, x: Row, y: Row) {
    match field
    case Relevance => x.score < y.score
    case ByPath => TieLess(u, x.item, y.item)
    case ByName => KeyLess(Key(u, x.item.filename), Key(u, y.item.filename))
    case ModifiedAt => Less(InstantKey(x.item.modified), InstantKey(y.item.modified))
    case Size => x.item.size < y.item.size
  }

  function Primary(u: Alphabet, o: Ordering): (Row, Row) -> bool {
    (x: Row, y: Row) => if o.descending then PrimaryLess(u, o.field, y, x) else PrimaryLess(u, o.field, x, y)
  }

  // Relevance and path sort in one pass; the others sort by path first and then, stably, by the field.
  function SortRows(u: Alphabet, o: Ordering, rows: seq<Row>): seq<Row> {
    match o.field
    case Relevance => SortBy(Then(Primary(u, o), Tie(u)), rows)
    case ByPath => SortBy(Primary(u, o), rows)
    case _ => SortBy(Primary(u, o), SortBy(Tie(u), rows))
  }

  // The one comparison.
  function Before(u: Alphabet, o: Ordering): (Row, Row) -> bool {
    if o.field.ByPath? then Primary(u, o) else Then(Primary(u, o), Tie(u))
  }

  ghost predicate DistinctIds(rows: seq<Row>) {
    forall i, j :: 0 <= i < j < |rows| ==> rows[i].item.id != rows[j].item.id
  }

  // --- The comparisons are orders -------------------------------------------------------------

  lemma TieIsTotal(u: Alphabet, a: Item, b: Item)
    ensures !(TieLess(u, a, b) && TieLess(u, b, a))
    ensures a.id != b.id ==> TieLess(u, a, b) || TieLess(u, b, a)
  {
    KeysTotal(Key(u, a.path), Key(u, b.path));
    Total(a.path, b.path);
    Total(a.id, b.id);
  }

  lemma TieIsTransitive(u: Alphabet, a: Item, b: Item, c: Item)
    requires TieLess(u, a, b) && TieLess(u, b, c)
    ensures TieLess(u, a, c)
  {
    var p, q, r := Key(u, a.path), Key(u, b.path), Key(u, c.path);
    if KeyLess(p, q) && KeyLess(q, r) {
      KeysTransitive(p, q, r);
    } else if p == q == r {
      if Less(a.path, b.path) && Less(b.path, c.path) {
        Transitive(a.path, b.path, c.path);
      } else if a.path == b.path == c.path {
        Transitive(a.id, b.id, c.id);
      }
    }
  }

  lemma TieTotalOnRows(u: Alphabet, rows: seq<Row>)
    requires DistinctIds(rows)
    ensures TotalOn(Tie(u), rows) && Distinct(rows)
  {
    forall x, y | x in rows && y in rows
      ensures !(Tie(u)(x, y) && Tie(u)(y, x)) && (x != y ==> Tie(u)(x, y) || Tie(u)(y, x))
    {
      TieIsTotal(u, x.item, y.item);
    }
    forall x, y, z | x in rows && y in rows && z in rows && Tie(u)(x, y) && Tie(u)(y, z) ensures Tie(u)(x, z) {
      TieIsTransitive(u, x.item, y.item, z.item);
    }
  }

  // Keys that are not smaller in steps are not smaller at all.
  lemma LessIsWeak(a: seq<int>, b: seq<int>, c: seq<int>)
    requires Less(a, c)
    ensures Less(a, b) || Less(b, c)
  {
    Total(a, b);
    if Less(b, a) { Transitive(b, a, c); }
  }

  lemma KeyLessIsWeak(a: seq<Part>, b: seq<Part>, c: seq<Part>)
    requires KeyLess(a, c)
    ensures KeyLess(a, b) || KeyLess(b, c)
  {
    KeysTotal(a, b);
    if KeyLess(b, a) { KeysTransitive(b, a, c); }
  }

  lemma PrimaryAsym(u: Alphabet, field: SortField, x: Row, y: Row)
    ensures !(PrimaryLess(u, field, x, y) && PrimaryLess(u, field, y, x))
  {
    match field
    case Relevance =>
    case ByPath => TieIsTotal(u, x.item, y.item);
    case ByName => KeysTotal(Key(u, x.item.filename), Key(u, y.item.filename));
    case ModifiedAt => Total(InstantKey(x.item.modified), InstantKey(y.item.modified));
    case Size =>
  }

  lemma PrimaryTransitive(u: Alphabet, field: SortField, x: Row, y: Row, z: Row)
    requires PrimaryLess(u, field, x, y) && PrimaryLess(u, field, y, z)
    ensures PrimaryLess(u, field, x, z)
  {
    match field
    case Relevance =>
    case ByPath => TieIsTransitive(u, x.item, y.item, z.item);
    case ByName => KeysTransitive(Key(u, x.item.filename), Key(u, y.item.filename), Key(u, z.item.filename));
    case ModifiedAt => Transitive(InstantKey(x.item.modified), InstantKey(y.item.modified), InstantKey(z.item.modified));
    case Size =>
  }

  lemma PrimaryNegative(u: Alphabet, field: SortField, x: Row, y: Row, z: Row)
    requires PrimaryLess(u, field, x, z) && !field.ByPath?
    ensures PrimaryLess(u, field, x, y) || PrimaryLess(u, field, y, z)
  {
    match field
    case ByName => KeyLessIsWeak(Key(u, x.item.filename), Key(u, y.item.filename), Key(u, z.item.filename));
    case ModifiedAt => LessIsWeak(InstantKey(x.item.modified), InstantKey(y.item.modified), InstantKey(z.item.modified));
    case _ =>
  }

  lemma PrimaryIsStrict(u: Alphabet, o: Ordering, rows: seq<Row>)
    ensures Strict(Primary(u, o), rows)
  {
    var less := Primary(u, o);
    forall x, y | x in rows && y in rows ensures !(less(x, y) && less(y, x)) {
      PrimaryAsym(u, o.field, x, y);
    }
    forall x, y, z | x in rows && y in rows && z in rows && less(x, y) && less(y, z) ensures less(x, z) {
      if o.descending { PrimaryTransitive(u, o.field, z, y, x); } else { PrimaryTransitive(u, o.field, x, y, z); }
    }
  }

  lemma PrimaryIsWeak(u: Alphabet, o: Ordering, rows: seq<Row>)
    requires !o.field.ByPath?
    ensures Weak(Primary(u, o), rows)
  {
    var less := Primary(u, o);
    PrimaryIsStrict(u, o, rows);
    forall x, y, z | x in rows && y in rows && z in rows && less(x, z) ensures less(x, y) || less(y, z) {
      if o.descending { PrimaryNegative(u, o.field, z, y, x); } else { PrimaryNegative(u, o.field, x, y, z); }
    }
  }

  lemma BeforeIsTotal(u: Alphabet, o: Ordering, rows: seq<Row>)
    requires DistinctIds(rows)
    ensures TotalOn(Before(u, o), rows)
  {
    TieTotalOnRows(u, rows);
    if o.field.ByPath? {
      PrimaryIsStrict(u, o, rows);
      forall x, y | x in rows && y in rows && x != y ensures Before(u, o)(x, y) || Before(u, o)(y, x) {
        assert Tie(u)(x, y) || Tie(u)(y, x);
      }
    } else {
      PrimaryIsWeak(u, o, rows);
      ThenIsTotal(Primary(u, o), Tie(u), rows);
    }
  }

  /** Whatever the field and direction, the sort of the specification is one sort by one strict total order. */
  lemma SortRowsIsOneSort(u: Alphabet, o: Ordering, rows: seq<Row>)
    requires DistinctIds(rows)
    ensures SortRows(u, o, rows) == SortBy(Before(u, o), rows)
    ensures Sorted(Before(u, o), SortRows(u, o, rows)) && multiset(SortRows(u, o, rows)) == multiset(rows)
  {
    TieTotalOnRows(u, rows);
    BeforeIsTotal(u, o, rows);
    SortIsSorted(Before(u, o), rows);
    SortElements(Before(u, o), rows);
    if !o.field.ByPath? && !o.field.Relevance? {
      PrimaryIsWeak(u, o, rows);
      TwoPassesAreOne(Primary(u, o), Tie(u), rows);
    }
  }

  // --- Stored keys ----------------------------------------------------------------------------

  // What the stored indexes write for an item and compare bytewise.
  datatype Stored = Stored(nameKey: seq<int>, pathKey: seq<int>, path: seq<int>, id: seq<int>, modifiedKey: seq<int>, size: nat)

  function SqlKeys(u: Alphabet, item: Item): Stored {
    Stored(Blob(u, item.filename), Blob(u, item.path), Encode(item.path), Encode(item.id), InstantKey(item.modified), item.size)
  }

  function EngineKeys(u: Alphabet, item: Item): Stored {
    Stored(Hex(Blob(u, item.filename)), Hex(Blob(u, item.path)), Encode(item.path), Encode(item.id),
           InstantKey(item.modified), item.size)
  }

  predicate StoredTie(a: Stored, b: Stored) {
    Less(a.pathKey, b.pathKey) ||
    (a.pathKey == b.pathKey && (Less(a.path, b.path) || (a.path == b.path && Less(a.id, b.id))))
  }

  predicate StoredPrimary(field: SortField, a: Stored, aScore: nat, b: Stored, bScore: nat) {
    match field
    case Relevance => aScore < bScore
    case ByPath => StoredTie(a, b)
    case ByName => Less(a.nameKey, b.nameKey)
    case ModifiedAt => Less(a.modifiedKey, b.modifiedKey)
    case Size => a.size < b.size
  }

  // ORDER BY the field in its direction, then by path ascending; by path alone, all three keys turn around.
  predicate StoredBefore(o: Ordering, a: Stored, aScore: nat, b: Stored, bScore: nat) {
    var forward, backward := StoredPrimary(o.field, a, aScore, b, bScore), StoredPrimary(o.field, b, bScore, a, aScore);
    var before, after := if o.descending then backward else forward, if o.descending then forward else backward;
    before || (!o.field.ByPath? && !after && StoredTie(a, b))
  }

  predicate ShortTexts(item: Item) {
    |item.path| < 0x1_0000_0000 && |item.filename| < 0x1_0000_0000
  }

  lemma HexDigitsKeepOrder(c: int, d: int)
    requires 0 <= c < d < 256
    ensures Clash([HexDigit(c / 16), HexDigit(c % 16)], [HexDigit(d / 16), HexDigit(d % 16)])
  {
    var a, b := [HexDigit(c / 16), HexDigit(c % 16)], [HexDigit(d / 16), HexDigit(d % 16)];
    assert a[1..] == [HexDigit(c % 16)] && b[1..] == [HexDigit(d % 16)];
    assert c / 16 == d / 16 ==> c % 16 < d % 16;
  }

  lemma {:induction false} HexKeepsOrder(a: seq<Byte>, b: seq<Byte>)
    ensures Less(Hex(a), Hex(b)) <==> Less(a, b)
    ensures Hex(a) == Hex(b) <==> a == b
  {
    HexKeepsPrefixes(a, b);
    if a != [] && b != [] {
      var x, y := [HexDigit(a[0] / 16), HexDigit(a[0] % 16)], [HexDigit(b[0] / 16), HexDigit(b[0] % 16)];
      if a[0] == b[0] {
        HexKeepsOrder(a[1..], b[1..]);
        SamePrefix(x, Hex(a[1..]), Hex(b[1..]));
      } else if a[0] < b[0] {
        HexDigitsKeepOrder(a[0], b[0]);
        Differ(x, y, Hex(a[1..]), Hex(b[1..]));
      } else {
        HexDigitsKeepOrder(b[0], a[0]);
        Differ(y, x, Hex(b[1..]), Hex(a[1..]));
      }
    }
  }

  // Two stored forms whose keys keep the natural order, text order and equality of the items they are of.
  ghost predicate Faithful(u: Alphabet, x: Item, a: Stored, y: Item, b: Stored) {
    (Less(a.nameKey, b.nameKey) <==> KeyLess(Key(u, x.filename), Key(u, y.filename))) &&
    (Less(a.pathKey, b.pathKey) <==> KeyLess(Key(u, x.path), Key(u, y.path))) &&
    (a.pathKey == b.pathKey <==> Key(u, x.path) == Key(u, y.path)) &&
    (Less(a.path, b.path) <==> Less(x.path, y.path)) && (a.path == b.path <==> x.path == y.path) &&
    (Less(a.id, b.id) <==> Less(x.id, y.id)) &&
    a.modifiedKey == InstantKey(x.modified) && b.modifiedKey == InstantKey(y.modified) && a.size == x.size && b.size == y.size
  }

  lemma SqlKeysAreFaithful(u: Alphabet, x: Item, y: Item)
    requires Sound(u) && ShortTexts(x) && ShortTexts(y)
    ensures Faithful(u, x, SqlKeys(u, x), y, SqlKeys(u, y))
  {
    BlobKeepsNaturalOrder(u, x.filename, y.filename);
    BlobKeepsNaturalOrder(u, x.path, y.path);
    EncodingKeepsOrder(x.path, y.path);
    EncodingKeepsOrder(x.id, y.id);
  }

  lemma EngineKeysAreFaithful(u: Alphabet, x: Item, y: Item)
    requires Sound(u) && ShortTexts(x) && ShortTexts(y)
    ensures Faithful(u, x, EngineKeys(u, x), y, EngineKeys(u, y))
  {
    SqlKeysAreFaithful(u, x, y);
    HexKeepsOrder(Blob(u, x.filename), Blob(u, y.filename));
    HexKeepsOrder(Blob(u, x.path), Blob(u, y.path));
  }

  lemma FaithfulTie(u: Alphabet, x: Item, a: Stored, y: Item, b: Stored)
    requires Faithful(u, x, a, y, b)
    ensures StoredTie(a, b) <==> TieLess(u, x, y)
  {
  }

  lemma FaithfulBefore(u: Alphabet, o: Ordering, x: Row, a: Stored, y: Row, b: Stored)
    requires Faithful(u, x.item, a, y.item, b) && Faithful(u, y.item, b, x.item, a)
    ensures StoredBefore(o, a, x.score, b, y.score) == Before(u, o)(x, y)
  {
    FaithfulTie(u, x.item, a, y.item, b);
    FaithfulTie(u, y.item, b, x.item, a);
  }

  function SqlOrder(u: Alphabet, o: Ordering): (Row, Row) -> bool {
    (x: Row, y: Row) => StoredBefore(o, SqlKeys(u, x.item), x.score, SqlKeys(u, y.item), y.score)
  }

  function EngineOrder(u: Alphabet, o: Ordering): (Row, Row) -> bool {
    (x: Row, y: Row) => StoredBefore(o, EngineKeys(u, x.item), x.score, EngineKeys(u, y.item), y.score)
  }

  /** Ordering rows by the stored binary keys, in SQL or in the engine, is the sort of the specification. */
  lemma StoredOrdersAreTheSort(u: Alphabet, o: Ordering, rows: seq<Row>)
    requires Sound(u) && DistinctIds(rows) && forall i :: 0 <= i < |rows| ==> ShortTexts(rows[i].item)
    ensures SortBy(SqlOrder(u, o), rows) == SortRows(u, o, rows)
    ensures SortBy(EngineOrder(u, o), rows) == SortRows(u, o, rows)
  {
    forall x, y | x in rows && y in rows
      ensures SqlOrder(u, o)(x, y) == Before(u, o)(x, y) && EngineOrder(u, o)(x, y) == Before(u, o)(x, y)
    {
      SqlKeysAreFaithful(u, x.item, y.item);
      SqlKeysAreFaithful(u, y.item, x.item);
      FaithfulBefore(u, o, x, SqlKeys(u, x.item), y, SqlKeys(u, y.item));
      EngineKeysAreFaithful(u, x.item, y.item);
      EngineKeysAreFaithful(u, y.item, x.item);
      FaithfulBefore(u, o, x, EngineKeys(u, x.item), y, EngineKeys(u, y.item));
    }
    SameSort(SqlOrder(u, o), Before(u, o), rows);
    SameSort(EngineOrder(u, o), Before(u, o), rows);
    SortRowsIsOneSort(u, o, rows);
  }
}
