/**
 * Immutable import manifests: lines with byte lengths, external versions, and the content a
 * sequence of upserts and deletes describes.
 */
module ArchiveManifest {
  import opened Wrappers

  const VERSION_RANGE: nat := 1_000_000_000
  const VERSION_LIMIT: nat := 0x8000_0000_0000_0000 // 2^63
  const MAX_LINE: nat := 262_144

  datatype Mode = Full | Delta

  type Length = n: nat | 0 < n witness 1

  // A line that is not a well-formed record is Malformed; every line has a byte length.
  datatype Line =
    | Upsert(id: string, path: string, size: nat, modified: string, length: Length)
    | Delete(id: string, length: Length)
    | Malformed(length: Length)

  // An engine document. It is a function of the record and of the root configuration.
  datatype Document =
    | Stored(id: string, path: string, size: nat, modified: string, config: string)
    | Tombstone(id: string)

  function Parse(line: Line, mode: Mode, config: string): Option<Document> {
    if line.length > MAX_LINE then None
    else match line
      case Upsert(id, path, size, modified, _) => Some(Stored(id, path, size, modified, config))
      case Delete(id, _) => if mode == Delta then Some(Tombstone(id)) else None
      case Malformed(_) => None
  }

  // --- Byte offsets -------------------------------------------------------------------------

  function Offset(source: seq<Line>, n: nat): nat
    requires n <= |source|
  {
    if n == 0 then 0 else Offset(source, n - 1) + source[n - 1].length
  }

  // The number of the line that a handle positioned at a byte offset reads next.
  function Seek(source: seq<Line>, offset: nat, from: nat := 0): nat
    requires from <= |source|
    decreases |source| - from
  {
    if from == |source| || Offset(source, from) >= offset then from else Seek(source, offset, from + 1)
  }

  lemma {:induction false} OffsetsIncrease(source: seq<Line>, i: nat, j: nat)
    requires i < j <= |source|
    ensures Offset(source, i) < Offset(source, j)
  {
    if i < j - 1 { OffsetsIncrease(source, i, j - 1); }
  }

  lemma {:induction false} SeekFrom(source: seq<Line>, n: nat, from: nat)
    requires from <= n <= |source|
    ensures Seek(source, Offset(source, n), from) == n
    decreases n - from
  {
    if from < n {
      OffsetsIncrease(source, from, n);
      SeekFrom(source, n, from + 1);
    }
  }

  /** Seeking to the end of record n resumes at exactly record n: nothing is skipped or read twice. */
  lemma SeekResumes(source: seq<Line>, n: nat)
    requires n <= |source|
    ensures Seek(source, Offset(source, n)) == n
  {
    SeekFrom(source, n, 0);
  }

  // --- External versions --------------------------------------------------------------------

  function Version(job: nat, position: nat): nat {
    job * VERSION_RANGE + position + 1
  }

  // The run refuses a record outside these bounds.
  predicate InRange(job: nat, position: nat) {
    position + 1 < VERSION_RANGE && job < VERSION_LIMIT / VERSION_RANGE - 1
  }

  function JobOf(version: nat): nat
    requires version > 0
  {
    (version - 1) / VERSION_RANGE
  }

  function PositionOf(version: nat): nat
    requires version > 0
  {
    (version - 1) % VERSION_RANGE
  }

  /** Versions order records by (job, position), identify them, and fit the engine's signed range. */
  lemma VersionsAreOrdered(j: nat, p: nat, k: nat, q: nat)
    requires p + 1 < 1_000_000_000 && q + 1 < 1_000_000_000
    ensures Version(j, p) < Version(k, q) <==> j < k || (j == k && p < q)
    ensures JobOf(Version(j, p)) == j && PositionOf(Version(j, p)) == p
    ensures InRange(j, p) <==> j < 9_223_372_035
    ensures InRange(j, p) ==> 0 < Version(j, p) < 0x8000_0000_0000_0000
  {
    if j < k { assert j * VERSION_RANGE + VERSION_RANGE <= k * VERSION_RANGE; }
    if k < j { assert k * VERSION_RANGE + VERSION_RANGE <= j * VERSION_RANGE; }
  }

  // --- The content a manifest describes -----------------------------------------------------

  function Apply(content: map<string, Document>, doc: Document): map<string, Document> {
    if doc.Tombstone? then content - {doc.id} else content[doc.id := doc]
  }

  // The first n records of a manifest applied in order.
  function Fold(content: map<string, Document>, source: seq<Line>, mode: Mode, config: string, n: nat)
    : map<string, Document>
    requires n <= |source|
  {
    if n == 0 then content
    else
      var before := Fold(content, source, mode, config, n - 1);
      match Parse(source[n - 1], mode, config)
      case Some(doc) => Apply(before, doc)
      case None => before
  }

  predicate Writes(source: seq<Line>, mode: Mode, config: string, p: nat, id: string)
    requires p < |source|
  {
    var doc := Parse(source[p], mode, config);
    doc.Some? && doc.value.id == id
  }

  /** Records that never mention an id leave it as it was. */
  lemma {:induction false} FoldKeeps(content: map<string, Document>, source: seq<Line>, mode: Mode, config: string,
                                     n: nat, id: string)
    requires n <= |source|
    requires forall p :: 0 <= p < n ==> !Writes(source, mode, config, p, id)
    ensures id in Fold(content, source, mode, config, n) <==> id in content
    ensures id in content ==> Fold(content, source, mode, config, n)[id] == content[id]
  {
    if n > 0 {
      FoldKeeps(content, source, mode, config, n - 1, id);
      assert !Writes(source, mode, config, n - 1, id);
    }
  }

  /** The last record that mentions an id decides it, whatever came before. */
  lemma {:induction false} FoldLastWriter(content: map<string, Document>, source: seq<Line>, mode: Mode,
                                          config: string, n: nat, p: nat, id: string)
    requires p < n <= |source|
    requires Writes(source, mode, config, p, id)
    requires forall q :: p < q < n ==> !Writes(source, mode, config, q, id)
    ensures var doc := Parse(source[p], mode, config).value;
            var folded := Fold(content, source, mode, config, n);
            (id in folded <==> doc.Stored?) && (doc.Stored? ==> folded[id] == doc)
  {
    if p < n - 1 {
      FoldLastWriter(content, source, mode, config, n - 1, p, id);
      assert !Writes(source, mode, config, n - 1, id);
    }
  }

  // --- What a manifest says, line by line ---------------------------------------------------

  // An upsert, or a delete of a delta, that fits the line limit.
  predicate UsableLine(line: Line, mode: Mode) {
    line.length <= 262_144 && (line.Upsert? || (line.Delete? && mode == Delta))
  }

  predicate Mentions(line: Line, mode: Mode, id: string) {
    UsableLine(line, mode) && line.id == id
  }

  predicate LastMention(source: seq<Line>, mode: Mode, p: nat, id: string) {
    p < |source| && Mentions(source[p], mode, id) && forall q :: p < q < |source| ==> !Mentions(source[q], mode, id)
  }

  // The content is at the id of a line what the line says: its path, size and time under this configuration, or nothing.
  predicate Says(content: map<string, Document>, line: Line, config: string) {
    match line
    case Upsert(id, path, size, modified, _) => id in content && content[id] == Stored(id, path, size, modified, config)
    case Delete(id, _) => id !in content
    case Malformed(_) => true
  }

  predicate Silent(source: seq<Line>, mode: Mode, id: string) {
    forall q :: 0 <= q < |source| ==> !Mentions(source[q], mode, id)
  }

  // Every id is as its last line says, or as it was.
  ghost predicate Imports(before: map<string, Document>, source: seq<Line>, mode: Mode, config: string,
                          after: map<string, Document>)
  {
    (forall p: nat, id :: LastMention(source, mode, p, id) ==> Says(after, source[p], config)) &&
    forall id :: Silent(source, mode, id) ==>
      (id in after <==> id in before) && (id in before ==> after[id] == before[id])
  }

  lemma LineIsUsable(line: Line, mode: Mode, config: string)
    ensures Parse(line, mode, config).Some? <==> UsableLine(line, mode)
    ensures UsableLine(line, mode) ==> Parse(line, mode, config).value.id == line.id
  {
  }

  /** A manifest leaves every id as the last line that mentions it says, and all other ids as they were. */
  lemma FoldImports(content: map<string, Document>, source: seq<Line>, mode: Mode, config: string)
    ensures Imports(content, source, mode, config, Fold(content, source, mode, config, |source|))
  {
    var n := |source|;
    forall q, id | 0 <= q < n ensures Writes(source, mode, config, q, id) <==> Mentions(source[q], mode, id) {
      LineIsUsable(source[q], mode, config);
    }
    forall p: nat, id | LastMention(source, mode, p, id)
      ensures Says(Fold(content, source, mode, config, n), source[p], config)
    {
      FoldLastWriter(content, source, mode, config, n, p, id);
    }
    forall id | Silent(source, mode, id)
      ensures var after := Fold(content, source, mode, config, n);
              (id in after <==> id in content) && (id in content ==> after[id] == content[id])
    {
      FoldKeeps(content, source, mode, config, n, id);
    }
  }
}
