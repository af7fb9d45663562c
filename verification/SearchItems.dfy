/**
 * Search items, built from logical paths: the components of a path, and the markers that a schema recognizes
 * in its directories.
 */
module SearchItems {
  import opened Wrappers
  import opened Utf8
  import opened Alphabets
  import opened Tokens
  import opened Timestamps

  const Backslash: CodePoint := 0x5C
  const NoCompany: Text := [0x6E, 0x6F, 0x6E, 0x65]

  // Allowed values are compared after folding.
  datatype Level = Level(id: string, values: set<Text>, optional: bool)
  datatype Schema = Schema(rootLevels: seq<Level>, tails: map<Text, seq<Level>>)

  // Everything a marker id is derived from; the id itself is a digest of it.
  datatype Marker =
    | Value(level: string, parents: seq<Text>, value: Text)
    | Unrecognized(level: string, parents: seq<Text>)

  datatype Item = Item(id: Text, path: Text, filename: Text, markers: seq<Marker>, size: nat, modified: Stamp)

  // --- Paths ----------------------------------------------------------------------------------

  function WithSlashes(raw: Text): Text {
    seq(|raw|, i requires 0 <= i < |raw| => if raw[i] == Backslash then Slash else raw[i])
  }

  function StripLeft(t: Text): Text {
    if t != [] && t[0] == Slash then StripLeft(t[1..]) else t
  }

  function StripRight(t: Text): Text {
    if t != [] && t[|t| - 1] == Slash then StripRight(t[..|t| - 1]) else t
  }

  function Clean(raw: Text): Text {
    StripRight(StripLeft(WithSlashes(raw)))
  }

  function LastSlash(path: Text): (i: int)
    ensures -1 <= i < |path| && (i >= 0 ==> path[i] == Slash)
    ensures forall k :: i < k < |path| ==> path[k] != Slash
  {
    if path == [] then -1
    else if path[|path| - 1] == Slash then |path| - 1
    else LastSlash(path[..|path| - 1])
  }

  function WithTail(parts: seq<Text>, tail: Text): seq<Text> {
    if tail == [] then parts else parts + [tail]
  }

  // The parts between slashes that are not empty.
  function Components(path: Text): seq<Text> {
    var i := LastSlash(path);
    WithTail(if i < 0 then [] else Components(path[..i]), path[i + 1..])
  }

  lemma TailTokens(u: Alphabet, parts: seq<Text>, tail: Text)
    ensures Concat(TokenizeAll(u, WithTail(parts, tail))) == Concat(TokenizeAll(u, parts)) + Tokenize(u, tail)
  {
    var all := TokenizeAll(u, parts + [tail]);
    assert all[..|parts|] == TokenizeAll(u, parts);
    assert Tokenize(u, []) == [];
  }

  lemma TokenizeAtIndex(u: Alphabet, path: Text, i: nat)
    requires i < |path| && u.Separates(path[i])
    ensures Tokenize(u, path) == Tokenize(u, path[..i]) + Tokenize(u, path[i + 1..])
  {
    TokenizeAt(u, path[..i], path[i], path[i + 1..]);
    assert path == path[..i] + [path[i]] + path[i + 1..];
  }

  /** The tokens of a path are the tokens of its components, one after the other. */
  lemma {:induction false} ComponentTokens(u: Alphabet, path: Text)
    requires Sound(u)
    ensures Tokenize(u, path) == Concat(TokenizeAll(u, Components(path)))
    decreases |path|
  {
    var i := LastSlash(path);
    if i < 0 {
      assert path[0..] == path;
      TailTokens(u, [], path);
      assert Concat(TokenizeAll(u, [])) == [];
    } else {
      ComponentTokens(u, path[..i]);
      TokenizeAtIndex(u, path, i);
      TailTokens(u, Components(path[..i]), path[i + 1..]);
    }
  }

  lemma {:induction false} LastSlashAfter(a: Text, c: CodePoint, b: Text)
    requires c == Slash
    ensures LastSlash(a + [c] + b) == |a| + 1 + LastSlash(b)
  {
    var path := a + [c] + b;
    if b != [] && b[|b| - 1] != Slash {
      LastSlashAfter(a, c, b[..|b| - 1]);
      assert path[..|path| - 1] == a + [c] + b[..|b| - 1];
    }
  }

  lemma TailJoins(a: seq<Text>, b: seq<Text>, tail: Text)
    ensures WithTail(a + b, tail) == a + WithTail(b, tail)
  {
  }

  lemma LastPart(path: Text, i: nat, head: Text, tail: Text)
    requires LastSlash(path) == i && i < |path| && path[..i] == head && path[i + 1..] == tail
    ensures Components(path) == WithTail(Components(head), tail)
  {
  }

  lemma PathParts(a: Text, c: CodePoint, b: Text, i: nat)
    requires c == Slash && LastSlash(b) == i < |b|
    ensures Components(b) == WithTail(Components(b[..i]), b[i + 1..])
    ensures Components(a + [c] + b) == WithTail(Components(a + [c] + b[..i]), b[i + 1..])
  {
    var path := a + [c] + b;
    LastSlashAfter(a, c, b);
    assert path[..|a| + 1 + i] == a + [c] + b[..i] && path[|a| + 1 + i + 1..] == b[i + 1..];
    LastPart(path, |a| + 1 + i, a + [c] + b[..i], b[i + 1..]);
    LastPart(b, i, b[..i], b[i + 1..]);
  }

  /** A slash parts a path: its components are those before it and those after it. */
  lemma {:induction false} SlashParts(a: Text, c: CodePoint, b: Text)
    requires c == 0x2F
    ensures Components(a + [c] + b) == Components(a) + Components(b)
    decreases |b|
  {
    var path, i := a + [c] + b, LastSlash(b);
    LastSlashAfter(a, c, b);
    if i < 0 {
      assert path[..|a|] == a && path[|a| + 1..] == b && b[0..] == b;
      TailJoins(Components(a), [], b);
      assert Components(a) + [] == Components(a);
    } else {
      SlashParts(a, c, b[..i]);
      PathParts(a, c, b, i);
      TailJoins(Components(a), Components(b[..i]), b[i + 1..]);
    }
  }

  /** Without a slash, a path that is not empty is its only component. */
  lemma NoSlashIsOne(path: Text)
    requires 0x2F !in path
    ensures Components(path) == if path == [] then [] else [path]
  {
    assert LastSlash(path) < 0 && path[0..] == path;
  }

  lemma {:induction false} StripLeftIs(t: Text)
    ensures var s := StripLeft(t);
            |s| <= |t| && s == t[|t| - |s|..] && (s != [] ==> s[0] != Slash) &&
            forall i :: 0 <= i < |t| - |s| ==> t[i] == Slash
  {
    if t != [] && t[0] == Slash { StripLeftIs(t[1..]); }
  }

  lemma {:induction false} StripRightIs(t: Text)
    ensures var s := StripRight(t);
            s <= t && (s != [] ==> s[|s| - 1] != Slash) && forall i :: |s| <= i < |t| ==> t[i] == Slash
  {
    if t != [] && t[|t| - 1] == Slash { StripRightIs(t[..|t| - 1]); }
  }

  /** A cleaned path is the raw one with backslashes as slashes, without those at its ends. */
  lemma CleanIs(raw: Text) returns (from: nat, to: nat)
    ensures from <= to <= |raw| && |Clean(raw)| == to - from
    ensures forall i :: from <= i < to ==> Clean(raw)[i - from] == if raw[i] == 0x5C then 0x2F else raw[i]
    ensures from < to ==> Clean(raw)[0] != 0x2F && Clean(raw)[to - from - 1] != 0x2F
    ensures forall i :: 0 <= i < |raw| && !(from <= i < to) ==> raw[i] == 0x2F || raw[i] == 0x5C
  {
    var all := WithSlashes(raw);
    var left := StripLeft(all);
    StripLeftIs(all);
    StripRightIs(left);
    from := |all| - |left|;
    to := from + |Clean(raw)|;
    assert forall i :: 0 <= i < |left| ==> left[i] == all[from + i];
    forall i | 0 <= i < |raw| && !(from <= i < to) ensures raw[i] == 0x2F || raw[i] == 0x5C {
      if i >= to { assert left[i - from] == all[i]; }
      assert all[i] == Slash && all[i] == if raw[i] == Backslash then Slash else raw[i];
    }
  }

  // --- Markers --------------------------------------------------------------------------------

  function Levels(u: Alphabet, schema: Schema, parsed: seq<Text>): seq<Level> {
    var company := if |parsed| > 1 then u.Fold(parsed[1]) else NoCompany;
    schema.rootLevels + (if company in schema.tails then schema.tails[company] else [])
  }

  // The markers of the directories after the ones already parsed.
  function Markers(u: Alphabet, schema: Schema, dirs: seq<Text>, parsed: seq<Text>): seq<Marker>
    decreases |dirs| - |parsed|
  {
    var levels := Levels(u, schema, parsed);
    if |parsed| >= |levels| then
      if |parsed| < |dirs| then [Unrecognized("level-extra-depth", parsed)] else []
    else
      var level := levels[|parsed|];
      if |parsed| >= |dirs| then
        if level.optional then [] else [Unrecognized(level.id, parsed)]
      else if u.Fold(dirs[|parsed|]) !in level.values then [Unrecognized(level.id, parsed)]
      else
        var value := dirs[|parsed|];
        [Value(level.id, parsed, value)] + Markers(u, schema, dirs, parsed + [value])
  }

  // The loop of the program: a marker per recognized directory, and at most one that ends the walk.
  method BuildMarkers(u: Alphabet, schema: Schema, dirs: seq<Text>) returns (markers: seq<Marker>)
    ensures markers == Markers(u, schema, dirs, [])
  {
    markers := [];
    var parsed: seq<Text> := [];
    while true
      invariant |parsed| <= |dirs|
      invariant markers + Markers(u, schema, dirs, parsed) == Markers(u, schema, dirs, [])
      decreases |dirs| - |parsed|
    {
      var levels := Levels(u, schema, parsed);
      var position := |parsed|;
      if position >= |levels| {
        if position < |dirs| {
          markers := markers + [Unrecognized("level-extra-depth", parsed)];
        }
        break;
      }
      var level := levels[position];
      if position == |dirs| {
        if !level.optional {
          markers := markers + [Unrecognized(level.id, parsed)];
        }
        break;
      }
      var value := dirs[position];
      if u.Fold(value) !in level.values {
        markers := markers + [Unrecognized(level.id, parsed)];
        break;
      }
      markers := markers + [Value(level.id, parsed, value)];
      parsed := parsed + [value];
    }
  }

  // The marker at a depth: its ancestors are the directories above it, its value is the directory itself.
  ghost predicate Follows(m: Marker, dirs: seq<Text>, depth: nat) {
    depth <= |dirs| && m.parents == dirs[..depth] && (m.Value? ==> depth < |dirs| && m.value == dirs[depth])
  }

  ghost predicate AllFollow(markers: seq<Marker>, dirs: seq<Text>, depth: nat) {
    forall i :: 0 <= i < |markers| ==>
      Follows(markers[i], dirs, depth + i) && (markers[i].Unrecognized? ==> i == |markers| - 1)
  }

  lemma FollowOneMore(m: Marker, rest: seq<Marker>, dirs: seq<Text>, depth: nat)
    requires m.Value? && Follows(m, dirs, depth) && AllFollow(rest, dirs, depth + 1)
    ensures AllFollow([m] + rest, dirs, depth)
  {
    var markers := [m] + rest;
    forall i | 0 <= i < |markers|
      ensures Follows(markers[i], dirs, depth + i) && (markers[i].Unrecognized? ==> i == |markers| - 1)
    {
      if i > 0 { assert Follows(rest[i - 1], dirs, depth + 1 + (i - 1)); }
    }
  }

  /** The recognized markers are the directories of the path in order, each knowing its ancestors; only the last
      marker can be an unrecognized one. */
  lemma {:induction false} MarkersFollowDirectories(u: Alphabet, schema: Schema, dirs: seq<Text>, depth: nat)
    requires depth <= |dirs|
    ensures AllFollow(Markers(u, schema, dirs, dirs[..depth]), dirs, depth)
    decreases |dirs| - depth
  {
    var levels := Levels(u, schema, dirs[..depth]);
    if depth < |levels| && depth < |dirs| && u.Fold(dirs[depth]) in levels[depth].values {
      MarkersFollowDirectories(u, schema, dirs, depth + 1);
      assert dirs[..depth + 1] == dirs[..depth] + [dirs[depth]];
      FollowOneMore(Value(levels[depth].id, dirs[..depth], dirs[depth]),
                    Markers(u, schema, dirs, dirs[..depth + 1]), dirs, depth);
    }
  }

  // The levels that apply below the first `depth` directories: those of the root, and then those of the company, which
  // is called "none" until it is known.
  function LevelsAt(u: Alphabet, schema: Schema, dirs: seq<Text>, depth: nat): seq<Level> {
    var company := if 1 < depth && 1 < |dirs| then u.Fold(dirs[1]) else [0x6E, 0x6F, 0x6E, 0x65];
    schema.rootLevels + if company in schema.tails then schema.tails[company] else []
  }

  // The directory is one of the values of its level.
  predicate RecognizedAt(u: Alphabet, schema: Schema, dirs: seq<Text>, k: nat) {
    var levels := LevelsAt(u, schema, dirs, k);
    k < |dirs| && k < |levels| && u.Fold(dirs[k]) in levels[k].values
  }

  // How the markers end below the recognized directories.
  predicate EndsWith(u: Alphabet, schema: Schema, dirs: seq<Text>, n: nat, last: seq<Marker>) {
    var levels := LevelsAt(u, schema, dirs, n);
    n <= |dirs| &&
    if n == |dirs| then
      last == if n < |levels| && !levels[n].optional then [Unrecognized(levels[n].id, dirs)] else []
    else last == [Unrecognized(if n < |levels| then levels[n].id else "level-extra-depth", dirs[..n])]
  }

  ghost predicate ValuesFrom(u: Alphabet, schema: Schema, dirs: seq<Text>, from: nat, n: nat, values: seq<Marker>) {
    from <= n <= |dirs| && |values| == n - from &&
    forall k: nat :: from <= k < n ==>
      RecognizedAt(u, schema, dirs, k) &&
      values[k - from] == Value(LevelsAt(u, schema, dirs, k)[k].id, dirs[..k], dirs[k])
  }

  lemma {:induction false} MarkersFrom(u: Alphabet, schema: Schema, dirs: seq<Text>, from: nat)
    returns (n: nat, values: seq<Marker>, last: seq<Marker>)
    requires from <= |dirs|
    ensures Markers(u, schema, dirs, dirs[..from]) == values + last
    ensures ValuesFrom(u, schema, dirs, from, n, values) && EndsWith(u, schema, dirs, n, last)
    ensures !RecognizedAt(u, schema, dirs, n)
    decreases |dirs| - from
  {
    if RecognizedAt(u, schema, dirs, from) {
      var rest;
      n, rest, last := MarkersFrom(u, schema, dirs, from + 1);
      var value := ValueStep(u, schema, dirs, from);
      ValuesGrow(u, schema, dirs, from, n, value, rest);
      values := [value] + rest;
      assert values + last == [value] + (rest + last);
    } else {
      EndStep(u, schema, dirs, from);
      n, values, last := from, [], Markers(u, schema, dirs, dirs[..from]);
    }
  }

  lemma ValueStep(u: Alphabet, schema: Schema, dirs: seq<Text>, from: nat) returns (value: Marker)
    requires from <= |dirs| && RecognizedAt(u, schema, dirs, from)
    ensures value == Value(LevelsAt(u, schema, dirs, from)[from].id, dirs[..from], dirs[from])
    ensures Markers(u, schema, dirs, dirs[..from]) == [value] + Markers(u, schema, dirs, dirs[..from + 1])
  {
    assert Levels(u, schema, dirs[..from]) == LevelsAt(u, schema, dirs, from);
    value := Value(LevelsAt(u, schema, dirs, from)[from].id, dirs[..from], dirs[from]);
    assert dirs[..from + 1] == dirs[..from] + [dirs[from]];
  }

  lemma ValuesGrow(u: Alphabet, schema: Schema, dirs: seq<Text>, from: nat, n: nat, value: Marker, rest: seq<Marker>)
    requires RecognizedAt(u, schema, dirs, from) && ValuesFrom(u, schema, dirs, from + 1, n, rest)
    requires value == Value(LevelsAt(u, schema, dirs, from)[from].id, dirs[..from], dirs[from])
    ensures ValuesFrom(u, schema, dirs, from, n, [value] + rest)
  {
    forall k: nat | from <= k < n
      ensures RecognizedAt(u, schema, dirs, k) &&
              ([value] + rest)[k - from] == Value(LevelsAt(u, schema, dirs, k)[k].id, dirs[..k], dirs[k])
    {
      if k > from { assert ([value] + rest)[k - from] == rest[k - (from + 1)]; }
    }
  }

  lemma EndStep(u: Alphabet, schema: Schema, dirs: seq<Text>, from: nat)
    requires from <= |dirs| && !RecognizedAt(u, schema, dirs, from)
    ensures EndsWith(u, schema, dirs, from, Markers(u, schema, dirs, dirs[..from]))
  {
    assert Levels(u, schema, dirs[..from]) == LevelsAt(u, schema, dirs, from);
    assert dirs[..|dirs|] == dirs;
  }

  /** The markers of a path are the values of its first directories, as far as each is a value of its level. Below them comes
      nothing if the levels are used up or the next one is optional, and otherwise one mark for the first directory that is
      missing, not recognized, or too deep. */
  lemma MarkersAre(u: Alphabet, schema: Schema, dirs: seq<Text>) returns (n: nat, values: seq<Marker>, last: seq<Marker>)
    ensures Markers(u, schema, dirs, []) == values + last
    ensures ValuesFrom(u, schema, dirs, 0, n, values) && EndsWith(u, schema, dirs, n, last)
    ensures !RecognizedAt(u, schema, dirs, n)
  {
    assert dirs[..0] == [];
    n, values, last := MarkersFrom(u, schema, dirs, 0);
  }

  // A path needs a filename to become an item.
  function BuildItem(u: Alphabet, schema: Schema, id: Text, raw: Text, size: nat, modified: Stamp): Option<Item> {
    var path := Clean(raw);
    var parts := Components(path);
    if parts == [] then None
    else
      var n := |parts| - 1;
      Some(Item(id, path, parts[n], Markers(u, schema, parts[..n], []), size, modified))
  }

  ghost predicate Built(u: Alphabet, schema: Schema, item: Item) {
    exists raw: Text :: BuildItem(u, schema, item.id, raw, item.size, item.modified) == Some(item)
  }

  lemma BuiltParts(u: Alphabet, schema: Schema, item: Item)
    requires Built(u, schema, item)
    ensures var parts := Components(item.path);
            parts != [] && item.filename == parts[|parts| - 1] &&
            item.markers == Markers(u, schema, parts[..|parts| - 1], [])
  {
  }

  // The value of a recognized marker is the component at its depth.
  lemma MarkerIsComponent(u: Alphabet, schema: Schema, item: Item, i: nat)
    requires Built(u, schema, item) && i < |item.markers| && item.markers[i].Value?
    ensures var parts := Components(item.path); i < |parts| - 1 && item.markers[i].value == parts[i]
  {
    BuiltParts(u, schema, item);
    var parts := Components(item.path);
    var dirs := parts[..|parts| - 1];
    assert dirs[..0] == [];
    MarkersFollowDirectories(u, schema, dirs, 0);
    assert Follows(item.markers[i], dirs, i);
  }

  /** Every searchable token of an item stands in its path: the filename's and each recognized marker's tokens are
      next to each other there. */
  lemma FieldsStandInPath(u: Alphabet, schema: Schema, item: Item)
    requires Sound(u) && Built(u, schema, item)
    ensures Within(Tokenize(u, item.filename), Tokenize(u, item.path))
    ensures forall i :: 0 <= i < |item.markers| && item.markers[i].Value? ==>
              Within(Tokenize(u, item.markers[i].value), Tokenize(u, item.path))
  {
    var parts := Components(item.path);
    ComponentTokens(u, item.path);
    BuiltParts(u, schema, item);
    ComponentWithin(TokenizeAll(u, parts), |parts| - 1);
    forall i | 0 <= i < |item.markers| && item.markers[i].Value?
      ensures Within(Tokenize(u, item.markers[i].value), Tokenize(u, item.path))
    {
      MarkerIsComponent(u, schema, item, i);
      ComponentWithin(TokenizeAll(u, parts), i);
    }
  }
}
