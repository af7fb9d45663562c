/**
 * What masks, targets and extensions are, in characters.
 */
module RuleMeaning {
  import opened Utf8
  import opened Alphabets
  import opened Glob
  import opened Rules

  // --- Masks ------------------------------------------------------------------------------------

  // Equal lengths, and every character is the same or stands under a question mark.
  predicate SameButMarks(mask: Text, value: Text) {
    |mask| == |value| && forall i :: 0 <= i < |mask| ==> mask[i] == 0x3F || mask[i] == value[i]
  }

  /** A mask without stars means texts of its length that differ from it only under its question marks. */
  lemma {:induction false} PlainMaskMatches(mask: Text, value: Text)
    requires 0x2A !in mask
    ensures Matches(mask, value) <==> SameButMarks(mask, value)
  {
    if mask != [] && value != [] {
      PlainMaskMatches(mask[1..], value[1..]);
      assert mask == [mask[0]] + mask[1..] && value == [value[0]] + value[1..];
    }
  }

  // Some rest of the text fits the mask.
  predicate SomeRestMatches(mask: Text, value: Text) {
    exists k :: 0 <= k <= |value| && Matches(mask, value[k..])
  }

  lemma {:induction false} StarSkips(rest: Text, value: Text)
    ensures Matches([Star] + rest, value) <==> SomeRestMatches(rest, value)
  {
    assert ([Star] + rest)[1..] == rest && value[0..] == value;
    if value != [] {
      StarSkips(rest, value[1..]);
      assert forall k :: 0 <= k <= |value| - 1 ==> value[1..][k..] == value[k + 1..];
      if SomeRestMatches(rest, value) && !Matches(rest, value) {
        var k :| 0 <= k <= |value| && Matches(rest, value[k..]);
        assert value[1..][k - 1..] == value[k..];
      }
    }
  }

  /** A star means any text: the characters before it fit the beginning, and what follows it fits some rest. */
  lemma {:induction false} StarMaskMatches(head: Text, rest: Text, value: Text)
    requires 0x2A !in head
    ensures Matches(head + [0x2A] + rest, value) <==>
            |head| <= |value| && SameButMarks(head, value[..|head|]) && SomeRestMatches(rest, value[|head|..])
  {
    var mask := head + [0x2A] + rest;
    if head == [] {
      assert mask == [Star] + rest && value[0..] == value;
      StarSkips(rest, value);
    } else if value != [] {
      StarMaskMatches(head[1..], rest, value[1..]);
      assert mask[1..] == head[1..] + [0x2A] + rest && mask[0] == head[0] && head[0] in head;
      if |head| <= |value| {
        assert value[1..][..|head| - 1] == value[..|head|][1..] && value[1..][|head| - 1..] == value[|head|..];
        assert head == [head[0]] + head[1..] && value[..|head|] == [value[0]] + value[..|head|][1..];
      }
    }
  }

  /** A mask with two stars in a row matches nothing. */
  lemma DoubleStarsNeverMatch(u: Alphabet, rule: Rule, path: Text, i: nat)
    requires i + 1 < |rule.mask| && rule.mask[i] == 0x2A && rule.mask[i + 1] == 0x2A
    ensures !MatchRule(u, rule, path)
  {
  }

  // --- What a mask is compared with ---------------------------------------------------------------

  lemma {:induction false} AfterLastIs(text: Text, c: CodePoint)
    ensures var tail := AfterLast(text, c);
            |tail| <= |text| && tail == text[|text| - |tail|..] && c !in tail &&
            (|tail| < |text| ==> text[|text| - |tail| - 1] == c)
  {
    if text != [] && text[|text| - 1] != c { AfterLastIs(text[..|text| - 1], c); }
  }

  /** A rule for names looks at what follows the last slash or backslash of the path, one for paths at the whole path with
      slashes turned into backslashes, and so is its mask. */
  lemma ValuesToMatch(rule: Rule, path: Text)
    ensures var value, mask := MatchValue(rule, path), MatchMask(rule);
            if rule.field.Basename? then
              mask == rule.mask && |value| <= |path| && value == path[|path| - |value|..] &&
              0x2F !in value && 0x5C !in value &&
              (|value| < |path| ==> path[|path| - |value| - 1] == 0x2F || path[|path| - |value| - 1] == 0x5C)
            else
              |value| == |path| && |mask| == |rule.mask| &&
              (forall i :: 0 <= i < |path| ==> value[i] == if path[i] == 0x2F then 0x5C else path[i]) &&
              (forall i :: 0 <= i < |mask| ==> mask[i] == if rule.mask[i] == 0x2F then 0x5C else rule.mask[i])
  {
    var slashed := Replace(path, Backslash, Slash);
    AfterLastIs(slashed, Slash);
    if rule.field.Basename? {
      var value := AfterLast(slashed, Slash);
      forall i | 0 <= i < |value| ensures value[i] == path[|path| - |value| + i] {
        assert value[i] == slashed[|path| - |value| + i] && value[i] in value;
      }
    }
  }

  // --- Targets ------------------------------------------------------------------------------------

  // The place of the last dot, or -1.
  lemma LastDotIs(filename: Text) returns (dot: int)
    ensures dot == |filename| - |AfterLast(filename, Dot)| - 1 && -1 <= dot < |filename|
    ensures dot >= 0 ==> filename[dot] == 0x2E
    ensures forall i :: dot < i < |filename| ==> filename[i] != 0x2E
  {
    AfterLastIs(filename, Dot);
    var tail := AfterLast(filename, Dot);
    dot := |filename| - |tail| - 1;
    forall i | dot < i < |filename| ensures filename[i] != 0x2E {
      assert tail[i - dot - 1] in tail;
    }
  }

  // The name has no extension.
  predicate Unextended(filename: Text) {
    (forall i :: 0 < i < |filename| ==> filename[i] != 0x2E) || (filename != [] && filename[|filename| - 1] == 0x2E)
  }

  /** The extension begins at the last dot, unless the name begins or ends with that dot or has none; then it is empty. */
  lemma ExtensionIs(filename: Text)
    ensures var e := Extension(filename);
            |e| <= |filename| && e == filename[|filename| - |e|..] &&
            (e != [] ==> |e| < |filename| && |e| >= 2 && e[0] == 0x2E && 0x2E !in e[1..]) &&
            (e == [] <==> Unextended(filename))
  {
    var dot := LastDotIs(filename);
    var e := Extension(filename);
    if 0 < dot < |filename| - 1 {
      assert e == filename[dot..];
      assert forall i :: 0 <= i < |e| - 1 ==> e[1..][i] == filename[dot + 1 + i];
      assert !Unextended(filename);
    } else {
      assert e == [];
    }
  }

  lemma {:induction false} TrimSlashesIs(directory: Text)
    ensures var d := TrimSlashes(directory);
            d <= directory && (d != [] ==> d[|d| - 1] != 0x2F) &&
            forall i :: |d| <= i < |directory| ==> directory[i] == 0x2F
  {
    if directory != [] && directory[|directory| - 1] == Slash { TrimSlashesIs(directory[..|directory| - 1]); }
  }

  /** A target is in the rule's directory without its last slashes, and is called by the rule's stem with the file's own
      extension. */
  lemma TargetIs(rule: Rule, filename: Text) returns (directory: Text)
    ensures directory <= rule.directory && (directory != [] ==> directory[|directory| - 1] != 0x2F)
    ensures forall i :: |directory| <= i < |rule.directory| ==> rule.directory[i] == 0x2F
    ensures TargetOf(rule, filename) ==
            Target(rule.root, if rule.directory == [] then rule.stem + Extension(filename)
                              else directory + [0x2F] + (rule.stem + Extension(filename)))
  {
    TrimSlashesIs(rule.directory);
    directory := TrimSlashes(rule.directory);
  }
}
