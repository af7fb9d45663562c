/**
 * Rule masks: the matcher with one remembered star, and the recursive meaning of `*`, `?` and literals.
 */
module Glob {
  import opened Utf8

  const Star: CodePoint := 0x2A
  const Any: CodePoint := 0x3F

  // The meaning of a mask.
  predicate Matches(mask: Text, value: Text)
    decreases |mask| + |value|
  {
    if mask == [] then value == []
    else if mask[0] == Star then Matches(mask[1..], value) || (value != [] && Matches(mask, value[1..]))
    else value != [] && (mask[0] == Any || mask[0] == value[0]) && Matches(mask[1..], value[1..])
  }

  // The place of the matcher: the next mask and value positions, and what to retry from the last star.
  datatype Place = Place(mask: nat, value: nat, star: int, retry: nat)

  predicate Sane(mask: Text, value: Text, p: Place) {
    p.mask <= |mask| && p.value <= |value| && p.retry <= p.value && -1 <= p.star && (p.star >= 0 ==> p.star < p.mask)
  }

  predicate Fits(m: CodePoint, c: CodePoint) {
    m == Any || m == c
  }

  // One round of the loop, or None when the match has failed.
  datatype Round = Failed | Next(place: Place)

  function Advance(mask: Text, value: Text, p: Place): Round
    requires Sane(mask, value, p) && p.value < |value|
  {
    if p.mask < |mask| && Fits(mask[p.mask], value[p.value]) then Next(p.(mask := p.mask + 1, value := p.value + 1))
    else if p.mask < |mask| && mask[p.mask] == Star then Next(Place(p.mask + 1, p.value, p.mask, p.value))
    else if p.star >= 0 then Next(Place(p.star + 1, p.retry + 1, p.star, p.retry + 1))
    else Failed
  }

  predicate OnlyStars(mask: Text) {
    forall i :: 0 <= i < |mask| ==> mask[i] == Star
  }

  function Run(mask: Text, value: Text, p: Place): bool
    requires Sane(mask, value, p)
    decreases |value| - p.retry, |mask| - p.mask, |value| - p.value
  {
    if p.value == |value| then OnlyStars(mask[p.mask..])
    else
      var round := Advance(mask, value, p);
      round.Next? && Run(mask, value, round.place)
  }

  function MatchGlob(mask: Text, value: Text): bool {
    Run(mask, value, Place(0, 0, -1, 0))
  }

  // The loop of the program.
  method Match(mask: Text, value: Text) returns (matched: bool)
    ensures matched == MatchGlob(mask, value)
  {
    var p := Place(0, 0, -1, 0);
    while p.value < |value|
      invariant Sane(mask, value, p) && MatchGlob(mask, value) == Run(mask, value, p)
      decreases |value| - p.retry, |mask| - p.mask, |value| - p.value
    {
      var round := Advance(mask, value, p);
      if round.Failed? {
        return false;
      }
      p := round.place;
    }
    matched := true;
    for i := p.mask to |mask|
      invariant matched <==> forall k :: p.mask <= k < i ==> mask[k] == Star
    {
      matched := matched && mask[i] == Star;
    }
    assert OnlyStars(mask[p.mask..]) <==> forall k :: p.mask <= k < |mask| ==> mask[k] == Star by {
      if OnlyStars(mask[p.mask..]) {
        forall k | p.mask <= k < |mask| ensures mask[k] == Star {
          assert mask[p.mask..][k - p.mask] == mask[k];
        }
      }
    }
  }

  // --- The meaning ----------------------------------------------------------------------------

  lemma {:induction false} StarAbsorbs(mask: Text, value: Text, k: nat)
    requires mask != [] && mask[0] == Star && k <= |value| && Matches(mask, value[k..])
    ensures Matches(mask, value)
  {
    if k > 0 {
      assert value[1..][k - 1..] == value[k..];
      StarAbsorbs(mask, value[1..], k - 1);
    } else {
      assert value[0..] == value;
    }
  }

  // A part without stars takes as many characters as it has.
  lemma {:induction false} SegmentTakes(mask: Text, n: nat, value: Text)
    requires n <= |mask| && Matches(mask, value) && forall i :: 0 <= i < n ==> mask[i] != Star
    ensures n <= |value| && Matches(mask[n..], value[n..])
  {
    if n == 0 {
      assert mask[0..] == mask && value[0..] == value;
    } else {
      SegmentTakes(mask[1..], n - 1, value[1..]);
      assert mask[1..][n - 1..] == mask[n..] && value[1..][n - 1..] == value[n..];
    }
  }

  lemma {:induction false} StarsMatchNothing(mask: Text)
    ensures Matches(mask, []) <==> OnlyStars(mask)
  {
    if mask != [] {
      StarsMatchNothing(mask[1..]);
      if OnlyStars(mask[1..]) && mask[0] == Star {
        forall i | 0 <= i < |mask| ensures mask[i] == Star {
          if i > 0 { assert mask[1..][i - 1] == Star; }
        }
      }
    }
  }

  // A later try from the last star can still succeed.
  ghost predicate Later(mask: Text, value: Text, p: Place)
    requires Sane(mask, value, p)
  {
    p.star >= 0 && exists r :: p.retry < r <= |value| && Matches(mask[p.star + 1..], value[r..])
  }

  // Since the last star, the matcher took one character per mask character.
  ghost predicate Straight(mask: Text, value: Text, p: Place) {
    Sane(mask, value, p) &&
    (p.star >= 0 ==>
      mask[p.star] == Star && p.value == p.retry + (p.mask - p.star - 1) &&
      forall i :: p.star < i < p.mask ==> mask[i] != Star)
  }

  ghost predicate Hopeful(mask: Text, value: Text, p: Place)
    requires Sane(mask, value, p)
  {
    Matches(mask[p.mask..], value[p.value..]) || Later(mask, value, p)
  }

  predicate StarFree(value: Text) {
    forall i :: 0 <= i < |value| ==> value[i] != Star
  }

  // Before a new star, whatever a later try could do the new star can do as well.
  lemma NewStarIsEnough(mask: Text, value: Text, p: Place)
    requires Straight(mask, value, p) && p.mask < |mask| && mask[p.mask] == Star && Later(mask, value, p)
    ensures Matches(mask[p.mask..], value[p.value..])
  {
    var r :| p.retry < r <= |value| && Matches(mask[p.star + 1..], value[r..]);
    var n := p.mask - p.star - 1;
    SegmentTakes(mask[p.star + 1..], n, value[r..]);
    assert mask[p.star + 1..][n..] == mask[p.mask..] && value[r..][n..] == value[r + n..];
    assert value[p.value..][r + n - p.value..] == value[r + n..];
    StarAbsorbs(mask[p.mask..], value[p.value..], r + n - p.value);
  }

  // At the end of the value no later try is left.
  lemma NoLaterAtEnd(mask: Text, value: Text, p: Place)
    requires Straight(mask, value, p) && p.value == |value|
    ensures !Later(mask, value, p)
  {
    if Later(mask, value, p) {
      var r :| p.retry < r <= |value| && Matches(mask[p.star + 1..], value[r..]);
      SegmentTakes(mask[p.star + 1..], p.mask - p.star - 1, value[r..]);
    }
  }

  lemma LaterStep(mask: Text, value: Text, p: Place)
    requires Sane(mask, value, p) && p.star >= 0 && p.value < |value|
    ensures var q := Place(p.star + 1, p.retry + 1, p.star, p.retry + 1);
            Sane(mask, value, q) && (Later(mask, value, p) <==> Hopeful(mask, value, q))
  {
    var q := Place(p.star + 1, p.retry + 1, p.star, p.retry + 1);
    if Later(mask, value, p) {
      var r :| p.retry < r <= |value| && Matches(mask[p.star + 1..], value[r..]);
      if r > p.retry + 1 { assert Later(mask, value, q); }
    }
  }

  // One round keeps what can still be matched.
  lemma RoundKeepsHope(mask: Text, value: Text, p: Place)
    requires Straight(mask, value, p) && p.value < |value| && StarFree(value)
    ensures var round := Advance(mask, value, p);
            (round.Failed? ==> !Hopeful(mask, value, p)) &&
            (round.Next? ==> Straight(mask, value, round.place) &&
                             (Hopeful(mask, value, p) <==> Hopeful(mask, value, round.place)))
  {
    var m, v := mask[p.mask..], value[p.value..];
    assert v[1..] == value[p.value + 1..];
    if p.mask < |mask| { assert m[1..] == mask[p.mask + 1..]; }
    if p.mask < |mask| && mask[p.mask] == Star {
      var q := Place(p.mask + 1, p.value, p.mask, p.value);
      if Later(mask, value, p) { NewStarIsEnough(mask, value, p); }
      StarTries(mask, value, q);
    } else if !(p.mask < |mask| && Fits(mask[p.mask], value[p.value])) {
      assert !Matches(m, v);
      if p.star >= 0 { LaterStep(mask, value, p); }
    }
  }

  // A star matches if the rest matches here or further on.
  lemma StarTries(mask: Text, value: Text, q: Place)
    requires Sane(mask, value, q) && q.star >= 0 && q.mask == q.star + 1 && q.value == q.retry && mask[q.star] == Star
    ensures Matches(mask[q.star..], value[q.value..]) <==> Hopeful(mask, value, q)
  {
    StarFinds(mask[q.star..], value[q.value..]);
    assert mask[q.star..][1..] == mask[q.mask..];
    if Matches(mask[q.star..], value[q.value..]) {
      var k :| 0 <= k <= |value| - q.value && Matches(mask[q.mask..], value[q.value..][k..]);
      assert value[q.value..][k..] == value[q.value + k..];
      if k > 0 { assert Later(mask, value, q); }
    }
    if Later(mask, value, q) {
      var r :| q.retry < r <= |value| && Matches(mask[q.star + 1..], value[r..]);
      assert value[q.value..][r - q.value..] == value[r..];
    }
  }

  lemma {:induction false} StarFinds(mask: Text, value: Text)
    requires mask != [] && mask[0] == Star
    ensures Matches(mask, value) <==> exists k :: 0 <= k <= |value| && Matches(mask[1..], value[k..])
  {
    assert value[0..] == value;
    if value != [] {
      StarFinds(mask, value[1..]);
      if Matches(mask, value[1..]) {
        var k :| 0 <= k <= |value| - 1 && Matches(mask[1..], value[1..][k..]);
        assert value[1..][k..] == value[k + 1..];
      }
      if k :| 1 <= k <= |value| && Matches(mask[1..], value[k..]) {
        assert value[1..][k - 1..] == value[k..];
      }
    }
  }

  lemma {:induction false} RunIsHope(mask: Text, value: Text, p: Place)
    requires Straight(mask, value, p) && StarFree(value)
    ensures Run(mask, value, p) <==> Hopeful(mask, value, p)
    decreases |value| - p.retry, |mask| - p.mask, |value| - p.value
  {
    if p.value == |value| {
      NoLaterAtEnd(mask, value, p);
      StarsMatchNothing(mask[p.mask..]);
      assert value[p.value..] == [];
    } else {
      RoundKeepsHope(mask, value, p);
      var round := Advance(mask, value, p);
      if round.Next? { RunIsHope(mask, value, round.place); }
    }
  }

  /** For a value without stars, the matcher with one remembered star decides exactly the meaning of every mask. */
  lemma GlobIsComplete(mask: Text, value: Text)
    requires StarFree(value)
    ensures MatchGlob(mask, value) <==> Matches(mask, value)
  {
    RunIsHope(mask, value, Place(0, 0, -1, 0));
    assert mask[0..] == mask && value[0..] == value;
  }

  // --- Values with a star ---------------------------------------------------------------------

  function Anys(n: nat): Text {
    seq(n, i => Any)
  }

  // A mask with a star exactly where the value has one, and one place too many after it unless it takes nothing.
  function Trap(value: Text, i: nat): Text
    requires i < |value|
  {
    Anys(i) + [Star] + Anys(|value| - i)
  }

  lemma {:induction false} AnysMatch(n: nat, rest: Text, value: Text)
    requires n <= |value|
    ensures Matches(Anys(n) + rest, value) <==> Matches(rest, value[n..])
  {
    if n == 0 {
      assert Anys(0) + rest == rest && value[0..] == value;
    } else {
      assert (Anys(n) + rest)[0] == Any && (Anys(n) + rest)[1..] == Anys(n - 1) + rest;
      AnysMatch(n - 1, rest, value[1..]);
      assert value[1..][n - 1..] == value[n..];
    }
  }

  lemma TrapMatches(value: Text, i: nat)
    requires i < |value|
    ensures Matches(Trap(value, i), value)
  {
    var n := |value| - i;
    var rest := [Star] + Anys(n);
    assert Trap(value, i) == Anys(i) + rest;
    AnysMatch(i, rest, value);
    AnysMatch(n, [], value[i..]);
    assert Anys(n) + [] == Anys(n) && value[i..][n..] == [];
    assert rest[1..] == Anys(n);
  }

  // The matcher takes the star literally, and then has one place too many.
  lemma {:induction false} TrapRuns(value: Text, i: nat, k: nat)
    requires i < |value| && value[i] == Star && k <= |value|
    ensures !Run(Trap(value, i), value, Place(k, k, -1, 0))
    decreases |value| - k
  {
    var mask := Trap(value, i);
    if k == |value| {
      assert mask[k..][0] == mask[k] == Any;
    } else {
      assert mask[k] == if k == i then Star else Any;
      TrapRuns(value, i, k + 1);
    }
  }

  /** The matcher decides the meaning of all masks on a value exactly if the value has no star in it. */
  lemma GlobIsCompleteIff(value: Text)
    ensures (forall mask: Text :: MatchGlob(mask, value) <==> Matches(mask, value)) <==> StarFree(value)
  {
    if StarFree(value) {
      forall mask: Text ensures MatchGlob(mask, value) <==> Matches(mask, value) {
        GlobIsComplete(mask, value);
      }
    } else {
      var i :| 0 <= i < |value| && value[i] == Star;
      TrapMatches(value, i);
      TrapRuns(value, i, 0);
      assert !MatchGlob(Trap(value, i), value);
    }
  }
}
