/**
 * Stable identities for directory entries across scans: an unchanged entry keeps its id, an unambiguous rename
 * keeps it too, and no two entries share one. A resumed scan continues the assignment it interrupted.
 */
module Identities {
  import opened Wrappers

  type Path = string
  datatype Inode = Inode(dev: nat, number: nat)
  datatype Found = Found(path: Path, inode: Inode, size: nat, modified: nat)

  // Either derived from the inode, or a fresh unique id.
  datatype ItemId = FileId(inode: Inode) | Uid(token: nat)

  datatype Entry = Entry(id: ItemId, inode: Inode)
  type Index = map<Path, Entry>

  // The unique ids that a run would draw, by position in the listing.
  type Supply = nat -> nat

  predicate Listed(found: seq<Found>, path: Path) {
    exists i :: 0 <= i < |found| && found[i].path == path
  }

  function InodeCount(found: seq<Found>, inode: Inode): nat {
    if found == [] then 0
    else InodeCount(found[..|found| - 1], inode) + if found[|found| - 1].inode == inode then 1 else 0
  }

  function OldIds(prior: Index): set<ItemId> {
    set p | p in prior :: prior[p].id
  }

  // Entries of the index that are gone from the listing and had this inode.
  function GoneWith(found: seq<Found>, prior: Index, inode: Inode): set<Path> {
    set p | p in prior && !Listed(found, p) && prior[p].inode == inode
  }

  function Candidates(found: seq<Found>, prior: Index, inode: Inode, used: set<ItemId>): set<Path> {
    set p | p in GoneWith(found, prior, inode) && prior[p].id !in used
  }

  function IdSet(ids: seq<ItemId>): set<ItemId> {
    set i | 0 <= i < |ids| :: ids[i]
  }

  predicate Exact(found: seq<Found>, prior: Index, used: set<ItemId>, i: nat)
    requires i < |found|
  {
    var f := found[i];
    f.path in prior && prior[f.path].inode == f.inode && prior[f.path].id !in used
  }

  predicate Renamed(found: seq<Found>, prior: Index, used: set<ItemId>, i: nat)
    requires i < |found|
  {
    InodeCount(found, found[i].inode) == 1 && |Candidates(found, prior, found[i].inode, used)| == 1
  }

  // This is the id that entry i gets when the ids before it are given out.
  ghost predicate Chosen(found: seq<Found>, prior: Index, used: set<ItemId>, i: nat, token: nat, id: ItemId)
    requires i < |found|
  {
    if Exact(found, prior, used, i) then id == prior[found[i].path].id
    else if Renamed(found, prior, used, i) then
      exists p :: p in Candidates(found, prior, found[i].inode, used) && id == prior[p].id
    else if FileId(found[i].inode) in used || FileId(found[i].inode) in OldIds(prior) then id == Uid(token)
    else id == FileId(found[i].inode)
  }

  // A complete assignment that continues the staged ids.
  ghost predicate Assignment(found: seq<Found>, prior: Index, staged: seq<ItemId>, supply: Supply, ids: seq<ItemId>) {
    staged <= ids && |ids| <= |found| &&
    forall i :: |staged| <= i < |ids| ==> Chosen(found, prior, IdSet(ids[..i]), i, supply(i), ids[i])
  }

  // --- The assignment as a program ------------------------------------------------------------

  method CountInodes(found: seq<Found>) returns (counts: map<Inode, nat>)
    ensures forall f :: f in found ==> f.inode in counts && counts[f.inode] == InodeCount(found, f.inode)
  {
    counts := map[];
    for i := 0 to |found|
      invariant forall n: Inode :: (if n in counts then counts[n] else 0) == InodeCount(found[..i], n)
      invariant forall k :: 0 <= k < i ==> found[k].inode in counts
    {
      assert found[..i + 1][..i] == found[..i];
      var n := found[i].inode;
      counts := counts[n := (if n in counts then counts[n] else 0) + 1];
    }
    assert found[..|found|] == found;
  }

  method GroupGone(found: seq<Found>, prior: Index) returns (gone: map<Inode, set<Path>>)
    ensures forall n: Inode :: (if n in gone then gone[n] else {}) == GoneWith(found, prior, n)
  {
    gone := map[];
    var paths: set<Path> := set i | 0 <= i < |found| :: found[i].path;
    var rest := prior.Keys;
    while rest != {}
      invariant rest <= prior.Keys
      invariant forall n: Inode :: (if n in gone then gone[n] else {}) == GoneWith(found, prior, n) - rest
      decreases |rest|
    {
      var p :| p in rest;
      rest := rest - {p};
      var n := prior[p].inode;
      if p !in paths {
        gone := gone[n := (if n in gone then gone[n] else {}) + {p}];
      }
    }
  }

  method Choose(found: seq<Found>, prior: Index, used: set<ItemId>, i: nat, token: nat, count: nat, gone: set<Path>)
    returns (id: ItemId)
    requires i < |found| && count == InodeCount(found, found[i].inode) && gone == GoneWith(found, prior, found[i].inode)
    ensures Chosen(found, prior, used, i, token, id)
  {
    var f := found[i];
    if f.path in prior && prior[f.path].inode == f.inode && prior[f.path].id !in used {
      return prior[f.path].id;
    }
    var candidates := set p | p in gone && prior[p].id !in used;
    assert candidates == Candidates(found, prior, f.inode, used);
    if count == 1 && |candidates| == 1 {
      var p :| p in candidates;
      return prior[p].id;
    }
    id := FileId(f.inode);
    if id in used || id in OldIds(prior) {
      id := Uid(token);
    }
  }

  method EntryIds(found: seq<Found>, prior: Index, staged: seq<ItemId>, supply: Supply) returns (ids: seq<ItemId>)
    requires |staged| <= |found|
    ensures |ids| == |found| && Assignment(found, prior, staged, supply, ids)
  {
    var counts := CountInodes(found);
    var gone := GroupGone(found, prior);
    ids := staged;
    var used := IdSet(staged);
    for i := |staged| to |found|
      invariant |ids| == i && staged <= ids && used == IdSet(ids)
      invariant Assignment(found, prior, staged, supply, ids)
    {
      var n := found[i].inode;
      assert found[i] in found;
      var id := Choose(found, prior, used, i, supply(i), counts[n], if n in gone then gone[n] else {});
      AssignOne(found, prior, staged, supply, ids, id);
      IdSetAppend(ids, id);
      ids := ids + [id];
      used := used + {id};
    }
  }

  lemma IdSetAppend(ids: seq<ItemId>, id: ItemId)
    ensures IdSet(ids + [id]) == IdSet(ids) + {id}
  {
    assert forall i :: 0 <= i < |ids| ==> (ids + [id])[i] == ids[i];
    assert (ids + [id])[|ids|] == id;
  }

  lemma AssignOne(found: seq<Found>, prior: Index, staged: seq<ItemId>, supply: Supply, ids: seq<ItemId>, id: ItemId)
    requires Assignment(found, prior, staged, supply, ids) && |ids| < |found|
    requires Chosen(found, prior, IdSet(ids), |ids|, supply(|ids|), id)
    ensures Assignment(found, prior, staged, supply, ids + [id])
  {
    var later := ids + [id];
    forall i | |staged| <= i < |later| ensures Chosen(found, prior, IdSet(later[..i]), i, supply(i), later[i]) {
      assert later[..i] == ids[..i];
      if i == |ids| { assert ids[..i] == ids; }
    }
  }

  // --- Ids are distinct -----------------------------------------------------------------------

  // Tokens are fresh: never drawn twice, and in no old id.
  ghost predicate FreshSupply(prior: Index, supply: Supply) {
    (forall i: nat, j: nat :: i < j ==> supply(i) != supply(j)) && forall i: nat :: Uid(supply(i)) !in OldIds(prior)
  }

  ghost predicate DistinctIds(ids: seq<ItemId>) {
    forall i, j :: 0 <= i < j < |ids| ==> ids[i] != ids[j]
  }

  // Where an id of an assignment comes from.
  ghost predicate Known(prior: Index, id: ItemId, supply: Supply, i: nat) {
    id in OldIds(prior) || id.FileId? || id == Uid(supply(i))
  }

  lemma ChosenIsKnown(found: seq<Found>, prior: Index, used: set<ItemId>, i: nat, supply: Supply, id: ItemId)
    requires i < |found| && Chosen(found, prior, used, i, supply(i), id)
    ensures Known(prior, id, supply, i)
    ensures id in used ==> id == Uid(supply(i))
  {
  }

  /** No two entries of a listing get the same id, also when the scan continues staged ids. */
  lemma {:induction false} IdsAreInjective(found: seq<Found>, prior: Index, staged: seq<ItemId>, supply: Supply, ids: seq<ItemId>)
    requires FreshSupply(prior, supply) && Assignment(found, prior, staged, supply, ids) && DistinctIds(staged)
    requires forall i: nat :: Uid(supply(i)) !in IdSet(staged)
    ensures DistinctIds(ids)
  {
    forall i, j | 0 <= i < j < |ids| ensures ids[i] != ids[j] {
      assert ids[..j][i] in IdSet(ids[..j]);
      if j >= |staged| {
        ChosenIsKnown(found, prior, IdSet(ids[..j]), j, supply, ids[j]);
        if i >= |staged| {
          ChosenIsKnown(found, prior, IdSet(ids[..i]), i, supply, ids[i]);
        } else {
          assert staged[i] in IdSet(staged) && ids[i] == staged[i];
        }
      } else {
        assert ids[i] == staged[i] && ids[j] == staged[j];
      }
    }
  }

  // --- Unchanged entries and renames keep their id --------------------------------------------

  ghost predicate DistinctPaths(found: seq<Found>) {
    forall i, j :: 0 <= i < j < |found| ==> found[i].path != found[j].path
  }

  ghost predicate DistinctOldIds(prior: Index) {
    forall p, q :: p in prior && q in prior && p != q ==> prior[p].id != prior[q].id
  }

  // An old id is given only to its own path, or to an entry that takes over from a gone path.
  lemma OldIdGoesTo(found: seq<Found>, prior: Index, used: set<ItemId>, i: nat, supply: Supply, id: ItemId, q: Path)
    requires i < |found| && Chosen(found, prior, used, i, supply(i), id) && FreshSupply(prior, supply)
    requires q in prior && id == prior[q].id && DistinctOldIds(prior)
    ensures found[i].path == q || (!Listed(found, q) && prior[q].inode == found[i].inode && InodeCount(found, found[i].inode) == 1)
  {
    assert id in OldIds(prior);
  }

  /** An entry whose path and inode are those of the index keeps its id. */
  lemma {:induction false} UnchangedKeepsId(found: seq<Found>, prior: Index, supply: Supply, ids: seq<ItemId>, i: nat)
    requires FreshSupply(prior, supply) && DistinctPaths(found) && DistinctOldIds(prior)
    requires Assignment(found, prior, [], supply, ids) && i < |ids|
    requires found[i].path in prior && prior[found[i].path].inode == found[i].inode
    ensures ids[i] == prior[found[i].path].id
  {
    var q := found[i].path;
    var used := IdSet(ids[..i]);
    if prior[q].id in used {
      var k :| 0 <= k < i && ids[..i][k] == prior[q].id;
      OldIdGoesTo(found, prior, IdSet(ids[..k]), k, supply, ids[k], q);
    }
    assert Chosen(found, prior, used, i, supply(i), ids[i]);
  }

  lemma {:induction false} CountOne(found: seq<Found>, inode: Inode, i: nat, j: nat)
    requires i < j < |found| && found[i].inode == inode && found[j].inode == inode
    ensures InodeCount(found, inode) >= 2
  {
    var n := |found| - 1;
    if j == n {
      CountSome(found[..n], inode, i);
    } else {
      CountOne(found[..n], inode, i, j);
    }
  }

  lemma {:induction false} CountSome(found: seq<Found>, inode: Inode, i: nat)
    requires i < |found| && found[i].inode == inode
    ensures InodeCount(found, inode) >= 1
  {
    var n := |found| - 1;
    if i < n { CountSome(found[..n], inode, i); }
  }

  /** An entry that appears under a new path with an inode that only one gone entry had, and only it has now, keeps the
      id of the gone entry. */
  lemma {:induction false} RenameKeepsId(found: seq<Found>, prior: Index, supply: Supply, ids: seq<ItemId>, i: nat, q: Path)
    requires FreshSupply(prior, supply) && DistinctPaths(found) && DistinctOldIds(prior)
    requires Assignment(found, prior, [], supply, ids) && i < |ids|
    requires !(found[i].path in prior && prior[found[i].path].inode == found[i].inode)
    requires InodeCount(found, found[i].inode) == 1 && GoneWith(found, prior, found[i].inode) == {q}
    ensures ids[i] == prior[q].id
  {
    var used := IdSet(ids[..i]);
    assert q in GoneWith(found, prior, found[i].inode);
    if prior[q].id in used {
      var k :| 0 <= k < i && ids[..i][k] == prior[q].id;
      OldIdGoesTo(found, prior, IdSet(ids[..k]), k, supply, ids[k], q);
      assert Listed(found, found[k].path);
      CountOne(found, found[i].inode, k, i);
    }
    assert Candidates(found, prior, found[i].inode, used) == {q};
    assert Chosen(found, prior, used, i, supply(i), ids[i]);
  }

  // --- Resuming -------------------------------------------------------------------------------

  // The same ids, except that the runs drew different unique ids.
  ghost predicate Equivalent(prior: Index, a: seq<ItemId>, b: seq<ItemId>) {
    |a| == |b| && forall i :: 0 <= i < |a| ==> SameId(prior, a[i], b[i])
  }

  ghost predicate SameId(prior: Index, x: ItemId, y: ItemId) {
    x == y || (x.Uid? && y.Uid? && x !in OldIds(prior) && y !in OldIds(prior))
  }

  lemma {:induction false} SameDecisions(prior: Index, a: seq<ItemId>, b: seq<ItemId>, id: ItemId)
    requires Equivalent(prior, a, b) && (id in OldIds(prior) || id.FileId?)
    ensures id in IdSet(a) <==> id in IdSet(b)
  {
    if id in IdSet(a) {
      var i :| 0 <= i < |a| && a[i] == id;
      assert SameId(prior, a[i], b[i]) && b[i] in IdSet(b);
    }
    if id in IdSet(b) {
      var i :| 0 <= i < |b| && b[i] == id;
      assert SameId(prior, a[i], b[i]) && a[i] in IdSet(a);
    }
  }

  lemma {:induction false} SameChoice(found: seq<Found>, prior: Index, a: seq<ItemId>, s: Supply, b: seq<ItemId>, t: Supply,
                                      i: nat, x: ItemId, y: ItemId)
    requires FreshSupply(prior, s) && FreshSupply(prior, t) && Equivalent(prior, a, b) && i < |found|
    requires Chosen(found, prior, IdSet(a), i, s(i), x) && Chosen(found, prior, IdSet(b), i, t(i), y)
    ensures SameId(prior, x, y)
  {
    forall p | p in prior ensures prior[p].id in IdSet(a) <==> prior[p].id in IdSet(b) {
      SameDecisions(prior, a, b, prior[p].id);
    }
    SameDecisions(prior, a, b, FileId(found[i].inode));
    var c, d := Candidates(found, prior, found[i].inode, IdSet(a)), Candidates(found, prior, found[i].inode, IdSet(b));
    assert c == d;
    if |c| == 1 { OnlyOne(c); }
  }

  lemma TwoPaths(c: set<Path>, p: Path, q: Path)
    requires p in c && q in c && p != q
    ensures |c| >= 2
  {
    var rest := c - {p};
    assert q in rest && |rest| > 0;
  }

  lemma OnlyOne(c: set<Path>)
    requires |c| == 1
    ensures forall p, q :: p in c && q in c ==> p == q
  {
    forall p, q | p in c && q in c ensures p == q {
      if p != q { TwoPaths(c, p, q); }
    }
  }

  lemma EquivalentAppend(prior: Index, a: seq<ItemId>, b: seq<ItemId>, n: nat)
    requires n < |a| && n < |b| && Equivalent(prior, a[..n], b[..n]) && SameId(prior, a[n], b[n])
    ensures Equivalent(prior, a[..n + 1], b[..n + 1])
  {
    var x, y := a[..n + 1], b[..n + 1];
    forall i | 0 <= i < |x| ensures SameId(prior, x[i], y[i]) {
      if i < n { assert SameId(prior, a[..n][i], b[..n][i]); }
    }
  }

  lemma {:induction false} PrefixesAgree(found: seq<Found>, prior: Index, s: Supply, whole: seq<ItemId>, staged: seq<ItemId>,
                                         t: Supply, resumed: seq<ItemId>, n: nat)
    requires FreshSupply(prior, s) && FreshSupply(prior, t) && |staged| <= n <= |whole| && n <= |resumed|
    requires Assignment(found, prior, [], s, whole) && Assignment(found, prior, staged, t, resumed)
    requires Equivalent(prior, staged, whole[..|staged|])
    ensures Equivalent(prior, resumed[..n], whole[..n])
    decreases n
  {
    if n == |staged| {
      assert resumed[..n] == staged;
    } else {
      var k: nat := n - 1;
      PrefixesAgree(found, prior, s, whole, staged, t, resumed, k);
      assert Chosen(found, prior, IdSet(whole[..k]), k, s(k), whole[k]);
      assert Chosen(found, prior, IdSet(resumed[..k]), k, t(k), resumed[k]);
      SameChoice(found, prior, resumed[..k], t, whole[..k], s, k, resumed[k], whole[k]);
      EquivalentAppend(prior, resumed, whole, k);
    }
  }

  /** However often a scan of one listing was interrupted: if the staged ids agree with an uninterrupted scan, so do the
      ids of the scan that resumes from them, up to the unique ids that each drew itself. */
  lemma ResumedIsUninterrupted(found: seq<Found>, prior: Index, s: Supply, whole: seq<ItemId>, staged: seq<ItemId>,
                               t: Supply, resumed: seq<ItemId>)
    requires FreshSupply(prior, s) && FreshSupply(prior, t) && |whole| == |resumed|
    requires Assignment(found, prior, [], s, whole) && Assignment(found, prior, staged, t, resumed)
    requires Equivalent(prior, staged, whole[..|staged|])
    ensures Equivalent(prior, resumed, whole)
  {
    PrefixesAgree(found, prior, s, whole, staged, t, resumed, |resumed|);
    assert resumed[..|resumed|] == resumed && whole[..|whole|] == whole;
  }

  // --- A listing that changed behind the checkpoint --------------------------------------------

  // For a staged entry, both listings answer alike whether it was renamed, and from where.
  ghost predicate SameGuard(was: seq<Found>, now: seq<Found>, prior: Index, staged: seq<ItemId>, i: nat)
    requires i < |staged| && i < |was| && i < |now|
  {
    var used := IdSet(staged[..i]);
    Exact(was, prior, used, i) ||
    ((Renamed(was, prior, used, i) <==> Renamed(now, prior, used, i)) &&
     (Renamed(was, prior, used, i) ==>
       Candidates(was, prior, was[i].inode, used) == Candidates(now, prior, now[i].inode, used)))
  }

  ghost function ChoiceIn(found: seq<Found>, prior: Index, used: set<ItemId>, i: nat, token: nat): (id: ItemId)
    requires i < |found|
    ensures Chosen(found, prior, used, i, token, id)
  {
    if Exact(found, prior, used, i) then prior[found[i].path].id
    else if Renamed(found, prior, used, i) then
      assert |Candidates(found, prior, found[i].inode, used)| == 1;
      var p :| p in Candidates(found, prior, found[i].inode, used); prior[p].id
    else if FileId(found[i].inode) in used || FileId(found[i].inode) in OldIds(prior) then Uid(token)
    else FileId(found[i].inode)
  }

  // With the same ids given out, the two listings choose alike exactly if their guards agree.
  lemma {:induction false} GuardDecides(was: seq<Found>, now: seq<Found>, prior: Index, staged: seq<ItemId>, s: Supply,
                                        i: nat, x: ItemId)
    requires FreshSupply(prior, s) && DistinctOldIds(prior) && i < |staged| && i < |was| && i < |now| && was[i] == now[i]
    requires Chosen(was, prior, IdSet(staged[..i]), i, s(i), staged[i])
    requires Chosen(now, prior, IdSet(staged[..i]), i, s(i), x)
    ensures SameId(prior, staged[i], x) <==> SameGuard(was, now, prior, staged, i)
  {
    var used := IdSet(staged[..i]);
    if !Exact(was, prior, used, i) && Renamed(was, prior, used, i) && Renamed(now, prior, used, i) {
      OnlyOne(Candidates(was, prior, was[i].inode, used));
      OnlyOne(Candidates(now, prior, now[i].inode, used));
    }
  }

  lemma SameIdTransitive(prior: Index, x: ItemId, y: ItemId, z: ItemId)
    requires SameId(prior, x, y) && SameId(prior, z, y)
    ensures SameId(prior, x, z)
  {
  }

  lemma PrefixesAreSame(prior: Index, a: seq<ItemId>, b: seq<ItemId>, n: nat)
    requires n <= |a| && n <= |b|
    ensures Equivalent(prior, a[..n], b[..n]) <==> forall i :: 0 <= i < n ==> SameId(prior, a[i], b[i])
  {
    if Equivalent(prior, a[..n], b[..n]) {
      forall i | 0 <= i < n ensures SameId(prior, a[i], b[i]) { assert SameId(prior, a[..n][i], b[..n][i]); }
    }
  }

  lemma {:induction false} LastAgrees(was: seq<Found>, now: seq<Found>, prior: Index, s: Supply, staged: seq<ItemId>,
                                      u: Supply, whole: seq<ItemId>, k: nat)
    requires FreshSupply(prior, s) && FreshSupply(prior, u) && DistinctOldIds(prior) && k < |staged| <= |whole|
    requires Assignment(was, prior, [], s, staged) && Assignment(now, prior, [], u, whole)
    requires was[..|staged|] == now[..|staged|] && Equivalent(prior, staged[..k], whole[..k])
    ensures SameId(prior, staged[k], whole[k]) <==> SameGuard(was, now, prior, staged, k)
  {
    assert was[k] == was[..|staged|][k] == now[k];
    var x := ChoiceIn(now, prior, IdSet(staged[..k]), k, s(k));
    assert Chosen(was, prior, IdSet(staged[..k]), k, s(k), staged[k]);
    assert Chosen(now, prior, IdSet(whole[..k]), k, u(k), whole[k]);
    SameChoice(now, prior, staged[..k], s, whole[..k], u, k, x, whole[k]);
    GuardDecides(was, now, prior, staged, s, k, x);
    if SameId(prior, staged[k], whole[k]) { SameIdTransitive(prior, staged[k], whole[k], x); }
    if SameId(prior, staged[k], x) { SameIdTransitive(prior, staged[k], x, whole[k]); }
  }

  ghost predicate AllSame(prior: Index, a: seq<ItemId>, b: seq<ItemId>, n: nat)
    requires n <= |a| && n <= |b|
  {
    forall i :: 0 <= i < n ==> SameId(prior, a[i], b[i])
  }

  // If the guards of the first n entries agree, so do their ids.
  lemma {:induction false} StagedIfGuards(was: seq<Found>, now: seq<Found>, prior: Index, s: Supply, staged: seq<ItemId>,
                                          u: Supply, whole: seq<ItemId>, n: nat)
    requires FreshSupply(prior, s) && FreshSupply(prior, u) && DistinctOldIds(prior) && n <= |staged| <= |whole|
    requires Assignment(was, prior, [], s, staged) && Assignment(now, prior, [], u, whole)
    requires was[..|staged|] == now[..|staged|]
    requires forall i :: 0 <= i < |staged| ==> SameGuard(was, now, prior, staged, i)
    ensures AllSame(prior, staged, whole, n)
    decreases n
  {
    if n > 0 {
      var k: nat := n - 1;
      StagedIfGuards(was, now, prior, s, staged, u, whole, k);
      PrefixesAreSame(prior, staged, whole, k);
      LastAgrees(was, now, prior, s, staged, u, whole, k);
    }
  }

  lemma {:induction false} GuardsIfStaged(was: seq<Found>, now: seq<Found>, prior: Index, s: Supply, staged: seq<ItemId>,
                                          u: Supply, whole: seq<ItemId>, k: nat)
    requires FreshSupply(prior, s) && FreshSupply(prior, u) && DistinctOldIds(prior) && k < |staged| <= |whole|
    requires Assignment(was, prior, [], s, staged) && Assignment(now, prior, [], u, whole)
    requires was[..|staged|] == now[..|staged|] && AllSame(prior, staged, whole, |staged|)
    ensures SameGuard(was, now, prior, staged, k)
  {
    PrefixesAreSame(prior, staged, whole, k);
    LastAgrees(was, now, prior, s, staged, u, whole, k);
  }

  /** A scan that continues a staged prefix of an earlier listing gives the ids of an uninterrupted scan of the listing
      as it is now, exactly if both listings answer alike, for each staged entry, whether it was renamed and from where. */
  lemma {:induction false} ResumedIsUninterruptedIff(was: seq<Found>, now: seq<Found>, prior: Index, s: Supply,
                                                     staged: seq<ItemId>, u: Supply, whole: seq<ItemId>, t: Supply,
                                                     resumed: seq<ItemId>)
    requires FreshSupply(prior, s) && FreshSupply(prior, t) && FreshSupply(prior, u) && DistinctOldIds(prior)
    requires Assignment(was, prior, [], s, staged) && |staged| <= |now| && was[..|staged|] == now[..|staged|]
    requires Assignment(now, prior, [], u, whole) && Assignment(now, prior, staged, t, resumed)
    requires |whole| == |resumed|
    ensures Equivalent(prior, resumed, whole) <==>
            forall i :: 0 <= i < |staged| ==> SameGuard(was, now, prior, staged, i)
  {
    var n := |staged|;
    PrefixesAreSame(prior, staged, whole, n);
    assert staged[..n] == staged == resumed[..n];
    if forall i :: 0 <= i < n ==> SameGuard(was, now, prior, staged, i) {
      StagedIfGuards(was, now, prior, s, staged, u, whole, n);
      ResumedIsUninterrupted(now, prior, u, whole, staged, t, resumed);
    }
    if Equivalent(prior, resumed, whole) {
      PrefixesAreSame(prior, resumed, whole, n);
      forall i | 0 <= i < n ensures SameId(prior, staged[i], whole[i]) { assert staged[i] == resumed[i]; }
      forall i | 0 <= i < n ensures SameGuard(was, now, prior, staged, i) {
        GuardsIfStaged(was, now, prior, s, staged, u, whole, i);
      }
    }
  }

  const Moved: Inode := Inode(1, 7)
  const Before: Index := map["z" := Entry(Uid(0), Moved)]
  const OneEntry := [Found("a", Moved, 0, 0)]
  const TwoEntries := [Found("a", Moved, 0, 0), Found("z", Moved, 0, 0)]

  // The staged prefix still matches the longer listing, but the entry that is back under its old path has lost its id.
  lemma {:induction false} ChangedTailLosesAnId(s: Supply, t: Supply, whole: seq<ItemId>, resumed: seq<ItemId>)
    requires FreshSupply(Before, s) && FreshSupply(Before, t)
    requires Assignment(OneEntry, Before, [], s, whole) && |whole| == 1
    requires Assignment(TwoEntries, Before, whole, t, resumed) && |resumed| == 2
    ensures TwoEntries[..1] == OneEntry && resumed[1] != Before["z"].id
  {
    var ids := whole[..0];
    assert IdSet(ids) == {};
    assert InodeCount(OneEntry[..0], Moved) == 0;
    assert InodeCount(OneEntry, Moved) == 1;
    assert GoneWith(OneEntry, Before, Moved) == {"z"} by {
      assert OneEntry[0].path != "z";
    }
    assert Candidates(OneEntry, Before, Moved, {}) == {"z"};
    assert Chosen(OneEntry, Before, IdSet(whole[..0]), 0, s(0), whole[0]);
    assert whole[0] == Before["z"].id;
    assert resumed[..1] == whole && whole[0] in IdSet(whole);
    assert Chosen(TwoEntries, Before, IdSet(resumed[..1]), 1, t(1), resumed[1]);
    ChosenIsKnown(TwoEntries, Before, IdSet(resumed[..1]), 1, t, resumed[1]);
    assert Before["z"].id in OldIds(Before);
  }
}
