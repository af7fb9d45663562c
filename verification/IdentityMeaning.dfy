/** Which id every entry of a first scan gets, case by case. */
module IdentityMeaning {
  import opened Wrappers
  import opened Identities

  predicate Unchanged(found: seq<Found>, prior: Index, i: nat) {
    i < |found| && found[i].path in prior && prior[found[i].path].inode == found[i].inode
  }

  // No other entry of the listing has this inode.
  predicate Alone(found: seq<Found>, i: nat) {
    i < |found| && forall j :: 0 <= j < |found| && j != i ==> found[j].inode != found[i].inode
  }

  // The indexed path is not listed any more, and had this inode.
  predicate GoneFrom(found: seq<Found>, prior: Index, inode: Inode, p: Path) {
    p in prior && prior[p].inode == inode && forall j :: 0 <= j < |found| ==> found[j].path != p
  }

  // The only gone path with the entry's inode, which no other entry has.
  ghost predicate RenamedFrom(found: seq<Found>, prior: Index, i: nat, p: Path) {
    Alone(found, i) && GoneFrom(found, prior, found[i].inode, p) &&
    forall q :: GoneFrom(found, prior, found[i].inode, q) ==> q == p
  }

  // The id of the inode was given to an indexed entry, or to an earlier one of this listing.
  ghost predicate InodeTaken(prior: Index, ids: seq<ItemId>, i: nat, inode: Inode) {
    (exists p :: p in prior && prior[p].id == FileId(inode)) || (exists k :: 0 <= k < i && k < |ids| && ids[k] == FileId(inode))
  }

  lemma {:induction false} CountIsOneIff(found: seq<Found>, i: nat)
    requires i < |found|
    ensures InodeCount(found, found[i].inode) == 1 <==> Alone(found, i)
  {
    var inode := found[i].inode;
    CountSome(found, inode, i);
    if !Alone(found, i) {
      var j :| 0 <= j < |found| && j != i && found[j].inode == inode;
      CountOne(found, inode, if i < j then i else j, if i < j then j else i);
    } else {
      CountAtMostOne(found, inode, i);
    }
  }

  lemma {:induction false} CountNone(found: seq<Found>, inode: Inode)
    requires forall j :: 0 <= j < |found| ==> found[j].inode != inode
    ensures InodeCount(found, inode) == 0
  {
    if found != [] { CountNone(found[..|found| - 1], inode); }
  }

  lemma {:induction false} CountAtMostOne(found: seq<Found>, inode: Inode, i: nat)
    requires i < |found| && forall j :: 0 <= j < |found| && j != i ==> found[j].inode != inode
    ensures InodeCount(found, inode) <= 1
  {
    var n := |found| - 1;
    if i == n { CountNone(found[..n], inode); } else { CountAtMostOne(found[..n], inode, i); }
  }

  // An entry that is alone with its inode finds the ids of the gone paths unused.
  lemma {:induction false} GoneIdsAreUnused(found: seq<Found>, prior: Index, supply: Supply, ids: seq<ItemId>, i: nat)
    requires FreshSupply(prior, supply) && DistinctOldIds(prior) && Assignment(found, prior, [], supply, ids)
    requires i < |ids| && Alone(found, i)
    ensures Candidates(found, prior, found[i].inode, IdSet(ids[..i])) == GoneWith(found, prior, found[i].inode)
  {
    forall q | q in GoneWith(found, prior, found[i].inode) ensures prior[q].id !in IdSet(ids[..i]) {
      if prior[q].id in IdSet(ids[..i]) {
        var k :| 0 <= k < i && ids[..i][k] == prior[q].id;
        OldIdGoesTo(found, prior, IdSet(ids[..k]), k, supply, ids[k], q);
      }
    }
  }

  lemma SingleIff(paths: set<Path>)
    ensures |paths| == 1 <==> exists p :: paths == {p}
  {
    if |paths| == 1 {
      var p :| p in paths;
      OnlyOne(paths);
      assert paths == {p};
    }
  }

  lemma {:induction false} RenamedIff(found: seq<Found>, prior: Index, supply: Supply, ids: seq<ItemId>, i: nat)
    requires FreshSupply(prior, supply) && DistinctOldIds(prior) && Assignment(found, prior, [], supply, ids) && i < |ids|
    ensures Renamed(found, prior, IdSet(ids[..i]), i) <==> exists p :: RenamedFrom(found, prior, i, p)
    ensures forall p :: RenamedFrom(found, prior, i, p) ==> Candidates(found, prior, found[i].inode, IdSet(ids[..i])) == {p}
  {
    CountIsOneIff(found, i);
    var gone := GoneWith(found, prior, found[i].inode);
    assert forall p :: p in gone <==> GoneFrom(found, prior, found[i].inode, p);
    if Alone(found, i) {
      GoneIdsAreUnused(found, prior, supply, ids, i);
      SingleIff(gone);
      forall p ensures RenamedFrom(found, prior, i, p) <==> gone == {p} {
        if gone == {p} { assert p in gone; }
      }
    }
  }

  /** Every entry of a scan: an unchanged one keeps its id; one whose inode it alone has, and only one gone path had, takes
      over the id of that path; any other gets the id of its inode, or a new one if that is taken. */
  lemma {:induction false} IdsByCase(found: seq<Found>, prior: Index, supply: Supply, ids: seq<ItemId>, i: nat)
    requires FreshSupply(prior, supply) && DistinctPaths(found) && DistinctOldIds(prior)
    requires Assignment(found, prior, [], supply, ids) && i < |ids|
    ensures Unchanged(found, prior, i) ==> ids[i] == prior[found[i].path].id
    ensures forall p :: !Unchanged(found, prior, i) && RenamedFrom(found, prior, i, p) ==> ids[i] == prior[p].id
    ensures !Unchanged(found, prior, i) && (forall p :: !RenamedFrom(found, prior, i, p)) ==>
              ids[i] == if InodeTaken(prior, ids, i, found[i].inode) then Uid(supply(i)) else FileId(found[i].inode)
  {
    var used := IdSet(ids[..i]);
    assert Chosen(found, prior, used, i, supply(i), ids[i]);
    if Unchanged(found, prior, i) {
      UnchangedKeepsId(found, prior, supply, ids, i);
    } else {
      RenamedIff(found, prior, supply, ids, i);
      TakenIff(prior, ids, i, found[i].inode);
    }
  }

  lemma TakenIff(prior: Index, ids: seq<ItemId>, i: nat, inode: Inode)
    requires i < |ids|
    ensures InodeTaken(prior, ids, i, inode) <==> FileId(inode) in IdSet(ids[..i]) || FileId(inode) in OldIds(prior)
  {
    if k :| 0 <= k < i && ids[k] == FileId(inode) { assert ids[..i][k] == FileId(inode); }
  }
}
