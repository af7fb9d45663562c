/**
 * A resumable scan: items are staged in chunks under a progress record, an interrupted scan is continued from
 * them, and what is loaded is exactly what was appended.
 */
module IndexScans {
  import opened Wrappers
  import opened Identities

  const Interval := 100

  datatype Item = Item(id: ItemId, path: Path, size: nat, modified: nat)
  datatype Chunk = Chunk(sequence: nat, found: seq<Found>, items: seq<Item>)

  datatype Status = SCANNING | FAILED | COMPLETE
  datatype Progress = Progress(status: Status, config: string, run: nat, count: nat, chunkCount: nat)

  function Build(f: Found, id: ItemId): Item {
    Item(id, f.path, f.size, f.modified)
  }

  function Ids(items: seq<Item>): seq<ItemId> {
    seq(|items|, i requires 0 <= i < |items| => items[i].id)
  }

  // --- Loading --------------------------------------------------------------------------------

  predicate PathsAgree(c: Chunk) {
    |c.found| == |c.items| && forall i :: 0 <= i < |c.found| ==> c.items[i].path == c.found[i].path
  }

  predicate Usable(c: Chunk, k: nat) {
    c.sequence == k && c.found != [] && |c.found| <= Interval && PathsAgree(c)
  }

  predicate AllUsable(chunks: seq<Chunk>) {
    forall k :: 0 <= k < |chunks| ==> Usable(chunks[k], k)
  }

  function AllFound(chunks: seq<Chunk>): seq<Found> {
    if chunks == [] then [] else AllFound(chunks[..|chunks| - 1]) + chunks[|chunks| - 1].found
  }

  function AllItems(chunks: seq<Chunk>): seq<Item> {
    if chunks == [] then [] else AllItems(chunks[..|chunks| - 1]) + chunks[|chunks| - 1].items
  }

  datatype Staged = Staged(found: seq<Found>, items: seq<Item>, chunkCount: nat)

  // A run is loaded only if every chunk is well formed, in sequence, and their total is the recorded count.
  method LoadChunks(chunks: seq<Chunk>, count: nat) returns (staged: Option<Staged>)
    ensures staged == if AllUsable(chunks) && |AllItems(chunks)| == count
                      then Some(Staged(AllFound(chunks), AllItems(chunks), |chunks|)) else None
  {
    var found, items := [], [];
    for k := 0 to |chunks|
      invariant AllUsable(chunks[..k]) && found == AllFound(chunks[..k]) && items == AllItems(chunks[..k])
    {
      assert chunks[..k + 1][..k] == chunks[..k];
      if !Usable(chunks[k], k) {
        return None;
      }
      found, items := found + chunks[k].found, items + chunks[k].items;
    }
    assert chunks[..|chunks|] == chunks;
    staged := if |items| == count then Some(Staged(found, items, |chunks|)) else None;
  }

  /** A run can be loaded only if its chunks are numbered in order and hold one to one hundred entries each, with the item of
      each entry at its place. */
  lemma ChunksAreWholeIff(chunks: seq<Chunk>)
    ensures AllUsable(chunks) <==>
            forall k :: 0 <= k < |chunks| ==>
              var c := chunks[k];
              c.sequence == k && 1 <= |c.found| <= 100 && |c.items| == |c.found| &&
              forall i :: 0 <= i < |c.items| ==> c.items[i].path == c.found[i].path
  {
    if AllUsable(chunks) {
      assert forall k :: 0 <= k < |chunks| ==> Usable(chunks[k], k);
    } else {
      var k :| 0 <= k < |chunks| && !Usable(chunks[k], k);
      assert !(chunks[k].sequence == k && 1 <= |chunks[k].found| <= 100 && |chunks[k].items| == |chunks[k].found| &&
               forall i :: 0 <= i < |chunks[k].items| ==> chunks[k].items[i].path == chunks[k].found[i].path);
    }
  }

  lemma AppendChunk(chunks: seq<Chunk>, c: Chunk)
    requires AllUsable(chunks) && Usable(c, |chunks|)
    ensures AllUsable(chunks + [c])
    ensures AllFound(chunks + [c]) == AllFound(chunks) + c.found && AllItems(chunks + [c]) == AllItems(chunks) + c.items
  {
    assert (chunks + [c])[..|chunks|] == chunks;
  }

  // Each item is built from its entry and carries its id.
  ghost predicate BuiltFrom(items: seq<Item>, found: seq<Found>) {
    |items| == |found| && forall i :: 0 <= i < |items| ==> items[i] == Build(found[i], items[i].id)
  }

  /** Items are built from a listing exactly if each has the path, the size and the time of the entry at its place. */
  lemma BuiltFromIff(items: seq<Item>, found: seq<Found>)
    ensures BuiltFrom(items, found) <==>
            |items| == |found| &&
            forall i :: 0 <= i < |items| ==>
              items[i].path == found[i].path && items[i].size == found[i].size && items[i].modified == found[i].modified
  {
  }

  // The next checkpoint: a multiple of the interval, or the end.
  function NextStop(persisted: nat, total: nat): (n: nat)
    requires persisted < total
    ensures persisted < n <= total && n - persisted <= 100
    ensures n == total || n % 100 == 0
  {
    var stop := (persisted / Interval + 1) * Interval;
    if stop < total then stop else total
  }

  class SearchScan {
    var progress: Option<Progress>
    var chunks: seq<Chunk>
    var nextRun: nat

    constructor ()
      ensures Valid() && progress.None?
    {
      progress, chunks, nextRun := None, [], 0;
    }

    // The progress record counts the chunks and the items it belongs to.
    ghost predicate Valid()
      reads this
    {
      AllUsable(chunks) && BuiltFrom(AllItems(chunks), AllFound(chunks)) &&
      (progress.Some? && progress.value.status != COMPLETE ==>
        progress.value.count == |AllItems(chunks)| && progress.value.chunkCount == |chunks|)
    }

    ghost predicate Holds(found: seq<Found>, items: seq<Item>)
      reads this
    {
      Valid() && progress.Some? && progress.value.status == SCANNING &&
      AllFound(chunks) == found && AllItems(chunks) == items
    }

    // Continues the interrupted run of the same configuration, or begins a new one.
    method Start(config: string) returns (found: seq<Found>, items: seq<Item>)
      requires Valid()
      modifies this
      ensures Holds(found, items) && progress.value.config == config
      ensures if old(progress).Some? && old(progress).value.status != COMPLETE && old(progress).value.config == config
              then found == AllFound(old(chunks)) && items == AllItems(old(chunks)) && chunks == old(chunks)
              else found == [] && items == []
    {
      found, items := [], [];
      var resume := progress.Some? && progress.value.status != COMPLETE && progress.value.config == config;
      if resume {
        var staged := LoadChunks(chunks, progress.value.count);
        if staged.Some? && staged.value.chunkCount == progress.value.chunkCount {
          found, items := staged.value.found, staged.value.items;
          progress := Some(progress.value.(status := SCANNING, count := |items|));
          return;
        }
      }
      Reset(config);
    }

    method Reset(config: string)
      modifies this
      ensures Holds([], []) && progress.value.config == config
    {
      chunks := [];
      progress := Some(Progress(SCANNING, config, nextRun, 0, 0));
      nextRun := nextRun + 1;
    }

    // Appends the items since the last checkpoint, and nothing else.
    method Checkpoint(found: seq<Found>, items: seq<Item>, previous: nat, count: nat)
      requires previous < count <= |found| && |items| == count && count - previous <= Interval
      requires Holds(found[..previous], items[..previous])
      requires BuiltFrom(items, found[..count])
      modifies this`chunks, this`progress
      ensures Holds(found[..count], items)
      ensures chunks[..|chunks| - 1] == old(chunks) && progress.value.config == old(progress).value.config
    {
      var chunk := Chunk(|chunks|, found[previous..count], items[previous..count]);
      forall i | 0 <= i < |chunk.found| ensures chunk.items[i].path == chunk.found[i].path {
        assert items[previous + i] == Build(found[..count][previous + i], items[previous + i].id);
      }
      AppendChunk(chunks, chunk);
      assert found[..previous] + found[previous..count] == found[..count];
      assert items[..previous] + items[previous..count] == items;
      chunks := chunks + [chunk];
      progress := Some(progress.value.(count := count, chunkCount := progress.value.chunkCount + 1));
    }

    method Fail()
      requires Valid() && progress.Some?
      modifies this`progress
      ensures Valid() && progress.Some?
      ensures progress.value.status == if old(progress).value.status == COMPLETE then COMPLETE else FAILED
    {
      if progress.value.status != COMPLETE {
        progress := Some(progress.value.(status := FAILED));
      }
    }

    // The staged prefix is used only if the listing still begins with it.
    method Verify(config: string, found: seq<Found>, stagedFound: seq<Found>, stagedItems: seq<Item>) returns (items: seq<Item>)
      requires Holds(stagedFound, stagedItems)
      modifies this
      ensures |items| <= |found| && Holds(found[..|items|], items)
      ensures if stagedFound <= found && |stagedItems| == |stagedFound| then items == stagedItems else items == []
    {
      if stagedFound <= found && |stagedItems| == |stagedFound| {
        items := stagedItems;
        assert found[..|items|] == stagedFound;
      } else {
        Reset(config);
        items := [];
        assert found[..0] == [];
      }
    }

    // One item after another, with a checkpoint after every full interval and at the end. It can stop anywhere.
    method Extend(found: seq<Found>, ids: seq<ItemId>, staged: seq<Item>) returns (done: bool, items: seq<Item>)
      requires |ids| == |found| && |staged| <= |found| && Ids(staged) <= ids && Holds(found[..|staged|], staged)
      modifies this`chunks, this`progress
      ensures |items| <= |found| && Holds(found[..|items|], items) && staged <= items && Ids(items) == ids[..|items|]
      ensures done ==> |items| == |found|
    {
      items := staged;
      while |items| < |found|
        invariant staged <= items && |items| <= |found| && Ids(items) == ids[..|items|] && Holds(found[..|items|], items)
        decreases |found| - |items|
      {
        if * {
          return false, items;
        }
        var count := NextStop(|items|, |found|);
        var more := BuildMore(found, ids, items, count);
        Checkpoint(found, more, |items|, count);
        items := more;
      }
      done := true;
    }

    /** A scan of a listing: it completes with one item per entry, or stops with what it has checkpointed. The ids continue
        the staged ones if those still fit the listing, and start afresh if not. */
    method Scan(config: string, found: seq<Found>, prior: Index, supply: Supply)
      returns (done: bool, items: seq<Item>, ghost ids: seq<ItemId>, ghost base: seq<Item>)
      requires Valid()
      modifies this
      ensures Valid()
      ensures base == [] || (old(progress).Some? && base == AllItems(old(chunks)) && AllFound(old(chunks)) <= found)
      ensures |base| <= |found| == |ids| && Assignment(found, prior, Ids(base), supply, ids)
      ensures base <= items && Ids(items) <= ids && BuiltFrom(items, found[..|items|])
      ensures AllItems(chunks) == items && AllFound(chunks) == found[..|items|]
      ensures done ==> |items| == |found|
    {
      var stagedFound, stagedItems := Start(config);
      var start := Verify(config, found, stagedFound, stagedItems);
      base := start;
      var all := EntryIds(found, prior, Ids(start), supply);
      ids := all;
      done, items := Extend(found, all, start);
      if !done {
        Fail();
      }
    }
  }

  // The items up to the next stop.
  method BuildMore(found: seq<Found>, ids: seq<ItemId>, items: seq<Item>, count: nat) returns (more: seq<Item>)
    requires |ids| == |found| && |items| <= count <= |found|
    requires Ids(items) == ids[..|items|] && BuiltFrom(items, found[..|items|])
    ensures |more| == count && more[..|items|] == items && Ids(more) == ids[..count] && BuiltFrom(more, found[..count])
  {
    more := items;
    for n := |items| to count
      invariant |more| == n && more[..|items|] == items
      invariant forall i :: 0 <= i < n ==> more[i] == Build(found[i], ids[i])
    {
      more := more + [Build(found[n], ids[n])];
    }
  }

  lemma AgreesSoFar(found: seq<Found>, prior: Index, s: Supply, whole: seq<ItemId>, base: seq<ItemId>, t: Supply,
                    ids: seq<ItemId>, n: nat)
    requires FreshSupply(prior, s) && FreshSupply(prior, t) && |whole| == |ids| == |found| && |base| <= n <= |found|
    requires Assignment(found, prior, [], s, whole) && Assignment(found, prior, base, t, ids)
    requires Equivalent(prior, base, whole[..|base|])
    ensures Equivalent(prior, ids[..n], whole[..n])
  {
    PrefixesAgree(found, prior, s, whole, base, t, ids, n);
  }

  /** However often the scan of a listing is interrupted and tried again, the items built so far have the ids of a scan
      that was never interrupted, up to freshly drawn unique ids. */
  method ScanRepeatedly(scan: SearchScan, config: string, found: seq<Found>, prior: Index, supplies: seq<Supply>,
                        ghost s: Supply, ghost whole: seq<ItemId>)
    returns (done: bool, items: seq<Item>)
    requires scan.Valid() && scan.chunks == []
    requires FreshSupply(prior, s) && Assignment(found, prior, [], s, whole) && |whole| == |found|
    requires forall k :: 0 <= k < |supplies| ==> FreshSupply(prior, supplies[k])
    modifies scan
    ensures |items| <= |found| && BuiltFrom(items, found[..|items|])
    ensures Equivalent(prior, Ids(items), whole[..|items|])
    ensures done ==> |items| == |found|
  {
    done, items := false, [];
    var tries := 0;
    while tries < |supplies| && !done
      invariant tries <= |supplies| && scan.Valid() && AllItems(scan.chunks) == items && |items| <= |found|
      invariant BuiltFrom(items, found[..|items|]) && Equivalent(prior, Ids(items), whole[..|items|])
      invariant done ==> |items| == |found|
      decreases |supplies| - tries
    {
      ghost var ids, base;
      done, items, ids, base := scan.Scan(config, found, prior, supplies[tries]);
      AgreesSoFar(found, prior, s, whole, Ids(base), supplies[tries], ids, |items|);
      tries := tries + 1;
    }
  }
}
