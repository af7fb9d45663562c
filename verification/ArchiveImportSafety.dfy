/**
 * Every step of the archive import keeps its invariant, hence every reachable state has it: a
 * published snapshot is always the ordered fold of complete manifests, whatever crashed, was
 * applied in part, arrived late or arrived twice.
 */
module ArchiveImportSafety {
  import opened Wrappers
  import opened ArchiveManifest
  import opened ArchiveImport

  // --- Rebuilding the content from an engine index ------------------------------------------

  // Everything in the index comes from the first n jobs of that index, and all of those settled.
  ghost predicate Settles(jobs: seq<Job>, index: nat, n: nat, contents: Contents) {
    n <= |jobs| &&
    (forall id :: id in contents ==>
      contents[id].doc.id == id && Wrote(jobs, index, contents[id]) && JobOf(contents[id].version) <= n) &&
    (forall j, p :: 0 <= j < n && jobs[j].index == index && 0 <= p < |jobs[j].source| ==>
      jobs[j].Doc(p).Some? && InRange(j + 1, p)) &&
    (forall j :: 0 <= j < n && jobs[j].index == index ==>
      Settled(contents, jobs[j], j, 0, |jobs[j].source|))
  }

  lemma {:induction false} PresentAsExpected(jobs: seq<Job>, index: nat, n: nat, m: nat, contents: Contents, id: string)
    requires Settles(jobs, index, n, contents) && id in contents
    requires JobOf(contents[id].version) <= m <= n
    ensures var content := Expected(jobs, index, m);
            (id in content <==> contents[id].doc.Stored?) &&
            (id in content ==> content[id] == contents[id].doc)
    decreases m
  {
    var j, p := JobOf(contents[id].version), PositionOf(contents[id].version);
    assert contents[id].version == Version(j, p);
    var job := jobs[m - 1];
    if j < m {
      PresentAsExpected(jobs, index, n, m - 1, contents, id);
      if job.index == index {
        forall q | 0 <= q < |job.source| ensures !Writes(job.source, job.mode, job.config, q, id) {
          assert job.Doc(q).Some?;
          VersionsAreOrdered(m, q, j, p);
        }
        FoldKeeps(Expected(jobs, index, m - 1), job.source, job.mode, job.config, |job.source|, id);
      }
    } else {
      forall q | p < q < |job.source| ensures !Writes(job.source, job.mode, job.config, q, id) {
        assert job.Doc(q).Some?;
        VersionsAreOrdered(m, q, j, p);
      }
      assert job.Doc(p) == Some(contents[id].doc);
      FoldLastWriter(Expected(jobs, index, m - 1), job.source, job.mode, job.config, |job.source|, p, id);
    }
  }

  lemma {:induction false} AbsentAsExpected(jobs: seq<Job>, index: nat, n: nat, m: nat, contents: Contents, id: string)
    requires Settles(jobs, index, n, contents) && id !in contents && m <= n
    ensures id !in Expected(jobs, index, m)
    decreases m
  {
    if m > 0 {
      AbsentAsExpected(jobs, index, n, m - 1, contents, id);
      var job := jobs[m - 1];
      if job.index == index {
        forall q | 0 <= q < |job.source| ensures !Writes(job.source, job.mode, job.config, q, id) {
          assert job.Doc(q).Some?;
        }
        FoldKeeps(Expected(jobs, index, m - 1), job.source, job.mode, job.config, |job.source|, id);
      }
    }
  }

  /** A settled index shows exactly the ordered fold of its manifests, however often and in whatever order
      its bulk items were applied. */
  lemma SettledIsFold(jobs: seq<Job>, index: nat, n: nat, contents: Contents)
    requires Settles(jobs, index, n, contents)
    ensures Visible(contents) == Expected(jobs, index, n)
  {
    var content := Expected(jobs, index, n);
    forall id ensures (id in content <==> id in Visible(contents)) &&
                      (id in content ==> content[id] == Visible(contents)[id])
    {
      if id in contents {
        PresentAsExpected(jobs, index, n, n, contents, id);
      } else {
        AbsentAsExpected(jobs, index, n, n, contents, id);
      }
    }
  }

  // --- What growing or updating the journal leaves alone ------------------------------------

  ghost predicate SameManifests(jobs: seq<Job>, later: seq<Job>) {
    |jobs| <= |later| &&
    forall j :: 0 <= j < |jobs| ==>
      later[j].source == jobs[j].source && later[j].mode == jobs[j].mode && later[j].config == jobs[j].config &&
      later[j].index == jobs[j].index && later[j].root == jobs[j].root && later[j].generation == jobs[j].generation &&
      later[j].base == jobs[j].base
  }

  lemma {:induction false} ExpectedStays(jobs: seq<Job>, later: seq<Job>, index: nat, n: nat)
    requires SameManifests(jobs, later) && n <= |jobs|
    ensures Expected(jobs, index, n) == Expected(later, index, n)
  {
    if n > 0 { ExpectedStays(jobs, later, index, n - 1); }
  }

  lemma WroteStays(jobs: seq<Job>, later: seq<Job>, index: nat, entry: Entry)
    requires SameManifests(jobs, later) && Wrote(jobs, index, entry)
    ensures Wrote(later, index, entry)
  {
  }

  // The manifests stay, and a complete job stays complete; progress and states may change.
  ghost predicate Evolves(jobs: seq<Job>, later: seq<Job>) {
    SameManifests(jobs, later) &&
    forall j :: 0 <= j < |jobs| ==> (Complete(jobs[j]) ==> Complete(later[j]))
  }

  lemma PublishesStays(p: Pointer, root: string, jobs: seq<Job>, later: seq<Job>, j: nat)
    requires p.Archive? && Publishes(p, root, jobs, j) && Evolves(jobs, later)
    requires forall i :: j < i < |later| && later[i].index == p.index ==> later[i].state != PUBLISHED
    ensures Publishes(p, root, later, j)
  {
  }

  lemma PitStays(pit: nat, s: State, t: State, j: nat)
    requires PitOk(pit, s.jobs, j, s.pits, s.closed, s.nextPit) && Evolves(s.jobs, t.jobs)
    requires pit in t.pits ==> pit in s.pits && t.pits[pit] == s.pits[pit]
    requires pit !in t.closed && t.nextPit >= s.nextPit
    ensures PitOk(pit, t.jobs, j, t.pits, t.closed, t.nextPit)
  {
    if pit in t.pits { ExpectedStays(s.jobs, t.jobs, s.jobs[j].index, j + 1); }
  }

  // A change of the journal that publishes nothing keeps every pointer.
  lemma PointersStay(s: State, t: State)
    requires PointersOk(s.pointers, s.jobs, s.pits, s.closed, s.nextPit, s.nextGeneration)
    requires t.pointers == s.pointers && Evolves(s.jobs, t.jobs) && t.closed == s.closed
    requires t.nextPit >= s.nextPit && t.nextGeneration >= s.nextGeneration
    requires forall pit :: pit in t.pits && pit < s.nextPit ==> pit in s.pits && t.pits[pit] == s.pits[pit]
    requires forall i :: 0 <= i < |t.jobs| && t.jobs[i].state == PUBLISHED ==>
               i < |s.jobs| && s.jobs[i].state == PUBLISHED
    ensures PointersOk(t.pointers, t.jobs, t.pits, t.closed, t.nextPit, t.nextGeneration)
  {
    forall root | root in t.pointers && t.pointers[root].Archive?
      ensures PointerOk(t.pointers[root], root, t.jobs, t.pits, t.closed, t.nextPit)
    {
      var p := s.pointers[root];
      var j: nat :| Publishes(p, root, s.jobs, j) && PitOk(p.pit, s.jobs, j, s.pits, s.closed, s.nextPit);
      PublishesStays(p, root, s.jobs, t.jobs, j);
      PitStays(p.pit, s, t, j);
    }
  }

  // --- One lemma per group of steps ---------------------------------------------------------

  lemma OutsideStep(s: State, t: State)
    requires Inv(s)
    requires t == s.(roots := t.roots) || t == s.(clock := t.clock) || t == s.(proc := Idle) ||
             t == s.(proc := Cleaning(CurrentPits(s.pointers)))
    ensures Inv(t)
  {
  }

  lemma LosePitStep(s: State, t: State, pit: nat)
    requires Inv(s) && t == s.(pits := s.pits - {pit})
    ensures Inv(t)
  {
    PointersStay(s, t);
    if s.proc.Reopened? {
      var j: nat :| Restorable(s.pointers, s.proc.root, s.jobs, j) &&
                    PitOk(s.proc.pit, s.jobs, j, s.pits, s.closed, s.nextPit);
      assert PitOk(s.proc.pit, t.jobs, j, t.pits, t.closed, t.nextPit);
    }
  }

  lemma RestorableStays(pointers: map<string, Pointer>, later: map<string, Pointer>, root: string, jobs: seq<Job>,
                        s: State)
    requires forall r :: r in pointers && pointers[r].Archive? ==> r in later && later[r] == pointers[r]
    ensures ReadyToReopen(pointers, root, jobs, s.searchable) ==> ReadyToReopen(later, root, jobs, s.searchable)
    ensures forall pit: nat :: ReadyToRestore(pointers, root, jobs, pit, s.pits, s.retired, s.closed, s.nextPit) ==>
              ReadyToRestore(later, root, jobs, pit, s.pits, s.retired, s.closed, s.nextPit)
  {
    assert forall j: nat :: Restorable(pointers, root, jobs, j) ==> Restorable(later, root, jobs, j);
  }

  lemma ReplaceKeepsPointers(s: State, root: string)
    requires PointersOk(s.pointers, s.jobs, s.pits, s.closed, s.nextPit, s.nextGeneration) && BasesOk(s.jobs, s.pointers)
    requires JobsOk(s.jobs, s.nextIndex, s.nextGeneration) && (root in s.pointers ==> s.pointers[root].Other?)
    ensures var later := s.pointers[root := Other(s.nextGeneration)];
            PointersOk(later, s.jobs, s.pits, s.closed, s.nextPit, s.nextGeneration + 1) && BasesOk(s.jobs, later) &&
            JobsOk(s.jobs, s.nextIndex, s.nextGeneration + 1)
  {
  }

  lemma ReplaceStep(s: State, t: State, root: string)
    requires Inv(s) && (root in s.pointers ==> s.pointers[root].Other?) && !s.proc.Retired?
    requires t == s.(pointers := s.pointers[root := Other(s.nextGeneration)], nextGeneration := s.nextGeneration + 1)
    ensures Inv(t)
  {
    ReplaceKeepsPointers(s, root);
    if s.proc.Reopened? || s.proc.Rebuilding? {
      RestorableStays(s.pointers, t.pointers, s.proc.root, s.jobs, s);
    }
  }

  lemma EngineDelivers(jobs: seq<Job>, live: map<nat, Contents>, wire: set<Item>, item: Item)
    requires EngineOk(jobs, live, wire) && item in wire
    ensures EngineOk(jobs, live[item.index := Put(Live(live, item.index), item.entry)], wire)
  {
    var after := live[item.index := Put(Live(live, item.index), item.entry)];
    forall j | 0 <= j < |jobs| ensures Settled(Live(after, jobs[j].index), jobs[j], j, 0, jobs[j].records) {
      assert Settled(Live(live, jobs[j].index), jobs[j], j, 0, jobs[j].records);
    }
  }

  lemma DeliverStep(s: State, t: State, item: Item)
    requires Inv(s) && item in s.wire && t == AfterDeliver(s, item)
    ensures Inv(t)
  {
    EngineDelivers(s.jobs, s.live, s.wire, item);
  }

  lemma EngineSends(jobs: seq<Job>, live: map<nat, Contents>, wire: set<Item>, j: nat, from: nat, next: nat)
    requires EngineOk(jobs, live, wire) && j < |jobs| && Sendable(jobs[j], j, from, next)
    ensures EngineOk(jobs, live, wire + Items(jobs[j], j, from, next))
  {
    forall item | item in Items(jobs[j], j, from, next) ensures Wrote(jobs, item.index, item.entry) {
      var p :| from <= p < next && jobs[j].Doc(p).Some? &&
               item == Item(jobs[j].index, Entry(Version(j + 1, p), jobs[j].Doc(p).value));
      VersionsAreOrdered(j + 1, p, j + 1, p);
    }
  }

  lemma SendStep(s: State, t: State, next: nat)
    requires Inv(s) && Enabled(s, Send(next)) && t == AfterSend(s, next)
    ensures Inv(t)
  {
    EngineSends(s.jobs, s.live, s.wire, s.proc.job, s.proc.count, next);
  }

  lemma SettledStays(contents: Contents, job: Job, later: Job, j: nat)
    requires Settled(contents, job, j, 0, job.records)
    requires later.source == job.source && later.mode == job.mode && later.config == job.config
    requires later.records == job.records
    ensures Settled(contents, later, j, 0, later.records)
  {
    assert forall p :: 0 <= p < |job.source| ==> later.Doc(p) == job.Doc(p);
  }

  // A changed journal still explains the engine, if the checkpoints it adds are settled.
  lemma EngineStays(jobs: seq<Job>, later: seq<Job>, live: map<nat, Contents>, wire: set<Item>)
    requires EngineOk(jobs, live, wire) && SameManifests(jobs, later)
    requires forall j :: 0 <= j < |later| ==>
               (j < |jobs| && later[j].records == jobs[j].records) ||
               Settled(Live(live, later[j].index), later[j], j, 0, later[j].records)
    ensures EngineOk(later, live, wire)
  {
    forall index, id | index in live && id in live[index] ensures Wrote(later, index, live[index][id]) {
      WroteStays(jobs, later, index, live[index][id]);
    }
    forall item | item in wire ensures Wrote(later, item.index, item.entry) {
      WroteStays(jobs, later, item.index, item.entry);
    }
    forall j | 0 <= j < |later| ensures Settled(Live(live, later[j].index), later[j], j, 0, later[j].records) {
      if j < |jobs| && later[j].records == jobs[j].records {
        SettledStays(Live(live, jobs[j].index), jobs[j], later[j], j);
      }
    }
  }

  lemma AdvancedSettles(contents: Contents, job: Job, j: nat, next: nat)
    requires JobOk(job, j) && Sendable(job, j, job.records, next) && job.state == BUILDING
    requires Settled(contents, job, j, 0, job.records) && Settled(contents, job, j, job.records, next)
    ensures JobOk(Advanced(job, next), j) && Settled(contents, Advanced(job, next), j, 0, next)
  {
    assert forall p :: 0 <= p < |job.source| ==> Advanced(job, next).Doc(p) == job.Doc(p);
  }

  lemma CheckpointStep(s: State, t: State)
    requires Inv(s) && s.proc.Awaiting?
    requires var job := s.jobs[s.proc.job];
             Settled(Live(s.live, job.index), job, s.proc.job, s.proc.count, s.proc.next) &&
             t == s.(jobs := s.jobs[s.proc.job := Advanced(job, s.proc.next)],
                     proc := Building(s.proc.job, s.proc.next))
    ensures Inv(t)
  {
    var j := s.proc.job;
    AdvancedSettles(Live(s.live, s.jobs[j].index), s.jobs[j], j, s.proc.next);
    EngineStays(s.jobs, t.jobs, s.live, s.wire);
    PointersStay(s, t);
  }

  lemma EnsureStep(s: State, t: State)
    requires Inv(s) && s.proc.Claimed?
    requires var job := s.jobs[s.proc.job];
             t == s.(meta := s.meta[job.index := job.config], proc := Building(s.proc.job, Seek(job.source, job.offset)))
    ensures Inv(t)
  {
    var job := s.jobs[s.proc.job];
    SeekResumes(job.source, job.records);
  }

  lemma {:induction false} LastMatchIsMatch(jobs: seq<Job>, root: string, source: seq<Line>, mode: Mode, base: Option<nat>)
    ensures var m := LastMatch(jobs, root, source, mode, base);
            match m
            case Some(j) => j < |jobs| && SameManifest(jobs[j], root, source, mode, base) &&
                            forall i :: j < i < |jobs| ==> !SameManifest(jobs[i], root, source, mode, base)
            case None => forall i :: 0 <= i < |jobs| ==> !SameManifest(jobs[i], root, source, mode, base)
  {
    if jobs != [] { LastMatchIsMatch(jobs[..|jobs| - 1], root, source, mode, base); }
  }

  // A claim that starts a new job: the index is fresh, or all its jobs are published.
  lemma FreshIndexIsClean(s: State, root: string, source: seq<Line>, mode: Mode, base: Option<nat>, index: nat)
    requires Inv(s) && ClaimOf(s, root, source, mode, base) == Fresh(index)
    ensures forall i :: 0 <= i < |s.jobs| && s.jobs[i].index == index ==>
              s.jobs[i].root == root && s.jobs[i].state == PUBLISHED
    ensures mode == Full || index < s.nextIndex
    ensures !Unfinished(s.jobs, root)
  {
    if mode == Delta {
      var p := s.pointers[root];
      var j: nat :| Publishes(p, root, s.jobs, j) && PitOk(p.pit, s.jobs, j, s.pits, s.closed, s.nextPit);
      forall i | 0 <= i < |s.jobs| && s.jobs[i].index == index
        ensures s.jobs[i].root == root && s.jobs[i].state == PUBLISHED
      {
        assert i < j || i == j || j < i;
        assert s.jobs[i].state != ABORTED;
      }
    }
  }

  lemma JournalAppends(s: State, job: Job, nextIndex: nat)
    requires JobsOk(s.jobs, s.nextIndex, s.nextGeneration) && Ordered(s.jobs) && !Unfinished(s.jobs, job.root)
    requires forall i :: 0 <= i < |s.jobs| && s.jobs[i].index == job.index ==>
               s.jobs[i].root == job.root && s.jobs[i].state == PUBLISHED
    requires job.generation == s.nextGeneration && job.offset == 0 && job.records == 0 && job.state == BUILDING
    requires job.index < nextIndex && nextIndex >= s.nextIndex && (job.mode == Full ==> job.index >= s.nextIndex)
    ensures JobsOk(s.jobs + [job], nextIndex, s.nextGeneration + 1) && Ordered(s.jobs + [job])
  {
  }

  lemma BasesAppend(s: State, job: Job)
    requires PointersOk(s.pointers, s.jobs, s.pits, s.closed, s.nextPit, s.nextGeneration) && BasesOk(s.jobs, s.pointers)
    requires job.generation == s.nextGeneration
    requires job.mode == Delta ==>
               job.root in s.pointers && s.pointers[job.root].Archive? && s.pointers[job.root].index == job.index &&
               job.base == Some(s.pointers[job.root].generation)
    ensures BasesOk(s.jobs + [job], s.pointers)
  {
  }

  lemma ClaimStep(s: State, t: State, job: Job)
    requires Inv(s) && !Unfinished(s.jobs, job.root)
    requires forall i :: 0 <= i < |s.jobs| && s.jobs[i].index == job.index ==>
               s.jobs[i].root == job.root && s.jobs[i].state == PUBLISHED
    requires job.generation == s.nextGeneration && job.offset == 0 && job.records == 0 && job.state == BUILDING
    requires job.index < t.nextIndex && t.nextIndex >= s.nextIndex && (job.mode == Full ==> job.index >= s.nextIndex)
    requires job.mode == Delta ==>
               job.root in s.pointers && s.pointers[job.root].Archive? && s.pointers[job.root].index == job.index &&
               job.base == Some(s.pointers[job.root].generation)
    requires t == s.(jobs := s.jobs + [job], nextIndex := t.nextIndex,
                     nextGeneration := s.nextGeneration + 1, proc := Claimed(|s.jobs|))
    ensures Inv(t)
  {
    JournalAppends(s, job, t.nextIndex);
    BasesAppend(s, job);
    EngineStays(s.jobs, t.jobs, s.live, s.wire);
    PointersStay(s, t);
  }

  lemma ResumeStep(s: State, t: State, j: nat)
    requires Inv(s) && s.proc.Idle? && j < |s.jobs| && s.jobs[j].state == BUILDING
    requires t == s.(proc := if AlreadySwapped(s.pointers, s.jobs[j]) then Swapped(j) else Claimed(j))
    ensures Inv(t)
  {
  }

  // If every job of an index is complete and none is newer than j, the index has settled up to j.
  lemma IndexSettles(s: State, index: nat, j: nat)
    requires Inv(s) && j < |s.jobs|
    requires forall i :: 0 <= i < |s.jobs| && s.jobs[i].index == index ==> i <= j && Complete(s.jobs[i])
    ensures Visible(Live(s.live, index)) == Expected(s.jobs, index, j + 1)
  {
    var contents := Live(s.live, index);
    forall id | id in contents
      ensures contents[id].doc.id == id && Wrote(s.jobs, index, contents[id]) && JobOf(contents[id].version) <= j + 1
    {
      assert index in s.live && Wrote(s.jobs, index, s.live[index][id]);
    }
    forall i | 0 <= i < j + 1 && s.jobs[i].index == index
      ensures Settled(contents, s.jobs[i], i, 0, |s.jobs[i].source|)
    {
      assert Settled(Live(s.live, s.jobs[i].index), s.jobs[i], i, 0, s.jobs[i].records);
    }
    forall i, p | 0 <= i < j + 1 && s.jobs[i].index == index && 0 <= p < |s.jobs[i].source|
      ensures s.jobs[i].Doc(p).Some? && InRange(i + 1, p)
    {
      assert JobOk(s.jobs[i], i);
    }
    SettledIsFold(s.jobs, index, j + 1, contents);
  }

  // The job a run works on is the newest of its index, and all the older ones are published.
  lemma CurrentIsNewest(s: State, j: nat)
    requires Inv(s) && Current(s.jobs, j) && Complete(s.jobs[j])
    ensures forall i :: 0 <= i < |s.jobs| && s.jobs[i].index == s.jobs[j].index ==> i <= j && Complete(s.jobs[i])
  {
    forall i | 0 <= i < |s.jobs| && s.jobs[i].index == s.jobs[j].index ensures i <= j && Complete(s.jobs[i]) {
      assert JobOk(s.jobs[i], i);
    }
  }

  lemma RefreshStep(s: State, t: State)
    requires Inv(s) && s.proc.Building? && s.proc.count == |s.jobs[s.proc.job].source|
    requires var index := s.jobs[s.proc.job].index;
             t == s.(searchable := s.searchable[index := Live(s.live, index)], proc := Refreshed(s.proc.job))
    ensures Inv(t)
  {
    var j := s.proc.job;
    CurrentIsNewest(s, j);
    IndexSettles(s, s.jobs[j].index, j);
  }

  lemma CurrentPitsAreOld(s: State)
    requires Inv(s)
    ensures forall pit :: pit in CurrentPits(s.pointers) ==> pit < s.nextPit
  {
    forall root | root in s.pointers && s.pointers[root].Archive? ensures s.pointers[root].pit < s.nextPit {
      assert PointerOk(s.pointers[root], root, s.jobs, s.pits, s.closed, s.nextPit);
    }
  }

  lemma OpenPitStep(s: State, t: State)
    requires Inv(s) && s.proc.Refreshed?
    requires t == s.(pits := s.pits[s.nextPit := s.searchable[s.jobs[s.proc.job].index]], nextPit := s.nextPit + 1,
                     proc := Opened(s.proc.job, s.nextPit))
    ensures Inv(t)
  {
    CurrentPitsAreOld(s);
    PointersStay(s, t);
  }

  lemma RetireStep(s: State, t: State)
    requires Inv(s) && s.proc.Opened? && BaseUnchanged(s.pointers, s.jobs[s.proc.job])
    requires var root := s.jobs[s.proc.job].root;
             t == s.(retired := if root in s.pointers && s.pointers[root].Archive?
                                then s.retired[s.pointers[root].pit := s.clock + 120] else s.retired,
                     proc := Retired(s.proc.job, s.proc.pit))
    ensures Inv(t)
  {
    CurrentPitsAreOld(s);
  }

  lemma SwapStep(s: State, t: State)
    requires Inv(s) && s.proc.Retired?
    requires var job := s.jobs[s.proc.job];
             t == s.(pointers := s.pointers[job.root := Archive(job.index, s.proc.pit, job.generation, job.generation,
                                                                job.config)],
                     proc := Swapped(s.proc.job))
    ensures Inv(t)
  {
    var j := s.proc.job;
    var job := s.jobs[j];
    assert Publishes(t.pointers[job.root], job.root, t.jobs, j);
    forall root | root in t.pointers && t.pointers[root].Archive?
      ensures PointerOk(t.pointers[root], root, t.jobs, t.pits, t.closed, t.nextPit)
    {
      if root != job.root { assert PointerOk(s.pointers[root], root, s.jobs, s.pits, s.closed, s.nextPit); }
    }
  }

  // The job whose snapshot a pointer names is the only one that generation belongs to.
  lemma SwappedIsComplete(s: State, j: nat)
    requires Inv(s) && j < |s.jobs| && AlreadySwapped(s.pointers, s.jobs[j])
    ensures Complete(s.jobs[j])
    ensures forall root, i: nat ::
              (root in s.pointers && s.pointers[root].Archive? && i < j && Publishes(s.pointers[root], root, s.jobs, i))
              ==> s.jobs[i].index != s.jobs[j].index
  {
    var p := s.pointers[s.jobs[j].root];
    var k: nat :| Publishes(p, s.jobs[j].root, s.jobs, k) && PitOk(p.pit, s.jobs, k, s.pits, s.closed, s.nextPit);
    assert k == j;
  }

  lemma JobStateOk(job: Job, j: nat, state: JobState)
    requires JobOk(job, j) && (state == PUBLISHED ==> Complete(job))
    ensures JobOk(WithState(job, state), j)
  {
    assert forall p :: 0 <= p < |job.source| ==> WithState(job, state).Doc(p) == job.Doc(p);
  }

  lemma JournalFinishes(jobs: seq<Job>, j: nat, nextIndex: nat, nextGeneration: nat)
    requires JobsOk(jobs, nextIndex, nextGeneration) && Ordered(jobs) && Current(jobs, j) && Complete(jobs[j])
    ensures JobsOk(jobs[j := WithState(jobs[j], PUBLISHED)], nextIndex, nextGeneration)
    ensures Ordered(jobs[j := WithState(jobs[j], PUBLISHED)])
  {
    JobStateOk(jobs[j], j, PUBLISHED);
  }

  lemma FinishKeepsPointers(s: State, t: State)
    requires PointersOk(s.pointers, s.jobs, s.pits, s.closed, s.nextPit, s.nextGeneration)
    requires s.proc.Swapped? && s.proc.job < |s.jobs| && t == AfterFinish(s)
    requires forall root, i: nat ::
               (root in s.pointers && s.pointers[root].Archive? && i < s.proc.job &&
                Publishes(s.pointers[root], root, s.jobs, i))
               ==> s.jobs[i].index != s.jobs[s.proc.job].index
    ensures PointersOk(t.pointers, t.jobs, t.pits, t.closed, t.nextPit, t.nextGeneration)
  {
    forall root | root in t.pointers && t.pointers[root].Archive?
      ensures PointerOk(t.pointers[root], root, t.jobs, t.pits, t.closed, t.nextPit)
    {
      var p := s.pointers[root];
      var k: nat :| Publishes(p, root, s.jobs, k) && PitOk(p.pit, s.jobs, k, s.pits, s.closed, s.nextPit);
      PublishesStays(p, root, s.jobs, t.jobs, k);
      PitStays(p.pit, s, t, k);
    }
  }

  lemma FinishStep(s: State, t: State)
    requires Inv(s) && Enabled(s, Finish) && t == AfterFinish(s)
    ensures Inv(t)
  {
    var j := s.proc.job;
    SwappedIsComplete(s, j);
    JournalFinishes(s.jobs, j, s.nextIndex, s.nextGeneration);
    EngineStays(s.jobs, t.jobs, s.live, s.wire);
    FinishKeepsPointers(s, t);
  }

  lemma AbortKeepsJournal(jobs: seq<Job>, root: string, nextIndex: nat, nextGeneration: nat)
    requires JobsOk(jobs, nextIndex, nextGeneration) && Ordered(jobs)
    ensures JobsOk(AbortAll(jobs, root), nextIndex, nextGeneration) && Ordered(AbortAll(jobs, root))
  {
    var later := AbortAll(jobs, root);
    forall j | 0 <= j < |later| ensures JobOk(later[j], j) { JobStateOk(jobs[j], j, ABORTED); }
  }

  lemma AbortKeepsBases(jobs: seq<Job>, pointers: map<string, Pointer>, root: string)
    requires BasesOk(jobs, pointers)
    ensures BasesOk(AbortAll(jobs, root), pointers)
  {
  }

  lemma AbortStep(s: State, t: State, root: string)
    requires Inv(s) && s.proc.Idle? && t == s.(jobs := AbortAll(s.jobs, root))
    ensures Inv(t)
  {
    AbortKeepsJournal(s.jobs, root, s.nextIndex, s.nextGeneration);
    AbortKeepsBases(s.jobs, s.pointers, root);
    EngineStays(s.jobs, t.jobs, s.live, s.wire);
    PointersStay(s, t);
  }

  lemma RebuildStep(s: State, t: State, root: string)
    requires Inv(s) && root in s.pointers && s.pointers[root].Archive? && !Dirty(s.jobs, s.pointers[root].index)
    requires var p := s.pointers[root];
             t == s.(searchable := s.searchable[p.index := Live(s.live, p.index)], proc := Rebuilding(root, p.pit))
    ensures Inv(t)
  {
    var p := s.pointers[root];
    var j: nat :| Publishes(p, root, s.jobs, j) && PitOk(p.pit, s.jobs, j, s.pits, s.closed, s.nextPit);
    forall i | 0 <= i < |s.jobs| && s.jobs[i].index == p.index ensures i <= j && Complete(s.jobs[i]) {
      assert s.jobs[i].state == PUBLISHED;
      assert JobOk(s.jobs[i], i);
    }
    IndexSettles(s, p.index, j);
    assert Restorable(t.pointers, root, t.jobs, j);
  }

  lemma ReopenStep(s: State, t: State)
    requires Inv(s) && s.proc.Rebuilding?
    requires t == s.(pits := s.pits[s.nextPit := s.searchable[s.pointers[s.proc.root].index]],
                     nextPit := s.nextPit + 1, proc := Reopened(s.proc.root, s.proc.lost, s.nextPit))
    ensures Inv(t)
  {
    PointersStay(s, t);
    var j: nat :| Restorable(s.pointers, s.proc.root, s.jobs, j) &&
                  Whole(s.jobs, j, s.searchable[s.pointers[s.proc.root].index]);
    assert PitOk(t.proc.pit, t.jobs, j, t.pits, t.closed, t.nextPit);
  }

  lemma RestoreStep(s: State, t: State)
    requires Inv(s) && s.proc.Reopened?
    requires var p := s.pointers[s.proc.root];
             t == s.(pointers := s.pointers[s.proc.root := p.(pit := s.proc.pit, generation := s.nextGeneration)],
                     nextGeneration := s.nextGeneration + 1, proc := Idle)
    ensures Inv(t)
  {
    var j: nat :| Restorable(s.pointers, s.proc.root, s.jobs, j) &&
                  PitOk(s.proc.pit, s.jobs, j, s.pits, s.closed, s.nextPit);
    assert Publishes(t.pointers[s.proc.root], s.proc.root, t.jobs, j);
    forall root | root in t.pointers && t.pointers[root].Archive?
      ensures PointerOk(t.pointers[root], root, t.jobs, t.pits, t.closed, t.nextPit)
    {
      if root != s.proc.root { assert PointerOk(s.pointers[root], root, s.jobs, s.pits, s.closed, s.nextPit); }
    }
  }

  lemma ClosePitStep(s: State, t: State, pit: nat)
    requires Inv(s) && s.proc.Cleaning? && pit in s.retired && pit !in s.proc.active
    requires t == s.(pits := s.pits - {pit}, closed := s.closed + {pit}, proc := Closed(s.proc.active, pit))
    ensures Inv(t)
  {
    forall root | root in t.pointers && t.pointers[root].Archive?
      ensures PointerOk(t.pointers[root], root, t.jobs, t.pits, t.closed, t.nextPit)
    {
      var p := s.pointers[root];
      assert p.pit in CurrentPits(s.pointers);
      var k: nat :| Publishes(p, root, s.jobs, k) && PitOk(p.pit, s.jobs, k, s.pits, s.closed, s.nextPit);
      PitStays(p.pit, s, t, k);
    }
  }

  lemma ForgetStep(s: State, t: State)
    requires Inv(s) && s.proc.Closed?
    requires t == s.(retired := s.retired - {s.proc.pit}, proc := Cleaning(s.proc.active))
    ensures Inv(t)
  {
  }

  // --- All steps, all runs ------------------------------------------------------------------

  lemma OutsideKeepsInv(s: State, a: Action)
    requires Inv(s) && Enabled(s, a)
    requires a.Configure? || a.Replace? || a.Deliver? || a.LosePit? || a.Tick? || a.Crash?
    ensures Inv(Step(s, a))
  {
    var t := Step(s, a);
    match a
    case Configure(_, _) => OutsideStep(s, t);
    case Replace(root, _) => ReplaceStep(s, t, root);
    case Deliver(item) => DeliverStep(s, t, item);
    case LosePit(pit) => LosePitStep(s, t, pit);
    case Tick(_) => OutsideStep(s, t);
    case Crash => OutsideStep(s, t);
  }

  lemma FreshClaimStep(s: State, root: string, source: seq<Line>, mode: Mode, base: Option<nat>, index: nat)
    requires Inv(s) && ClaimOf(s, root, source, mode, base) == Fresh(index)
    ensures Inv(AfterClaim(s, root, source, mode, base))
  {
    FreshIndexIsClean(s, root, source, mode, base, index);
    ClaimStep(s, AfterClaim(s, root, source, mode, base), NewJob(s, root, source, mode, base, index));
  }

  lemma AfterClaimKeepsInv(s: State, root: string, source: seq<Line>, mode: Mode, base: Option<nat>)
    requires Inv(s) && s.proc.Idle? && !ClaimOf(s, root, source, mode, base).Refused?
    ensures Inv(AfterClaim(s, root, source, mode, base))
  {
    match ClaimOf(s, root, source, mode, base)
    case Existing(j) =>
      LastMatchIsMatch(s.jobs, root, source, mode, base);
      if s.jobs[j].state != PUBLISHED { ResumeStep(s, AfterClaim(s, root, source, mode, base), j); }
    case Fresh(index) => FreshClaimStep(s, root, source, mode, base, index);
  }

  lemma ClaimKeepsInv(s: State, a: Action)
    requires Inv(s) && Enabled(s, a) && a.DoClaim?
    ensures Inv(Step(s, a))
  {
    AfterClaimKeepsInv(s, a.root, a.source, a.mode, a.base);
  }

  lemma BulkKeepsInv(s: State, a: Action)
    requires Inv(s) && Enabled(s, a) && (a.Ensure? || a.Send? || a.Checkpoint?)
    ensures Inv(Step(s, a))
  {
    var t := Step(s, a);
    match a
    case Ensure => EnsureStep(s, t);
    case Send(next) => SendStep(s, t, next);
    case Checkpoint => CheckpointStep(s, t);
  }

  lemma PublishKeepsInv(s: State, a: Action)
    requires Inv(s) && Enabled(s, a) && (a.Refresh? || a.OpenPit? || a.Retire? || a.Swap? || a.Finish?)
    ensures Inv(Step(s, a))
  {
    var t := Step(s, a);
    match a
    case Refresh => RefreshStep(s, t);
    case OpenPit => OpenPitStep(s, t);
    case Retire => RetireStep(s, t);
    case Swap => SwapStep(s, t);
    case Finish => FinishStep(s, t);
  }

  lemma MaintainKeepsInv(s: State, a: Action)
    requires Inv(s) && Enabled(s, a) && (a.Rebuild? || a.Reopen? || a.Restore?)
    ensures Inv(Step(s, a))
  {
    match a
    case Rebuild(root) => RebuildStep(s, AfterRebuild(s, root), root);
    case Reopen => ReopenStep(s, AfterReopen(s));
    case Restore => RestoreStep(s, AfterRestore(s));
  }

  lemma CleanupKeepsInv(s: State, a: Action)
    requires Inv(s) && Enabled(s, a) && (a.Abort? || a.BeginCleanup? || a.ClosePit? || a.ForgetPit? || a.EndCleanup?)
    ensures Inv(Step(s, a))
  {
    var t := Step(s, a);
    match a
    case Abort(root) => AbortStep(s, t, root);
    case BeginCleanup => OutsideStep(s, t);
    case ClosePit(pit) => ClosePitStep(s, t, pit);
    case ForgetPit => ForgetStep(s, t);
    case EndCleanup => OutsideStep(s, t);
  }

  /** Every atomic step of a run, of abort, maintain and cleanup, of a crash and of the outside world keeps
      the invariant. */
  lemma StepKeepsInv(s: State, a: Action)
    requires Inv(s) && Enabled(s, a)
    ensures Inv(Step(s, a))
  {
    if a.DoClaim? {
      ClaimKeepsInv(s, a);
    } else if a.Ensure? || a.Send? || a.Checkpoint? {
      BulkKeepsInv(s, a);
    } else if a.Refresh? || a.OpenPit? || a.Retire? || a.Swap? || a.Finish? {
      PublishKeepsInv(s, a);
    } else if a.Configure? || a.Replace? || a.Deliver? || a.LosePit? || a.Tick? || a.Crash? {
      OutsideKeepsInv(s, a);
    } else if a.Rebuild? || a.Reopen? || a.Restore? {
      MaintainKeepsInv(s, a);
    } else {
      CleanupKeepsInv(s, a);
    }
  }

  lemma {:induction false} RunKeepsInv(s: State, actions: seq<Action>, t: State)
    requires Inv(s) && Steps(s, actions, t)
    ensures Inv(t)
    decreases |actions|
  {
    if actions != [] {
      StepKeepsInv(s, actions[0]);
      RunKeepsInv(Step(s, actions[0]), actions[1..], t);
    }
  }

  /** In every reachable state, a snapshot that the index pointer of a root names was not closed by cleanup, and
      while the engine has it, readers see the complete manifests of its index folded in order, up to and including
      the job the pointer imported: never a half-applied delta. */
  lemma PublishedSnapshotsAreWhole(s: State, actions: seq<Action>, t: State, root: string) returns (j: nat)
    requires Start(s) && Steps(s, actions, t)
    requires root in t.pointers && t.pointers[root].Archive?
    ensures var p := t.pointers[root];
            j < |t.jobs| && t.jobs[j].root == root && t.jobs[j].index == p.index &&
            t.jobs[j].generation == p.imported && t.jobs[j].config == p.config && p.pit !in t.closed &&
            (forall i :: 0 <= i <= j && t.jobs[i].index == p.index ==> Complete(t.jobs[i])) &&
            (p.pit in t.pits ==> Visible(t.pits[p.pit]) == Expected(t.jobs, p.index, j + 1))
  {
    RunKeepsInv(s, actions, t);
    var p := t.pointers[root];
    j :| Publishes(p, root, t.jobs, j) && PitOk(p.pit, t.jobs, j, t.pits, t.closed, t.nextPit);
    forall i | 0 <= i <= j && t.jobs[i].index == p.index ensures Complete(t.jobs[i]) {
      assert JobOk(t.jobs[i], i);
    }
  }

  // Between two jobs of an index nothing is folded.
  lemma {:induction false} ExpectedSkips(jobs: seq<Job>, index: nat, from: nat, to: nat)
    requires from <= to <= |jobs|
    requires forall i :: from <= i < to ==> jobs[i].index != index
    ensures Expected(jobs, index, to) == Expected(jobs, index, from)
  {
    if from < to { ExpectedSkips(jobs, index, from, to - 1); }
  }

  // Job k of this index is the one that the root's pointer imported, and its content is the base of job j.
  ghost predicate IsBase(s: State, j: nat, k: nat)
    requires j < |s.jobs|
  {
    var job := s.jobs[j];
    k < j && s.jobs[k].index == job.index && Complete(s.jobs[k]) &&
    job.root in s.pointers && s.pointers[job.root].Archive? && s.jobs[k].generation == s.pointers[job.root].imported &&
    Expected(s.jobs, job.index, j) == Expected(s.jobs, job.index, k + 1)
  }

  /** A delta whose base is unchanged continues the content of the job its root's pointer imported, whether or not
      the engine still has the snapshot. */
  lemma {:induction false} DeltaStartsFromPointed(s: State, j: nat) returns (k: nat)
    requires Inv(s) && Current(s.jobs, j) && s.jobs[j].mode == Delta && BaseUnchanged(s.pointers, s.jobs[j])
    ensures IsBase(s, j, k)
    ensures var pit := s.pointers[s.jobs[j].root].pit;
            pit in s.pits ==> Visible(s.pits[pit]) == Expected(s.jobs, s.jobs[j].index, k + 1)
  {
    var job := s.jobs[j];
    var p := s.pointers[job.root];
    k :| Publishes(p, job.root, s.jobs, k) && PitOk(p.pit, s.jobs, k, s.pits, s.closed, s.nextPit);
    assert k < j;
    assert forall i :: k < i < j ==> s.jobs[i].index != job.index;
    ExpectedSkips(s.jobs, job.index, k + 1, j);
  }

  lemma FullStartsEmpty(s: State, j: nat)
    requires Inv(s) && j < |s.jobs| && s.jobs[j].mode == Full
    ensures Expected(s.jobs, s.jobs[j].index, j) == map[]
  {
    ExpectedSkips(s.jobs, s.jobs[j].index, 0, j);
  }

  // What a job was folded over: nothing for a full import, the content of its base job k for a delta.
  ghost function Before(s: State, j: nat, k: nat): map<string, Document>
    requires j < |s.jobs| && k < |s.jobs|
  {
    if s.jobs[j].mode == Full then map[] else Expected(s.jobs, s.jobs[j].index, k + 1)
  }

  lemma ReadyShowsTheFold(s: State) returns (k: nat)
    requires Inv(s) && s.proc.Retired? && s.proc.pit in s.pits
    ensures k <= s.proc.job < |s.jobs| && (s.jobs[s.proc.job].mode == Delta ==> IsBase(s, s.proc.job, k))
    ensures Visible(s.pits[s.proc.pit]) == s.jobs[s.proc.job].Folded(Before(s, s.proc.job, k))
  {
    var j := s.proc.job;
    if s.jobs[j].mode == Delta {
      k := DeltaStartsFromPointed(s, j);
    } else {
      k := 0;
      FullStartsEmpty(s, j);
    }
  }

  /** Replay safety: the step that publishes a job makes readers see its manifest folded in order over the content
      it was based on, whatever crashes, partial bulks, resumes and late duplicates came before. A full import is
      based on nothing, a delta on the content of the job that was published until this very step, even if the
      engine has lost that snapshot in the meantime. */
  lemma SwapPublishesTheFold(s: State, actions: seq<Action>, t: State) returns (k: nat)
    requires Start(s) && Steps(s, actions, t) && Enabled(t, Swap)
    requires t.proc.pit in t.pits
    ensures var j := t.proc.job;
            k <= j < |t.jobs| && (t.jobs[j].mode == Delta ==> IsBase(t, j, k)) &&
            var u := AfterSwap(t);
            var p := u.pointers[t.jobs[j].root];
            p.Archive? && p.pit in u.pits && Visible(u.pits[p.pit]) == t.jobs[j].Folded(Before(t, j, k))
  {
    RunKeepsInv(s, actions, t);
    k := ReadyShowsTheFold(t);
  }

  /** What readers of the old snapshot saw is what the published delta was folded over. */
  lemma SwapExtendsTheOldSnapshot(s: State, actions: seq<Action>, t: State)
    requires Start(s) && Steps(s, actions, t) && Enabled(t, Swap) && t.jobs[t.proc.job].mode == Delta
    requires t.proc.pit in t.pits
    ensures var job := t.jobs[t.proc.job];
            job.root in t.pointers && t.pointers[job.root].Archive? &&
            var was, now := t.pointers[job.root].pit, t.proc.pit;
            was in t.pits ==> Visible(t.pits[now]) == job.Folded(Visible(t.pits[was]))
  {
    RunKeepsInv(s, actions, t);
    var k := DeltaStartsFromPointed(t, t.proc.job);
  }
}
