/**
 * What runs of the archive import promise beyond the content of a snapshot: how long a replaced snapshot stays
 * open, and what running a published manifest again does.
 */
module ArchiveRuns {
  import opened Wrappers
  import opened ArchiveManifest
  import opened ArchiveImport
  import opened ArchiveImportSafety

  lemma {:induction false} StepsAppend(s: State, actions: seq<Action>, t: State, a: Action)
    requires Steps(s, actions, t) && Enabled(t, a)
    ensures Steps(s, actions + [a], Step(t, a))
    decreases |actions|
  {
    var all := actions + [a];
    if actions == [] {
      assert all[1..] == [];
    } else {
      StepsAppend(Step(s, actions[0]), actions[1..], t, a);
      assert all[0] == actions[0] && all[1..] == actions[1..] + [a];
    }
  }

  lemma {:induction false} StepsConcat(s: State, first: seq<Action>, t: State, second: seq<Action>, u: State)
    requires Steps(s, first, t) && Steps(t, second, u)
    ensures Steps(s, first + second, u)
    decreases |first|
  {
    var all := first + second;
    if first == [] {
      assert all == second;
    } else {
      StepsConcat(Step(s, first[0]), first[1..], t, second, u);
      assert all[0] == first[0] && all[1..] == first[1..] + second;
    }
  }

  // --- Manifests --------------------------------------------------------------------------------

  lemma ClaimKeepsManifests(s: State, root: string, source: seq<Line>, mode: Mode, base: Option<nat>)
    ensures SameManifests(s.jobs, AfterClaim(s, root, source, mode, base).jobs)
  {
  }

  lemma CheckpointKeepsManifests(s: State)
    requires Enabled(s, Checkpoint)
    ensures SameManifests(s.jobs, AfterCheckpoint(s).jobs)
  {
  }

  lemma FinishKeepsManifests(s: State)
    requires Enabled(s, Finish)
    ensures SameManifests(s.jobs, AfterFinish(s).jobs)
  {
  }

  lemma StepKeepsManifests(s: State, a: Action)
    requires Enabled(s, a)
    ensures SameManifests(s.jobs, Step(s, a).jobs)
  {
    if a.DoClaim? {
      ClaimKeepsManifests(s, a.root, a.source, a.mode, a.base);
    } else if a.Checkpoint? {
      CheckpointKeepsManifests(s);
    } else if a.Finish? {
      FinishKeepsManifests(s);
    }
  }

  lemma {:induction false} StepsKeepManifests(s: State, actions: seq<Action>, t: State)
    requires Steps(s, actions, t)
    ensures SameManifests(s.jobs, t.jobs)
    decreases |actions|
  {
    if actions != [] {
      var u := Step(s, actions[0]);
      StepKeepsManifests(s, actions[0]);
      StepsKeepManifests(u, actions[1..], t);
    }
  }

  lemma PointersAreOld(s: State)
    requires Inv(s)
    ensures forall root :: root in s.pointers && s.pointers[root].Archive? ==> s.pointers[root].imported < s.nextGeneration
  {
  }

  // --- The grace period of a replaced snapshot ------------------------------------------------

  // Nothing lets this snapshot be closed earlier than 120 after that moment.
  ghost predicate Spared(s: State, pit: nat, since: nat) {
    since <= s.clock && (pit in s.retired ==> since + 120 <= s.retired[pit])
  }

  lemma OthersSpare(s: State, a: Action)
    requires Enabled(s, a) && !(a.Tick? || a.Retire? || a.ForgetPit?)
    ensures Step(s, a).retired == s.retired && Step(s, a).clock == s.clock
  {
  }

  lemma StepSpares(s: State, a: Action, pit: nat, since: nat)
    requires Spared(s, pit, since) && Enabled(s, a)
    ensures Spared(Step(s, a), pit, since)
  {
    if !(a.Tick? || a.Retire? || a.ForgetPit?) { OthersSpare(s, a); }
  }

  lemma {:induction false} RunSpares(s: State, actions: seq<Action>, t: State, pit: nat, since: nat)
    requires Spared(s, pit, since) && Steps(s, actions, t)
    ensures Spared(t, pit, since)
    decreases |actions|
  {
    if actions != [] {
      StepSpares(s, actions[0], pit, since);
      RunSpares(Step(s, actions[0]), actions[1..], t, pit, since);
    }
  }

  /** Readers that still hold a replaced snapshot have 120 seconds: whatever follows the step that retires it,
      retirements after a crash included, the engine is not told to close it before. */
  lemma ClosedAfterGrace(s: State, actions: seq<Action>, t: State, pit: nat)
    requires Enabled(s, Retire) && s.jobs[s.proc.job].root in s.pointers
    requires s.pointers[s.jobs[s.proc.job].root].Archive? && s.pointers[s.jobs[s.proc.job].root].pit == pit
    requires Steps(AfterRetire(s), actions, t) && Enabled(t, ClosePit(pit))
    ensures t.clock >= s.clock + 120
  {
    RunSpares(AfterRetire(s), actions, t, pit, s.clock);
  }

  // --- Running a published manifest again -----------------------------------------------------

  predicate Archived(pointers: map<string, Pointer>, root: string) {
    root in pointers && pointers[root].Archive?
  }

  /** Running a published manifest again changes nothing. Readers see the content after the job that the pointer of its
      root imported: after this manifest exactly if its generation is the imported one. */
  lemma RerunChangesNothing(s: State, root: string, source: seq<Line>, mode: Mode, base: Option<nat>, j: nat) returns (k: nat)
    requires Inv(s) && s.proc.Idle? && ClaimOf(s, root, source, mode, base) == Existing(j)
    requires s.jobs[j].state == PUBLISHED
    ensures Enabled(s, DoClaim(root, source, mode, base)) && Step(s, DoClaim(root, source, mode, base)) == s
    ensures !Archived(s.pointers, root) ==> !AlreadySwapped(s.pointers, s.jobs[j])
    ensures Archived(s.pointers, root) ==>
              k < |s.jobs| && s.jobs[k].index == s.pointers[root].index &&
              (k == j <==> AlreadySwapped(s.pointers, s.jobs[j])) &&
              (s.pointers[root].pit in s.pits ==>
                Visible(s.pits[s.pointers[root].pit]) == s.jobs[k].Folded(Expected(s.jobs, s.jobs[k].index, k)))
  {
    LastMatchIsMatch(s.jobs, root, source, mode, base);
    if !Archived(s.pointers, root) {
      return 0;
    }
    var p := s.pointers[root];
    k :| Publishes(p, root, s.jobs, k) && PitOk(p.pit, s.jobs, k, s.pits, s.closed, s.nextPit);
  }

  const Nothing: State := State(map["archive" := Root("schema", true)], map[], [], map[], map[], map[], map[], map[], {},
                                {}, 0, 0, 0, 0, Idle)

  lemma StepOn(s: State, before: seq<Action>, t: State, a: Action) returns (actions: seq<Action>, u: State)
    requires Steps(s, before, t) && Enabled(t, a)
    ensures actions == before + [a] && u == Step(t, a) && Steps(s, actions, u)
  {
    actions, u := before + [a], Step(t, a);
    StepsAppend(s, before, t, a);
  }

  lemma BeginEmpty(s: State, mode: Mode, base: Option<nat>, index: nat) returns (actions: seq<Action>, t: State)
    requires s.proc.Idle? && ClaimOf(s, "archive", [], mode, base) == Fresh(index)
    requires index in s.meta ==> s.meta[index] == s.roots["archive"].config
    ensures var job := NewJob(s, "archive", [], mode, base, index);
            Steps(s, actions, t) && t.jobs == s.jobs + [job] && t.proc == Building(|s.jobs|, 0) && t.nextPit == s.nextPit &&
            t.roots == s.roots && t.nextGeneration == s.nextGeneration + 1 && t.meta == s.meta[index := job.config] &&
            t.pointers == s.pointers && t.nextIndex == if mode == Full then s.nextIndex + 1 else s.nextIndex
  {
    var claim := DoClaim("archive", [], mode, base);
    actions, t := [claim], AfterClaim(s, "archive", [], mode, base);
    StepsAppend(s, [], s, claim);
    actions, t := StepOn(s, actions, t, Ensure);
  }

  // A run for a manifest without records, up to its snapshot.
  lemma OpenEmpty(s: State, mode: Mode, base: Option<nat>, index: nat) returns (actions: seq<Action>, t: State)
    requires s.proc.Idle? && ClaimOf(s, "archive", [], mode, base) == Fresh(index)
    requires index in s.meta ==> s.meta[index] == s.roots["archive"].config
    ensures var job := NewJob(s, "archive", [], mode, base, index);
            Steps(s, actions, t) && t.jobs == s.jobs + [job] && t.proc == Opened(|s.jobs|, s.nextPit) &&
            t.roots == s.roots && t.nextGeneration == s.nextGeneration + 1 && t.meta == s.meta[index := job.config] &&
            t.pointers == s.pointers && t.nextIndex == if mode == Full then s.nextIndex + 1 else s.nextIndex
  {
    actions, t := BeginEmpty(s, mode, base, index);
    actions, t := StepOn(s, actions, t, Refresh);
    actions, t := StepOn(s, actions, t, OpenPit);
  }

  // The rest of the run.
  lemma SwapAndFinish(s: State, before: seq<Action>, u: State) returns (actions: seq<Action>, t: State)
    requires Steps(s, before, u) && Enabled(u, Retire)
    ensures var job := u.jobs[u.proc.job];
            Steps(s, actions, t) && t.proc.Idle? && t.roots == u.roots && t.nextGeneration == u.nextGeneration &&
            t.nextIndex == u.nextIndex &&
            t.jobs == u.jobs[u.proc.job := WithState(job, PUBLISHED)] && t.meta == u.meta &&
            t.pointers == u.pointers[job.root := Archive(job.index, u.proc.pit, job.generation, job.generation, job.config)]
  {
    actions, t := StepOn(s, before, u, Retire);
    actions, t := StepOn(s, actions, t, Swap);
    actions, t := StepOn(s, actions, t, Finish);
  }

  const FirstPointer: Pointer := Archive(0, 0, 0, 0, "schema")

  lemma FullImported() returns (actions: seq<Action>, t: State)
    ensures Steps(Nothing, actions, t) && t.proc.Idle? && t.roots == Nothing.roots && t.nextGeneration == 1
    ensures t.jobs == [WithState(NewJob(Nothing, "archive", [], Full, None, 0), PUBLISHED)]
    ensures t.pointers == map["archive" := FirstPointer] && t.meta == map[0 := "schema"] && t.nextIndex == 1
  {
    actions, t := OpenEmpty(Nothing, Full, None, 0);
    actions, t := SwapAndFinish(Nothing, actions, t);
  }

  lemma DeltaImported(s: State) returns (actions: seq<Action>, t: State)
    requires s.proc.Idle? && s.roots == Nothing.roots && s.nextGeneration == 1
    requires s.jobs == [WithState(NewJob(Nothing, "archive", [], Full, None, 0), PUBLISHED)]
    requires s.pointers == map["archive" := FirstPointer] && s.meta == map[0 := "schema"]
    ensures Steps(s, actions, t) && t.proc.Idle? && t.roots == s.roots
    ensures t.jobs == s.jobs + [WithState(NewJob(s, "archive", [], Delta, Some(0), 0), PUBLISHED)]
    ensures "archive" in t.pointers && t.pointers["archive"].Archive? && t.pointers["archive"].imported == 1
  {
    LastMatchIsMatch(s.jobs, "archive", [], Delta, Some(0));
    actions, t := OpenEmpty(s, Delta, Some(0), 0);
    actions, t := SwapAndFinish(s, actions, t);
  }

  // The rows of a manifest that were not aborted.
  function ManifestRows(jobs: seq<Job>, root: string, source: seq<Line>, mode: Mode, base: Option<nat>): set<nat> {
    set j: nat | j < |jobs| && jobs[j].root == root && jobs[j].source == source && jobs[j].mode == mode &&
                 jobs[j].base == base && jobs[j].state != ABORTED
  }

  lemma LastMatchIsNewest(jobs: seq<Job>, root: string, source: seq<Line>, mode: Mode, base: Option<nat>)
    ensures var m, rows := LastMatch(jobs, root, source, mode, base), ManifestRows(jobs, root, source, mode, base);
            if m.None? then rows == {} else m.value in rows && forall i :: i in rows ==> i <= m.value
  {
    LastMatchIsMatch(jobs, root, source, mode, base);
  }

  /** A manifest is continued at its newest row that was not aborted, exactly if the root is searchable and configured as
      it was when that row was made. */
  lemma ClaimContinuesIff(s: State, root: string, source: seq<Line>, mode: Mode, base: Option<nat>, j: nat)
    ensures ClaimOf(s, root, source, mode, base) == Existing(j) <==>
            root in s.roots && s.roots[root].searchable && (mode == Delta ==> base.Some?) &&
            j in ManifestRows(s.jobs, root, source, mode, base) && s.jobs[j].config == s.roots[root].config &&
            forall i :: i in ManifestRows(s.jobs, root, source, mode, base) ==> i <= j
  {
    LastMatchIsNewest(s.jobs, root, source, mode, base);
  }

  /** A manifest without such a row starts a job exactly if no job of the root is unfinished. A full import gets a new
      index; a delta gets the published one, which must be of its base and touched by no aborted job. */
  lemma ClaimStartsIff(s: State, root: string, source: seq<Line>, mode: Mode, base: Option<nat>, index: nat)
    ensures ClaimOf(s, root, source, mode, base) == Fresh(index) <==>
            root in s.roots && s.roots[root].searchable && (mode == Delta ==> base.Some?) &&
            ManifestRows(s.jobs, root, source, mode, base) == {} &&
            (forall j :: 0 <= j < |s.jobs| && s.jobs[j].root == root ==> s.jobs[j].state != BUILDING) &&
            if mode == Full then index == s.nextIndex
            else root in s.pointers && s.pointers[root].Archive? && base == Some(s.pointers[root].generation) &&
                 index == s.pointers[root].index &&
                 forall j :: 0 <= j < |s.jobs| && s.jobs[j].index == index ==> s.jobs[j].state != ABORTED
  {
    LastMatchIsNewest(s.jobs, root, source, mode, base);
  }

  // A full import, then a delta on top of it: the full import is still reported as published, and is not current.
  lemma RerunCanBeStale() returns (actions: seq<Action>, t: State)
    ensures Start(Nothing) && Steps(Nothing, actions, t) && t.proc.Idle?
    ensures ClaimOf(t, "archive", [], Full, None) == Existing(0) && t.jobs[0].state == PUBLISHED
    ensures !AlreadySwapped(t.pointers, t.jobs[0])
  {
    var first, middle := FullImported();
    var second;
    second, t := DeltaImported(middle);
    StepsConcat(Nothing, first, middle, second, t);
    actions := first + second;
    LastMatchIsMatch(t.jobs, "archive", [], Full, None);
  }
}
