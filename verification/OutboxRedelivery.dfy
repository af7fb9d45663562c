/** Why the delivery theorem is about careful aborts: two runs in which an abort drops a batch that readers have seen. */
module OutboxRedelivery {
  import opened Wrappers
  import opened ArchiveManifest
  import opened ArchiveImport
  import opened ArchiveImportSafety
  import opened ArchiveRuns
  import opened SearchOutbox
  import opened OutboxDrain

  const Line0: Line := Upsert("moved", "Archive/moved.pdf", 1, "2026-09-01T12:00:00Z", 1)
  const Moved: Row := Row(0, "archive", "move", Line0, 1)

  // --- Imports of one record ---------------------------------------------------------------------

  lemma OneIsSendable(job: Job, j: nat)
    requires job.source == [Line0] && j < 100
    ensures Sendable(job, j, 0, 1)
  {
    assert VERSION_LIMIT / VERSION_RANGE > 1000;
  }

  lemma SendOne(s: State, before: seq<Action>, u: State) returns (actions: seq<Action>, t: State)
    requires Steps(s, before, u) && u.proc.Building? && u.proc.count == 0 && u.proc.job < |u.jobs| && u.proc.job < 100
    requires u.jobs[u.proc.job].source == [Line0]
    ensures Steps(s, actions, t) && t.proc == Building(u.proc.job, 1)
    ensures t == u.(jobs := u.jobs[u.proc.job := Advanced(u.jobs[u.proc.job], 1)], wire := t.wire, live := t.live,
                    proc := t.proc)
  {
    var j := u.proc.job;
    var job := u.jobs[j];
    OneIsSendable(job, j);
    actions, t := StepOn(s, before, u, Send(1));
    var item := Item(job.index, Entry(Version(j + 1, 0), job.Doc(0).value));
    actions, t := StepOn(s, actions, t, Deliver(item));
    actions, t := StepOn(s, actions, t, Checkpoint);
  }

  // A new job, up to its checkpoint.
  lemma StreamOne(s: State, mode: Mode, base: Option<nat>, index: nat) returns (actions: seq<Action>, t: State)
    requires s.proc.Idle? && ClaimOf(s, "archive", [Line0], mode, base) == Fresh(index) && |s.jobs| < 100
    requires index in s.meta ==> s.meta[index] == s.roots["archive"].config
    ensures var job := NewJob(s, "archive", [Line0], mode, base, index);
            Steps(s, actions, t) && t.jobs == s.jobs + [Advanced(job, 1)] && t.proc == Building(|s.jobs|, 1) &&
            t.roots == s.roots && t.nextGeneration == s.nextGeneration + 1 && t.meta == s.meta[index := job.config] &&
            t.pointers == s.pointers && t.nextPit == s.nextPit &&
            t.nextIndex == if mode == Full then s.nextIndex + 1 else s.nextIndex
  {
    var claim := DoClaim("archive", [Line0], mode, base);
    actions, t := [claim], AfterClaim(s, "archive", [Line0], mode, base);
    StepsAppend(s, [], s, claim);
    actions, t := StepOn(s, actions, t, Ensure);
    actions, t := SendOne(s, actions, t);
  }

  lemma SwapOn(s: State, before: seq<Action>, u: State) returns (actions: seq<Action>, t: State)
    requires Steps(s, before, u) && u.proc.Building? && u.proc.job < |u.jobs|
    requires u.proc.count == |u.jobs[u.proc.job].source|
    requires var job := u.jobs[u.proc.job];
             job.root in u.roots && u.roots[job.root].config == job.config && BaseUnchanged(u.pointers, job)
    ensures var job := u.jobs[u.proc.job];
            Steps(s, actions, t) && t.proc == Swapped(u.proc.job) && t.roots == u.roots && t.jobs == u.jobs &&
            t.nextGeneration == u.nextGeneration && t.meta == u.meta && t.nextIndex == u.nextIndex &&
            t.pointers == u.pointers[job.root := Archive(job.index, u.nextPit, job.generation, job.generation, job.config)]
  {
    actions, t := StepOn(s, before, u, Refresh);
    actions, t := StepOn(s, actions, t, OpenPit);
    actions, t := StepOn(s, actions, t, Retire);
    actions, t := StepOn(s, actions, t, Swap);
  }

  // --- States along the runs ---------------------------------------------------------------------

  function OneJob(mode: Mode, base: Option<nat>, index: nat, generation: nat, state: JobState): Job {
    Job("archive", [Line0], mode, base, "schema", index, generation, 1, 1, state)
  }

  const Carrier: Job := OneJob(Delta, Some(0), 0, 1, PUBLISHED)
  const FullJob: Job := Job("archive", [], Full, None, "schema", 0, 0, 0, 0, PUBLISHED)
  const LostJob: Job := Job("archive", [Line0], Full, None, "schema", 1, 2, 0, 0, ABORTED)

  // Nothing runs, and the archive shows this generation of this index.
  ghost predicate At(s: State, jobs: seq<Job>, index: nat, generation: nat) {
    s.proc.Idle? && s.roots == Nothing.roots && s.jobs == jobs && s.nextGeneration == |jobs| &&
    "archive" in s.pointers && s.pointers["archive"].Archive? && s.pointers["archive"].index == index &&
    s.pointers["archive"].generation == s.pointers["archive"].imported == generation &&
    forall i :: i in s.meta ==> s.meta[i] == "schema" && i < s.nextIndex
  }

  predicate Claimable(jobs: seq<Job>, mode: Mode, base: Option<nat>, index: nat) {
    |jobs| < 100 && forall j :: 0 <= j < |jobs| ==>
      jobs[j].state != BUILDING &&
      (jobs[j].state != ABORTED && jobs[j].mode == mode && jobs[j].source == [Line0] ==> jobs[j].base != base) &&
      (mode == Delta && jobs[j].state == ABORTED ==> jobs[j].index != index)
  }

  lemma ClaimsFresh(s: State, jobs: seq<Job>, index: nat, generation: nat)
    requires At(s, jobs, index, generation) && Claimable(jobs, Delta, Some(generation), index)
    ensures ClaimOf(s, "archive", [Line0], Delta, Some(generation)) == Fresh(index)
  {
    LastMatchIsMatch(s.jobs, "archive", [Line0], Delta, Some(generation));
  }

  // A delta, up to the swap of the pointer.
  lemma SwappedRun(s: State, jobs: seq<Job>, index: nat, generation: nat) returns (actions: seq<Action>, t: State)
    requires At(s, jobs, index, generation) && Claimable(jobs, Delta, Some(generation), index) && index < s.nextIndex
    ensures Steps(s, actions, t) && t.proc == Swapped(|jobs|) && t.nextIndex == s.nextIndex
    ensures At(t.(proc := Idle), jobs + [OneJob(Delta, Some(generation), index, |jobs|, BUILDING)], index, |jobs|)
  {
    ClaimsFresh(s, jobs, index, generation);
    actions, t := StreamOne(s, Delta, Some(generation), index);
    actions, t := SwapOn(s, actions, t);
    assert Offset([Line0], 0) == 0 && Offset([Line0], 1) == 1;
  }

  lemma DeltaRun(s: State, jobs: seq<Job>, index: nat, generation: nat) returns (actions: seq<Action>, t: State)
    requires At(s, jobs, index, generation) && Claimable(jobs, Delta, Some(generation), index) && index < s.nextIndex
    ensures Steps(s, actions, t) && t.nextIndex == s.nextIndex
    ensures At(t, jobs + [OneJob(Delta, Some(generation), index, |jobs|, PUBLISHED)], index, |jobs|)
  {
    actions, t := SwappedRun(s, jobs, index, generation);
    actions, t := StepOn(s, actions, t, Finish);
  }

  lemma FullRun(s: State, jobs: seq<Job>, index: nat, generation: nat) returns (actions: seq<Action>, t: State)
    requires At(s, jobs, index, generation) && Claimable(jobs, Full, None, index)
    ensures Steps(s, actions, t) && t.nextIndex == s.nextIndex + 1
    ensures At(t, jobs + [OneJob(Full, None, s.nextIndex, |jobs|, PUBLISHED)], s.nextIndex, |jobs|)
  {
    LastMatchIsMatch(s.jobs, "archive", [Line0], Full, None);
    actions, t := StreamOne(s, Full, None, s.nextIndex);
    actions, t := SwapOn(s, actions, t);
    assert Offset([Line0], 0) == 0 && Offset([Line0], 1) == 1;
    actions, t := StepOn(s, actions, t, Finish);
  }

  // A full import is begun and stopped.
  lemma StoppedRun(s: State) returns (actions: seq<Action>, t: State)
    requires At(s, [FullJob, Carrier], 0, 1) && s.nextIndex == 1
    ensures Steps(s, actions, t) && t.nextIndex == 2
    ensures At(t, [FullJob, Carrier, WithState(LostJob, BUILDING)], 0, 1)
  {
    LastMatchIsMatch(s.jobs, "archive", [Line0], Full, None);
    var claim := DoClaim("archive", [Line0], Full, None);
    actions, t := [claim], AfterClaim(s, "archive", [Line0], Full, None);
    StepsAppend(s, [], s, claim);
    actions, t := StepOn(s, actions, t, Crash);
  }

  // --- The outbox along the runs -------------------------------------------------------------------

  lemma OneRowBatch()
    ensures RowsOf([Moved], "archive") == [Moved] && BatchLength([Moved]) == 1 && Lines([Moved]) == [Line0]
  {
    BatchLengthBounds([Moved], 0, 0);
    assert [Moved][..0] == [];
  }

  lemma OutStepOn(o: Outbox, before: seq<OutAction>, p: Outbox, a: OutAction) returns (actions: seq<OutAction>, q: Outbox)
    requires OutSteps(o, before, p) && OutEnabled(p, a)
    ensures actions == before + [a] && q == OutStep(p, a) && OutSteps(o, actions, q)
  {
    actions, q := before + [a], OutStep(p, a);
    OneStep(p, a);
    OutConcat(o, before, p, [a], q);
  }

  lemma CoreOn(o: Outbox, before: seq<OutAction>, p: Outbox, more: seq<Action>, t: State)
    returns (actions: seq<OutAction>, q: Outbox)
    requires OutSteps(o, before, p) && Steps(p.core, more, t)
    ensures q == p.(core := t) && OutSteps(o, actions, q)
  {
    actions, q := before + Wrap(more), p.(core := t);
    ImporterSteps(p, more, t);
    OutConcat(o, before, p, Wrap(more), q);
  }

  lemma CutOne(o: Outbox, before: seq<OutAction>, p: Outbox) returns (actions: seq<OutAction>, q: Outbox)
    requires OutSteps(o, before, p) && p.rows == [Moved] && p.core.proc.Idle? && "archive" !in p.batches
    requires "archive" in p.core.pointers && p.core.pointers["archive"].Archive?
    ensures OutSteps(o, actions, q)
    ensures q == p.(batches := p.batches["archive" := Batch(p.core.pointers["archive"].generation, [Moved])], log := q.log)
  {
    OneRowBatch();
    assert [Moved][..1] == [Moved];
    actions, q := OutStepOn(o, before, p, SaveBatch("archive"));
  }

  const Empty: Outbox := Outbox(Nothing, [], map[], 0, [], map[], {})

  // One move waits, and this batch of it is saved.
  ghost predicate Holds(p: Outbox, base: nat) {
    p.rows == [Moved] && p.enqueued == [Moved] && p.batches == map["archive" := Batch(base, [Moved])]
  }

  // One move is queued and cut into a batch.
  lemma SavedOnce() returns (actions: seq<OutAction>, p: Outbox)
    ensures OutSteps(Empty, actions, p) && At(p.core, [FullJob], 0, 0) && p.core.nextIndex == 1 && Holds(p, 0)
  {
    var first, s := FullImported();
    actions, p := CoreOn(Empty, [], Empty, first, s);
    assert s.jobs[0].root == "archive" && HasJob(s.jobs, "archive");
    actions, p := OutStepOn(Empty, actions, p, Enqueue("archive", "move", Line0, 1));
    actions, p := CutOne(Empty, actions, p);
  }

  // The process stops before it acknowledges the published batch, and another import is begun and stopped.
  lemma PublishedUnacknowledged() returns (actions: seq<OutAction>, o: Outbox)
    ensures OutSteps(Empty, actions, o) && Holds(o, 0) && o.core.nextIndex == 2
    ensures At(o.core, [FullJob, Carrier, WithState(LostJob, BUILDING)], 0, 1)
  {
    actions, o := SavedOnce();
    var more, t := DeltaRun(o.core, [FullJob], 0, 0);
    actions, o := CoreOn(Empty, actions, o, more, t);
    more, t := StoppedRun(t);
    actions, o := CoreOn(Empty, actions, o, more, t);
  }

  // An abort that drops the saved batch.
  lemma AbortOn(o: Outbox, base: nat) returns (actions: seq<OutAction>, p: Outbox)
    requires Holds(o, base) && o.core.proc.Idle? && Unfinished(o.core.jobs, "archive")
    ensures OutSteps(o, actions, p) && p.rows == [Moved] && p.enqueued == [Moved] && p.batches == map[]
    ensures p.core == o.core.(jobs := AbortAll(o.core.jobs, "archive"))
  {
    actions, p := OutStepOn(o, [], o, DropBatch("archive"));
    actions, p := OutStepOn(o, actions, p, Core(Action.Abort("archive")));
  }

  lemma CutAndDeliver(o: Outbox, before: seq<OutAction>, p: Outbox, jobs: seq<Job>, index: nat, generation: nat)
    returns (actions: seq<OutAction>, q: Outbox)
    requires OutSteps(o, before, p) && p.rows == [Moved] && p.enqueued == [Moved] && p.batches == map[]
    requires At(p.core, jobs, index, generation) && Claimable(jobs, Delta, Some(generation), index) && index < p.core.nextIndex
    ensures OutSteps(o, actions, q) && q.enqueued == [Moved]
    ensures Carries(q.core.jobs, "archive", Batch(generation, [Moved]), |jobs|)
    ensures |q.core.jobs| == |jobs| + 1 && q.core.jobs[..|jobs|] == jobs
  {
    OneRowBatch();
    actions, q := CutOne(o, before, p);
    var more, t := DeltaRun(q.core, jobs, index, generation);
    actions, q := CoreOn(o, actions, q, more, t);
  }

  lemma AbortLost(o: Outbox) returns (actions: seq<OutAction>, p: Outbox)
    requires Holds(o, 0) && At(o.core, [FullJob, Carrier, WithState(LostJob, BUILDING)], 0, 1) && o.core.nextIndex == 2
    ensures OutEnabled(o, DropBatch("archive")) && Delivered(o.core.jobs, "archive", Batch(0, [Moved]))
    ensures OutSteps(o, actions, p) && p.rows == [Moved] && p.enqueued == [Moved] && p.batches == map[]
    ensures At(p.core, [FullJob, Carrier, LostJob], 0, 1) && p.core.nextIndex == 2
  {
    OneRowBatch();
    assert Carries(o.core.jobs, "archive", Batch(0, [Moved]), 1);
    assert o.core.jobs[2].root == "archive";
    actions, p := AbortOn(o, 0);
    assert p.core.jobs == [FullJob, Carrier, LostJob];
  }

  lemma CarrierCarries(jobs: seq<Job>)
    requires |jobs| > 1 && jobs[1] == Carrier
    ensures Carries(jobs, "archive", Batch(0, [Moved]), 1)
  {
    OneRowBatch();
  }

  /** An abort drops a batch that was published but not acknowledged: its move enters a second published delta. */
  lemma DroppingCanRedeliver() returns (before: seq<OutAction>, o: Outbox, after: seq<OutAction>, p: Outbox)
    ensures OutStart(Empty) && OutSteps(Empty, before, o) && "archive" in o.batches
    ensures OutEnabled(o, DropBatch("archive")) && Delivered(o.core.jobs, "archive", o.batches["archive"])
    ensures OutSteps(o, after, p) && p.enqueued == [Moved]
    ensures Carries(p.core.jobs, "archive", Batch(0, [Moved]), 1) && Carries(p.core.jobs, "archive", Batch(1, [Moved]), 3)
  {
    before, o := PublishedUnacknowledged();
    after, p := AbortLost(o);
    var jobs := [FullJob, Carrier, LostJob];
    after, p := CutAndDeliver(o, after, p, jobs, 0, 1);
    assert p.core.jobs[1] == p.core.jobs[..3][1] == Carrier;
    CarrierCarries(p.core.jobs);
  }

  // The delta of the batch is swapped in, and the process stops before the journal says so.
  lemma SwappedUnfinished() returns (actions: seq<OutAction>, o: Outbox)
    ensures OutSteps(Empty, actions, o) && Holds(o, 0) && o.core.nextIndex == 1
    ensures At(o.core, [FullJob, WithState(Carrier, BUILDING)], 0, 1)
  {
    actions, o := SavedOnce();
    var more, t := SwappedRun(o.core, [FullJob], 0, 0);
    more, t := StepOn(o.core, more, t, Crash);
    actions, o := CoreOn(Empty, actions, o, more, t);
  }

  lemma AbortSwapped(o: Outbox) returns (actions: seq<OutAction>, p: Outbox)
    requires Holds(o, 0) && At(o.core, [FullJob, WithState(Carrier, BUILDING)], 0, 1) && o.core.nextIndex == 1
    ensures OutEnabled(o, DropBatch("archive")) && Reached(o.core, "archive", Batch(0, [Moved]))
    ensures !Delivered(o.core.jobs, "archive", Batch(0, [Moved]))
    ensures OutSteps(o, actions, p) && p.rows == [Moved] && p.enqueued == [Moved] && p.batches == map[]
    ensures At(p.core, [FullJob, WithState(Carrier, ABORTED)], 0, 1) && p.core.nextIndex == 1
  {
    OneRowBatch();
    assert o.core.jobs[1].root == "archive" && Matches(o.core.jobs[1], "archive", Batch(0, [Moved]));
    actions, p := AbortOn(o, 0);
    assert p.core.jobs == [FullJob, WithState(Carrier, ABORTED)];
  }

  lemma ImportAgain(o: Outbox, before: seq<OutAction>, p: Outbox) returns (actions: seq<OutAction>, q: Outbox)
    requires OutSteps(o, before, p) && p.rows == [Moved] && p.enqueued == [Moved] && p.batches == map[]
    requires At(p.core, [FullJob, WithState(Carrier, ABORTED)], 0, 1) && p.core.nextIndex == 1
    ensures OutSteps(o, actions, q) && q.rows == [Moved] && q.enqueued == [Moved] && q.batches == map[]
    ensures At(q.core, [FullJob, WithState(Carrier, ABORTED)] + [OneJob(Full, None, 1, 2, PUBLISHED)], 1, 2)
    ensures q.core.nextIndex == 2
  {
    var more, t := FullRun(p.core, [FullJob, WithState(Carrier, ABORTED)], 0, 1);
    actions, q := CoreOn(o, before, p, more, t);
  }

  /** An abort ends the job of a batch that readers see already: its move is delivered again after the next full
      import, although the batch never counted as published. */
  lemma AbortingSwappedCanRedeliver() returns (before: seq<OutAction>, o: Outbox, after: seq<OutAction>, p: Outbox)
    ensures OutStart(Empty) && OutSteps(Empty, before, o) && "archive" in o.batches
    ensures OutEnabled(o, DropBatch("archive")) && Reached(o.core, "archive", o.batches["archive"])
    ensures !Delivered(o.core.jobs, "archive", o.batches["archive"])
    ensures OutSteps(o, after, p) && p.enqueued == [Moved]
    ensures Carries(p.core.jobs, "archive", Batch(2, [Moved]), 3)
  {
    before, o := SwappedUnfinished();
    after, p := AbortSwapped(o);
    after, p := ImportAgain(o, after, p);
    var jobs := [FullJob, WithState(Carrier, ABORTED)] + [OneJob(Full, None, 1, 2, PUBLISHED)];
    after, p := CutAndDeliver(o, after, p, jobs, 1, 2);
  }
}
