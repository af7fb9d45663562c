/**
 * The outbox: moves are queued with the business transaction that made them, and delivered afterwards as
 * delta manifests through the importer. Steps of the importer interleave freely with those of the outbox.
 */
module SearchOutbox {
  import opened Wrappers
  import opened ArchiveManifest
  import opened ArchiveImport
  import opened ArchiveImportSafety
  import opened ArchiveRuns

  const BATCH_ROWS: nat := 25_000
  const BATCH_BYTES: nat := 4 * 1024 * 1024

  datatype Row = Row(number: nat, root: string, key: string, line: Line, bytes: nat)

  // A saved batch: the generation it applies to, and the rows it was cut from.
  datatype Batch = Batch(base: nat, rows: seq<Row>)

  datatype Outbox = Outbox(core: State, rows: seq<Row>, batches: map<string, Batch>, next: nat,
                           // history: every row, the batches that stand, and those an abort dropped
                           enqueued: seq<Row>, log: map<string, seq<Batch>>, dropped: set<(string, Batch)>)

  function RowsOf(rows: seq<Row>, root: string): seq<Row> {
    if rows == [] then []
    else
      var before := RowsOf(rows[..|rows| - 1], root);
      var last := rows[|rows| - 1];
      if last.root == root then before + [last] else before
  }

  function Lines(rows: seq<Row>): seq<Line> {
    seq(|rows|, i requires 0 <= i < |rows| => rows[i].line)
  }

  // The longest prefix within both limits; the first row is always taken.
  function BatchLength(rows: seq<Row>, n: nat := 0, bytes: nat := 0): nat
    decreases |rows| - n
  {
    if n >= |rows| || n >= BATCH_ROWS || (n > 0 && bytes + rows[n].bytes > BATCH_BYTES) then n
    else BatchLength(rows, n + 1, bytes + rows[n].bytes)
  }

  predicate Contains(rows: seq<Row>, key: string) {
    exists i :: 0 <= i < |rows| && rows[i].key == key
  }

  // DELETE ... WHERE root_id=? AND seq BETWEEN ? AND ?
  function Without(rows: seq<Row>, root: string, first: nat, last: nat): seq<Row> {
    if rows == [] then []
    else
      var before := Without(rows[..|rows| - 1], root, first, last);
      var row := rows[|rows| - 1];
      if row.root == root && first <= row.number <= last then before else before + [row]
  }

  predicate HasJob(jobs: seq<Job>, root: string) {
    exists j :: 0 <= j < |jobs| && jobs[j].root == root
  }

  // This job is for exactly this batch.
  predicate Matches(job: Job, root: string, batch: Batch) {
    job.root == root && job.source == Lines(batch.rows) && job.mode == Delta && job.base == Some(batch.base)
  }

  // This job carried exactly this batch to the index.
  predicate Carries(jobs: seq<Job>, root: string, batch: Batch, j: nat) {
    j < |jobs| && Matches(jobs[j], root, batch) && jobs[j].state == PUBLISHED
  }

  // Readers have seen this batch: a job for it is published, or is the one that its root's pointer names.
  predicate Reached(s: State, root: string, batch: Batch) {
    exists j :: 0 <= j < |s.jobs| && Matches(s.jobs[j], root, batch) &&
                (s.jobs[j].state == PUBLISHED || AlreadySwapped(s.pointers, s.jobs[j]))
  }

  datatype OutAction =
    | Core(action: Action)
    | Enqueue(root: string, key: string, line: Line, bytes: nat)
    | SaveBatch(root: string)
    | Acknowledge(root: string, job: nat)
    | DropBatch(root: string)

  predicate OutEnabled(o: Outbox, a: OutAction) {
    match a
    case Core(action) => Enabled(o.core, action)
    case Enqueue(_, _, _, _) => true
    case SaveBatch(root) =>
      o.core.proc.Idle? && root !in o.batches && RowsOf(o.rows, root) != [] &&
      root in o.core.pointers && o.core.pointers[root].Archive?
    case Acknowledge(root, j) =>
      o.core.proc.Idle? && root in o.batches && o.batches[root].rows != [] && Carries(o.core.jobs, root, o.batches[root], j)
    case DropBatch(root) => o.core.proc.Idle? && Unfinished(o.core.jobs, root)
  }

  function Log(o: Outbox, root: string): seq<Batch> {
    if root in o.log then o.log[root] else []
  }

  function NextBatch(o: Outbox, root: string): Batch
    requires root in o.core.pointers
  {
    var rows := RowsOf(o.rows, root);
    var n := BatchLength(rows);
    Batch(o.core.pointers[root].generation, if n <= |rows| then rows[..n] else rows)
  }

  function OutStep(o: Outbox, a: OutAction): Outbox
    requires OutEnabled(o, a)
  {
    match a
    case Core(action) => o.(core := Step(o.core, action))
    case Enqueue(root, key, line, bytes) =>
      if !HasJob(o.core.jobs, root) || Contains(o.rows, key) then o
      else
        var row := Row(o.next, root, key, line, bytes);
        o.(rows := o.rows + [row], enqueued := o.enqueued + [row], next := o.next + 1)
    case SaveBatch(root) =>
      var batch := NextBatch(o, root);
      o.(batches := o.batches[root := batch], log := o.log[root := Log(o, root) + [batch]])
    case Acknowledge(root, _) =>
      var batch := o.batches[root];
      o.(rows := Without(o.rows, root, batch.rows[0].number, batch.rows[|batch.rows| - 1].number),
         batches := o.batches - {root})
    case DropBatch(root) =>
      if root !in o.batches then o
      else o.(batches := o.batches - {root}, dropped := o.dropped + {(root, o.batches[root])},
              log := o.log[root := if Log(o, root) == [] then [] else Log(o, root)[..|Log(o, root)| - 1]])
  }

  ghost predicate OutStart(o: Outbox) {
    Start(o.core) && o.rows == [] && o.batches == map[] && o.enqueued == [] && o.log == map[] && o.dropped == {}
  }

  ghost predicate OutSteps(o: Outbox, actions: seq<OutAction>, p: Outbox)
    decreases |actions|
  {
    if actions == [] then o == p
    else OutEnabled(o, actions[0]) && OutSteps(OutStep(o, actions[0]), actions[1..], p)
  }

  // --- What the journal promises the outbox -------------------------------------------------

  // A published job is never newer than the generation its root shows.
  ghost predicate Newest(jobs: seq<Job>, pointers: map<string, Pointer>) {
    forall j :: 0 <= j < |jobs| && jobs[j].state == PUBLISHED ==>
      jobs[j].root in pointers && jobs[j].generation <= pointers[jobs[j].root].generation
  }

  // A manifest over a base has at most one row that was not aborted.
  ghost predicate UniqueRows(jobs: seq<Job>) {
    forall i, j :: 0 <= i < j < |jobs| && jobs[i].state != ABORTED ==>
      !SameManifest(jobs[j], jobs[i].root, jobs[i].source, jobs[i].mode, jobs[i].base)
  }

  // Apart from these, no step touches the journal or a pointer.
  predicate TouchesJournal(a: Action) {
    a.DoClaim? || a.Checkpoint? || a.Finish? || a.Abort? || a.Swap? || a.Restore? || a.Replace?
  }

  lemma OthersLeaveJournal(s: State, a: Action)
    requires Enabled(s, a) && !TouchesJournal(a)
    ensures Step(s, a).jobs == s.jobs && Step(s, a).pointers == s.pointers
  {
  }

  lemma PublishingKeepsNewest(s: State, a: Action)
    requires Inv(s) && Newest(s.jobs, s.pointers) && Enabled(s, a) && (a.Finish? || a.Swap?)
    ensures Newest(Step(s, a).jobs, Step(s, a).pointers)
  {
    var k := s.proc.job;
    if a.Swap? {
      forall j | 0 <= j < |s.jobs| && s.jobs[j].state == PUBLISHED && s.jobs[j].root == s.jobs[k].root
        ensures s.jobs[j].generation <= s.jobs[k].generation
      {
        assert j < k || k < j;
      }
    } else {
      assert AlreadySwapped(s.pointers, s.jobs[k]);
    }
  }

  // Only finishing a job publishes a row.
  lemma NothingElsePublishes(s: State, a: Action)
    requires ProcOk(s) && Enabled(s, a) && !a.Finish?
    ensures forall j :: 0 <= j < |Step(s, a).jobs| && Step(s, a).jobs[j].state == PUBLISHED ==>
              j < |s.jobs| && s.jobs[j] == Step(s, a).jobs[j]
  {
    if !TouchesJournal(a) {
      OthersLeaveJournal(s, a);
    } else if a.Checkpoint? {
      CheckpointPublishesNothing(s);
    }
  }

  lemma CheckpointPublishesNothing(s: State)
    requires ProcOk(s) && Enabled(s, Checkpoint)
    ensures forall j :: 0 <= j < |s.jobs| ==>
              (AfterCheckpoint(s).jobs[j].state == PUBLISHED ==> AfterCheckpoint(s).jobs[j] == s.jobs[j])
  {
  }

  lemma PointersOnlyGrow(s: State, a: Action)
    requires forall root :: root in s.pointers ==> s.pointers[root].generation < s.nextGeneration
    requires Enabled(s, a) && !a.Swap?
    ensures forall root :: root in s.pointers ==>
              root in Step(s, a).pointers && s.pointers[root].generation <= Step(s, a).pointers[root].generation
  {
    if !TouchesJournal(a) { OthersLeaveJournal(s, a); }
  }

  lemma StepKeepsNewest(s: State, a: Action)
    requires Inv(s) && Newest(s.jobs, s.pointers) && Enabled(s, a)
    ensures Newest(Step(s, a).jobs, Step(s, a).pointers)
  {
    if a.Finish? || a.Swap? {
      PublishingKeepsNewest(s, a);
    } else {
      NothingElsePublishes(s, a);
      PointersOnlyGrow(s, a);
    }
  }

  lemma ClaimKeepsUnique(s: State, a: Action)
    requires UniqueRows(s.jobs) && Enabled(s, a) && a.DoClaim?
    ensures UniqueRows(Step(s, a).jobs)
  {
    LastMatchIsMatch(s.jobs, a.root, a.source, a.mode, a.base);
  }

  lemma StepKeepsUnique(s: State, a: Action)
    requires Inv(s) && UniqueRows(s.jobs) && Enabled(s, a)
    ensures UniqueRows(Step(s, a).jobs)
  {
    if a.DoClaim? {
      ClaimKeepsUnique(s, a);
    } else {
      StepsOnlyAbort(s, a);
    }
  }

  lemma StepsOnlyAbort(s: State, a: Action)
    requires ProcOk(s) && Enabled(s, a) && !a.DoClaim?
    ensures var t := Step(s, a);
            |t.jobs| == |s.jobs| && forall j :: 0 <= j < |s.jobs| ==>
              t.jobs[j].root == s.jobs[j].root && t.jobs[j].source == s.jobs[j].source &&
              t.jobs[j].mode == s.jobs[j].mode && t.jobs[j].base == s.jobs[j].base &&
              (s.jobs[j].state == ABORTED ==> t.jobs[j].state == ABORTED)
  {
    if !TouchesJournal(a) { OthersLeaveJournal(s, a); }
  }

  // A published row is never changed again.
  lemma StepKeepsPublished(s: State, a: Action)
    requires ProcOk(s) && Enabled(s, a)
    ensures var t := Step(s, a);
            |s.jobs| <= |t.jobs| && forall j :: 0 <= j < |s.jobs| && s.jobs[j].state == PUBLISHED ==> t.jobs[j] == s.jobs[j]
  {
    if !TouchesJournal(a) { OthersLeaveJournal(s, a); }
  }

  // --- Rows -----------------------------------------------------------------------------------

  ghost predicate Increasing(rows: seq<Row>, next: nat) {
    (forall i, j :: 0 <= i < j < |rows| ==> rows[i].number < rows[j].number) &&
    (forall i :: 0 <= i < |rows| ==> rows[i].number < next)
  }

  lemma OneMoreRow(rows: seq<Row>, last: Row, next: nat)
    requires Increasing(rows, last.number) && last.number < next
    ensures Increasing(rows + [last], next)
  {
  }

  lemma {:induction false} RowsOfIncreasing(rows: seq<Row>, root: string, next: nat)
    requires Increasing(rows, next)
    ensures Increasing(RowsOf(rows, root), next)
    ensures forall i :: 0 <= i < |RowsOf(rows, root)| ==> RowsOf(rows, root)[i] in rows && RowsOf(rows, root)[i].root == root
  {
    if rows != [] {
      var rest, last := rows[..|rows| - 1], rows[|rows| - 1];
      RowsOfIncreasing(rest, root, last.number);
      if last.root == root { OneMoreRow(RowsOf(rest, root), last, next); }
      forall i | 0 <= i < |RowsOf(rows, root)|
        ensures RowsOf(rows, root)[i] in rows && RowsOf(rows, root)[i].root == root
      {
        if i < |RowsOf(rest, root)| { assert RowsOf(rows, root)[i] == RowsOf(rest, root)[i]; }
      }
    }
  }

  lemma {:induction false} BatchLengthBounds(rows: seq<Row>, n: nat, bytes: nat)
    requires n <= |rows|
    ensures n <= BatchLength(rows, n, bytes) <= |rows|
    ensures n == 0 && rows != [] ==> BatchLength(rows, n, bytes) > 0
    decreases |rows| - n
  {
    if !(n >= |rows| || n >= BATCH_ROWS || (n > 0 && bytes + rows[n].bytes > BATCH_BYTES)) {
      BatchLengthBounds(rows, n + 1, bytes + rows[n].bytes);
    }
  }

  lemma {:induction false} WithoutOther(rows: seq<Row>, root: string, first: nat, last: nat, other: string)
    requires other != root
    ensures RowsOf(Without(rows, root, first, last), other) == RowsOf(rows, other)
  {
    if rows != [] {
      var before := Without(rows[..|rows| - 1], root, first, last);
      var row := rows[|rows| - 1];
      WithoutOther(rows[..|rows| - 1], root, first, last, other);
      assert (before + [row])[..|before|] == before;
    }
  }

  lemma {:induction false} WithoutIncreasing(rows: seq<Row>, root: string, first: nat, last: nat, next: nat)
    requires Increasing(rows, next)
    ensures Increasing(Without(rows, root, first, last), next)
  {
    if rows != [] {
      var row := rows[|rows| - 1];
      assert Increasing(rows[..|rows| - 1], row.number);
      WithoutIncreasing(rows[..|rows| - 1], root, first, last, row.number);
      OneMoreRow(Without(rows[..|rows| - 1], root, first, last), row, next);
    }
  }

  lemma {:induction false} WithoutCommutes(rows: seq<Row>, root: string, first: nat, last: nat)
    ensures RowsOf(Without(rows, root, first, last), root) == Without(RowsOf(rows, root), root, first, last)
  {
    if rows != [] {
      var rest := rows[..|rows| - 1];
      var row := rows[|rows| - 1];
      WithoutCommutes(rest, root, first, last);
      var before := Without(rest, root, first, last);
      assert (before + [row])[..|before|] == before;
      var mine := RowsOf(rest, root);
      assert (mine + [row])[..|mine|] == mine;
    }
  }

  lemma SliceGrows(s: seq<Row>, n: nat, m: nat)
    requires n < m <= |s|
    ensures s[n..m] == s[n..m - 1] + [s[m - 1]]
  {
  }

  lemma {:induction false} WithoutOwnPrefix(mine: seq<Row>, root: string, n: nat, m: nat, next: nat)
    requires Increasing(mine, next) && 0 < n <= |mine| && m <= |mine|
    requires forall i :: 0 <= i < |mine| ==> mine[i].root == root
    ensures Without(mine[..m], root, mine[0].number, mine[n - 1].number) == if m <= n then [] else mine[n..m]
  {
    if m > 0 {
      WithoutOwnPrefix(mine, root, n, m - 1, next);
      assert mine[..m][..m - 1] == mine[..m - 1];
      if m > n { SliceGrows(mine, n, m); }
    }
  }

  lemma WithoutOwn(mine: seq<Row>, root: string, n: nat, next: nat)
    requires Increasing(mine, next) && 0 < n <= |mine| && forall i :: 0 <= i < |mine| ==> mine[i].root == root
    ensures Without(mine, root, mine[0].number, mine[n - 1].number) == mine[n..]
  {
    WithoutOwnPrefix(mine, root, n, |mine|, next);
    assert mine[..|mine|] == mine && mine[n..|mine|] == mine[n..];
  }

  /** Deleting the range of a prefix of a root's rows removes exactly that prefix, whatever arrived since. */
  lemma WithoutPrefix(rows: seq<Row>, root: string, n: nat, next: nat)
    requires Increasing(rows, next) && 0 < n <= |RowsOf(rows, root)|
    ensures var mine := RowsOf(rows, root);
            RowsOf(Without(rows, root, mine[0].number, mine[n - 1].number), root) == mine[n..]
  {
    var mine := RowsOf(rows, root);
    RowsOfIncreasing(rows, root, next);
    WithoutCommutes(rows, root, mine[0].number, mine[n - 1].number);
    WithoutOwn(mine, root, n, next);
  }

  // --- The outbox invariant -------------------------------------------------------------------

  function Flatten(batches: seq<Batch>): seq<Row> {
    if batches == [] then [] else Flatten(batches[..|batches| - 1]) + batches[|batches| - 1].rows
  }

  // The batches of a root whose rows were deleted.
  function Acknowledged(o: Outbox, root: string): seq<Batch> {
    var log := Log(o, root);
    if root in o.batches && log != [] then log[..|log| - 1] else log
  }

  ghost predicate RowsOk(o: Outbox, root: string) {
    RowsOf(o.enqueued, root) == Flatten(Acknowledged(o, root)) + RowsOf(o.rows, root) &&
    (root in o.batches ==>
      Log(o, root) != [] && Log(o, root)[|Log(o, root)| - 1] == o.batches[root] &&
      o.batches[root].rows != [] && o.batches[root].rows <= RowsOf(o.rows, root))
  }

  ghost predicate Delivered(jobs: seq<Job>, root: string, batch: Batch) {
    exists j: nat :: Carries(jobs, root, batch, j)
  }

  ghost predicate LogOk(o: Outbox, root: string) {
    (forall b :: 0 <= b < |Acknowledged(o, root)| ==> Delivered(o.core.jobs, root, Acknowledged(o, root)[b])) &&
    (forall b, j: nat :: 0 < b < |Log(o, root)| && Carries(o.core.jobs, root, Log(o, root)[b - 1], j) ==>
      o.core.jobs[j].generation <= Log(o, root)[b].base)
  }

  ghost predicate CoreOk(s: State) {
    Inv(s) && Newest(s.jobs, s.pointers) && UniqueRows(s.jobs)
  }

  ghost predicate OutInv(o: Outbox) {
    CoreOk(o.core) && Increasing(o.rows, o.next) && Increasing(o.enqueued, o.next) &&
    (forall root :: RowsOk(o, root)) && (forall root :: LogOk(o, root))
  }

  lemma CoreStepKeeps(s: State, a: Action)
    requires CoreOk(s) && Enabled(s, a)
    ensures CoreOk(Step(s, a))
  {
    StepKeepsInv(s, a);
    StepKeepsNewest(s, a);
    StepKeepsUnique(s, a);
  }

  // A job that carries a batch is the only one that ever will.
  lemma CarrierIsUnique(jobs: seq<Job>, root: string, batch: Batch, i: nat, j: nat)
    requires UniqueRows(jobs) && Carries(jobs, root, batch, i) && Carries(jobs, root, batch, j)
    ensures i == j
  {
  }

  // --- Every step keeps the outbox invariant --------------------------------------------------

  lemma CoreStepKeepsOutbox(o: Outbox, a: Action)
    requires OutInv(o) && Enabled(o.core, a)
    ensures OutInv(OutStep(o, Core(a)))
  {
    var p := OutStep(o, Core(a));
    CoreStepKeeps(o.core, a);
    StepKeepsPublished(o.core, a);
    forall root ensures RowsOk(p, root) && LogOk(p, root) {
      assert RowsOk(o, root) && LogOk(o, root);
      assert Log(p, root) == Log(o, root) && Acknowledged(p, root) == Acknowledged(o, root);
      CarriersStay(o, p, root);
    }
  }

  lemma CarriersStay(o: Outbox, p: Outbox, root: string)
    requires LogOk(o, root) && Log(p, root) == Log(o, root) && Acknowledged(p, root) == Acknowledged(o, root)
    requires |o.core.jobs| <= |p.core.jobs|
    requires forall j :: 0 <= j < |o.core.jobs| && o.core.jobs[j].state == PUBLISHED ==> p.core.jobs[j] == o.core.jobs[j]
    requires UniqueRows(p.core.jobs)
    requires root in o.batches ==> Log(o, root) != []
    ensures LogOk(p, root)
  {
    forall b | 0 <= b < |Acknowledged(p, root)| ensures Delivered(p.core.jobs, root, Acknowledged(p, root)[b]) {
      var j: nat :| Carries(o.core.jobs, root, Acknowledged(o, root)[b], j);
      assert Carries(p.core.jobs, root, Acknowledged(p, root)[b], j);
    }
    forall b, j: nat | 0 < b < |Log(p, root)| && Carries(p.core.jobs, root, Log(p, root)[b - 1], j)
      ensures p.core.jobs[j].generation <= Log(p, root)[b].base
    {
      assert Log(o, root)[b - 1] == Acknowledged(o, root)[b - 1];
      var i: nat :| Carries(o.core.jobs, root, Log(o, root)[b - 1], i);
      assert Carries(p.core.jobs, root, Log(p, root)[b - 1], i);
      CarrierIsUnique(p.core.jobs, root, Log(p, root)[b - 1], i, j);
    }
  }

  lemma EnqueueKeepsRows(o: Outbox, p: Outbox, row: Row, root: string)
    requires RowsOk(o, root) && LogOk(o, root)
    requires p == o.(rows := o.rows + [row], enqueued := o.enqueued + [row], next := o.next + 1)
    ensures RowsOk(p, root) && LogOk(p, root)
  {
    assert p.rows[..|o.rows|] == o.rows && p.enqueued[..|o.enqueued|] == o.enqueued;
    assert Log(p, root) == Log(o, root) && Acknowledged(p, root) == Acknowledged(o, root);
  }

  lemma EnqueueKeepsOutbox(o: Outbox, a: OutAction)
    requires OutInv(o) && a.Enqueue?
    ensures OutInv(OutStep(o, a))
  {
    var p := OutStep(o, a);
    if p != o {
      forall root ensures RowsOk(p, root) && LogOk(p, root) {
        EnqueueKeepsRows(o, p, Row(o.next, a.root, a.key, a.line, a.bytes), root);
      }
    }
  }

  lemma SaveKeepsLog(o: Outbox, p: Outbox, root: string)
    requires RowsOk(o, root) && LogOk(o, root) && Newest(o.core.jobs, o.core.pointers)
    requires OutEnabled(o, SaveBatch(root)) && p == OutStep(o, SaveBatch(root))
    ensures RowsOk(p, root) && LogOk(p, root)
  {
    BatchLengthBounds(RowsOf(o.rows, root), 0, 0);
    var log := Log(o, root);
    assert Log(p, root) == log + [NextBatch(o, root)];
    assert Acknowledged(p, root) == log;
  }

  lemma OtherRootKeeps(o: Outbox, p: Outbox, root: string)
    requires RowsOk(o, root) && LogOk(o, root) && p.core == o.core
    requires Log(p, root) == Log(o, root) && (root in p.batches <==> root in o.batches)
    requires root in o.batches ==> p.batches[root] == o.batches[root]
    requires RowsOf(p.rows, root) == RowsOf(o.rows, root) && p.enqueued == o.enqueued
    ensures RowsOk(p, root) && LogOk(p, root)
  {
    assert Acknowledged(p, root) == Acknowledged(o, root);
  }

  lemma SaveKeepsOutbox(o: Outbox, a: OutAction)
    requires OutInv(o) && OutEnabled(o, a) && a.SaveBatch?
    ensures OutInv(OutStep(o, a))
  {
    var p := OutStep(o, a);
    forall root ensures RowsOk(p, root) && LogOk(p, root) {
      if root == a.root { SaveKeepsLog(o, p, root); } else { OtherRootKeeps(o, p, root); }
    }
  }

  // The saved batch becomes the last acknowledged one.
  lemma AcknowledgedGrows(o: Outbox, p: Outbox, root: string, j: nat)
    requires RowsOk(o, root) && OutEnabled(o, Acknowledge(root, j)) && p == OutStep(o, Acknowledge(root, j))
    ensures Log(p, root) == Log(o, root) == Acknowledged(p, root) == Acknowledged(o, root) + [o.batches[root]]
  {
    var log := Log(o, root);
    assert log == log[..|log| - 1] + [log[|log| - 1]];
  }

  lemma AcknowledgeKeepsRows(o: Outbox, p: Outbox, root: string, j: nat)
    requires RowsOk(o, root) && Increasing(o.rows, o.next)
    requires OutEnabled(o, Acknowledge(root, j)) && p == OutStep(o, Acknowledge(root, j))
    ensures RowsOk(p, root)
  {
    var batch, mine := o.batches[root], RowsOf(o.rows, root);
    assert batch.rows == mine[..|batch.rows|];
    WithoutPrefix(o.rows, root, |batch.rows|, o.next);
    assert mine == batch.rows + mine[|batch.rows|..];
    AcknowledgedGrows(o, p, root, j);
    var done := Acknowledged(p, root);
    assert done[..|done| - 1] == Acknowledged(o, root);
  }

  lemma AcknowledgeKeepsLog(o: Outbox, p: Outbox, root: string, j: nat)
    requires RowsOk(o, root) && LogOk(o, root) && Increasing(o.rows, o.next)
    requires OutEnabled(o, Acknowledge(root, j)) && p == OutStep(o, Acknowledge(root, j))
    ensures RowsOk(p, root) && LogOk(p, root)
  {
    AcknowledgeKeepsRows(o, p, root, j);
    AcknowledgedGrows(o, p, root, j);
    assert Carries(p.core.jobs, root, o.batches[root], j);
    forall b | 0 <= b < |Acknowledged(p, root)| ensures Delivered(p.core.jobs, root, Acknowledged(p, root)[b]) {
      if b < |Acknowledged(o, root)| { assert Acknowledged(p, root)[b] == Acknowledged(o, root)[b]; }
    }
  }

  lemma AcknowledgeKeepsOutbox(o: Outbox, a: OutAction)
    requires OutInv(o) && OutEnabled(o, a) && a.Acknowledge?
    ensures OutInv(OutStep(o, a))
  {
    var p := OutStep(o, a);
    var batch := o.batches[a.root];
    var first, last := batch.rows[0].number, batch.rows[|batch.rows| - 1].number;
    WithoutIncreasing(o.rows, a.root, first, last, o.next);
    forall root ensures RowsOk(p, root) && LogOk(p, root) {
      if root == a.root {
        AcknowledgeKeepsLog(o, p, root, a.job);
      } else {
        WithoutOther(o.rows, a.root, first, last, root);
        OtherRootKeeps(o, p, root);
      }
    }
  }

  lemma DropKeepsOutbox(o: Outbox, a: OutAction)
    requires OutInv(o) && OutEnabled(o, a) && a.DropBatch?
    ensures OutInv(OutStep(o, a))
  {
    var p := OutStep(o, a);
    if a.root in o.batches {
      forall root ensures RowsOk(p, root) && LogOk(p, root) {
        assert RowsOk(o, root) && LogOk(o, root);
        if root == a.root {
          assert Log(p, root) == Acknowledged(o, root) == Acknowledged(p, root);
        } else {
          OtherRootKeeps(o, p, root);
        }
      }
    }
  }

  lemma OutStepKeeps(o: Outbox, a: OutAction)
    requires OutInv(o) && OutEnabled(o, a)
    ensures OutInv(OutStep(o, a))
  {
    match a
    case Core(action) => CoreStepKeepsOutbox(o, action);
    case Enqueue(_, _, _, _) => EnqueueKeepsOutbox(o, a);
    case SaveBatch(_) => SaveKeepsOutbox(o, a);
    case Acknowledge(_, _) => AcknowledgeKeepsOutbox(o, a);
    case DropBatch(_) => DropKeepsOutbox(o, a);
  }

  lemma {:induction false} OutStepsKeep(o: Outbox, actions: seq<OutAction>, p: Outbox)
    requires OutInv(o) && OutSteps(o, actions, p)
    ensures OutInv(p)
    decreases |actions|
  {
    if actions != [] {
      OutStepKeeps(o, actions[0]);
      OutStepsKeep(OutStep(o, actions[0]), actions[1..], p);
    }
  }

  lemma StartsOk(o: Outbox)
    requires OutStart(o)
    ensures OutInv(o) && DroppedOk(o)
  {
    forall root ensures RowsOk(o, root) && LogOk(o, root) {
      assert Log(o, root) == [];
    }
  }

  // Each batch was carried by one published job, and by no other, in the order of the batches.
  ghost predicate CarriedInOrder(jobs: seq<Job>, root: string, done: seq<Batch>, carriers: seq<nat>) {
    |carriers| == |done| &&
    (forall b :: 0 <= b < |done| ==> Carries(jobs, root, done[b], carriers[b])) &&
    (forall b, j: nat :: 0 <= b < |done| && Carries(jobs, root, done[b], j) ==> j == carriers[b]) &&
    forall b :: 0 < b < |carriers| ==> carriers[b - 1] < carriers[b]
  }

  // The one published job that carried each batch.
  lemma {:induction false} Carriers(jobs: seq<Job>, root: string, done: seq<Batch>) returns (carriers: seq<nat>)
    requires UniqueRows(jobs)
    requires forall b :: 0 <= b < |done| ==> Delivered(jobs, root, done[b])
    ensures |carriers| == |done|
    ensures forall b :: 0 <= b < |done| ==> Carries(jobs, root, done[b], carriers[b])
    ensures forall b, j: nat :: 0 <= b < |done| && Carries(jobs, root, done[b], j) ==> j == carriers[b]
  {
    if done == [] {
      carriers := [];
    } else {
      var n := |done| - 1;
      assert Delivered(jobs, root, done[n]);
      var j: nat :| Carries(jobs, root, done[n], j);
      carriers := Carriers(jobs, root, done[..n]);
      carriers := carriers + [j];
      forall b, i: nat | 0 <= b < |done| && Carries(jobs, root, done[b], i) ensures i == carriers[b] {
        CarrierIsUnique(jobs, root, done[b], i, carriers[b]);
      }
    }
  }

  lemma CarriersIncrease(jobs: seq<Job>, root: string, done: seq<Batch>, carriers: seq<nat>)
    requires |carriers| == |done| && forall b :: 0 <= b < |done| ==> Carries(jobs, root, done[b], carriers[b])
    requires forall b, j: nat :: 0 < b < |done| && Carries(jobs, root, done[b - 1], j) ==> jobs[j].generation <= done[b].base
    requires forall j :: 0 <= j < |jobs| && jobs[j].mode == Delta ==>
               jobs[j].base.Some? && jobs[j].base.value < jobs[j].generation
    requires forall i, j :: 0 <= i < j < |jobs| ==> jobs[i].generation < jobs[j].generation
    ensures forall b :: 0 < b < |carriers| ==> carriers[b - 1] < carriers[b]
  {
    forall b | 0 < b < |carriers| ensures carriers[b - 1] < carriers[b] {
      assert Carries(jobs, root, done[b], carriers[b]) && Carries(jobs, root, done[b - 1], carriers[b - 1]);
      assert jobs[carriers[b - 1]].generation <= done[b].base < jobs[carriers[b]].generation;
    }
  }

  lemma OrderedCarriers(p: Outbox, root: string) returns (carriers: seq<nat>)
    requires Inv(p.core) && UniqueRows(p.core.jobs) && LogOk(p, root)
    ensures CarriedInOrder(p.core.jobs, root, Acknowledged(p, root), carriers)
  {
    var done := Acknowledged(p, root);
    carriers := Carriers(p.core.jobs, root, done);
    forall b, j: nat | 0 < b < |done| && Carries(p.core.jobs, root, done[b - 1], j)
      ensures p.core.jobs[j].generation <= done[b].base
    {
      assert done[b - 1] == Log(p, root)[b - 1] && done[b] == Log(p, root)[b];
    }
    CarriersIncrease(p.core.jobs, root, done, carriers);
  }

  // --- Dropped batches -----------------------------------------------------------------------

  // The process works on a job for this batch.
  predicate WorksOn(s: State, root: string, batch: Batch) {
    match s.proc
    case Idle => false
    case Rebuilding(_, _) => false
    case Reopened(_, _, _) => false
    case Cleaning(_) => false
    case Closed(_, _) => false
    case _ => s.proc.job < |s.jobs| && Matches(s.jobs[s.proc.job], root, batch)
  }

  predicate ClaimsIt(a: Action, root: string, batch: Batch) {
    a.DoClaim? && a.root == root && a.source == Lines(batch.rows) && a.mode == Delta && a.base == Some(batch.base)
  }

  // Neither readers nor the process have anything to do with this batch.
  predicate Forgotten(s: State, root: string, batch: Batch) {
    !Reached(s, root, batch) && !WorksOn(s, root, batch)
  }

  // Only a swap makes a pointer name another job.
  lemma ImportedStays(s: State, a: Action, root: string)
    requires Enabled(s, a) && !a.Swap?
    ensures var t := Step(s, a);
            root in t.pointers && t.pointers[root].Archive? ==>
              root in s.pointers && s.pointers[root].Archive? && s.pointers[root].imported == t.pointers[root].imported
  {
    if !TouchesJournal(a) { OthersLeaveJournal(s, a); }
  }

  lemma NewJobForgets(s: State, t: State, job: Job, root: string, batch: Batch)
    requires Forgotten(s, root, batch) && !Matches(job, root, batch) && t.jobs == s.jobs + [job]
    requires t.pointers == s.pointers && t.proc == Claimed(|s.jobs|)
    ensures Forgotten(t, root, batch)
  {
  }

  lemma ResumedForgets(s: State, t: State, j: nat, root: string, batch: Batch)
    requires Forgotten(s, root, batch) && j < |s.jobs| && !Matches(s.jobs[j], root, batch)
    requires t.jobs == s.jobs && t.pointers == s.pointers && (t.proc == Claimed(j) || t.proc == Swapped(j) || t.proc == Idle)
    ensures Forgotten(t, root, batch)
  {
  }

  lemma FreshForgets(s: State, r: string, source: seq<Line>, mode: Mode, base: Option<nat>, index: nat, root: string,
                     batch: Batch)
    requires ClaimOf(s, r, source, mode, base) == Fresh(index) && Forgotten(s, root, batch)
    requires !ClaimsIt(DoClaim(r, source, mode, base), root, batch)
    ensures Forgotten(AfterClaim(s, r, source, mode, base), root, batch)
  {
    var t := AfterClaim(s, r, source, mode, base);
    NewJobForgets(s, t, NewJob(s, r, source, mode, base, index), root, batch);
  }

  lemma ClaimForgets(s: State, r: string, source: seq<Line>, mode: Mode, base: Option<nat>, root: string, batch: Batch)
    requires s.proc.Idle? && !ClaimOf(s, r, source, mode, base).Refused? && Forgotten(s, root, batch)
    requires !ClaimsIt(DoClaim(r, source, mode, base), root, batch)
    ensures Forgotten(AfterClaim(s, r, source, mode, base), root, batch)
  {
    match ClaimOf(s, r, source, mode, base)
    case Existing(j) =>
      LastMatchIsMatch(s.jobs, r, source, mode, base);
      ResumedForgets(s, AfterClaim(s, r, source, mode, base), j, root, batch);
    case Fresh(index) => FreshForgets(s, r, source, mode, base, index, root, batch);
  }

  lemma SwapForgets(s: State, root: string, batch: Batch)
    requires Inv(s) && Enabled(s, Swap) && Forgotten(s, root, batch)
    ensures Forgotten(AfterSwap(s), root, batch)
  {
    var k, t := s.proc.job, AfterSwap(s);
    forall j | 0 <= j < |s.jobs| && Matches(s.jobs[j], root, batch)
      ensures s.jobs[j].state != PUBLISHED && !AlreadySwapped(t.pointers, s.jobs[j])
    {
      assert j != k && s.jobs[j].generation != s.jobs[k].generation;
    }
  }

  lemma FinishForgets(s: State, root: string, batch: Batch)
    requires Inv(s) && Enabled(s, Finish) && Forgotten(s, root, batch)
    ensures Forgotten(AfterFinish(s), root, batch)
  {
    var k, t := s.proc.job, AfterFinish(s);
    forall j | 0 <= j < |t.jobs| && Matches(t.jobs[j], root, batch)
      ensures t.jobs[j].state != PUBLISHED && !AlreadySwapped(t.pointers, t.jobs[j])
    {
      assert Matches(s.jobs[j], root, batch) && j != k;
    }
  }

  lemma OtherStepForgets(s: State, a: Action, root: string, batch: Batch)
    requires CoreOk(s) && Enabled(s, a) && Forgotten(s, root, batch) && !a.DoClaim? && !a.Swap? && !a.Finish?
    ensures Forgotten(Step(s, a), root, batch)
  {
    var t := Step(s, a);
    StepKeepsManifests(s, a);
    NothingElsePublishes(s, a);
    ImportedStays(s, a, root);
    StepsOnlyAbort(s, a);
    forall j | 0 <= j < |t.jobs| && Matches(t.jobs[j], root, batch)
      ensures t.jobs[j].state != PUBLISHED && !AlreadySwapped(t.pointers, t.jobs[j])
    {
      assert Matches(s.jobs[j], root, batch);
    }
    PlaceStays(s, a, root, batch);
  }

  lemma PlaceStays(s: State, a: Action, root: string, batch: Batch)
    requires Enabled(s, a) && !a.DoClaim? && !WorksOn(s, root, batch) && SameManifests(s.jobs, Step(s, a).jobs)
    requires |Step(s, a).jobs| == |s.jobs|
    ensures !WorksOn(Step(s, a), root, batch)
  {
  }

  lemma StepForgets(s: State, a: Action, root: string, batch: Batch)
    requires CoreOk(s) && Enabled(s, a) && Forgotten(s, root, batch) && !ClaimsIt(a, root, batch)
    ensures Forgotten(Step(s, a), root, batch)
  {
    if a.DoClaim? {
      ClaimForgets(s, a.root, a.source, a.mode, a.base, root, batch);
    } else if a.Swap? {
      SwapForgets(s, root, batch);
    } else if a.Finish? {
      FinishForgets(s, root, batch);
    } else {
      OtherStepForgets(s, a, root, batch);
    }
  }

  // An abort is careful if readers have not seen the batch it drops, and nobody imports a dropped batch by hand.
  ghost predicate Careful(o: Outbox, a: OutAction) {
    match a
    case DropBatch(root) => root in o.batches ==> !Reached(o.core, root, o.batches[root])
    case Core(action) =>
      forall root, batch :: (root, batch) in o.dropped && batch !in Log(o, root) ==> !ClaimsIt(action, root, batch)
    case _ => true
  }

  ghost predicate CarefulSteps(o: Outbox, actions: seq<OutAction>, p: Outbox)
    decreases |actions|
  {
    if actions == [] then o == p
    else OutEnabled(o, actions[0]) && Careful(o, actions[0]) && CarefulSteps(OutStep(o, actions[0]), actions[1..], p)
  }

  lemma {:induction false} CarefulIsRun(o: Outbox, actions: seq<OutAction>, p: Outbox)
    requires CarefulSteps(o, actions, p)
    ensures OutSteps(o, actions, p)
    decreases |actions|
  {
    if actions != [] { CarefulIsRun(OutStep(o, actions[0]), actions[1..], p); }
  }

  // Whatever was dropped was saved again, or has nothing to do with readers or the process.
  ghost predicate DroppedOk(o: Outbox) {
    forall root, batch :: (root, batch) in o.dropped ==> batch in Log(o, root) || Forgotten(o.core, root, batch)
  }

  lemma CoreKeepsDropped(o: Outbox, a: Action)
    requires OutInv(o) && DroppedOk(o) && Enabled(o.core, a) && Careful(o, Core(a))
    ensures DroppedOk(OutStep(o, Core(a)))
  {
    var p := OutStep(o, Core(a));
    forall root, batch | (root, batch) in p.dropped
      ensures batch in Log(p, root) || Forgotten(p.core, root, batch)
    {
      assert Log(p, root) == Log(o, root);
      if batch !in Log(o, root) { StepForgets(o.core, a, root, batch); }
    }
  }

  lemma DropKeepsDropped(o: Outbox, root: string)
    requires OutInv(o) && DroppedOk(o) && OutEnabled(o, DropBatch(root)) && Careful(o, DropBatch(root))
    ensures DroppedOk(OutStep(o, DropBatch(root)))
  {
    var p := OutStep(o, DropBatch(root));
    if root in o.batches {
      assert RowsOk(o, root);
      var log := Log(o, root);
      assert log == Log(p, root) + [o.batches[root]];
      forall r, batch | (r, batch) in p.dropped ensures batch in Log(p, r) || Forgotten(p.core, r, batch) {
        if r != root { assert Log(p, r) == Log(o, r); }
      }
    }
  }

  lemma OtherKeepsDropped(o: Outbox, a: OutAction)
    requires OutInv(o) && DroppedOk(o) && OutEnabled(o, a) && (a.Enqueue? || a.SaveBatch? || a.Acknowledge?)
    ensures DroppedOk(OutStep(o, a))
  {
    var p := OutStep(o, a);
    assert p.core == o.core && p.dropped == o.dropped;
    forall root, batch | (root, batch) in p.dropped && batch in Log(o, root) ensures batch in Log(p, root) {
    }
  }

  lemma {:induction false} CarefulRunKeeps(o: Outbox, actions: seq<OutAction>, p: Outbox)
    requires OutInv(o) && DroppedOk(o) && CarefulSteps(o, actions, p)
    ensures OutInv(p) && DroppedOk(p)
    decreases |actions|
  {
    if actions != [] {
      var a := actions[0];
      OutStepKeeps(o, a);
      match a {
        case Core(action) => CoreKeepsDropped(o, action);
        case DropBatch(root) => DropKeepsDropped(o, root);
        case _ => OtherKeepsDropped(o, a);
      }
      CarefulRunKeeps(OutStep(o, a), actions[1..], p);
    }
  }

  lemma StandsInOrder(p: Outbox, root: string) returns (carriers: seq<nat>)
    requires OutInv(p) && DroppedOk(p)
    ensures RowsOf(p.enqueued, root) == Flatten(Acknowledged(p, root)) + RowsOf(p.rows, root)
    ensures Log(p, root) == Acknowledged(p, root) + if root in p.batches then [p.batches[root]] else []
    ensures root in p.batches ==> p.batches[root].rows <= RowsOf(p.rows, root)
    ensures CarriedInOrder(p.core.jobs, root, Acknowledged(p, root), carriers)
    ensures forall batch :: (root, batch) in p.dropped && batch !in Log(p, root) ==> !Reached(p.core, root, batch)
  {
    assert RowsOk(p, root) && LogOk(p, root);
    carriers := OrderedCarriers(p, root);
  }

  /** Exactly once and in order: as long as no abort drops a batch that readers have seen, in every reachable state the
      moves ever enqueued for a root are the rows of its acknowledged batches, in order, followed by the rows still
      waiting; each acknowledged batch was carried by exactly one published job, the jobs following each other in the
      order of the batches; and of the other batches ever saved, one is being delivered and the dropped ones were never
      seen by readers. */
  lemma DeliveredExactlyOnceInOrder(o: Outbox, actions: seq<OutAction>, p: Outbox, root: string) returns (carriers: seq<nat>)
    requires OutStart(o) && CarefulSteps(o, actions, p)
    ensures RowsOf(p.enqueued, root) == Flatten(Acknowledged(p, root)) + RowsOf(p.rows, root)
    ensures Log(p, root) == Acknowledged(p, root) + if root in p.batches then [p.batches[root]] else []
    ensures root in p.batches ==> p.batches[root].rows <= RowsOf(p.rows, root)
    ensures CarriedInOrder(p.core.jobs, root, Acknowledged(p, root), carriers)
    ensures forall batch :: (root, batch) in p.dropped && batch !in Log(p, root) ==> !Reached(p.core, root, batch)
  {
    StartsOk(o);
    CarefulRunKeeps(o, actions, p);
    carriers := StandsInOrder(p, root);
  }

  // A move that readers have seen is waiting to be delivered.
  ghost predicate DeliversAgain(p: Outbox, root: string) {
    exists batch, k :: Seen(p, root, batch) && 0 <= k < |batch.rows| && batch.rows[k] in RowsOf(p.rows, root)
  }

  ghost predicate Seen(p: Outbox, root: string, batch: Batch) {
    (batch in Log(p, root) || (root, batch) in p.dropped) && Reached(p.core, root, batch)
  }

  lemma {:induction false} InFlatten(batches: seq<Batch>, b: nat, k: nat)
    requires b < |batches| && k < |batches[b].rows|
    ensures batches[b].rows[k] in Flatten(batches)
  {
    if b < |batches| - 1 { InFlatten(batches[..|batches| - 1], b, k); }
  }

  lemma Disjoint(a: seq<Row>, b: seq<Row>, next: nat)
    requires Increasing(a + b, next)
    ensures forall row :: row in a ==> row !in b
  {
    forall i, j | 0 <= i < |a| && 0 <= j < |b| ensures a[i] != b[j] {
      assert (a + b)[i].number < (a + b)[|a| + j].number;
    }
  }

  lemma AcknowledgedIsGone(o: Outbox, root: string, batch: Batch, k: nat)
    requires OutInv(o) && batch in Acknowledged(o, root) && k < |batch.rows|
    ensures batch.rows[k] !in RowsOf(o.rows, root)
  {
    assert RowsOk(o, root);
    var done := Acknowledged(o, root);
    var b :| 0 <= b < |done| && done[b] == batch;
    InFlatten(done, b, k);
    RowsOfIncreasing(o.enqueued, root, o.next);
    Disjoint(Flatten(done), RowsOf(o.rows, root), o.next);
  }

  lemma DropLeaves(o: Outbox, root: string)
    requires RowsOk(o, root) && OutEnabled(o, DropBatch(root)) && root in o.batches
    ensures var p := OutStep(o, DropBatch(root));
            Log(p, root) == Acknowledged(o, root) && Log(o, root) == Acknowledged(o, root) + [o.batches[root]] &&
            p.core == o.core && p.rows == o.rows && p.dropped == o.dropped + {(root, o.batches[root])}
  {
  }

  lemma SeenIsTheBatch(o: Outbox, root: string, batch: Batch, k: nat)
    requires OutInv(o) && DroppedOk(o) && OutEnabled(o, DropBatch(root)) && root in o.batches
    requires Seen(OutStep(o, DropBatch(root)), root, batch) && k < |batch.rows| && batch.rows[k] in RowsOf(o.rows, root)
    ensures batch == o.batches[root]
  {
    assert RowsOk(o, root);
    DropLeaves(o, root);
    if batch in Acknowledged(o, root) { AcknowledgedIsGone(o, root, batch, k); }
  }

  lemma DroppedDeliversAgainIff(o: Outbox, root: string)
    requires OutInv(o) && DroppedOk(o) && OutEnabled(o, DropBatch(root)) && root in o.batches
    ensures DeliversAgain(OutStep(o, DropBatch(root)), root) <==> Reached(o.core, root, o.batches[root])
  {
    assert RowsOk(o, root);
    DropLeaves(o, root);
    var p, batch := OutStep(o, DropBatch(root)), o.batches[root];
    if Reached(o.core, root, batch) {
      assert Seen(p, root, batch) && batch.rows[0] in RowsOf(p.rows, root);
    }
    if DeliversAgain(p, root) {
      var b, k :| Seen(p, root, b) && 0 <= k < |b.rows| && b.rows[k] in RowsOf(p.rows, root);
      SeenIsTheBatch(o, root, b, k);
    }
  }

  /** The exact condition: after an abort a move that readers have seen waits to be delivered again, if and only if
      the batch that it dropped was published, or its root's pointer named the job that carried it. */
  lemma DropDeliversAgainIff(s: Outbox, actions: seq<OutAction>, o: Outbox, root: string)
    requires OutStart(s) && CarefulSteps(s, actions, o) && OutEnabled(o, DropBatch(root)) && root in o.batches
    ensures DeliversAgain(OutStep(o, DropBatch(root)), root) <==> Reached(o.core, root, o.batches[root])
  {
    StartsOk(s);
    CarefulRunKeeps(s, actions, o);
    DroppedDeliversAgainIff(o, root);
  }
}
