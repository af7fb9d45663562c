/**
 * The importer itself, in the form of the program: methods that read lines, fill requests and update the
 * journal, the main store and the engine in place. Every method is a sequence of the atomic steps of
 * ArchiveImport, so whatever holds of all step sequences holds of all its executions, including the ones
 * that stop early because an engine call fails.
 */
module ArchiveImporters {
  import opened Wrappers
  import opened ArchiveManifest
  import opened ArchiveImport
  import opened ArchiveImportSafety
  import opened ArchiveRuns
  import opened ArchiveContent
  import opened BulkBatch

  // A row of this manifest under the root's configuration: published, already swapped, or waiting to be built.
  ghost predicate IsClaimed(s: State, t: State, j: int, root: string, source: seq<Line>, mode: Mode, base: Option<nat>) {
    0 <= j < |t.jobs| && SameManifest(t.jobs[j], root, source, mode, base) &&
    root in s.roots && t.jobs[j].config == s.roots[root].config &&
    (t.jobs[j].state == PUBLISHED ==> t == s) &&
    (t.jobs[j].state != PUBLISHED ==>
      t.proc == if AlreadySwapped(t.pointers, t.jobs[j]) then Swapped(j) else Claimed(j))
  }

  // A claim ends at such a row.
  lemma ClaimedRow(s: State, root: string, source: seq<Line>, mode: Mode, base: Option<nat>)
    requires s.proc.Idle? && !ClaimOf(s, root, source, mode, base).Refused?
    requires forall root :: root in s.pointers && s.pointers[root].Archive? ==> s.pointers[root].imported < s.nextGeneration
    ensures var claim := ClaimOf(s, root, source, mode, base);
            var t := AfterClaim(s, root, source, mode, base);
            IsClaimed(s, t, if claim.Existing? then claim.job else |t.jobs| - 1, root, source, mode, base)
  {
    LastMatchIsMatch(s.jobs, root, source, mode, base);
  }

  lemma ClaimSteps(s: State, root: string, source: seq<Line>, mode: Mode, base: Option<nat>)
    requires Inv(s) && s.proc.Idle? && !ClaimOf(s, root, source, mode, base).Refused?
    ensures var t := AfterClaim(s, root, source, mode, base);
            Steps(s, [DoClaim(root, source, mode, base)], t) && Inv(t)
  {
    StepsAppend(s, [], s, DoClaim(root, source, mode, base));
    ClaimKeepsInv(s, DoClaim(root, source, mode, base));
  }

  lemma ReopenAppends(s: State, before: seq<Action>, t: State, root: string)
    requires Steps(s, before, t) && t.proc.Rebuilding? && t.proc.root == root && root in t.pointers
    requires t.pointers[root].Archive? && t.pointers[root].pit == t.proc.lost && t.pointers[root].index in t.searchable
    ensures Enabled(t, Reopen) && Steps(s, before + [Reopen], AfterReopen(t)) && Enabled(AfterReopen(t), Restore)
  {
    StepsAppend(s, before, t, Reopen);
  }

  function EntryAt(job: Job, j: nat, p: nat): Entry
    requires p < |job.source| && job.Doc(p).Some?
  {
    Entry(Version(j + 1, p), job.Doc(p).value)
  }

  predicate IsEntry(entry: Entry, job: Job, j: nat, p: nat) {
    p < |job.source| && job.Doc(p) == Some(entry.doc) && entry.version == Version(j + 1, p)
  }

  // The records of a job from one position to another, as bulk entries.
  ghost predicate IsBatch(batch: seq<Entry>, job: Job, j: nat, from: nat, to: nat) {
    from <= to <= |job.source| && |batch| == to - from &&
    forall k :: 0 <= k < |batch| ==> IsEntry(batch[k], job, j, from + k)
  }

  // The read position is the next line to send, or one further with that line waiting.
  ghost predicate Cursor(job: Job, j: nat, count: nat, line: nat, pending: Option<(Entry, nat)>) {
    match pending
    case None => line == count && count <= |job.source|
    case Some(held) =>
      line == count + 1 && count < |job.source| && job.Doc(count).Some? && InRange(j + 1, count) &&
      held == (EntryAt(job, j, count), Offset(job.source, count + 1))
  }

  // A request under construction holds exactly the usable records read since the last checkpoint.
  ghost predicate Filled(job: Job, j: nat, from: nat, count: nat, offset: nat, records: seq<Entry>) {
    IsBatch(records, job, j, from, count) && offset == Offset(job.source, count) &&
    forall p :: from <= p < count ==> job.Doc(p).Some? && InRange(j + 1, p)
  }

  lemma FilledGrows(job: Job, j: nat, from: nat, count: nat, offset: nat, records: seq<Entry>)
    requires Filled(job, j, from, count, offset, records)
    requires count < |job.source| && job.Doc(count).Some? && InRange(j + 1, count)
    ensures Filled(job, j, from, count + 1, Offset(job.source, count + 1), records + [EntryAt(job, j, count)])
  {
  }

  // The document of a line has its fields, under the configuration of the root.
  predicate Reads(line: Line, config: string, doc: Document) {
    match line
    case Upsert(id, path, size, modified, _) => doc == Stored(id, path, size, modified, config)
    case Delete(id, _) => doc == Tombstone(id)
    case Malformed(_) => false
  }

  // Reads and checks the line at the cursor; no pending record means the end of the file.
  method ReadNext(job: Job, j: nat, line: nat, count: nat) returns (ok: bool, next: nat, pending: Option<(Entry, nat)>)
    requires line == count <= |job.source|
    ensures ok <==> line == |job.source| || (job.Doc(line).Some? && InRange(j + 1, line))
    ensures ok ==> Cursor(job, j, line, next, pending) && (pending.None? <==> line == |job.source|)
    ensures ok <==> line == |job.source| || (UsableLine(job.source[line], job.mode) && InRange(j + 1, line))
    ensures ok && pending.Some? ==> line < |job.source| && Reads(job.source[line], job.config, pending.value.0.doc)
  {
    if line == |job.source| {
      return true, line, None;
    }
    var doc := job.Doc(line);
    LineIsUsable(job.source[line], job.mode, job.config);
    if doc.None? || !InRange(j + 1, count) {
      return false, line, None;
    }
    return true, line + 1, Some((Entry(Version(j + 1, count), doc.value), Offset(job.source, line + 1)));
  }

  lemma BatchIsOnTheWire(batch: seq<Entry>, job: Job, j: nat, from: nat, to: nat)
    requires IsBatch(batch, job, j, from, to)
    ensures forall k :: 0 <= k < |batch| ==> Item(job.index, batch[k]) in Items(job, j, from, to)
  {
    forall k | 0 <= k < |batch| ensures Item(job.index, batch[k]) in Items(job, j, from, to) {
      var entry := batch[k];
      assert entry == EntryAt(job, j, from + k);
      var p := from + k;
      assert from <= p < to && job.Doc(p).Some?;
    }
  }

  lemma BatchIsItems(batch: seq<Entry>, job: Job, j: nat, from: nat, to: nat)
    requires IsBatch(batch, job, j, from, to)
    ensures (set k | 0 <= k < |batch| :: Item(job.index, batch[k])) == Items(job, j, from, to)
  {
    var items := Items(job, j, from, to);
    BatchIsOnTheWire(batch, job, j, from, to);
    forall item | item in items ensures exists k :: 0 <= k < |batch| && item == Item(job.index, batch[k]) {
      var p :| from <= p < to && job.Doc(p).Some? &&
               item == Item(job.index, Entry(Version(j + 1, p), job.Doc(p).value));
      assert batch[p - from] == EntryAt(job, j, from + (p - from));
    }
  }

  lemma CursorStays(job: Job, later: Job, j: nat, count: nat, line: nat, pending: Option<(Entry, nat)>)
    requires Cursor(job, j, count, line, pending) && count <= |job.source| && later == Advanced(job, count)
    ensures Cursor(later, j, count, line, pending)
  {
    if pending.Some? { assert later.Doc(count) == job.Doc(count); }
  }

  lemma SameBatch(batch: seq<Entry>, job: Job, later: Job, j: nat, from: nat, to: nat)
    requires IsBatch(batch, job, j, from, to)
    requires later.source == job.source && later.mode == job.mode && later.config == job.config
    ensures IsBatch(batch, later, j, from, to)
  {
    forall k | 0 <= k < |batch| ensures IsEntry(batch[k], later, j, from + k) {
      assert IsEntry(batch[k], job, j, from + k) && job.Doc(from + k) == later.Doc(from + k);
    }
  }

  lemma BatchesJoin(a: seq<Entry>, b: seq<Entry>, job: Job, j: nat, from: nat, mid: nat, to: nat)
    requires IsBatch(a, job, j, from, mid) && IsBatch(b, job, j, mid, to)
    ensures IsBatch(a + b, job, j, from, to)
  {
    forall k | 0 <= k < |a + b| ensures IsEntry((a + b)[k], job, j, from + k) {
      if k >= |a| { assert IsEntry(b[k - |a|], job, j, mid + (k - |a|)); }
    }
  }

  // The answered requests of a run so far, one after the other: the records since the checkpoint it resumed from.
  ghost predicate Streamed(before: Job, now: Job, j: nat, sent: seq<Entry>) {
    now.records <= |before.source| && now == Advanced(before, now.records) &&
    IsBatch(sent, before, j, before.records, now.records)
  }

  lemma StreamedGrows(before: Job, job: Job, now: Job, j: nat, sent: seq<Entry>, batch: seq<Entry>)
    requires Streamed(before, job, j, sent) && IsBatch(batch, job, j, job.records, now.records)
    requires now.records <= |job.source| && now == Advanced(job, now.records)
    ensures Streamed(before, now, j, sent + batch)
  {
    SameBatch(batch, job, before, j, job.records, now.records);
    BatchesJoin(sent, batch, before, j, before.records, job.records, now.records);
  }

  datatype Progress = More | End | Stopped

  // The engine can be sent this record.
  predicate Usable(job: Job, j: nat, p: nat, cost: Entry -> nat, hard: nat)
    requires p < |job.source|
  {
    job.Doc(p).Some? && InRange(j + 1, p) && cost(EntryAt(job, j, p)) <= hard
  }

  datatype Take = Taken | Waits | Failed

  // Offers the waiting record, or else the next line, to the request under construction.
  method TakeOne(builder: Builder, job: Job, j: nat, ghost from: nat, count: nat, ghost offset: nat, line: nat,
                 waiting: Option<(Entry, nat)>)
    returns (taken: Take, end: nat, next: nat, pending: Option<(Entry, nat)>)
    requires builder.Valid() && count <= |job.source| && |builder.records| < MAX_RECORDS
    requires Filled(job, j, from, count, offset, builder.records) && Cursor(job, j, count, line, waiting)
    modifies builder
    ensures builder.Valid()
    ensures taken.Taken? ==> count < |job.source| && |builder.records| == |old(builder.records)| + 1 &&
                             Filled(job, j, from, count + 1, end, builder.records) &&
                             Cursor(job, j, count + 1, next, pending)
    ensures taken.Waits? ==> builder.records == old(builder.records) && Cursor(job, j, count, next, pending) &&
                               (builder.records == [] ==> count == |job.source|)
    ensures taken.Waits? && count < |job.source| ==>
              pending.Some? && Verdict(builder.cost, builder.target, builder.hard, old(builder.records),
                                       pending.value.0).Overflow?
    ensures taken.Failed? ==> count < |job.source| && !Usable(job, j, count, builder.cost, builder.hard)
  {
    var ok;
    end, next, pending := 0, line, waiting;
    if pending.None? {
      ok, next, pending := ReadNext(job, j, line, count);
      if !ok {
        return Failed, end, next, pending;
      }
      if pending.None? {
        return Waits, end, next, pending;
      }
    }
    FilledGrows(job, j, from, count, offset, builder.records);
    var added := builder.Add(pending.value.0);
    match added
    case Accepted => return Taken, pending.value.1, next, None;
    case Overflow => return Waits, end, next, pending;
    case Rejected => return Failed, end, next, pending;
  }

  // What the engine does with one bulk request: which of its entries it applies, and whether it answers.
  datatype Response = Response(applied: seq<nat>, answers: bool)

  datatype Outcome = Refusal | Interrupted(job: nat) | Success(job: nat)

  lemma SwapSteps(s: State)
    requires Enabled(s, Retire)
    ensures Steps(s, [Retire] + [Swap], AfterSwap(AfterRetire(s)))
  {
    StepsAppend(s, [], s, Retire);
    StepsAppend(s, [Retire], AfterRetire(s), Swap);
  }

  lemma CloseSteps(s: State, before: seq<Action>, t: State, pit: nat)
    requires Steps(s, before, t) && Enabled(t, ClosePit(pit))
    ensures Steps(s, before + [ClosePit(pit)] + [ForgetPit], AfterForget(AfterClose(t, pit)))
  {
    StepsAppend(s, before, t, ClosePit(pit));
    StepsAppend(s, before + [ClosePit(pit)], AfterClose(t, pit), ForgetPit);
  }

  lemma CleanupSteps(s: State, closing: seq<Action>, t: State)
    requires s.proc.Idle? && Steps(s.(proc := Cleaning(CurrentPits(s.pointers))), closing, t) && t.proc.Cleaning?
    ensures Steps(s, [BeginCleanup] + closing + [EndCleanup], t.(proc := Idle))
  {
    StepsAppend(s, [], s, BeginCleanup);
    StepsConcat(s, [BeginCleanup], s.(proc := Cleaning(CurrentPits(s.pointers))), closing, t);
    StepsAppend(s, [BeginCleanup] + closing, t, EndCleanup);
  }

  function Due(retired: map<nat, nat>, clock: nat): set<nat> {
    set pit | pit in retired && retired[pit] <= clock
  }

  class ArchiveImporter {
    var roots: map<string, Root>
    var pointers: map<string, Pointer>
    var jobs: seq<Job>
    var retired: map<nat, nat>
    var live: map<nat, Contents>
    var searchable: map<nat, Contents>
    var meta: map<nat, string>
    var pits: map<nat, Contents>
    var wire: set<Item>
    ghost var closed: set<nat>
    var nextIndex: nat
    var nextGeneration: nat
    var nextPit: nat
    var clock: nat
    ghost var proc: Proc
    const batchSize: nat
    const target: nat
    const cost: Entry -> nat

    constructor (batchSize: nat, target: nat, cost: Entry -> nat)
      requires 1 <= batchSize <= MAX_RECORDS && 1 <= target <= MAX_REQUEST
      ensures Start(Now()) && Ready()
    {
      this.batchSize, this.target, this.cost := batchSize, target, cost;
      roots, pointers, jobs, retired := map[], map[], [], map[];
      live, searchable, meta, pits, wire, closed := map[], map[], map[], map[], {}, {};
      nextIndex, nextGeneration, nextPit, clock, proc := 0, 0, 0, 0, Idle;
    }

    ghost function Now(): State
      reads this
    {
      State(roots, pointers, jobs, retired, live, searchable, meta, pits, wire, closed,
            nextIndex, nextGeneration, nextPit, clock, proc)
    }

    ghost predicate Ready()
      reads this
    {
      1 <= batchSize <= MAX_RECORDS && 1 <= target <= MAX_REQUEST && proc.Idle?
    }

    // Losing the process loses its place, and nothing that was committed.
    ghost method Stop(s: State, actions: seq<Action>) returns (all: seq<Action>)
      requires Steps(s, actions, Now())
      modifies this`proc
      ensures proc.Idle? && Steps(s, all, Now())
    {
      StepsAppend(s, actions, Now(), Crash);
      proc := Idle;
      all := actions + [Crash];
    }

    // Finds the row of a manifest, or the index that a new row would be written to.
    method Decide(root: string, source: seq<Line>, mode: Mode, base: Option<nat>) returns (claim: ArchiveImport.Claim)
      ensures claim == ClaimOf(Now(), root, source, mode, base)
    {
      if root !in roots || !roots[root].searchable || (mode == Delta && base.None?) {
        return Refused;
      }
      var existing := LastMatch(jobs, root, source, mode, base);
      LastMatchIsMatch(jobs, root, source, mode, base);
      if existing.Some? {
        return if jobs[existing.value].config == roots[root].config then Existing(existing.value) else Refused;
      }
      if Unfinished(jobs, root) {
        return Refused;
      }
      if mode == Full {
        return Fresh(nextIndex);
      }
      if root !in pointers || !pointers[root].Archive? || Some(pointers[root].generation) != base {
        return Refused;
      }
      var index := pointers[root].index;
      return if HasAborted(jobs, index) then Refused else Fresh(index);
    }

    method Claim(root: string, source: seq<Line>, mode: Mode, base: Option<nat>) returns (claim: ArchiveImport.Claim)
      requires proc.Idle?
      modifies this`jobs, this`nextIndex, this`nextGeneration, this`proc
      ensures claim == ClaimOf(old(Now()), root, source, mode, base)
      ensures Now() == AfterClaim(old(Now()), root, source, mode, base)
    {
      LastMatchIsMatch(jobs, root, source, mode, base);
      claim := Decide(root, source, mode, base);
      match claim
      case Refused =>
      case Existing(j) =>
        if jobs[j].state != PUBLISHED {
          proc := if AlreadySwapped(pointers, jobs[j]) then Swapped(j) else Claimed(j);
        }
      case Fresh(index) => AddJob(root, source, mode, base, index);
    }

    method AddJob(root: string, source: seq<Line>, mode: Mode, base: Option<nat>, index: nat)
      requires root in roots && ClaimOf(Now(), root, source, mode, base) == Fresh(index)
      modifies this`jobs, this`nextIndex, this`nextGeneration, this`proc
      ensures Now() == AfterClaim(old(Now()), root, source, mode, base)
    {
      jobs := jobs + [Job(root, source, mode, base, roots[root].config, index, nextGeneration, 0, 0, BUILDING)];
      nextIndex := if mode == Full then nextIndex + 1 else nextIndex;
      nextGeneration := nextGeneration + 1;
      proc := Claimed(|jobs| - 1);
    }

    // Reads lines into one request until it is full, the file ends, or a record must wait for the next one.
    method Fill(job: Job, j: nat, from: nat, line: nat, waiting: Option<(Entry, nat)>)
      returns (ok: bool, batch: seq<Entry>, count: nat, offset: nat, next: nat, pending: Option<(Entry, nat)>)
      requires 1 <= batchSize <= MAX_RECORDS && 1 <= target <= MAX_REQUEST
      requires from <= |job.source| && Cursor(job, j, from, line, waiting)
      ensures ok ==> Filled(job, j, from, count, offset, batch) && |batch| <= MAX_RECORDS
      ensures ok && batch == [] ==> count == |job.source|
      ensures ok ==> Cursor(job, j, count, next, pending)
      ensures ok && waiting.Some? ==> batch != [] && batch[0] == waiting.value.0
      ensures !ok ==> exists p :: from <= p < |job.source| && !Usable(job, j, p, cost, MAX_REQUEST)
    {
      var builder := new Builder(cost, target, MAX_REQUEST);
      assert builder.hard == MAX_REQUEST && builder.cost == cost;
      var taken := Taken;
      ok, batch, count, offset, next, pending := true, [], from, Offset(job.source, from), line, waiting;
      var room := batchSize;
      while room > 0 && taken.Taken?
        invariant builder.Valid() && fresh(builder) && !taken.Failed?
        invariant taken.Taken? ==> |builder.records| == batchSize - room
        invariant taken.Waits? && builder.records == [] ==> count == |job.source|
        invariant Filled(job, j, from, count, offset, builder.records)
        invariant Cursor(job, j, count, next, pending)
        decreases room
      {
        var end;
        taken, end, next, pending := TakeOne(builder, job, j, from, count, offset, next, pending);
        if taken.Failed? {
          return false, [], count, offset, next, pending;
        }
        if taken.Taken? {
          count, offset := count + 1, end;
        }
        room := room - 1;
      }
      if |builder.records| > 0 {
        batch := builder.Finish();
      }
    }

    // One bulk item reaches the engine.
    method Write(index: nat, entry: Entry)
      requires Item(index, entry) in wire
      modifies this`live
      ensures Now() == AfterDeliver(old(Now()), Item(index, entry))
    {
      live := live[index := Put(Live(live, index), entry)];
    }

    // The engine applies some entries of a request it has received, in any order and any number of times.
    method WriteSome(index: nat, batch: seq<Entry>, applied: seq<nat>) returns (ghost all: seq<Action>)
      requires forall k :: 0 <= k < |batch| ==> Item(index, batch[k]) in wire
      modifies this`live
      ensures Steps(old(Now()), all, Now())
    {
      all := [];
      for i := 0 to |applied|
        invariant Steps(old(Now()), all, Now())
      {
        if applied[i] < |batch| {
          var entry := batch[applied[i]];
          StepsAppend(old(Now()), all, Now(), Deliver(Item(index, entry)));
          Write(index, entry);
          all := all + [Deliver(Item(index, entry))];
        }
      }
    }

    // The engine applies the whole request, as it must before it answers.
    method WriteAll(job: Job, j: nat, from: nat, to: nat, batch: seq<Entry>) returns (ghost all: seq<Action>)
      requires IsBatch(batch, job, j, from, to)
      requires forall k :: 0 <= k < |batch| ==> Item(job.index, batch[k]) in wire
      modifies this`live
      ensures Steps(old(Now()), all, Now())
      ensures Settled(Live(live, job.index), job, j, from, to)
    {
      all := [];
      for k := 0 to |batch|
        invariant Steps(old(Now()), all, Now())
        invariant Settled(Live(live, job.index), job, j, from, from + k)
      {
        var entry := batch[k];
        assert entry == EntryAt(job, j, from + k);
        StepsAppend(old(Now()), all, Now(), Deliver(Item(job.index, entry)));
        Write(job.index, entry);
        all := all + [Deliver(Item(job.index, entry))];
      }
    }

    method Post(job: Job, j: nat, from: nat, to: nat, batch: seq<Entry>)
      requires proc == Building(j, from) && j < |jobs| && jobs[j] == job
      requires IsBatch(batch, job, j, from, to) && Sendable(job, j, from, to)
      modifies this`wire, this`proc
      ensures Enabled(old(Now()), Send(to)) && Now() == AfterSend(old(Now()), to)
      ensures forall k :: 0 <= k < |batch| ==> Item(job.index, batch[k]) in wire
    {
      BatchIsOnTheWire(batch, job, j, from, to);
      wire := wire + (set k | 0 <= k < |batch| :: Item(job.index, batch[k]));
      BatchIsItems(batch, job, j, from, to);
      proc := Awaiting(j, from, to);
    }

    // One bulk request: put on the wire, applied in part, and applied in full if the engine answers.
    method Bulk(job: Job, j: nat, from: nat, to: nat, batch: seq<Entry>, response: Response)
      returns (ghost all: seq<Action>)
      requires proc == Building(j, from) && j < |jobs| && jobs[j] == job
      requires IsBatch(batch, job, j, from, to) && Sendable(job, j, from, to)
      modifies this`wire, this`live, this`proc
      ensures Steps(old(Now()), all, Now()) && proc == Awaiting(j, from, to)
      ensures response.answers ==> Settled(Live(live, job.index), job, j, from, to)
    {
      ghost var s := Now();
      StepsAppend(s, [], s, Send(to));
      Post(job, j, from, to, batch);
      all := [Send(to)];
      ghost var sent := Now();
      ghost var some := WriteSome(job.index, batch, response.applied);
      StepsConcat(s, all, sent, some, Now());
      all := all + some;
      if response.answers {
        ghost var partial := Now();
        ghost var rest := WriteAll(job, j, from, to, batch);
        StepsConcat(s, all, partial, rest, Now());
        all := all + rest;
      }
    }

    method SaveCheckpoint(j: nat, offset: nat, count: nat)
      requires proc.Awaiting? && proc.job == j && proc.next == count && Enabled(Now(), Checkpoint)
      requires offset == Offset(jobs[j].source, count)
      modifies this`jobs, this`proc
      ensures Now() == AfterCheckpoint(old(Now()))
    {
      jobs := jobs[j := jobs[j].(records := count, offset := offset)];
      proc := Building(j, count);
    }

    method FinishJob(j: nat)
      requires proc == Swapped(j) && j < |jobs|
      modifies this`jobs, this`proc
      ensures Now() == AfterFinish(old(Now()))
    {
      jobs := jobs[j := jobs[j].(state := PUBLISHED)];
      proc := Idle;
    }

    method RefreshIndex(j: nat)
      requires j < |jobs| && proc == Building(j, |jobs[j].source|)
      modifies this`searchable, this`proc
      ensures Now() == AfterRefresh(old(Now()))
    {
      searchable := searchable[jobs[j].index := Live(live, jobs[j].index)];
      proc := Refreshed(j);
    }

    method OpenPointInTime(j: nat) returns (pit: nat)
      requires proc == Refreshed(j) && Enabled(Now(), OpenPit)
      modifies this`pits, this`nextPit, this`proc
      ensures Now() == AfterOpen(old(Now())) && proc == Opened(j, pit)
    {
      pit := nextPit;
      pits, nextPit := pits[pit := searchable[jobs[j].index]], nextPit + 1;
      proc := Opened(j, pit);
    }

    method OpenSnapshot(j: nat) returns (pit: nat, ghost all: seq<Action>)
      requires j < |jobs| && proc == Building(j, |jobs[j].source|)
      modifies this`searchable, this`pits, this`nextPit, this`proc
      ensures Steps(old(Now()), all, Now()) && proc == Opened(j, pit) && pit in pits
    {
      StepsAppend(Now(), [], Now(), Refresh);
      RefreshIndex(j);
      StepsAppend(old(Now()), [Refresh], Now(), OpenPit);
      pit := OpenPointInTime(j);
      all := [Refresh] + [OpenPit];
    }

    // The root's pointer names this job and this snapshot of it.
    predicate Points(job: Job, pit: nat)
      reads this`pointers
    {
      job.root in pointers && pointers[job.root].Archive? && pointers[job.root].imported == job.generation &&
      pointers[job.root].pit == pit
    }

    // And the engine has it.
    ghost predicate Shows(job: Job)
      reads this`pointers, this`pits
    {
      job.root in pointers && pointers[job.root].Archive? && Points(job, pointers[job.root].pit) &&
      pointers[job.root].pit in pits
    }

    // One store transaction: check the configuration and the base, retire the old snapshot, swap the pointer.
    method SwapPointer(j: nat, pit: nat) returns (ok: bool, ghost all: seq<Action>)
      requires j < |jobs| && proc == Opened(j, pit)
      modifies this`retired, this`pointers, this`proc
      ensures ok <==> Enabled(old(Now()), Retire)
      ensures ok ==> proc == Swapped(j) && all == [Retire] + [Swap] && Points(jobs[j], pit)
      ensures !ok ==> Now() == old(Now()) && all == []
      ensures Steps(old(Now()), all, Now())
    {
      ghost var s := Now();
      var job := jobs[j];
      if job.root !in roots || roots[job.root].config != job.config || !BaseUnchanged(pointers, job) {
        return false, [];
      }
      SwapSteps(s);
      RetireOld(job, j, pit);
      PointRoot(job, j, pit);
      return true, [Retire] + [Swap];
    }

    method PointRoot(job: Job, j: nat, pit: nat)
      requires j < |jobs| && proc == Retired(j, pit) && jobs[j] == job
      modifies this`pointers, this`proc
      ensures Now() == AfterSwap(old(Now())) && Points(job, pit)
    {
      pointers := pointers[job.root := Archive(job.index, pit, job.generation, job.generation, job.config)];
      proc := Swapped(j);
    }

    method RetireOld(job: Job, j: nat, pit: nat)
      requires j < |jobs| && proc == Opened(j, pit) && jobs[j] == job && Enabled(Now(), Retire)
      modifies this`retired, this`proc
      ensures Now() == AfterRetire(old(Now()))
    {
      if job.root in pointers && pointers[job.root].Archive? {
        retired := retired[pointers[job.root].pit := clock + 120];
      }
      proc := Retired(j, pit);
    }

    // Closes up to one hundred snapshots whose grace period is over, never one a pointer still names.
    method Cleanup() returns (ghost all: seq<Action>)
      requires proc.Idle?
      modifies this`retired, this`pits, this`closed, this`proc
      ensures Steps(old(Now()), all, Now()) && proc.Idle?
      ensures forall pit :: pit in old(pits) && pit in CurrentPits(pointers) ==> pit in pits && pits[pit] == old(pits)[pit]
      ensures |Due(old(retired), clock)| <= 100 ==> Due(retired, clock) <= CurrentPits(pointers)
    {
      ghost var s := Now();
      var active := CurrentPits(pointers);
      proc := Cleaning(active);
      all := CloseExpired(active);
      CleanupSteps(s, all, Now());
      proc := Idle;
      all := [BeginCleanup] + all + [EndCleanup];
    }

    // After a cleanup of at most one hundred expired snapshots, only ones that are current again are left.
    method CloseExpired(active: set<nat>) returns (ghost all: seq<Action>)
      requires proc == Cleaning(active)
      modifies this`retired, this`pits, this`closed, this`proc
      ensures Steps(old(Now()), all, Now()) && proc == Cleaning(active)
      ensures forall pit :: pit in old(pits) && pit in active ==> pit in pits && pits[pit] == old(pits)[pit]
      ensures |Due(old(retired), clock)| <= 100 ==> Due(retired, clock) <= active
    {
      all := [];
      var due := Due(retired, clock);
      var left := 100;
      while due != {} && left > 0
        invariant Steps(old(Now()), all, Now()) && proc == Cleaning(active)
        invariant due <= Due(retired, clock)
        invariant Due(retired, clock) <= due + active
        invariant |Due(old(retired), clock)| <= 100 ==> |due| <= left
        invariant forall pit :: pit in old(pits) && pit in active ==> pit in pits && pits[pit] == old(pits)[pit]
        decreases left
      {
        var pit: nat :| pit in due;
        due := due - {pit};
        left := left - 1;
        all := CloseUnlessCurrent(old(Now()), all, active, pit);
      }
    }

    method CloseUnlessCurrent(ghost s: State, ghost before: seq<Action>, active: set<nat>, pit: nat)
      returns (ghost all: seq<Action>)
      requires Steps(s, before, Now()) && proc == Cleaning(active) && pit in Due(retired, clock)
      modifies this`retired, this`pits, this`closed, this`proc
      ensures Steps(s, all, Now()) && proc == Cleaning(active)
      ensures Due(retired, clock) == Due(old(retired), clock) - (if pit in active then {} else {pit})
      ensures pits == old(pits) - (if pit in active then {} else {pit})
    {
      all := before;
      if pit !in active {
        CloseSteps(s, before, Now(), pit);
        CloseSnapshot(pit);
        ForgetSnapshot(pit);
        all := before + [ClosePit(pit)] + [ForgetPit];
      }
    }

    method CloseSnapshot(pit: nat)
      requires Enabled(Now(), ClosePit(pit))
      modifies this`pits, this`closed, this`proc
      ensures Now() == AfterClose(old(Now()), pit)
    {
      pits := pits - {pit};
      closed := closed + {pit};
      proc := Closed(proc.active, pit);
    }

    method ForgetSnapshot(pit: nat)
      requires proc.Closed? && proc.pit == pit
      modifies this`retired, this`proc
      ensures Now() == AfterForget(old(Now()))
    {
      retired := retired - {pit};
      proc := Cleaning(proc.active);
    }

    // One round: a request goes out; if the engine answers, the checkpoint moves to its last record.
    method Round(j: nat, from: nat, to: nat, offset: nat, batch: seq<Entry>, response: Response)
      returns (ghost all: seq<Action>)
      requires j < |jobs| && proc == Building(j, from)
      requires Filled(jobs[j], j, from, to, offset, batch) && from < to
      modifies this`jobs, this`wire, this`live, this`proc
      ensures Steps(old(Now()), all, Now()) && |jobs| == |old(jobs)|
      ensures if response.answers then proc == Building(j, to) && jobs == old(jobs)[j := Advanced(old(jobs)[j], to)]
              else jobs == old(jobs)
    {
      ghost var s := Now();
      all := Bulk(jobs[j], j, from, to, batch, response);
      if response.answers {
        StepsAppend(s, all, Now(), Checkpoint);
        SaveCheckpoint(j, offset, to);
        all := all + [Checkpoint];
      }
    }

    // The engine takes every record that is left.
    ghost predicate Streamable(job: Job, j: nat)
      reads this
    {
      forall p :: job.records <= p < |job.source| ==> Usable(job, j, p, cost, MAX_REQUEST)
    }

    // The engine answers at least this many requests.
    ghost predicate Answering(responses: seq<Response>, n: nat) {
      |responses| >= n && forall k :: 0 <= k < n ==> responses[k].answers
    }

    // One request of a stream. It stops before a record that cannot be sent, and when the engine does not answer.
    method StreamSome(j: nat, count: nat, line: nat, pending: Option<(Entry, nat)>, response: Option<Response>)
      returns (progress: Progress, next: nat, nextLine: nat, nextPending: Option<(Entry, nat)>, ghost all: seq<Action>,
               ghost batch: seq<Entry>)
      requires 1 <= batchSize <= MAX_RECORDS && 1 <= target <= MAX_REQUEST
      requires j < |jobs| && proc == Building(j, count) && jobs[j].records == count <= |jobs[j].source|
      requires Cursor(jobs[j], j, count, line, pending)
      modifies this`jobs, this`wire, this`live, this`proc
      ensures Steps(old(Now()), all, Now()) && j < |jobs|
      ensures progress.More? ==>
                count < next <= |old(jobs[j]).source| && proc == Building(j, next) && jobs[j] == Advanced(old(jobs[j]), next) &&
                Cursor(jobs[j], j, next, nextLine, nextPending) && IsBatch(batch, old(jobs[j]), j, count, next)
      ensures progress.End? ==> count == |jobs[j].source| && Now() == old(Now())
      ensures progress.Stopped? ==>
                jobs == old(jobs) && count < |jobs[j].source| &&
                !(Streamable(old(jobs[j]), j) && response.Some? && response.value.answers)
    {
      var job := jobs[j];
      all := [];
      var filled, records, offset;
      filled, records, next, offset, nextLine, nextPending := Fill(job, j, count, line, pending);
      batch := records;
      if !filled {
        progress := Stopped;
      } else if records == [] {
        progress := End;
      } else if response.None? {
        progress := Stopped;
      } else {
        all := Round(j, count, next, offset, records, response.value);
        progress := if response.value.answers then More else Stopped;
        if response.value.answers { CursorStays(job, jobs[j], j, next, nextLine, nextPending); }
      }
    }

    lemma StreamableStays(before: Job, now: Job, j: nat)
      requires before.records <= now.records <= |before.source| && now == Advanced(before, now.records)
      ensures Streamable(before, j) ==> Streamable(now, j)
    {
      if Streamable(before, j) {
        forall p | now.records <= p < |now.source| ensures Usable(now, j, p, cost, MAX_REQUEST) {
          assert Usable(before, j, p, cost, MAX_REQUEST) && now.Doc(p) == before.Doc(p);
        }
      }
    }

    // The next request, as the continuation of a stream.
    method StreamNext(ghost s: State, ghost before: seq<Action>, ghost first: Job, ghost sent: seq<Entry>, j: nat, count: nat,
                      line: nat, pending: Option<(Entry, nat)>, response: Option<Response>)
      returns (progress: Progress, next: nat, nextLine: nat, nextPending: Option<(Entry, nat)>, ghost all: seq<Action>,
               ghost longer: seq<Entry>)
      requires 1 <= batchSize <= MAX_RECORDS && 1 <= target <= MAX_REQUEST
      requires Steps(s, before, Now()) && j < |jobs| && Streamed(first, jobs[j], j, sent) && jobs[j].records == count
      requires proc == Building(j, count) && Cursor(jobs[j], j, count, line, pending)
      modifies this`jobs, this`wire, this`live, this`proc
      ensures Steps(s, all, Now()) && j < |jobs| && Streamed(first, jobs[j], j, longer)
      ensures progress.More? ==>
                count < next == jobs[j].records && proc == Building(j, next) && Cursor(jobs[j], j, next, nextLine, nextPending)
      ensures progress.End? ==> proc == Building(j, |jobs[j].source|) && Complete(jobs[j])
      ensures progress.Stopped? ==>
                count < |first.source| && !(Streamable(first, j) && response.Some? && response.value.answers)
    {
      ghost var mid, was := Now(), jobs[j];
      ghost var more, batch;
      progress, next, nextLine, nextPending, more, batch := StreamSome(j, count, line, pending, response);
      StepsConcat(s, before, mid, more, Now());
      all, longer := before + more, sent;
      if progress.More? {
        StreamedGrows(first, was, jobs[j], j, sent, batch);
        longer := sent + batch;
      } else if progress.Stopped? {
        StreamableStays(first, was, j);
      }
    }

    // Seeks to the checkpoint: the next line is the one after the last answered record.
    method Resume(j: nat) returns (line: nat)
      requires Inv(Now()) && j < |jobs|
      ensures Cursor(jobs[j], j, jobs[j].records, line, None) && Streamed(jobs[j], jobs[j], j, [])
    {
      assert JobOk(jobs[j], j);
      SeekResumes(jobs[j].source, jobs[j].records);
      line := Seek(jobs[j].source, jobs[j].offset);
    }

    // Streams the rest of a claimed manifest, each engine answer taken from `responses`. A malformed record, or
    // a request that is not answered, ends the run.
    method Stream(j: nat, responses: seq<Response>) returns (ok: bool, ghost all: seq<Action>, ghost sent: seq<Entry>)
      requires Inv(Now()) && 1 <= batchSize <= MAX_RECORDS && 1 <= target <= MAX_REQUEST
      requires j < |jobs| && proc.Building? && proc.job == j
      modifies this`jobs, this`wire, this`live, this`proc
      ensures Steps(old(Now()), all, Now())
      ensures j < |jobs| && Streamed(old(jobs[j]), jobs[j], j, sent)
      ensures ok ==> proc == Building(j, |jobs[j].source|) && Complete(jobs[j])
      ensures Streamable(old(jobs[j]), j) && Answering(responses, |old(jobs[j]).source|) ==> ok
    {
      ghost var first, start := jobs[j], Now();
      var count: nat, pending, used := jobs[j].records, None, 0;
      var line := Resume(j);
      all, sent := [], [];
      var progress := More;
      while progress.More?
        invariant Steps(start, all, Now()) && j < |jobs| && Streamed(first, jobs[j], j, sent)
        invariant progress.More? ==>
                    jobs[j].records == count && proc == Building(j, count) && Cursor(jobs[j], j, count, line, pending) &&
                    used <= count <= |first.source|
        invariant progress.End? ==> proc == Building(j, |jobs[j].source|) && Complete(jobs[j])
        invariant progress.Stopped? ==> !(Streamable(first, j) && Answering(responses, |first.source|))
        decreases progress.More?, |first.source| - count
      {
        var response := if used < |responses| then Some(responses[used]) else None;
        progress, count, line, pending, all, sent := StreamNext(start, all, first, sent, j, count, line, pending, response);
        used := used + 1;
      }
      ok := progress.End?;
    }

    // Create the index on first use; refuse one that was made for another configuration.
    method EnsureIndex(j: nat) returns (ok: bool)
      requires j < |jobs| && proc == Claimed(j)
      modifies this`meta, this`proc
      ensures ok <==> Enabled(old(Now()), Ensure)
      ensures Now() == if ok then AfterEnsure(old(Now())) else old(Now())
    {
      var job := jobs[j];
      if job.index in meta && meta[job.index] != job.config {
        return false;
      }
      meta := meta[job.index := job.config];
      proc := Building(j, Seek(job.source, job.offset));
      return true;
    }

    // The root is still configured as it was, and a delta's base is still published.
    predicate Swappable(roots: map<string, Root>, pointers: map<string, Pointer>, job: Job) {
      job.root in roots && roots[job.root].config == job.config && BaseUnchanged(pointers, job)
    }

    // From a finished stream to a swapped pointer.
    method Publish(j: nat) returns (ok: bool, ghost all: seq<Action>)
      requires j < |jobs| && proc == Building(j, |jobs[j].source|)
      modifies this`searchable, this`pits, this`nextPit, this`retired, this`pointers, this`proc
      ensures Steps(old(Now()), all, Now())
      ensures ok <==> Swappable(roots, old(pointers), jobs[j])
      ensures ok ==> proc == Swapped(j)
      ensures ok ==> Shows(jobs[j])
    {
      var pit;
      pit, all := OpenSnapshot(j);
      ghost var mid := Now();
      ghost var more;
      ok, more := SwapPointer(j, pit);
      StepsConcat(old(Now()), all, mid, more, Now());
      all := all + more;
    }

    // Nothing stands in the way of this job: its index, its records, the engine, its root and its base.
    ghost predicate Favoured(s: State, j: nat, responses: seq<Response>)
      reads this
    {
      j < |s.jobs| &&
      var job := s.jobs[j];
      (job.index in s.meta ==> s.meta[job.index] == job.config) && Streamable(job, j) &&
      Answering(responses, |job.source|) && Swappable(s.roots, s.pointers, job)
    }

    method PublishAfter(ghost s: State, ghost before: seq<Action>, j: nat) returns (ok: bool, ghost all: seq<Action>)
      requires Steps(s, before, Now()) && j < |jobs| && proc == Building(j, |jobs[j].source|)
      modifies this`searchable, this`pits, this`nextPit, this`retired, this`pointers, this`proc
      ensures Steps(s, all, Now())
      ensures ok <==> Swappable(roots, old(pointers), jobs[j])
      ensures ok ==> proc == Swapped(j)
      ensures ok ==> Shows(jobs[j])
    {
      ghost var more;
      ok, more := Publish(j);
      StepsConcat(s, before, old(Now()), more, Now());
      all := before + more;
    }

    method StreamAfter(ghost s: State, ghost before: seq<Action>, j: nat, responses: seq<Response>)
      returns (ok: bool, ghost all: seq<Action>)
      requires Inv(Now()) && 1 <= batchSize <= MAX_RECORDS && 1 <= target <= MAX_REQUEST
      requires Steps(s, before, Now()) && j < |jobs| && proc.Building? && proc.job == j
      modifies this`jobs, this`wire, this`live, this`proc
      ensures Steps(s, all, Now())
      ensures ok ==> j < |jobs| && proc == Building(j, |jobs[j].source|) && SameTerms(old(jobs[j]), jobs[j])
      ensures Streamable(old(jobs[j]), j) && Answering(responses, |old(jobs[j]).source|) ==> ok
    {
      ghost var more, sent;
      ok, more, sent := Stream(j, responses);
      StepsConcat(s, before, old(Now()), more, Now());
      all := before + more;
    }

    // What a swap looks at.
    ghost predicate SameTerms(job: Job, later: Job) {
      later.root == job.root && later.config == job.config && later.mode == job.mode && later.base == job.base &&
      later.index == job.index && later.generation == job.generation
    }

    // The rest of the records, and then the pointer.
    method StreamAndPublish(ghost s: State, ghost before: seq<Action>, j: nat, responses: seq<Response>)
      returns (ok: bool, ghost all: seq<Action>)
      requires Inv(Now()) && 1 <= batchSize <= MAX_RECORDS && 1 <= target <= MAX_REQUEST
      requires Steps(s, before, Now()) && j < |jobs| && proc.Building? && proc.job == j
      modifies this
      ensures Steps(s, all, Now())
      ensures ok ==> proc == Swapped(j)
      ensures ok ==> j < |jobs| && Shows(jobs[j])
      ensures (Streamable(old(jobs)[j], j) && Answering(responses, |old(jobs)[j].source|) &&
               Swappable(old(roots), old(pointers), old(jobs)[j])) ==> ok
    {
      ok, all := StreamAfter(s, before, j, responses);
      if ok {
        ok, all := PublishAfter(s, all, j);
      }
    }

    // The part of a run that follows a claim of unfinished work.
    method Build(j: nat, responses: seq<Response>) returns (ok: bool, ghost all: seq<Action>)
      requires Inv(Now()) && 1 <= batchSize <= MAX_RECORDS && 1 <= target <= MAX_REQUEST
      requires j < |jobs| && proc == Claimed(j)
      modifies this
      ensures Steps(old(Now()), all, Now())
      ensures Favoured(old(Now()), j, responses) ==> ok
      ensures ok ==> proc == Swapped(j)
      ensures ok ==> j < |jobs| && Shows(jobs[j])
    {
      ghost var s := Now();
      ok := EnsureIndex(j);
      if !ok {
        return false, [];
      }
      StepsAppend(s, [], s, Ensure);
      RunKeepsInv(s, [Ensure], Now());
      ok, all := StreamAndPublish(s, [Ensure], j, responses);
    }

    // Unfinished work that was claimed: build and publish it, or only finish what a crash left swapped.
    method Work(j: nat, responses: seq<Response>) returns (ok: bool, ghost all: seq<Action>)
      requires Inv(Now()) && 1 <= batchSize <= MAX_RECORDS && 1 <= target <= MAX_REQUEST && j < |jobs|
      requires proc == if AlreadySwapped(pointers, jobs[j]) then Swapped(j) else Claimed(j)
      modifies this
      ensures Steps(old(Now()), all, Now()) && Inv(Now()) && proc.Idle? && SameManifests(old(jobs), jobs)
      ensures AlreadySwapped(old(pointers), old(jobs)[j]) || Favoured(old(Now()), j, responses) ==> ok
      ensures ok ==> jobs[j].state == PUBLISHED && Complete(jobs[j])
      ensures ok && !AlreadySwapped(old(pointers), old(jobs)[j]) ==> Shows(jobs[j])
    {
      ghost var s := Now();
      all := [];
      ok := true;
      var builds := !AlreadySwapped(pointers, jobs[j]);
      if builds {
        ok, all := Build(j, responses);
        StepsKeepManifests(s, all, Now());
      }
      if ok {
        all := Conclude(s, all, j, builds);
      } else {
        all := Stop(s, all);
        RunKeepsInv(s, all, Now());
      }
      StepsKeepManifests(s, all, Now());
    }

    // Claims the manifest and finds its journal row; a published row needs no work.
    method Begin(root: string, source: seq<Line>, mode: Mode, base: Option<nat>)
      returns (refused: bool, j: nat, ghost all: seq<Action>)
      requires Inv(Now()) && proc.Idle?
      modifies this
      ensures Steps(old(Now()), all, Now()) && Inv(Now())
      ensures refused <==> ClaimOf(old(Now()), root, source, mode, base).Refused?
      ensures Now() == AfterClaim(old(Now()), root, source, mode, base)
      ensures refused ==> Now() == old(Now())
      ensures !refused ==> j < |jobs| && IsClaimed(old(Now()), Now(), j, root, source, mode, base)
    {
      ghost var s := Now();
      var claim := Claim(root, source, mode, base);
      if claim.Refused? {
        return true, 0, [];
      }
      PointersAreOld(s);
      ClaimSteps(s, root, source, mode, base);
      ClaimedRow(s, root, source, mode, base);
      refused, all := false, [DoClaim(root, source, mode, base)];
      j := if claim.Existing? then claim.job else |jobs| - 1;
    }

    // Readers of the root see what each last line of the manifest says, under this configuration.
    ghost predicate Displays(root: string, source: seq<Line>, mode: Mode, config: string)
      reads this`pointers, this`pits
    {
      root in pointers && pointers[root].Archive? && pointers[root].pit in pits &&
      ShowsLines(Visible(pits[pointers[root].pit]), source, mode, config)
    }

    lemma ShownIsDisplayed(j: nat)
      requires Inv(Now()) && j < |jobs| && Shows(jobs[j])
      ensures Displays(jobs[j].root, jobs[j].source, jobs[j].mode, jobs[j].config)
    {
      ShownJobShowsLines(Now(), j);
    }

    /** One import run. Whatever happens, the state it leaves is reached by atomic steps; it reports success only
        for a manifest that is published and complete, and a refused claim changes nothing. */
    method Run(root: string, source: seq<Line>, mode: Mode, base: Option<nat>, responses: seq<Response>)
      returns (outcome: Outcome, ghost all: seq<Action>)
      requires Inv(Now()) && Ready()
      modifies this
      ensures Steps(old(Now()), all, Now()) && Inv(Now()) && Ready()
      ensures outcome.Refusal? <==> ClaimOf(old(Now()), root, source, mode, base).Refused?
      ensures outcome.Refusal? ==> Now() == old(Now())
      ensures outcome.Success? ==>
                outcome.job < |jobs| && jobs[outcome.job].root == root && jobs[outcome.job].source == source &&
                jobs[outcome.job].mode == mode && jobs[outcome.job].base == base &&
                jobs[outcome.job].state == PUBLISHED && Complete(jobs[outcome.job])
      ensures outcome.Success? ==> forall p :: 0 <= p < |source| ==> UsableLine(source[p], mode)
      ensures outcome.Success? ==>
                var claimed := AfterClaim(old(Now()), root, source, mode, base);
                root in old(roots) && outcome.job < |claimed.jobs| &&
                (claimed.jobs[outcome.job].state == PUBLISHED ||
                 AlreadySwapped(claimed.pointers, claimed.jobs[outcome.job]) ||
                 Displays(root, source, mode, old(roots)[root].config))
      ensures outcome.Interrupted? ==>
                var claimed := AfterClaim(old(Now()), root, source, mode, base);
                outcome.job < |claimed.jobs| && SameManifest(claimed.jobs[outcome.job], root, source, mode, base) &&
                claimed.jobs[outcome.job].state != PUBLISHED &&
                !AlreadySwapped(claimed.pointers, claimed.jobs[outcome.job]) && !Favoured(claimed, outcome.job, responses)
    {
      var refused, j;
      refused, j, all := Begin(root, source, mode, base);
      if refused {
        return Refusal, all;
      }
      if jobs[j].state == PUBLISHED {
        CompleteIsUsable(Now(), j);
        return Success(j), all;
      }
      ghost var mid := Now();
      ghost var more;
      var ok;
      ok, more := Work(j, responses);
      StepsConcat(old(Now()), all, mid, more, Now());
      all := all + more;
      if ok {
        CompleteIsUsable(Now(), j);
        if Shows(jobs[j]) { ShownIsDisplayed(j); }
      }
      outcome := if ok then Success(j) else Interrupted(j);
    }

    // Marks the job published; a run that built the snapshot itself also cleans up.
    method Conclude(ghost s: State, ghost before: seq<Action>, j: nat, cleans: bool) returns (ghost all: seq<Action>)
      requires Inv(s) && Steps(s, before, Now()) && proc == Swapped(j) && j < |jobs|
      modifies this
      ensures Steps(s, all, Now()) && Inv(Now()) && proc.Idle?
      ensures j < |jobs| && jobs[j].state == PUBLISHED && Complete(jobs[j])
      ensures old(Shows(jobs[j])) ==> Shows(jobs[j])
    {
      StepsAppend(s, before, Now(), Finish);
      FinishJob(j);
      all := before + [Finish];
      if cleans {
        ghost var mid := Now();
        ghost var more := Cleanup();
        StepsConcat(s, all, mid, more, Now());
        all := all + more;
      }
      RunKeepsInv(s, all, Now());
      assert JobOk(jobs[j], j);
    }

    method Abort(root: string) returns (aborted: bool, ghost all: seq<Action>)
      requires proc.Idle?
      modifies this`jobs
      ensures Steps(old(Now()), all, Now()) && jobs == AbortAll(old(jobs), root) && |jobs| == |old(jobs)|
      ensures forall j :: 0 <= j < |jobs| ==>
                jobs[j] == if old(jobs)[j].root == root && old(jobs)[j].state == BUILDING
                           then old(jobs)[j].(state := ABORTED) else old(jobs)[j]
      ensures (aborted <==> Unfinished(old(jobs), root)) && (aborted <==> jobs != old(jobs))
    {
      StepsAppend(old(Now()), [], Now(), Action.Abort(root));
      aborted := Unfinished(jobs, root);
      jobs := AbortAll(jobs, root);
      all := [Action.Abort(root)];
    }

    method RebuildIndex(root: string)
      requires proc.Idle? && Enabled(Now(), Rebuild(root))
      modifies this`searchable, this`proc
      ensures Now() == AfterRebuild(old(Now()), root)
    {
      var p := pointers[root];
      searchable := searchable[p.index := Live(live, p.index)];
      proc := Rebuilding(root, p.pit);
    }

    method ReopenSnapshot(root: string)
      requires proc.Rebuilding? && proc.root == root && Enabled(Now(), Reopen)
      modifies this`pits, this`nextPit, this`proc
      ensures Now() == AfterReopen(old(Now()))
    {
      pits := pits[nextPit := searchable[pointers[root].index]];
      proc := Reopened(root, proc.lost, nextPit);
      nextPit := nextPit + 1;
    }

    method RestorePointer(root: string, pit: nat)
      requires proc.Reopened? && proc.root == root && proc.pit == pit && Enabled(Now(), Restore)
      modifies this`pointers, this`nextGeneration, this`proc
      ensures Now() == AfterRestore(old(Now()))
    {
      pointers := pointers[root := pointers[root].(pit := pit, generation := nextGeneration)];
      nextGeneration := nextGeneration + 1;
      proc := Idle;
    }

    // Replaces a snapshot by a new one of the same, complete index.
    method Recover(root: string) returns (ghost all: seq<Action>)
      requires proc.Idle? && Enabled(Now(), Rebuild(root))
      modifies this
      ensures Steps(old(Now()), all, Now()) && proc.Idle? && jobs == old(jobs)
      ensures pits.Keys == old(pits).Keys + {old(nextPit)}
      ensures root in pointers && pointers[root].Archive? && pointers[root].pit == old(nextPit)
      ensures pointers == old(pointers)[root := pointers[root]]
    {
      ghost var s := Now();
      StepsAppend(s, [], s, Rebuild(root));
      RebuildIndex(root);
      all := RecoverRest(s, root);
    }

    method RecoverRest(ghost s: State, root: string) returns (ghost all: seq<Action>)
      requires Steps(s, [Rebuild(root)], Now())
      requires proc.Rebuilding? && proc.root == root && root in pointers && pointers[root].Archive?
      requires pointers[root].pit == proc.lost && pointers[root].index in searchable
      modifies this`pits, this`nextPit, this`pointers, this`nextGeneration, this`proc
      ensures Steps(s, all, Now()) && proc.Idle?
      ensures pits.Keys == old(pits).Keys + {old(nextPit)}
      ensures root in pointers && pointers[root].Archive? && pointers[root].pit == old(nextPit)
      ensures pointers == old(pointers)[root := pointers[root]]
    {
      ReopenAppends(s, [Rebuild(root)], Now(), root);
      ReopenSnapshot(root);
      all := PointAt(s, [Rebuild(root)] + [Reopen], root, nextPit - 1);
    }

    method PointAt(ghost s: State, ghost before: seq<Action>, root: string, pit: nat) returns (ghost all: seq<Action>)
      requires Steps(s, before, Now()) && proc.Reopened? && proc.root == root && proc.pit == pit
      requires Enabled(Now(), Restore)
      modifies this`pointers, this`nextGeneration, this`proc
      ensures Steps(s, all, Now()) && proc.Idle?
      ensures root in pointers && pointers[root].Archive? && pointers[root].pit == pit
      ensures pointers == old(pointers)[root := pointers[root]]
    {
      StepsAppend(s, before, Now(), Restore);
      RestorePointer(root, pit);
      all := before + [Restore];
    }

    ghost predicate Readable(root: string)
      reads this
    {
      root in pointers && pointers[root].Archive? ==> pointers[root].pit in pits
    }

    // One root: nothing to do, or its snapshot does not answer, because it is lost or because the engine failed; then it
    // is replaced, unless its index is not known to be complete.
    method MaintainRoot(root: string) returns (ok: bool, ghost all: seq<Action>)
      requires proc.Idle? && root in pointers
      modifies this
      ensures Steps(old(Now()), all, Now()) && proc.Idle?
      ensures pointers.Keys == old(pointers).Keys && jobs == old(jobs)
      ensures ok ==> forall r :: r in pointers && (old(Readable(r)) || r == root) ==> Readable(r)
      ensures !ok ==> Now() == old(Now()) && pointers[root].Archive? && Dirty(jobs, pointers[root].index)
    {
      all := [];
      var answers: bool := *;
      if pointers[root].Archive? && (pointers[root].pit !in pits || !answers) {
        if Dirty(jobs, pointers[root].index) {
          return false, all;
        }
        all := Recover(root);
      }
      return true, all;
    }

    /** Maintenance renews what the engine still has and recovers what it lost. When it succeeds, every archived
        root is readable again; it never recovers from an index that an unfinished or aborted job may have touched. */
    method Maintain() returns (ok: bool, ghost all: seq<Action>)
      requires proc.Idle?
      modifies this
      ensures Steps(old(Now()), all, Now()) && proc.Idle?
      ensures pointers.Keys == old(pointers).Keys
      ensures ok ==> forall root :: root in pointers ==> Readable(root)
      ensures !ok ==> exists root :: root in pointers && pointers[root].Archive? && Dirty(jobs, pointers[root].index)
    {
      all := [];
      var rest := pointers.Keys;
      while rest != {}
        invariant Steps(old(Now()), all, Now()) && proc.Idle? && rest <= pointers.Keys == old(pointers).Keys
        invariant forall root :: root in pointers && root !in rest ==> Readable(root)
        decreases rest
      {
        var root :| root in rest;
        ghost var mid := Now();
        ghost var more;
        ok, more := MaintainRoot(root);
        StepsConcat(old(Now()), all, mid, more, Now());
        all := all + more;
        if !ok {
          return;
        }
        rest := rest - {root};
      }
      ghost var tail := MaintainEnd(old(Now()), all);
      return true, tail;
    }

    method MaintainEnd(ghost s: State, ghost before: seq<Action>) returns (ghost all: seq<Action>)
      requires Steps(s, before, Now()) && proc.Idle?
      requires forall root :: root in pointers ==> Readable(root)
      modifies this`retired, this`pits, this`closed, this`proc
      ensures Steps(s, all, Now()) && proc.Idle?
      ensures forall root :: root in pointers ==> Readable(root)
    {
      all := Cleanup();
      StepsConcat(s, before, old(Now()), all, Now());
      all := before + all;
      assert forall root :: root in pointers && pointers[root].Archive? ==> pointers[root].pit in CurrentPits(pointers);
    }
  }
}
