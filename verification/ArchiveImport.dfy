/**
 * The crash-safe archive import: the durable state of its three stores (journal, main store,
 * engine), the atomic steps of a run, of `abort` and of `maintain`, and the interference of the
 * outside world. Digests are represented by what they digest, `uid` values by counters.
 */
module ArchiveImport {
  import opened Wrappers
  import opened ArchiveManifest

  datatype JobState = BUILDING | PUBLISHED | ABORTED

  // One journal row. Its id is its place in the journal, counted from one.
  datatype Job = Job(root: string, source: seq<Line>, mode: Mode, base: Option<nat>, config: string,
                     index: nat, generation: nat, offset: nat, records: nat, state: JobState)
  {
    function Doc(p: nat): Option<Document>
      requires p < |source|
    {
      Parse(source[p], mode, config)
    }

    function Folded(content: map<string, Document>): map<string, Document> {
      Fold(content, source, mode, config, |source|)
    }
  }

  // The published pointer of a root.
  datatype Pointer =
    | Other(generation: nat)
    | Archive(index: nat, pit: nat, generation: nat, imported: nat, config: string)

  datatype Root = Root(config: string, searchable: bool)

  // What the engine keeps for an id, and a bulk item that was put on the wire.
  datatype Entry = Entry(version: nat, doc: Document)
  datatype Item = Item(index: nat, entry: Entry)
  type Contents = map<string, Entry>

  // The volatile place of the one process that holds the import lock.
  datatype Proc =
    | Idle
    | Claimed(job: nat)
    | Building(job: nat, count: nat)
    | Awaiting(job: nat, count: nat, next: nat)
    | Refreshed(job: nat)
    | Opened(job: nat, pit: nat)
    | Retired(job: nat, pit: nat)
    | Swapped(job: nat)
    | Rebuilding(root: string, lost: nat)
    | Reopened(root: string, lost: nat, pit: nat)
    | Cleaning(active: set<nat>)
    | Closed(active: set<nat>, pit: nat)

  datatype State = State(
    roots: map<string, Root>, pointers: map<string, Pointer>,   // main store
    jobs: seq<Job>, retired: map<nat, nat>,                     // journal
    live: map<nat, Contents>, searchable: map<nat, Contents>,   // engine: written, and refreshed
    meta: map<nat, string>, pits: map<nat, Contents>,           // engine: index metadata, open PITs
    wire: set<Item>,                                            // every bulk item ever sent
    closed: set<nat>,                                           // every PIT cleanup ever closed
    nextIndex: nat, nextGeneration: nat, nextPit: nat,
    clock: nat, proc: Proc)

  function Live(live: map<nat, Contents>, index: nat): Contents {
    if index in live then live[index] else map[]
  }

  // An external_gte write: an older revision than the stored one is refused and changes nothing.
  function Put(contents: Contents, entry: Entry): Contents {
    var id := entry.doc.id;
    if id in contents && contents[id].version > entry.version then contents else contents[id := entry]
  }

  // What a reader of a snapshot sees.
  function Visible(contents: Contents): map<string, Document> {
    map id | id in contents && contents[id].doc.Stored? :: contents[id].doc
  }

  // --- Claiming a manifest ------------------------------------------------------------------

  predicate SameManifest(job: Job, root: string, source: seq<Line>, mode: Mode, base: Option<nat>) {
    job.root == root && job.source == source && job.mode == mode && job.base == base && job.state != ABORTED
  }

  // The newest matching row that was not aborted.
  function LastMatch(jobs: seq<Job>, root: string, source: seq<Line>, mode: Mode, base: Option<nat>): Option<nat> {
    if jobs == [] then None
    else
      var last := |jobs| - 1;
      if SameManifest(jobs[last], root, source, mode, base) then Some(last)
      else LastMatch(jobs[..last], root, source, mode, base)
  }

  predicate Unfinished(jobs: seq<Job>, root: string) {
    exists j :: 0 <= j < |jobs| && jobs[j].root == root && jobs[j].state == BUILDING
  }

  predicate HasAborted(jobs: seq<Job>, index: nat) {
    exists j :: 0 <= j < |jobs| && jobs[j].index == index && jobs[j].state == ABORTED
  }

  predicate Dirty(jobs: seq<Job>, index: nat) {
    exists j :: 0 <= j < |jobs| && jobs[j].index == index && jobs[j].state != PUBLISHED
  }

  datatype Claim = Refused | Existing(job: nat) | Fresh(index: nat)

  function ClaimOf(s: State, root: string, source: seq<Line>, mode: Mode, base: Option<nat>): Claim {
    if root !in s.roots || !s.roots[root].searchable || (mode == Delta && base.None?) then Refused
    else
      match LastMatch(s.jobs, root, source, mode, base)
      case Some(j) =>
        if j < |s.jobs| && s.jobs[j].config == s.roots[root].config then Existing(j) else Refused
      case None =>
        if Unfinished(s.jobs, root) then Refused
        else if mode == Full then Fresh(s.nextIndex)
        else if root !in s.pointers || !s.pointers[root].Archive? || Some(s.pointers[root].generation) != base
        then Refused
        else if HasAborted(s.jobs, s.pointers[root].index) then Refused
        else Fresh(s.pointers[root].index)
  }

  function NewJob(s: State, root: string, source: seq<Line>, mode: Mode, base: Option<nat>, index: nat): Job
    requires root in s.roots
  {
    Job(root, source, mode, base, s.roots[root].config, index, s.nextGeneration, 0, 0, BUILDING)
  }

  // The pointer already names this job: the crash was between the swap and the journal update.
  predicate AlreadySwapped(pointers: map<string, Pointer>, job: Job) {
    job.root in pointers && pointers[job.root].Archive? && pointers[job.root].imported == job.generation
  }

  // --- Atomic steps -------------------------------------------------------------------------

  datatype Action =
    // the outside world
    | Configure(root: string, value: Root)
    | Replace(root: string, generation: nat)
    | Deliver(item: Item)
    | LosePit(pit: nat)
    | Tick(now: nat)
    | Crash
    // run
    | DoClaim(root: string, source: seq<Line>, mode: Mode, base: Option<nat>)
    | Ensure
    | Send(next: nat)
    | Checkpoint
    | Refresh
    | OpenPit
    | Retire
    | Swap
    | Finish
    // abort, maintain, cleanup
    | Abort(root: string)
    | Rebuild(root: string)
    | Reopen
    | Restore
    | BeginCleanup
    | ClosePit(pit: nat)
    | ForgetPit
    | EndCleanup

  predicate Sendable(job: Job, j: nat, from: nat, to: nat) {
    from < to <= |job.source| &&
    forall p :: from <= p < to ==> job.Doc(p).Some? && InRange(j + 1, p)
  }

  function Items(job: Job, j: nat, from: nat, to: nat): set<Item>
    requires to <= |job.source|
  {
    set p | from <= p < to && job.Doc(p).Some? :: Item(job.index, Entry(Version(j + 1, p), job.Doc(p).value))
  }

  // Every record of a range has been written or superseded, as a successful bulk response says.
  predicate Settled(contents: Contents, job: Job, j: nat, from: nat, to: nat) {
    forall p :: from <= p < to && p < |job.source| && job.Doc(p).Some? ==>
      var id := job.Doc(p).value.id;
      id in contents && contents[id].version >= Version(j + 1, p)
  }

  predicate BaseUnchanged(pointers: map<string, Pointer>, job: Job) {
    job.mode == Delta ==>
      job.root in pointers && Some(pointers[job.root].generation) == job.base
  }

  function CurrentPits(pointers: map<string, Pointer>): set<nat> {
    set root | root in pointers && pointers[root].Archive? :: pointers[root].pit
  }

  predicate Enabled(s: State, a: Action) {
    match a
    case Configure(_, _) => !s.proc.Retired?
    case Replace(root, generation) =>
      !s.proc.Retired? && (root in s.pointers ==> s.pointers[root].Other?) && generation == s.nextGeneration
    case Deliver(item) => item in s.wire
    case LosePit(pit) => true
    case Tick(now) => s.clock <= now
    case Crash => true
    case DoClaim(root, source, mode, base) => s.proc.Idle? && !ClaimOf(s, root, source, mode, base).Refused?
    case Ensure => s.proc.Claimed? && s.proc.job < |s.jobs| &&
                   var job := s.jobs[s.proc.job];
                   job.index in s.meta ==> s.meta[job.index] == job.config
    case Send(next) => s.proc.Building? && s.proc.job < |s.jobs| &&
                       Sendable(s.jobs[s.proc.job], s.proc.job, s.proc.count, next)
    case Checkpoint => s.proc.Awaiting? && s.proc.job < |s.jobs|  && s.proc.next <= |s.jobs[s.proc.job].source| &&
                       var job := s.jobs[s.proc.job];
                       Settled(Live(s.live, job.index), job, s.proc.job, s.proc.count, s.proc.next)
    case Refresh => s.proc.Building? && s.proc.job < |s.jobs| && s.proc.count == |s.jobs[s.proc.job].source|
    case OpenPit => s.proc.Refreshed? && s.proc.job < |s.jobs| && s.jobs[s.proc.job].index in s.searchable
    case Retire => s.proc.Opened? && s.proc.job < |s.jobs| &&
                   var job := s.jobs[s.proc.job];
                   job.root in s.roots && s.roots[job.root].config == job.config && BaseUnchanged(s.pointers, job)
    case Swap => s.proc.Retired? && s.proc.job < |s.jobs|
    case Finish => s.proc.Swapped? && s.proc.job < |s.jobs|
    case Abort(root) => s.proc.Idle?
    case Rebuild(root) => s.proc.Idle? && root in s.pointers && s.pointers[root].Archive? &&
                          !Dirty(s.jobs, s.pointers[root].index)
    case Reopen => s.proc.Rebuilding? && s.proc.root in s.pointers && s.pointers[s.proc.root].Archive? &&
                   s.pointers[s.proc.root].index in s.searchable
    case Restore => s.proc.Reopened? && s.proc.root in s.pointers && s.pointers[s.proc.root].Archive? &&
                    s.pointers[s.proc.root].pit == s.proc.lost
    case BeginCleanup => s.proc.Idle?
    case ClosePit(pit) => s.proc.Cleaning? && pit in s.retired && s.retired[pit] <= s.clock && pit !in s.proc.active
    case ForgetPit => s.proc.Closed?
    case EndCleanup => s.proc.Cleaning?
  }

  function WithState(job: Job, state: JobState): Job {
    job.(state := state)
  }

  function AbortAll(jobs: seq<Job>, root: string): seq<Job> {
    seq(|jobs|, j requires 0 <= j < |jobs| =>
      if jobs[j].root == root && jobs[j].state == BUILDING then WithState(jobs[j], ABORTED) else jobs[j])
  }

  function AfterClaim(s: State, root: string, source: seq<Line>, mode: Mode, base: Option<nat>): State {
    match ClaimOf(s, root, source, mode, base)
    case Refused => s
    case Existing(j) =>
      if j >= |s.jobs| || s.jobs[j].state == PUBLISHED then s
      else s.(proc := if AlreadySwapped(s.pointers, s.jobs[j]) then Swapped(j) else Claimed(j))
    case Fresh(index) =>
      if root !in s.roots then s
      else s.(jobs := s.jobs + [NewJob(s, root, source, mode, base, index)],
              nextIndex := if mode == Full then s.nextIndex + 1 else s.nextIndex,
              nextGeneration := s.nextGeneration + 1,
              proc := Claimed(|s.jobs|))
  }

  function AfterDeliver(s: State, item: Item): State {
    s.(live := s.live[item.index := Put(Live(s.live, item.index), item.entry)])
  }

  // A run resumes where its checkpoint says, by seeking in the manifest.
  function AfterEnsure(s: State): State
    requires Enabled(s, Ensure)
  {
    var job := s.jobs[s.proc.job];
    s.(meta := s.meta[job.index := job.config], proc := Building(s.proc.job, Seek(job.source, job.offset)))
  }

  function AfterSend(s: State, next: nat): State
    requires Enabled(s, Send(next))
  {
    s.(wire := s.wire + Items(s.jobs[s.proc.job], s.proc.job, s.proc.count, next),
       proc := Awaiting(s.proc.job, s.proc.count, next))
  }

  function Advanced(job: Job, next: nat): Job
    requires next <= |job.source|
  {
    job.(records := next, offset := Offset(job.source, next))
  }

  function AfterCheckpoint(s: State): State
    requires Enabled(s, Checkpoint)
  {
    var job := s.jobs[s.proc.job];
    s.(jobs := s.jobs[s.proc.job := Advanced(job, s.proc.next)],
       proc := Building(s.proc.job, s.proc.next))
  }

  function AfterRefresh(s: State): State
    requires Enabled(s, Refresh)
  {
    var index := s.jobs[s.proc.job].index;
    s.(searchable := s.searchable[index := Live(s.live, index)], proc := Refreshed(s.proc.job))
  }

  function AfterOpen(s: State): State
    requires Enabled(s, OpenPit)
  {
    s.(pits := s.pits[s.nextPit := s.searchable[s.jobs[s.proc.job].index]], nextPit := s.nextPit + 1,
       proc := Opened(s.proc.job, s.nextPit))
  }

  function AfterRetire(s: State): State
    requires Enabled(s, Retire)
  {
    var root := s.jobs[s.proc.job].root;
    s.(retired := if root in s.pointers && s.pointers[root].Archive?
                  then s.retired[s.pointers[root].pit := s.clock + 120] else s.retired,
       proc := Retired(s.proc.job, s.proc.pit))
  }

  function AfterSwap(s: State): State
    requires Enabled(s, Swap)
  {
    var job := s.jobs[s.proc.job];
    s.(pointers := s.pointers[job.root := Archive(job.index, s.proc.pit, job.generation, job.generation, job.config)],
       proc := Swapped(s.proc.job))
  }

  function AfterFinish(s: State): State
    requires Enabled(s, Finish)
  {
    s.(jobs := s.jobs[s.proc.job := WithState(s.jobs[s.proc.job], PUBLISHED)], proc := Idle)
  }

  function AfterRebuild(s: State, root: string): State
    requires Enabled(s, Rebuild(root))
  {
    var p := s.pointers[root];
    s.(searchable := s.searchable[p.index := Live(s.live, p.index)], proc := Rebuilding(root, p.pit))
  }

  function AfterReopen(s: State): State
    requires Enabled(s, Reopen)
  {
    s.(pits := s.pits[s.nextPit := s.searchable[s.pointers[s.proc.root].index]], nextPit := s.nextPit + 1,
       proc := Reopened(s.proc.root, s.proc.lost, s.nextPit))
  }

  function AfterRestore(s: State): State
    requires Enabled(s, Restore)
  {
    var p := s.pointers[s.proc.root];
    s.(pointers := s.pointers[s.proc.root := p.(pit := s.proc.pit, generation := s.nextGeneration)],
       nextGeneration := s.nextGeneration + 1, proc := Idle)
  }

  // The engine closes a snapshot; the journal forgets it in a step of its own.
  function AfterClose(s: State, pit: nat): State
    requires Enabled(s, ClosePit(pit))
  {
    s.(pits := s.pits - {pit}, closed := s.closed + {pit}, proc := Closed(s.proc.active, pit))
  }

  function AfterForget(s: State): State
    requires Enabled(s, ForgetPit)
  {
    s.(retired := s.retired - {s.proc.pit}, proc := Cleaning(s.proc.active))
  }

  function Step(s: State, a: Action): State
    requires Enabled(s, a)
  {
    match a
    case Configure(root, value) => s.(roots := s.roots[root := value])
    case Replace(root, generation) =>
      s.(pointers := s.pointers[root := Other(generation)], nextGeneration := s.nextGeneration + 1)
    case Deliver(item) => AfterDeliver(s, item)
    case LosePit(pit) => s.(pits := s.pits - {pit})
    case Tick(now) => s.(clock := now)
    case Crash => s.(proc := Idle)
    case DoClaim(root, source, mode, base) => AfterClaim(s, root, source, mode, base)
    case Ensure => AfterEnsure(s)
    case Send(next) => AfterSend(s, next)
    case Checkpoint => AfterCheckpoint(s)
    case Refresh => AfterRefresh(s)
    case OpenPit => AfterOpen(s)
    case Retire => AfterRetire(s)
    case Swap => AfterSwap(s)
    case Finish => AfterFinish(s)
    case Abort(root) => s.(jobs := AbortAll(s.jobs, root))
    case Rebuild(root) => AfterRebuild(s, root)
    case Reopen => AfterReopen(s)
    case Restore => AfterRestore(s)
    case BeginCleanup => s.(proc := Cleaning(CurrentPits(s.pointers)))
    case ClosePit(pit) => AfterClose(s, pit)
    case ForgetPit => AfterForget(s)
    case EndCleanup => s.(proc := Idle)
  }

  ghost predicate Start(s: State) {
    s.pointers == map[] && s.jobs == [] && s.retired == map[] && s.live == map[] && s.searchable == map[] &&
    s.meta == map[] && s.pits == map[] && s.wire == {} && s.closed == {} && s.proc == Idle
  }

  // A run of the system: any interleaving of steps, a crash being a step like any other.
  ghost predicate Steps(s: State, actions: seq<Action>, t: State)
    decreases |actions|
  {
    if actions == [] then s == t
    else Enabled(s, actions[0]) && Steps(Step(s, actions[0]), actions[1..], t)
  }

  // --- The specification --------------------------------------------------------------------

  // The content after the first n jobs: the manifests written to one index, folded in journal order.
  ghost function Expected(jobs: seq<Job>, index: nat, n: nat): map<string, Document>
    requires n <= |jobs|
  {
    if n == 0 then map[]
    else if jobs[n - 1].index == index then jobs[n - 1].Folded(Expected(jobs, index, n - 1))
    else Expected(jobs, index, n - 1)
  }

  ghost predicate Complete(job: Job) {
    job.records == |job.source|
  }

  // --- The invariant ------------------------------------------------------------------------

  // A checkpoint sits at the end of record `records`, and only usable records were passed.
  ghost predicate JobOk(job: Job, j: nat) {
    job.records <= |job.source| && job.offset == Offset(job.source, job.records) &&
    (forall p :: 0 <= p < job.records ==> job.Doc(p).Some? && InRange(j + 1, p)) &&
    (job.state == PUBLISHED ==> Complete(job))
  }

  ghost predicate JobsOk(jobs: seq<Job>, nextIndex: nat, nextGeneration: nat) {
    (forall j :: 0 <= j < |jobs| ==>
      JobOk(jobs[j], j) && jobs[j].index < nextIndex && jobs[j].generation < nextGeneration) &&
    (forall i, j :: 0 <= i < j < |jobs| ==> jobs[i].generation < jobs[j].generation)
  }

  // Only the newest job of an index may be unfinished; the jobs of an index share their root.
  ghost predicate Ordered(jobs: seq<Job>) {
    (forall i, j :: 0 <= i < j < |jobs| && jobs[i].index == jobs[j].index ==>
      jobs[i].root == jobs[j].root && jobs[i].state == PUBLISHED && jobs[j].mode == Delta) &&
    (forall i, j :: 0 <= i < j < |jobs| && jobs[i].root == jobs[j].root ==> jobs[i].state != BUILDING)
  }

  // A generation is never issued twice: whoever still names the base of an unfinished delta names its index.
  ghost predicate BasesOk(jobs: seq<Job>, pointers: map<string, Pointer>) {
    (forall root :: root in pointers && pointers[root].Archive? ==> pointers[root].imported <= pointers[root].generation) &&
    forall j :: 0 <= j < |jobs| && jobs[j].mode == Delta ==>
      jobs[j].base.Some? && jobs[j].base.value < jobs[j].generation &&
      (jobs[j].root in pointers && Some(pointers[jobs[j].root].generation) == jobs[j].base ==>
        pointers[jobs[j].root].Archive? && pointers[jobs[j].root].index == jobs[j].index)
  }

  // This entry is one of the records of a job of this index.
  ghost predicate Wrote(jobs: seq<Job>, index: nat, entry: Entry) {
    entry.version > 0 &&
    var j, p := JobOf(entry.version), PositionOf(entry.version);
    1 <= j <= |jobs| && jobs[j - 1].index == index && p < |jobs[j - 1].source| && InRange(j, p) &&
    jobs[j - 1].Doc(p) == Some(entry.doc)
  }

  // The engine holds and awaits records of the jobs only, and every checkpointed record arrived.
  ghost predicate EngineOk(jobs: seq<Job>, live: map<nat, Contents>, wire: set<Item>) {
    (forall index, id :: index in live && id in live[index] ==>
      live[index][id].doc.id == id && Wrote(jobs, index, live[index][id])) &&
    (forall item :: item in wire ==> Wrote(jobs, item.index, item.entry)) &&
    (forall j :: 0 <= j < |jobs| ==> Settled(Live(live, jobs[j].index), jobs[j], j, 0, jobs[j].records))
  }

  // The job that a pointer publishes: the last published one of its index.
  ghost predicate Publishes(p: Pointer, root: string, jobs: seq<Job>, j: nat)
    requires p.Archive?
  {
    j < |jobs| && jobs[j].generation == p.imported && jobs[j].index == p.index && jobs[j].root == root &&
    jobs[j].config == p.config && Complete(jobs[j]) &&
    (forall i :: j < i < |jobs| && jobs[i].index == p.index ==> jobs[i].state != PUBLISHED)
  }

  ghost predicate Whole(jobs: seq<Job>, j: nat, contents: Contents) {
    j < |jobs| && Visible(contents) == Expected(jobs, jobs[j].index, j + 1)
  }

  // A snapshot id that readers hold or may come to hold; while the engine has it, it is whole.
  ghost predicate PitOk(pit: nat, jobs: seq<Job>, j: nat, pits: map<nat, Contents>, closed: set<nat>, nextPit: nat) {
    pit < nextPit && pit !in closed && (pit in pits ==> Whole(jobs, j, pits[pit]))
  }

  ghost predicate PointerOk(p: Pointer, root: string, jobs: seq<Job>, pits: map<nat, Contents>, closed: set<nat>,
                            nextPit: nat)
    requires p.Archive?
  {
    exists j: nat :: Publishes(p, root, jobs, j) && PitOk(p.pit, jobs, j, pits, closed, nextPit)
  }

  ghost predicate PointersOk(pointers: map<string, Pointer>, jobs: seq<Job>, pits: map<nat, Contents>,
                             closed: set<nat>, nextPit: nat, nextGeneration: nat)
  {
    forall root :: root in pointers ==>
      pointers[root].generation < nextGeneration &&
      (pointers[root].Archive? ==> PointerOk(pointers[root], root, jobs, pits, closed, nextPit))
  }

  ghost predicate PitsOk(pits: map<nat, Contents>, retired: map<nat, nat>, closed: set<nat>, nextPit: nat) {
    forall pit: nat :: pit in pits || pit in retired || pit in closed ==> pit < nextPit
  }

  // The job that a run works on.
  ghost predicate Current(jobs: seq<Job>, j: nat) {
    j < |jobs| && jobs[j].state == BUILDING
  }

  ghost predicate ReadyToSwap(jobs: seq<Job>, j: nat, pit: nat, pits: map<nat, Contents>, retired: map<nat, nat>,
                              closed: set<nat>, nextPit: nat)
  {
    Current(jobs, j) && Complete(jobs[j]) && pit !in retired && PitOk(pit, jobs, j, pits, closed, nextPit)
  }

  ghost predicate ReadyToOpen(jobs: seq<Job>, j: nat, searchable: map<nat, Contents>) {
    Current(jobs, j) && Complete(jobs[j]) && jobs[j].index in searchable && Whole(jobs, j, searchable[jobs[j].index])
  }

  ghost predicate Restorable(pointers: map<string, Pointer>, root: string, jobs: seq<Job>, j: nat) {
    root in pointers && pointers[root].Archive? && Publishes(pointers[root], root, jobs, j)
  }

  ghost predicate ReadyToReopen(pointers: map<string, Pointer>, root: string, jobs: seq<Job>,
                                searchable: map<nat, Contents>)
  {
    exists j: nat :: Restorable(pointers, root, jobs, j) && pointers[root].index in searchable &&
                     Whole(jobs, j, searchable[pointers[root].index])
  }

  ghost predicate ReadyToRestore(pointers: map<string, Pointer>, root: string, jobs: seq<Job>, pit: nat,
                                 pits: map<nat, Contents>, retired: map<nat, nat>, closed: set<nat>, nextPit: nat)
  {
    pit !in retired &&
    exists j: nat :: Restorable(pointers, root, jobs, j) && PitOk(pit, jobs, j, pits, closed, nextPit)
  }

  ghost predicate ProcOk(s: State) {
    match s.proc
    case Idle => true
    case Claimed(j) => Current(s.jobs, j)
    case Building(j, count) => Current(s.jobs, j) && count == s.jobs[j].records
    case Awaiting(j, count, next) =>
      Current(s.jobs, j) && count == s.jobs[j].records && Sendable(s.jobs[j], j, count, next)
    case Refreshed(j) => ReadyToOpen(s.jobs, j, s.searchable)
    case Opened(j, pit) =>
      ReadyToSwap(s.jobs, j, pit, s.pits, s.retired, s.closed, s.nextPit) && pit !in CurrentPits(s.pointers)
    case Retired(j, pit) =>
      ReadyToSwap(s.jobs, j, pit, s.pits, s.retired, s.closed, s.nextPit) && BaseUnchanged(s.pointers, s.jobs[j])
    case Swapped(j) => Current(s.jobs, j) && AlreadySwapped(s.pointers, s.jobs[j])
    case Rebuilding(root, _) => ReadyToReopen(s.pointers, root, s.jobs, s.searchable)
    case Reopened(root, _, pit) =>
      ReadyToRestore(s.pointers, root, s.jobs, pit, s.pits, s.retired, s.closed, s.nextPit)
    case Cleaning(active) => CurrentPits(s.pointers) <= active
    case Closed(active, _) => CurrentPits(s.pointers) <= active
  }

  ghost predicate Inv(s: State) {
    JobsOk(s.jobs, s.nextIndex, s.nextGeneration) && Ordered(s.jobs) && EngineOk(s.jobs, s.live, s.wire) &&
    PointersOk(s.pointers, s.jobs, s.pits, s.closed, s.nextPit, s.nextGeneration) &&
    PitsOk(s.pits, s.retired, s.closed, s.nextPit) && BasesOk(s.jobs, s.pointers) && ProcOk(s)
  }
}
