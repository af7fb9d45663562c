/**
 * The durable file mover: accepted attempts, the claims that protect their items, the queue rows, and a
 * file system that others may change. A step is one transaction, one look at the file system or one
 * rename; the process that holds the worker lock can be lost between any two steps.
 */
module FileMover {
  import opened Wrappers

  type Path = string
  // Device, inode, size and modification time of a regular file.
  type Identity = nat

  // What occupies a path: a regular file, or a directory, link or special file.
  datatype Entry = File(identity: Identity) | Special
  type Files = map<Path, Entry>

  function Stat(fs: Files, path: Path): Option<Identity> {
    if path in fs && fs[path].File? then Some(fs[path].identity) else None
  }

  // The no-replace rename, when it does take place.
  function Moved(fs: Files, source: Path, target: Path): Files
    requires source in fs
  {
    (fs - {source})[target := fs[source]]
  }

  predicate CanMove(fs: Files, source: Path, target: Path, identity: Identity) {
    source in fs && fs[source] == File(identity) && target !in fs
  }

  // --- Records --------------------------------------------------------------------------------

  datatype Reason =
    | SourceMissing | SourceChanged | AlreadyProcessing | TargetOccupied | ManualNameOccupied
    | TechnicalError | RecoveryNeeded | Planned(code: string)

  datatype Plan =
    | WillMove(target: Path)
    | WillManualReview(reason: Reason)
    | NeedsDecision(reason: Reason)
    | Conflicting

  datatype Phase = QUEUED | INTENT | RECOVERY | DONE

  datatype Outcome =
    | Pending | Processing | RecoveryRequired
    | Sorted | ManualReview | RequiresDecision | Quarantined | Skipped

  predicate Terminal(o: Outcome) {
    o.Sorted? || o.ManualReview? || o.RequiresDecision? || o.Quarantined? || o.Skipped?
  }

  predicate Departs(o: Outcome) {
    o.Sorted? || o.ManualReview? || o.Quarantined?
  }

  datatype Attempt = Attempt(
    batch: nat, item: nat, source: Path, identity: Identity, plan: Plan, manual: Path, quarantine: Path,
    phase: Phase, outcome: Outcome, reason: Option<Reason>, actual: Option<Path>, started: bool, finished: bool,
    target: Option<Path>, intended: Outcome, intendedReason: Option<Reason>)

  datatype Status = WAITING_READY | READY | IN_PROCESS | NEEDS_DECISION | NEEDS_RECOVERY | MISSING

  datatype Row = Row(status: Status, selectable: bool, active: Option<nat>, revision: nat, reason: Option<Reason>,
                     identity: Identity, departed: bool)

  predicate Held(row: Row) {
    row.status == IN_PROCESS || row.status == NEEDS_RECOVERY || row.active.Some?
  }

  datatype Event =
    | Started(attempt: nat)
    | Finished(attempt: nat, outcome: Outcome, reason: Option<Reason>, target: Option<Path>)
    | Blocked(attempt: nat)

  // One selected item with its planned row, as it is accepted into a batch.
  datatype Request = Request(item: nat, revision: nat, source: Path, identity: Identity, plan: Plan,
                             manual: Path, quarantine: Path)

  // Where the worker is: each place is one transaction, look or rename away from the next.
  datatype Proc =
    | Idle
    | Starting(a: nat) | ManualCheck(a: nat)
    | Intending(a: nat, target: Path, outcome: Outcome, reason: Option<Reason>)
    | Executing(a: nat) | Verifying(a: nat) | Rechecking(a: nat)
    | Doubting(a: nat) | QuarantineCheck(a: nat)
    | QuarantineIntending(a: nat) | QuarantineExecuting(a: nat) | QuarantineVerifying(a: nat)
    | Recovering(a: nat, operator: bool) | Requeueing(a: nat) | Reintending(a: nat)
    | Finishing(a: nat, outcome: Outcome, reason: Option<Reason>, actual: Option<Path>)
    | Failing(a: nat, actual: Option<Path>)

  datatype State = State(
    fs: Files, attempts: seq<Attempt>, claims: map<nat, nat>, rows: map<nat, Row>, log: seq<Event>,
    batches: seq<nat>,      // how many items each batch selected
    moved: set<nat>,        // the attempts whose file was renamed
    proc: Proc)

  // How a rename call ends; it may succeed and still raise.
  datatype Call = Renamed | RenamedThenChanged | RenamedThenError | Exists | Vanished | Error

  datatype Action =
    | Outside(fs: Files)
    | Scan(item: nat, row: Row)
    | Accept(requests: seq<Request>)
    | Crash
    | Raise
    | Pick(a: nat)
    | PickByOperator(a: nat)
    | Look
    | Rename(call: Call)
    | Commit

  // --- Looks ----------------------------------------------------------------------------------

  function AtStart(fs: Files, a: nat, t: Attempt): Proc {
    match Stat(fs, t.source)
    case None => Finishing(a, Skipped, Some(SourceMissing), None)
    case Some(seen) =>
      if seen != t.identity then Finishing(a, Skipped, Some(SourceChanged), Some(t.source))
      else
        match t.plan
        case NeedsDecision(reason) => Finishing(a, RequiresDecision, Some(reason), Some(t.source))
        case WillMove(target) => Intending(a, target, Sorted, None)
        case WillManualReview(_) => ManualCheck(a)
        case Conflicting => Finishing(a, Skipped, Some(SourceChanged), Some(t.source))
  }

  function AtManual(fs: Files, a: nat, t: Attempt): Proc {
    if t.manual in fs then Finishing(a, RequiresDecision, Some(ManualNameOccupied), Some(t.source))
    else Intending(a, t.manual, ManualReview, if t.plan.WillManualReview? then Some(t.plan.reason) else None)
  }

  function AtRecovery(fs: Files, a: nat, t: Attempt, operator: bool): Proc {
    var atSource := Stat(fs, t.source) == Some(t.identity);
    match t.target
    case None => if t.phase == RECOVERY && atSource then Requeueing(a) else Failing(a, None)
    case Some(target) =>
      if !atSource && Stat(fs, target) == Some(t.identity) then Finishing(a, t.intended, t.intendedReason, t.target)
      else if atSource && target !in fs && (!t.intended.Quarantined? || operator) then Reintending(a)
      else Failing(a, if atSource then Some(t.source) else None)
  }

  function AtRecheck(fs: Files, a: nat, t: Attempt): Proc {
    if Stat(fs, t.source).None? then Finishing(a, Skipped, Some(SourceMissing), None)
    else Finishing(a, Skipped, Some(SourceChanged), Some(t.source))
  }

  predicate Looks(p: Proc) {
    p.Starting? || p.ManualCheck? || p.Verifying? || p.Rechecking? || p.Doubting? || p.QuarantineCheck? ||
    p.QuarantineVerifying? || p.Recovering?
  }

  // Every look decides the next place from what it sees.
  function AfterLook(fs: Files, t: Attempt, p: Proc): Proc
    requires Looks(p)
  {
    match p
    case Starting(a) => AtStart(fs, a, t)
    case ManualCheck(a) => AtManual(fs, a, t)
    case Verifying(a) =>
      if t.target.Some? && Stat(fs, t.target.value) == Some(t.identity)
      then Finishing(a, t.intended, t.intendedReason, t.target) else Failing(a, None)
    case Rechecking(a) => AtRecheck(fs, a, t)
    case Doubting(a) => if Stat(fs, t.source) == Some(t.identity) then QuarantineCheck(a) else Failing(a, None)
    case QuarantineCheck(a) => if t.quarantine in fs then Failing(a, Some(t.source)) else QuarantineIntending(a)
    case QuarantineVerifying(a) =>
      if Stat(fs, t.quarantine) == Some(t.identity)
      then Finishing(a, Quarantined, Some(TechnicalError), Some(t.quarantine)) else Failing(a, None)
    case Recovering(a, operator) => AtRecovery(fs, a, t, operator)
  }

  // --- Renames --------------------------------------------------------------------------------

  predicate Moves(call: Call) {
    call.Renamed? || call.RenamedThenChanged? || call.RenamedThenError?
  }

  predicate CallPossible(fs: Files, t: Attempt, target: Path, call: Call) {
    match call
    case Exists => Stat(fs, t.source) == Some(t.identity) && target in fs
    case Vanished => t.source !in fs || (fs[t.source].File? && fs[t.source].identity != t.identity)
    case Error => true
    case _ => CanMove(fs, t.source, target, t.identity)
  }

  function AfterCall(a: nat, t: Attempt, call: Call): Proc {
    match call
    case Renamed => Verifying(a)
    case RenamedThenChanged => Failing(a, None)
    case Exists =>
      Finishing(a, RequiresDecision,
                Some(if t.intended.ManualReview? then ManualNameOccupied else TargetOccupied), Some(t.source))
    case Vanished => Rechecking(a)
    case _ => Doubting(a)
  }

  function AfterQuarantineCall(a: nat, call: Call): Proc {
    if call.Renamed? then QuarantineVerifying(a) else Failing(a, None)
  }

  // --- Transactions ---------------------------------------------------------------------------

  function StartEvent(a: nat, t: Attempt): seq<Event> {
    if t.started then [] else [Started(a)]
  }

  function BlockEvents(a: nat, t: Attempt): seq<Event> {
    StartEvent(a, t) + [Blocked(a)]
  }

  function AfterIntend(s: State, t: Attempt, p: Proc): State
    requires p.Intending? && p.a < |s.attempts|
  {
    s.(attempts := s.attempts[p.a := t.(phase := INTENT, target := Some(p.target), intended := p.outcome,
                                        intendedReason := p.reason, outcome := Processing, reason := None,
                                        started := true)],
       log := s.log + StartEvent(p.a, t),
       proc := Executing(p.a))
  }

  function AfterQuarantineIntend(s: State, t: Attempt, a: nat): State
    requires a < |s.attempts|
  {
    s.(attempts := s.attempts[a := t.(target := Some(t.quarantine), intended := Quarantined,
                                      intendedReason := Some(TechnicalError))],
       proc := QuarantineExecuting(a))
  }

  function AfterRequeue(s: State, t: Attempt, a: nat): State
    requires a < |s.attempts|
  {
    s.(attempts := s.attempts[a := t.(phase := QUEUED, outcome := Pending, reason := None, actual := None,
                                      finished := false)],
       proc := Starting(a))
  }

  function AfterReintend(s: State, t: Attempt, a: nat): State
    requires a < |s.attempts|
  {
    s.(attempts := s.attempts[a := t.(phase := INTENT)], proc := Executing(a))
  }

  // The queue row of an item whose attempt ended.
  function Released(row: Row, outcome: Outcome, reason: Option<Reason>, seen: Option<Identity>): Row {
    if outcome.RequiresDecision? then
      row.(status := NEEDS_DECISION, selectable := true, active := None, reason := reason)
    else if outcome.Skipped? && reason == Some(SourceMissing) then
      row.(status := MISSING, selectable := false, active := None, reason := reason)
    else if outcome.Skipped? && reason == Some(SourceChanged) then
      match seen
      case None => row.(status := MISSING, selectable := false, active := None, reason := Some(SourceMissing))
      case Some(identity) =>
        row.(revision := row.revision + 1, status := WAITING_READY, selectable := false, active := None,
             reason := Some(SourceChanged), identity := identity)
    else
      row.(status := MISSING, selectable := false, active := None, reason := reason, departed := true)
  }

  function AfterFinish(s: State, t: Attempt, p: Proc): State
    requires p.Finishing? && p.a < |s.attempts|
  {
    if t.phase == DONE || t.item !in s.rows then s.(proc := Idle)
    else
      s.(attempts := s.attempts[p.a := t.(phase := DONE, outcome := p.outcome, reason := p.reason, actual := p.actual,
                                          started := true, finished := true)],
         rows := s.rows[t.item := Released(s.rows[t.item], p.outcome, p.reason, Stat(s.fs, t.source))],
         claims := s.claims - {t.item},
         log := s.log + StartEvent(p.a, t) + [Finished(p.a, p.outcome, p.reason, p.actual)],
         proc := Idle)
  }

  function AfterFail(s: State, t: Attempt, p: Proc): State
    requires p.Failing? && p.a < |s.attempts|
  {
    if t.phase == DONE || t.phase == RECOVERY || t.item !in s.rows then s.(proc := Idle)
    else
      s.(attempts := s.attempts[p.a := t.(phase := RECOVERY, outcome := RecoveryRequired,
                                          reason := Some(RecoveryNeeded), actual := p.actual, started := true,
                                          finished := false)],
         rows := s.rows[t.item := s.rows[t.item].(status := NEEDS_RECOVERY, selectable := false,
                                                  reason := Some(RecoveryNeeded))],
         log := s.log + BlockEvents(p.a, t),
         proc := Idle)
  }

  predicate Commits(p: Proc) {
    p.Intending? || p.QuarantineIntending? || p.Requeueing? || p.Reintending? || p.Finishing? || p.Failing?
  }

  function AfterCommit(s: State): State
    requires Commits(s.proc) && s.proc.a < |s.attempts|
  {
    var t := s.attempts[s.proc.a];
    match s.proc
    case Intending(_, _, _, _) => AfterIntend(s, t, s.proc)
    case QuarantineIntending(a) => AfterQuarantineIntend(s, t, a)
    case Requeueing(a) => AfterRequeue(s, t, a)
    case Reintending(a) => AfterReintend(s, t, a)
    case Finishing(_, _, _, _) => AfterFinish(s, t, s.proc)
    case Failing(_, _) => AfterFail(s, t, s.proc)
  }

  // --- Accepting a batch ----------------------------------------------------------------------

  predicate Acceptable(s: State, r: Request) {
    r.item in s.claims ||
    (r.item in s.rows && s.rows[r.item].revision == r.revision && s.rows[r.item].selectable &&
     Stat(s.fs, r.source) == Some(r.identity))
  }

  function NewAttempt(batch: nat, r: Request, occupied: bool): Attempt {
    Attempt(batch, r.item, r.source, r.identity, r.plan, r.manual, r.quarantine,
            if occupied then DONE else QUEUED, if occupied then Skipped else Pending,
            if occupied then Some(AlreadyProcessing) else None, None, false, occupied, None, Pending, None)
  }

  function AcceptOne(s: State, batch: nat, r: Request): State {
    var a := |s.attempts|;
    if r.item in s.claims then
      s.(attempts := s.attempts + [NewAttempt(batch, r, true)],
         log := s.log + [Started(a), Finished(a, Skipped, Some(AlreadyProcessing), None)])
    else if r.item !in s.rows then s
    else
      s.(attempts := s.attempts + [NewAttempt(batch, r, false)],
         claims := s.claims[r.item := a],
         rows := s.rows[r.item := s.rows[r.item].(status := IN_PROCESS, selectable := false, active := Some(a),
                                                  reason := None)])
  }

  function AcceptAll(s: State, batch: nat, requests: seq<Request>): State {
    if requests == [] then s
    else AcceptOne(AcceptAll(s, batch, requests[..|requests| - 1]), batch, requests[|requests| - 1])
  }

  predicate DistinctItems(requests: seq<Request>) {
    forall i, j :: 0 <= i < j < |requests| ==> requests[i].item != requests[j].item
  }

  // --- Steps ----------------------------------------------------------------------------------

  predicate Enabled(s: State, a: Action) {
    match a
    case Outside(_) => true
    case Scan(item, row) => !Held(row) && (item in s.rows ==> !Held(s.rows[item]))
    case Accept(requests) => DistinctItems(requests) && forall i :: 0 <= i < |requests| ==> Acceptable(s, requests[i])
    case Crash => true
    case Raise => !s.proc.Idle?
    case Pick(a) => s.proc.Idle? && a < |s.attempts| && s.attempts[a].phase != DONE
    case PickByOperator(a) =>
      s.proc.Idle? && a < |s.attempts| && (s.attempts[a].phase == INTENT || s.attempts[a].phase == RECOVERY)
    case Look => Looks(s.proc) && s.proc.a < |s.attempts|
    case Rename(call) =>
      (s.proc.Executing? || s.proc.QuarantineExecuting?) && s.proc.a < |s.attempts| &&
      s.attempts[s.proc.a].target.Some? &&
      CallPossible(s.fs, s.attempts[s.proc.a], s.attempts[s.proc.a].target.value, call)
    case Commit => Commits(s.proc) && s.proc.a < |s.attempts|
  }

  function AfterRename(s: State, call: Call): State
    requires Enabled(s, Rename(call))
  {
    var a := s.proc.a;
    var t := s.attempts[a];
    s.(fs := if Moves(call) then Moved(s.fs, t.source, t.target.value) else s.fs,
       moved := if Moves(call) then s.moved + {a} else s.moved,
       proc := if s.proc.Executing? then AfterCall(a, t, call) else AfterQuarantineCall(a, call))
  }

  function Step(s: State, a: Action): State
    requires Enabled(s, a)
  {
    match a
    case Outside(fs) => s.(fs := fs)
    case Scan(item, row) => s.(rows := s.rows[item := row])
    case Accept(requests) => AcceptAll(s, |s.batches|, requests).(batches := s.batches + [|requests|])
    case Crash => s.(proc := Idle)
    case Raise => s.(proc := Failing(s.proc.a, None))
    case Pick(a) => s.(proc := if s.attempts[a].phase == QUEUED then Starting(a) else Recovering(a, false))
    case PickByOperator(a) => s.(proc := Recovering(a, true))
    case Look => s.(proc := AfterLook(s.fs, s.attempts[s.proc.a], s.proc))
    case Rename(call) => AfterRename(s, call)
    case Commit => AfterCommit(s)
  }

  ghost predicate Start(s: State) {
    s.attempts == [] && s.claims == map[] && s.log == [] && s.batches == [] && s.moved == {} && s.proc == Idle &&
    forall item :: item in s.rows ==> !Held(s.rows[item])
  }

  ghost predicate Steps(s: State, actions: seq<Action>, t: State)
    decreases |actions|
  {
    if actions == [] then s == t
    else Enabled(s, actions[0]) && Steps(Step(s, actions[0]), actions[1..], t)
  }

  // --- The records always agree ---------------------------------------------------------------

  // What the log must say about an attempt: one start, and after it one end that repeats the recorded outcome.
  function Expected(a: nat, t: Attempt): seq<Event> {
    if t.phase == DONE then [Started(a), Finished(a, t.outcome, t.reason, t.actual)]
    else if t.started then [Started(a)]
    else []
  }

  function Marks(log: seq<Event>, a: nat): seq<Event> {
    if log == [] then []
    else
      var last := log[|log| - 1];
      Marks(log[..|log| - 1], a) + if last.attempt == a && !last.Blocked? then [last] else []
  }

  ghost predicate LogOk(attempts: seq<Attempt>, log: seq<Event>) {
    (forall i :: 0 <= i < |log| ==> log[i].attempt < |attempts|) &&
    forall a :: 0 <= a < |attempts| ==> Marks(log, a) == Expected(a, attempts[a])
  }

  ghost predicate ClaimsOk(attempts: seq<Attempt>, claims: map<nat, nat>) {
    (forall item :: item in claims ==>
      claims[item] < |attempts| && attempts[claims[item]].item == item && attempts[claims[item]].phase != DONE) &&
    (forall a :: 0 <= a < |attempts| && attempts[a].phase != DONE ==>
      attempts[a].item in claims && claims[attempts[a].item] == a)
  }

  ghost predicate RecordOk(t: Attempt) {
    (t.phase == DONE <==> Terminal(t.outcome)) && (t.phase == DONE <==> t.finished) &&
    (t.phase == QUEUED ==> t.outcome == Pending && t.target.None?) &&
    (t.phase == INTENT ==> t.target.Some? && t.started) &&
    (t.phase == RECOVERY ==> t.outcome == RecoveryRequired && t.started) &&
    (t.target.Some? ==> Departs(t.intended)) &&
    (t.phase == DONE && Departs(t.outcome) ==> t.actual.Some? && t.actual == t.target && t.outcome == t.intended)
  }

  ghost predicate RecordsOk(attempts: seq<Attempt>) {
    forall a :: 0 <= a < |attempts| ==> RecordOk(attempts[a])
  }

  // A row points at the attempt that claims its item, and only claimed rows are held.
  ghost predicate RowsOk(rows: map<nat, Row>, claims: map<nat, nat>) {
    (forall item :: item in claims ==> item in rows && Held(rows[item]) && !rows[item].selectable) &&
    (forall item :: item in rows ==>
      rows[item].active == (if item in claims then Some(claims[item]) else None) &&
      (item !in claims ==> !Held(rows[item])))
  }

  ghost predicate ProcOk(attempts: seq<Attempt>, p: Proc) {
    p.Idle? ||
    (p.a < |attempts| &&
     var t := attempts[p.a];
     match p
     case Idle => true
     case Starting(_) => t.phase == QUEUED
     case ManualCheck(_) => t.phase == QUEUED
     case Intending(_, _, outcome, _) => t.phase == QUEUED && Departs(outcome)
     case Recovering(_, _) => t.phase == INTENT || t.phase == RECOVERY
     case Requeueing(_) => t.phase == RECOVERY && t.target.None?
     case Reintending(_) => t.phase != DONE && t.phase != QUEUED && t.target.Some?
     case Finishing(_, outcome, _, actual) =>
       t.phase != DONE && Terminal(outcome) &&
       (Departs(outcome) ==> actual.Some? && actual == t.target && outcome == t.intended)
     case Failing(_, _) => t.phase != DONE
     case QuarantineExecuting(_) => t.phase == INTENT && QuarantineIntended(t)
     case QuarantineVerifying(_) => t.phase == INTENT && QuarantineIntended(t)
     case _ => t.phase == INTENT)
  }

  predicate QuarantineIntended(t: Attempt) {
    t.target == Some(t.quarantine) && t.intended == Quarantined && t.intendedReason == Some(TechnicalError)
  }

  ghost predicate Inv(s: State) {
    RecordsOk(s.attempts) && ClaimsOk(s.attempts, s.claims) && RowsOk(s.rows, s.claims) &&
    LogOk(s.attempts, s.log) && ProcOk(s.attempts, s.proc)
  }
}
