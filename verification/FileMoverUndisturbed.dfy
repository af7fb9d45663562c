/**
 * What an attempt comes to that nobody disturbs, and what accepting and ending attempts does to the records around them.
 */
module FileMoverUndisturbed {
  import opened Wrappers
  import opened FileMover
  import opened FileMoverSafety
  import opened FileMoverOutcomes

  // Where the plan puts the file; a plan that does not move leaves it where it is.
  function Destination(t: Attempt): Path {
    match t.plan
    case WillMove(target) => target
    case WillManualReview(_) => t.manual
    case _ => t.source
  }

  // Others leave the source and the destination of this attempt alone, and every call succeeds.
  ghost predicate Undisturbed(s: State, a: Action, t: Attempt, attempt: nat) {
    match a
    case Outside(fs) => forall path :: path == t.source || path == Destination(t) ==>
      (path in fs <==> path in s.fs) && (path in fs ==> fs[path] == s.fs[path])
    case Rename(call) => call == Renamed
    case Pick(b) => b == attempt
    case Look => true
    case Commit => true
    case _ => false
  }

  ghost predicate UndisturbedSteps(s: State, a: nat, actions: seq<Action>, t: State)
    decreases |actions|
  {
    if actions == [] then s == t
    else
      a < |s.attempts| && Enabled(s, actions[0]) && Undisturbed(s, actions[0], s.attempts[a], a) &&
      UndisturbedSteps(Step(s, actions[0]), a, actions[1..], t)
  }

  // The source has the accepted file, and the planned destination is free.
  ghost predicate Clear(fs: Files, t: Attempt) {
    Stat(fs, t.source) == Some(t.identity) && (t.plan.WillMove? || t.plan.WillManualReview? ==> Destination(t) !in fs)
  }

  // The file went where the plan says, or stayed because the plan says so.
  ghost predicate EndedAsPlanned(t: Attempt, moved: bool) {
    t.phase == DONE &&
    match t.plan
    case WillMove(target) => moved && t.outcome == Sorted && t.actual == Some(target) && t.reason == None
    case WillManualReview(reason) =>
      moved && t.outcome == ManualReview && t.actual == Some(t.manual) && t.reason == Some(reason)
    case NeedsDecision(reason) =>
      !moved && t.outcome == RequiresDecision && t.actual == Some(t.source) && t.reason == Some(reason)
    case Conflicting =>
      !moved && t.outcome == Skipped && t.actual == Some(t.source) && t.reason == Some(SourceChanged)
  }

  // The file is where the plan puts it, or where it was.
  ghost predicate Rests(fs: Files, t: Attempt, moved: bool) {
    Stat(fs, if moved then Destination(t) else t.source) == Some(t.identity)
  }

  predicate Intends(t: Attempt, target: Path, outcome: Outcome, reason: Option<Reason>) {
    match t.plan
    case WillMove(planned) => target == planned && outcome == Sorted && reason == None
    case WillManualReview(planned) => target == t.manual && outcome == ManualReview && reason == Some(planned)
    case _ => false
  }

  // How far an undisturbed attempt has come.
  ghost predicate Underway(s: State, a: nat) {
    a < |s.attempts| &&
    var t := s.attempts[a];
    var unmoved := a !in s.moved && Clear(s.fs, t);
    var intended := t.phase == INTENT && t.target.Some? && Intends(t, t.target.value, t.intended, t.intendedReason);
    match s.proc
    case Idle => (EndedAsPlanned(t, a in s.moved) && Rests(s.fs, t, a in s.moved)) || (t.phase == QUEUED && unmoved)
    case Starting(b) => b == a && t.phase == QUEUED && unmoved
    case ManualCheck(b) => b == a && t.phase == QUEUED && unmoved && t.plan.WillManualReview?
    case Intending(b, target, outcome, reason) =>
      b == a && t.phase == QUEUED && unmoved && Intends(t, target, outcome, reason)
    case Executing(b) => b == a && unmoved && intended
    case Verifying(b) => b == a && intended && a in s.moved && Stat(s.fs, t.target.value) == Some(t.identity)
    case Finishing(b, outcome, reason, actual) =>
      b == a && t.phase != DONE && t.item in s.rows && Rests(s.fs, t, a in s.moved) &&
      EndedAsPlanned(t.(phase := DONE, outcome := outcome, reason := reason, actual := actual), a in s.moved)
    case _ => false
  }

  lemma RowIsThere(s: State, a: nat)
    requires Inv(s) && a < |s.attempts| && s.attempts[a].phase != DONE
    ensures s.attempts[a].item in s.rows
  {
  }

  lemma LookGoesOn(s: State, a: nat)
    requires Inv(s) && Underway(s, a) && Enabled(s, Look)
    ensures Underway(Step(s, Look), a)
  {
    RowIsThere(s, a);
  }

  lemma RenameGoesOn(s: State, a: nat)
    requires Underway(s, a) && Enabled(s, Rename(Renamed))
    ensures Underway(Step(s, Rename(Renamed)), a)
  {
  }

  lemma CommitGoesOn(s: State, a: nat)
    requires Underway(s, a) && Enabled(s, Commit)
    ensures Underway(Step(s, Commit), a)
  {
  }

  lemma OutsideGoesOn(s: State, fs: Files, a: nat)
    requires Underway(s, a) && Undisturbed(s, Outside(fs), s.attempts[a], a)
    ensures Underway(s.(fs := fs), a)
  {
  }

  lemma PickGoesOn(s: State, a: nat)
    requires Underway(s, a) && Enabled(s, Pick(a))
    ensures Underway(Step(s, Pick(a)), a)
  {
  }

  lemma StepGoesOn(s: State, action: Action, a: nat)
    requires Inv(s) && Underway(s, a) && Enabled(s, action) && Undisturbed(s, action, s.attempts[a], a)
    ensures Underway(Step(s, action), a)
  {
    match action
    case Look => LookGoesOn(s, a);
    case Rename(_) => RenameGoesOn(s, a);
    case Commit => CommitGoesOn(s, a);
    case Outside(fs) => OutsideGoesOn(s, fs, a);
    case Pick(_) => PickGoesOn(s, a);
  }

  lemma {:induction false} StepsGoOn(s: State, a: nat, actions: seq<Action>, t: State)
    requires Inv(s) && Underway(s, a) && UndisturbedSteps(s, a, actions, t)
    ensures Underway(t, a)
    decreases |actions|
  {
    if actions != [] {
      StepGoesOn(s, actions[0], a);
      StepKeepsInv(s, actions[0]);
      StepsGoOn(Step(s, actions[0]), a, actions[1..], t);
    }
  }

  /** An attempt whose source is unchanged and whose destination is free, and that nobody disturbs, ends exactly as
      planned: a file that will move is sorted at its target, one for review is at its review path with the planned
      reason, one that needs a decision stays at its source with the planned reason. */
  lemma UndisturbedEndsAsPlanned(s: State, a: nat, actions: seq<Action>, t: State)
    requires Inv(s) && PlansFollowed(s)
    requires s.proc.Idle? && a < |s.attempts| && s.attempts[a].phase == QUEUED && Clear(s.fs, s.attempts[a])
    requires UndisturbedSteps(s, a, actions, t) && t.proc.Idle?
    ensures a < |t.attempts| && (t.attempts[a].phase == QUEUED ||
              (EndedAsPlanned(t.attempts[a], a in t.moved) && Rests(t.fs, t.attempts[a], a in t.moved)))
  {
    assert RecordOk(s.attempts[a]);
    StepsGoOn(s, a, actions, t);
  }

  // What was seen when an attempt is ended.
  ghost predicate EndIsSeen(fs: Files, t: Attempt, now: Proc, outcome: Outcome, reason: Option<Reason>, actual: Option<Path>) {
    if outcome.Skipped? then
      (reason == Some(SourceMissing) <==> Stat(fs, t.source) == None) &&
      (Stat(fs, t.source) == Some(t.identity) ==> t.plan.Conflicting? || now.Rechecking?)
    else if outcome.RequiresDecision? then Stat(fs, t.source) == Some(t.identity) || (now.ManualCheck? && t.manual in fs)
    else Departs(outcome) && actual.Some? && actual == t.target && Stat(fs, actual.value) == Some(t.identity)
  }

  // What was seen when a worker that was at one place goes on to another.
  ghost predicate IsSeen(fs: Files, t: Attempt, now: Proc, next: Proc) {
    var atSource := Stat(fs, t.source) == Some(t.identity);
    match next
    case Finishing(_, outcome, reason, actual) => EndIsSeen(fs, t, now, outcome, reason, actual)
    case ManualCheck(_) => atSource
    case Intending(_, target, _, _) => if now.ManualCheck? then target !in fs else atSource
    case QuarantineCheck(_) => atSource
    case QuarantineIntending(_) => t.quarantine !in fs
    case Requeueing(_) => atSource && t.target == None
    case Reintending(_) =>
      atSource && t.target.Some? && t.target.value !in fs && (t.intended == Quarantined ==> now.Recovering? && now.operator)
    case Failing(_, actual) =>
      actual == None || (actual == Some(t.source) && (atSource || (now.QuarantineCheck? && t.quarantine in fs)))
    case _ => false
  }

  lemma LookIsSeen(fs: Files, t: Attempt, p: Proc)
    requires Looks(p) && RecordOk(t) && (p.QuarantineVerifying? ==> QuarantineIntended(t))
    ensures IsSeen(fs, t, p, AfterLook(fs, t, p)) && AfterLook(fs, t, p).a == p.a
  {
  }

  /** Whatever a worker does after a look is what it saw: a file is skipped as missing exactly if nothing regular is at its
      source, a move is recorded only for the accepted file at its destination, an intent is made or repeated only for a
      file that is still at its source, and only the operator repeats a quarantine move. */
  lemma LooksAreJustified(s: State)
    requires RecordsOk(s.attempts) && ProcOk(s.attempts, s.proc) && Enabled(s, Look)
    ensures IsSeen(s.fs, s.attempts[s.proc.a], s.proc, Step(s, Look).proc)
  {
    LookIsSeen(s.fs, s.attempts[s.proc.a], s.proc);
  }

  // --- The records around an attempt --------------------------------------------------------------

  // An attempt holds what was requested; an item that is taken already is only reported as such.
  ghost predicate RecordsRequest(u: Attempt, batch: nat, r: Request, taken: bool) {
    u.batch == batch && u.item == r.item && u.source == r.source && u.identity == r.identity && u.plan == r.plan &&
    u.manual == r.manual && u.quarantine == r.quarantine && u.target == None && u.actual == None &&
    if taken then u.phase == DONE && u.outcome == Skipped && u.reason == Some(AlreadyProcessing)
    else u.phase == QUEUED && u.outcome == Pending && u.reason == None && !u.started
  }

  ghost predicate RecordsRequests(before: seq<Attempt>, attempts: seq<Attempt>, batch: nat, requests: seq<Request>,
                                  claims: map<nat, nat>) {
    |attempts| == |before| + |requests| && before <= attempts &&
    forall i: nat :: i < |requests| ==>
      RecordsRequest(attempts[|before| + i], batch, requests[i], requests[i].item in claims)
  }

  // A free item is claimed by its attempt, and its row shows that.
  ghost predicate TakesItem(s: State, claims: map<nat, nat>, rows: map<nat, Row>, r: Request, a: nat) {
    r.item in claims && claims[r.item] == a && r.item in s.rows && r.item in rows &&
    rows[r.item] == s.rows[r.item].(status := IN_PROCESS, selectable := false, active := Some(a), reason := None)
  }

  ghost predicate TakesItems(s: State, claims: map<nat, nat>, rows: map<nat, Row>, requests: seq<Request>) {
    forall i: nat :: i < |requests| && requests[i].item !in s.claims ==>
      TakesItem(s, claims, rows, requests[i], |s.attempts| + i)
  }

  ghost predicate LeavesItem(s: State, claims: map<nat, nat>, rows: map<nat, Row>, item: nat) {
    (item in claims <==> item in s.claims) && (item in claims ==> claims[item] == s.claims[item]) &&
    (item in rows <==> item in s.rows) && (item in rows ==> rows[item] == s.rows[item])
  }

  ghost predicate Asks(requests: seq<Request>, item: nat) {
    exists i :: 0 <= i < |requests| && requests[i].item == item
  }

  lemma AsksLast(requests: seq<Request>, item: nat)
    requires requests != []
    ensures Asks(requests, item) <==> Asks(requests[..|requests| - 1], item) || item == requests[|requests| - 1].item
  {
    var n := |requests| - 1;
    if Asks(requests, item) && item != requests[n].item {
      var i :| 0 <= i < |requests| && requests[i].item == item;
      assert requests[..n][i].item == item;
    }
  }

  // Items that are taken already, and items nobody asked for.
  ghost predicate LeavesOthers(s: State, claims: map<nat, nat>, rows: map<nat, Row>, requests: seq<Request>) {
    forall item :: item in s.claims || !Asks(requests, item) ==> LeavesItem(s, claims, rows, item)
  }

  lemma TakeLeavesOthers(s: State, claims: map<nat, nat>, rows: map<nat, Row>, requests: seq<Request>, a: nat, row: Row)
    requires requests != [] && LeavesOthers(s, claims, rows, requests[..|requests| - 1])
    requires requests[|requests| - 1].item !in s.claims
    ensures var item := requests[|requests| - 1].item;
            LeavesOthers(s, claims[item := a], rows[item := row], requests)
  {
    var last := requests[|requests| - 1].item;
    forall item | item in s.claims || !Asks(requests, item)
      ensures LeavesItem(s, claims[last := a], rows[last := row], item)
    {
      AsksLast(requests, item);
      assert LeavesItem(s, claims, rows, item);
    }
  }

  lemma FewerLeavesOthers(s: State, claims: map<nat, nat>, rows: map<nat, Row>, requests: seq<Request>)
    requires requests != [] && LeavesOthers(s, claims, rows, requests[..|requests| - 1])
    ensures LeavesOthers(s, claims, rows, requests)
  {
    forall item | item in s.claims || !Asks(requests, item) ensures LeavesItem(s, claims, rows, item) {
      AsksLast(requests, item);
    }
  }

  lemma TakeTakesItems(s: State, claims: map<nat, nat>, rows: map<nat, Row>, requests: seq<Request>, row: Row)
    requires requests != [] && DistinctItems(requests) && TakesItems(s, claims, rows, requests[..|requests| - 1])
    requires requests[|requests| - 1].item in s.rows
    requires row == s.rows[requests[|requests| - 1].item].(status := IN_PROCESS, selectable := false,
                                                           active := Some(|s.attempts| + |requests| - 1), reason := None)
    ensures var item := requests[|requests| - 1].item;
            TakesItems(s, claims[item := |s.attempts| + |requests| - 1], rows[item := row], requests)
  {
    var n, item := |requests| - 1, requests[|requests| - 1].item;
    var a := |s.attempts| + n;
    forall i: nat | i < |requests| && requests[i].item !in s.claims
      ensures TakesItem(s, claims[item := a], rows[item := row], requests[i], |s.attempts| + i)
    {
      if i < n {
        assert requests[..n][i] == requests[i];
        assert TakesItem(s, claims, rows, requests[..n][i], |s.attempts| + i);
      }
    }
  }

  lemma TakenTakesItems(s: State, claims: map<nat, nat>, rows: map<nat, Row>, requests: seq<Request>)
    requires requests != [] && TakesItems(s, claims, rows, requests[..|requests| - 1])
    requires requests[|requests| - 1].item in s.claims
    ensures TakesItems(s, claims, rows, requests)
  {
    var n := |requests| - 1;
    forall i: nat | i < |requests| && requests[i].item !in s.claims
      ensures TakesItem(s, claims, rows, requests[i], |s.attempts| + i)
    {
      assert requests[..n][i] == requests[i];
      assert TakesItem(s, claims, rows, requests[..n][i], |s.attempts| + i);
    }
  }

  lemma OneMoreRecorded(before: seq<Attempt>, attempts: seq<Attempt>, batch: nat, requests: seq<Request>,
                        claims: map<nat, nat>)
    requires requests != [] && RecordsRequests(before, attempts, batch, requests[..|requests| - 1], claims)
    ensures var r := requests[|requests| - 1];
            RecordsRequests(before, attempts + [NewAttempt(batch, r, r.item in claims)], batch, requests, claims)
  {
    var n := |requests| - 1;
    assert forall i :: 0 <= i < n ==> requests[..n][i] == requests[i];
  }

  ghost predicate RecordsAll(s: State, t: State, batch: nat, requests: seq<Request>) {
    t.fs == s.fs && t.moved == s.moved &&
    RecordsRequests(s.attempts, t.attempts, batch, requests, s.claims) &&
    TakesItems(s, t.claims, t.rows, requests) && LeavesOthers(s, t.claims, t.rows, requests)
  }

  lemma LastIsUntouched(s: State, claims: map<nat, nat>, rows: map<nat, Row>, requests: seq<Request>)
    requires requests != [] && DistinctItems(requests) && LeavesOthers(s, claims, rows, requests[..|requests| - 1])
    ensures LeavesItem(s, claims, rows, requests[|requests| - 1].item)
  {
    var n := |requests| - 1;
    assert forall i :: 0 <= i < n ==> requests[..n][i] == requests[i];
  }

  lemma {:induction false} AllRecorded(s: State, batch: nat, requests: seq<Request>)
    requires DistinctItems(requests) && forall i :: 0 <= i < |requests| ==> Acceptable(s, requests[i])
    ensures RecordsAll(s, AcceptAll(s, batch, requests), batch, requests)
  {
    if requests != [] {
      var n := |requests| - 1;
      var t, r := AcceptAll(s, batch, requests[..n]), requests[n];
      AllRecorded(s, batch, requests[..n]);
      LastIsUntouched(s, t.claims, t.rows, requests);
      OneMoreRecorded(s.attempts, t.attempts, batch, requests, s.claims);
      assert Acceptable(s, r);
      LastRecorded(s, t, batch, requests);
    }
  }

  lemma LastRecorded(s: State, t: State, batch: nat, requests: seq<Request>)
    requires requests != [] && DistinctItems(requests) && Acceptable(s, requests[|requests| - 1])
    requires RecordsAll(s, t, batch, requests[..|requests| - 1])
    requires var r := requests[|requests| - 1];
             LeavesItem(s, t.claims, t.rows, r.item) &&
             RecordsRequests(s.attempts, t.attempts + [NewAttempt(batch, r, r.item in s.claims)], batch, requests, s.claims)
    ensures RecordsAll(s, AcceptOne(t, batch, requests[|requests| - 1]), batch, requests)
  {
    var r, a := requests[|requests| - 1], |t.attempts|;
    if r.item in s.claims {
      FewerLeavesOthers(s, t.claims, t.rows, requests);
      TakenTakesItems(s, t.claims, t.rows, requests);
    } else {
      var row := t.rows[r.item].(status := IN_PROCESS, selectable := false, active := Some(a), reason := None);
      TakeLeavesOthers(s, t.claims, t.rows, requests, a, row);
      TakeTakesItems(s, t.claims, t.rows, requests, row);
    }
  }

  /** A request can be accepted exactly if its item is taken already, or its row is the one that was selected, can be
      selected, and the file is there unchanged. */
  lemma AcceptableIff(s: State, r: Request)
    ensures Acceptable(s, r) <==>
            r.item in s.claims ||
            (r.item in s.rows && s.rows[r.item].revision == r.revision && s.rows[r.item].selectable &&
             r.source in s.fs && s.fs[r.source] == File(r.identity))
  {
  }

  /** Accepting a batch records one attempt for each request, with the file, the plan and the paths that were requested,
      takes the items that were free, and leaves all others as they are. */
  lemma AcceptingRecordsRequests(s: State, requests: seq<Request>)
    requires Enabled(s, Accept(requests))
    ensures RecordsAll(s, Step(s, Accept(requests)), |s.batches|, requests)
  {
    AllRecorded(s, |s.batches|, requests);
  }

  // How the row of an item that is free again shows the end of its attempt.
  ghost predicate ShowsEnd(was: Row, row: Row, outcome: Outcome, reason: Option<Reason>, seen: Option<Identity>) {
    row.active == None &&
    (Departs(outcome) ==> row == was.(status := MISSING, selectable := false, active := None, reason := reason,
                                      departed := true)) &&
    (outcome.RequiresDecision? ==> row == was.(status := NEEDS_DECISION, selectable := true, active := None, reason := reason)) &&
    (outcome.Skipped? && (reason == Some(SourceMissing) || (reason == Some(SourceChanged) && seen == None)) ==>
      row == was.(status := MISSING, selectable := false, active := None, reason := Some(SourceMissing))) &&
    (outcome.Skipped? && reason == Some(SourceChanged) && seen.Some? ==>
      row == was.(status := WAITING_READY, selectable := false, active := None, reason := reason,
                  revision := was.revision + 1, identity := seen.value))
  }

  lemma ReleasedShowsEnd(was: Row, outcome: Outcome, reason: Option<Reason>, seen: Option<Identity>)
    ensures ShowsEnd(was, Released(was, outcome, reason, seen), outcome, reason, seen)
  {
  }

  /** Ending an attempt frees its item. A file that needs a decision can be selected again; a file that left is marked so;
      a missing file is shown as missing; a changed one waits under a new revision with the identity it has now. */
  lemma EndingFreesTheItem(s: State)
    requires Inv(s) && Enabled(s, Commit) && s.proc.Finishing?
    ensures var t, r, p := Step(s, Commit), s.attempts[s.proc.a], s.proc;
            r.item in s.rows && r.item in t.rows && r.item !in t.claims && p.a < |t.attempts| &&
            t.attempts[p.a].phase == DONE && t.attempts[p.a].outcome == p.outcome &&
            t.attempts[p.a].reason == p.reason && t.attempts[p.a].actual == p.actual &&
            ShowsEnd(s.rows[r.item], t.rows[r.item], p.outcome, p.reason, Stat(s.fs, r.source))
  {
    var r := s.attempts[s.proc.a];
    RowIsThere(s, s.proc.a);
    ReleasedShowsEnd(s.rows[r.item], s.proc.outcome, s.proc.reason, Stat(s.fs, r.source));
  }

  /** Setting an attempt aside keeps its item taken and its file's record as it was. */
  lemma SettingAsideKeepsTheItem(s: State)
    requires Inv(s) && Enabled(s, Commit) && s.proc.Failing?
    ensures var t, a := Step(s, Commit), s.proc.a;
            var r, u := s.attempts[a], t.attempts[a];
            t.claims == s.claims && u.phase == RECOVERY && u.outcome == RecoveryRequired &&
            u.target == r.target && u.intended == r.intended && u.intendedReason == r.intendedReason && u.plan == r.plan &&
            (r.phase != RECOVERY ==>
              u.actual == s.proc.actual && r.item in t.rows && t.rows[r.item].status == NEEDS_RECOVERY &&
              !t.rows[r.item].selectable && t.rows[r.item].active == Some(a))
  {
    RowIsThere(s, s.proc.a);
    assert RecordOk(s.attempts[s.proc.a]);
  }
}
