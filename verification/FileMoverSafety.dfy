/**
 * What holds in every reachable state of the file mover, whatever others do to the file system: claims,
 * queue rows, the log and the recorded phases always agree, and an ended attempt never changes again.
 */
module FileMoverSafety {
  import opened Wrappers
  import opened FileMover

  // --- The log --------------------------------------------------------------------------------

  lemma {:induction false} MarksAppend(log: seq<Event>, more: seq<Event>, a: nat)
    ensures Marks(log + more, a) == Marks(log, a) + Marks(more, a)
  {
    if more == [] {
      assert log + more == log;
    } else {
      var n := |more| - 1;
      MarksAppend(log, more[..n], a);
      assert (log + more)[..|log + more| - 1] == log + more[..n];
    }
  }

  lemma MarksOne(e: Event, a: nat)
    ensures Marks([e], a) == if e.attempt == a && !e.Blocked? then [e] else []
  {
    assert [e][..0] == [];
  }

  lemma MarksTwo(e: Event, f: Event, a: nat)
    ensures Marks([e] + [f], a) == Marks([e], a) + Marks([f], a)
  {
    MarksAppend([e], [f], a);
  }

  lemma {:induction false} MarksOfStranger(log: seq<Event>, a: nat)
    requires forall i :: 0 <= i < |log| ==> log[i].attempt != a
    ensures Marks(log, a) == []
  {
    if log != [] { MarksOfStranger(log[..|log| - 1], a); }
  }

  // One attempt changed, and the log grew by events about it.
  lemma LogGrows(attempts: seq<Attempt>, log: seq<Event>, a: nat, t: Attempt, more: seq<Event>)
    requires LogOk(attempts, log) && a < |attempts|
    requires forall i :: 0 <= i < |more| ==> more[i].attempt == a
    requires Expected(a, attempts[a]) + Marks(more, a) == Expected(a, t)
    ensures LogOk(attempts[a := t], log + more)
  {
    forall b | 0 <= b < |attempts|
      ensures Marks(log + more, b) == Expected(b, attempts[a := t][b])
    {
      MarksAppend(log, more, b);
      if b != a { MarksOfStranger(more, b); }
    }
  }

  lemma StartedMarks(a: nat, t: Attempt)
    requires RecordOk(t) && t.phase != DONE
    ensures Expected(a, t) + Marks(StartEvent(a, t), a) == [Started(a)]
  {
    if !t.started { MarksOne(Started(a), a); }
  }

  // --- One record changed ---------------------------------------------------------------------

  lemma KeepsClaims(attempts: seq<Attempt>, claims: map<nat, nat>, a: nat, t: Attempt)
    requires ClaimsOk(attempts, claims) && a < |attempts|
    requires t.item == attempts[a].item && (t.phase == DONE <==> attempts[a].phase == DONE)
    ensures ClaimsOk(attempts[a := t], claims)
  {
  }

  lemma ReleasesClaim(attempts: seq<Attempt>, claims: map<nat, nat>, a: nat, t: Attempt)
    requires ClaimsOk(attempts, claims) && a < |attempts| && attempts[a].phase != DONE
    requires t.item == attempts[a].item && t.phase == DONE
    ensures ClaimsOk(attempts[a := t], claims - {t.item})
  {
    var later, left := attempts[a := t], claims - {t.item};
    forall b | 0 <= b < |later| && later[b].phase != DONE ensures later[b].item in left && left[later[b].item] == b {
      assert b != a && claims[attempts[b].item] == b;
    }
  }

  lemma ReleasedIsFree(row: Row, outcome: Outcome, reason: Option<Reason>, seen: Option<Identity>)
    ensures !Held(Released(row, outcome, reason, seen))
  {
  }

  // --- Steps ----------------------------------------------------------------------------------

  // A transaction that changes one attempt, keeps its claim, and logs what it did.
  lemma ChangeKeeps(s: State, t: State, a: nat, u: Attempt, more: seq<Event>, p: Proc)
    requires Inv(s) && a < |s.attempts| && RecordOk(u) && u.item == s.attempts[a].item
    requires u.phase != DONE && s.attempts[a].phase != DONE
    requires forall i :: 0 <= i < |more| ==> more[i].attempt == a
    requires Expected(a, s.attempts[a]) + Marks(more, a) == Expected(a, u)
    requires p.Idle? || (p.a == a && ProcOk(s.attempts[a := u], p))
    requires t == s.(attempts := s.attempts[a := u], log := s.log + more, proc := p)
    ensures Inv(t)
  {
    LogGrows(s.attempts, s.log, a, u, more);
    KeepsClaims(s.attempts, s.claims, a, u);
  }

  function Intended(t: Attempt, p: Proc): Attempt
    requires p.Intending?
  {
    t.(phase := INTENT, target := Some(p.target), intended := p.outcome, intendedReason := p.reason,
       outcome := Processing, reason := None, started := true)
  }

  lemma IntendKeeps(s: State)
    requires Inv(s) && s.proc.Intending?
    ensures Inv(AfterIntend(s, s.attempts[s.proc.a], s.proc))
  {
    var a, t := s.proc.a, s.attempts[s.proc.a];
    StartedMarks(a, t);
    ChangeKeeps(s, AfterIntend(s, t, s.proc), a, Intended(t, s.proc), StartEvent(a, t), Executing(a));
  }

  // A transaction that logs nothing.
  lemma QuietChangeKeeps(s: State, t: State, a: nat, u: Attempt, p: Proc)
    requires Inv(s) && a < |s.attempts| && RecordOk(u) && u.item == s.attempts[a].item
    requires u.phase != DONE && s.attempts[a].phase != DONE && u.started == s.attempts[a].started
    requires !p.Idle? && p.a == a && ProcOk(s.attempts[a := u], p)
    requires t == s.(attempts := s.attempts[a := u], proc := p)
    ensures Inv(t)
  {
    assert s.log + [] == s.log;
    ChangeKeeps(s, t, a, u, [], p);
  }

  lemma QuarantineIntendKeeps(s: State)
    requires Inv(s) && s.proc.QuarantineIntending?
    ensures Inv(AfterQuarantineIntend(s, s.attempts[s.proc.a], s.proc.a))
  {
    var t := AfterQuarantineIntend(s, s.attempts[s.proc.a], s.proc.a);
    QuietChangeKeeps(s, t, s.proc.a, t.attempts[s.proc.a], t.proc);
  }

  lemma RequeueKeeps(s: State)
    requires Inv(s) && s.proc.Requeueing?
    ensures Inv(AfterRequeue(s, s.attempts[s.proc.a], s.proc.a))
  {
    var t := AfterRequeue(s, s.attempts[s.proc.a], s.proc.a);
    QuietChangeKeeps(s, t, s.proc.a, t.attempts[s.proc.a], t.proc);
  }

  lemma ReintendKeeps(s: State)
    requires Inv(s) && s.proc.Reintending?
    ensures Inv(AfterReintend(s, s.attempts[s.proc.a], s.proc.a))
  {
    var t := AfterReintend(s, s.attempts[s.proc.a], s.proc.a);
    QuietChangeKeeps(s, t, s.proc.a, t.attempts[s.proc.a], t.proc);
  }

  lemma FinishKeepsLog(attempts: seq<Attempt>, log: seq<Event>, a: nat, u: Attempt)
    requires LogOk(attempts, log) && a < |attempts| && RecordOk(attempts[a]) && attempts[a].phase != DONE
    requires u.phase == DONE
    ensures LogOk(attempts[a := u], log + StartEvent(a, attempts[a]) + [Finished(a, u.outcome, u.reason, u.actual)])
  {
    var first, last := StartEvent(a, attempts[a]), [Finished(a, u.outcome, u.reason, u.actual)];
    StartedMarks(a, attempts[a]);
    MarksOne(last[0], a);
    MarksAppend(first, last, a);
    LogGrows(attempts, log, a, u, first + last);
    assert log + first + last == log + (first + last);
  }

  lemma FreesRow(rows: map<nat, Row>, claims: map<nat, nat>, item: nat, row: Row)
    requires RowsOk(rows, claims) && !Held(row)
    ensures RowsOk(rows[item := row], claims - {item})
  {
  }

  lemma FinishKeepsRecords(attempts: seq<Attempt>, a: nat, u: Attempt)
    requires RecordsOk(attempts) && a < |attempts| && RecordOk(u)
    ensures RecordsOk(attempts[a := u])
  {
  }

  lemma FinishKeeps(s: State)
    requires Inv(s) && s.proc.Finishing?
    ensures Inv(AfterFinish(s, s.attempts[s.proc.a], s.proc))
  {
    var a, t := s.proc.a, s.attempts[s.proc.a];
    assert RecordOk(t);
    assert t.item in s.claims && t.item in s.rows;
    var row := Released(s.rows[t.item], s.proc.outcome, s.proc.reason, Stat(s.fs, t.source));
    var u := t.(phase := DONE, outcome := s.proc.outcome, reason := s.proc.reason, actual := s.proc.actual,
                started := true, finished := true);
    FinishKeepsLog(s.attempts, s.log, a, u);
    FinishKeepsRecords(s.attempts, a, u);
    ReleasesClaim(s.attempts, s.claims, a, u);
    ReleasedIsFree(s.rows[t.item], s.proc.outcome, s.proc.reason, Stat(s.fs, t.source));
    FreesRow(s.rows, s.claims, t.item, row);
  }

  lemma BlockedMarks(a: nat, t: Attempt)
    requires RecordOk(t) && t.phase != DONE
    ensures Expected(a, t) + Marks(BlockEvents(a, t), a) == [Started(a)]
    ensures forall i :: 0 <= i < |BlockEvents(a, t)| ==> BlockEvents(a, t)[i].attempt == a
  {
    StartedMarks(a, t);
    MarksOne(Blocked(a), a);
    MarksAppend(StartEvent(a, t), [Blocked(a)], a);
  }

  lemma HoldsRow(rows: map<nat, Row>, claims: map<nat, nat>, item: nat, row: Row)
    requires RowsOk(rows, claims) && item in claims && Held(row) && !row.selectable && row.active == rows[item].active
    ensures RowsOk(rows[item := row], claims)
  {
  }

  lemma BlockKeeps(s: State, item: nat)
    requires Inv(s) && item in s.claims
    ensures item in s.rows && Inv(s.(rows := BlockedRows(s.rows, item)))
  {
    HoldsRow(s.rows, s.claims, item, BlockedRows(s.rows, item)[item]);
  }

  function BlockedRows(rows: map<nat, Row>, item: nat): map<nat, Row> {
    if item !in rows then rows
    else rows[item := rows[item].(status := NEEDS_RECOVERY, selectable := false, reason := Some(RecoveryNeeded))]
  }

  lemma FailKeeps(s: State)
    requires Inv(s) && s.proc.Failing?
    ensures Inv(AfterFail(s, s.attempts[s.proc.a], s.proc))
  {
    var a, t := s.proc.a, s.attempts[s.proc.a];
    if t.phase != RECOVERY {
      BlockKeeps(s, t.item);
      BlockKeepsAttempt(s.(rows := BlockedRows(s.rows, t.item)));
    }
  }

  lemma BlockKeepsAttempt(s: State)
    requires Inv(s) && s.proc.Failing? && s.attempts[s.proc.a].phase != RECOVERY
    ensures var t := s.attempts[s.proc.a];
            var u := t.(phase := RECOVERY, outcome := RecoveryRequired, reason := Some(RecoveryNeeded),
                        actual := s.proc.actual, started := true, finished := false);
            Inv(s.(attempts := s.attempts[s.proc.a := u], log := s.log + BlockEvents(s.proc.a, t), proc := Idle))
  {
    var a, t := s.proc.a, s.attempts[s.proc.a];
    var u := t.(phase := RECOVERY, outcome := RecoveryRequired, reason := Some(RecoveryNeeded),
                actual := s.proc.actual, started := true, finished := false);
    BlockedMarks(a, t);
    ChangeKeeps(s, s.(attempts := s.attempts[a := u], log := s.log + BlockEvents(a, t), proc := Idle), a, u,
                BlockEvents(a, t), Idle);
  }

  lemma CommitKeeps(s: State)
    requires Inv(s) && Enabled(s, Commit)
    ensures Inv(AfterCommit(s))
  {
    match s.proc
    case Intending(_, _, _, _) => IntendKeeps(s);
    case QuarantineIntending(_) => QuarantineIntendKeeps(s);
    case Requeueing(_) => RequeueKeeps(s);
    case Reintending(_) => ReintendKeeps(s);
    case Finishing(_, _, _, _) => FinishKeeps(s);
    case Failing(_, _) => FailKeeps(s);
  }

  lemma LookKeeps(attempts: seq<Attempt>, fs: Files, p: Proc)
    requires Looks(p) && ProcOk(attempts, p) && RecordsOk(attempts)
    ensures ProcOk(attempts, AfterLook(fs, attempts[p.a], p))
  {
    assert RecordOk(attempts[p.a]);
  }

  // A new attempt, with the events of its acceptance.
  lemma LogAccepts(attempts: seq<Attempt>, log: seq<Event>, u: Attempt, more: seq<Event>)
    requires LogOk(attempts, log)
    requires forall i :: 0 <= i < |more| ==> more[i].attempt == |attempts|
    requires Marks(more, |attempts|) == Expected(|attempts|, u)
    ensures LogOk(attempts + [u], log + more)
  {
    forall b | 0 <= b < |attempts| + 1 ensures Marks(log + more, b) == Expected(b, (attempts + [u])[b]) {
      MarksAppend(log, more, b);
      if b < |attempts| { MarksOfStranger(more, b); } else { MarksOfStranger(log, b); }
    }
  }

  lemma SkippedMarks(a: nat)
    ensures var end := Finished(a, Skipped, Some(AlreadyProcessing), None);
            Marks([Started(a), end], a) == [Started(a), end]
  {
    var end := Finished(a, Skipped, Some(AlreadyProcessing), None);
    MarksOne(Started(a), a);
    MarksOne(end, a);
    MarksTwo(Started(a), end, a);
    assert [Started(a)] + [end] == [Started(a), end];
  }

  lemma ProcStays(attempts: seq<Attempt>, u: Attempt, p: Proc)
    requires ProcOk(attempts, p)
    ensures ProcOk(attempts + [u], p)
  {
  }

  lemma TakesClaim(attempts: seq<Attempt>, claims: map<nat, nat>, rows: map<nat, Row>, u: Attempt)
    requires ClaimsOk(attempts, claims) && RowsOk(rows, claims) && u.phase == QUEUED
    requires u.item !in claims && u.item in rows
    ensures ClaimsOk(attempts + [u], claims[u.item := |attempts|])
    ensures RowsOk(rows[u.item := rows[u.item].(status := IN_PROCESS, selectable := false, active := Some(|attempts|),
                                                reason := None)], claims[u.item := |attempts|])
  {
  }

  lemma AppendKeepsRecords(attempts: seq<Attempt>, claims: map<nat, nat>, u: Attempt)
    requires RecordsOk(attempts) && RecordOk(u)
    ensures RecordsOk(attempts + [u])
    ensures ClaimsOk(attempts, claims) && u.phase == DONE ==> ClaimsOk(attempts + [u], claims)
  {
  }

  lemma RefuseKeeps(s: State, batch: nat, r: Request)
    requires Inv(s) && r.item in s.claims
    ensures Inv(AcceptOne(s, batch, r))
  {
    var a, u := |s.attempts|, NewAttempt(batch, r, true);
    SkippedMarks(a);
    LogAccepts(s.attempts, s.log, u, [Started(a), Finished(a, Skipped, Some(AlreadyProcessing), None)]);
    ProcStays(s.attempts, u, s.proc);
    AppendKeepsRecords(s.attempts, s.claims, u);
  }

  lemma TakeKeeps(s: State, batch: nat, r: Request)
    requires Inv(s) && r.item !in s.claims && r.item in s.rows
    ensures Inv(AcceptOne(s, batch, r))
  {
    var u := NewAttempt(batch, r, false);
    LogAccepts(s.attempts, s.log, u, []);
    assert s.log + [] == s.log;
    ProcStays(s.attempts, u, s.proc);
    AppendKeepsRecords(s.attempts, s.claims, u);
    TakesClaim(s.attempts, s.claims, s.rows, u);
  }

  lemma AcceptOneKeeps(s: State, batch: nat, r: Request)
    requires Inv(s)
    ensures Inv(AcceptOne(s, batch, r))
  {
    if r.item in s.claims {
      RefuseKeeps(s, batch, r);
    } else if r.item in s.rows {
      TakeKeeps(s, batch, r);
    }
  }

  lemma {:induction false} AcceptAllKeeps(s: State, batch: nat, requests: seq<Request>)
    requires Inv(s)
    ensures Inv(AcceptAll(s, batch, requests))
  {
    if requests != [] {
      var n := |requests| - 1;
      AcceptAllKeeps(s, batch, requests[..n]);
      AcceptOneKeeps(AcceptAll(s, batch, requests[..n]), batch, requests[n]);
    }
  }

  lemma RenameKeeps(s: State, call: Call)
    requires ProcOk(s.attempts, s.proc) && RecordsOk(s.attempts) && Enabled(s, Rename(call))
    ensures ProcOk(s.attempts, AfterRename(s, call).proc)
  {
    assert RecordOk(s.attempts[s.proc.a]);
  }

  lemma ScanKeeps(rows: map<nat, Row>, claims: map<nat, nat>, item: nat, row: Row)
    requires RowsOk(rows, claims) && !Held(row) && (item in rows ==> !Held(rows[item]))
    ensures RowsOk(rows[item := row], claims)
  {
  }

  lemma OtherStepKeeps(s: State, a: Action)
    requires Inv(s) && Enabled(s, a) && !a.Accept? && !a.Commit?
    ensures Inv(Step(s, a))
  {
    match a
    case Look => LookKeeps(s.attempts, s.fs, s.proc);
    case Scan(item, row) => ScanKeeps(s.rows, s.claims, item, row);
    case Rename(call) => RenameKeeps(s, call);
    case _ =>
  }

  /** Every transaction, look, rename, crash, exception, scan and outside change keeps the records in agreement. */
  lemma StepKeepsInv(s: State, a: Action)
    requires Inv(s) && Enabled(s, a)
    ensures Inv(Step(s, a))
  {
    match a
    case Accept(requests) => AcceptAllKeeps(s, |s.batches|, requests);
    case Commit => CommitKeeps(s);
    case _ => OtherStepKeeps(s, a);
  }

  lemma {:induction false} RunKeepsInv(s: State, actions: seq<Action>, t: State)
    requires Inv(s) && Steps(s, actions, t)
    ensures Inv(t)
    decreases |actions|
  {
    if actions != [] {
      StepKeepsInv(s, actions[0]);
      RunKeepsInv(Step(s, actions[0]), actions[1..], t);
    }
  }

  // --- What follows for every run -------------------------------------------------------------

  lemma StartIsOk(s: State)
    requires Start(s)
    ensures Inv(s)
  {
  }

  /** An item has a claim exactly when one attempt of it is unfinished; that attempt is the only one, the claim and
      the queue row both name it, and the row is not selectable. */
  lemma ClaimNamesTheUnfinishedAttempt(s: State, actions: seq<Action>, t: State, item: nat)
    requires Start(s) && Steps(s, actions, t)
    ensures item in t.claims <==> exists a :: 0 <= a < |t.attempts| && t.attempts[a].item == item && t.attempts[a].phase != DONE
    ensures forall a :: 0 <= a < |t.attempts| && t.attempts[a].item == item && t.attempts[a].phase != DONE ==>
              t.claims[item] == a && item in t.rows && t.rows[item].active == Some(a) && !t.rows[item].selectable
    ensures item in t.rows && item !in t.claims ==> t.rows[item].active == None
  {
    StartIsOk(s);
    RunKeepsInv(s, actions, t);
  }

  /** The log tells one story about every ended attempt: one start, then one end with the recorded outcome. */
  lemma OneStartThenOneFinish(s: State, actions: seq<Action>, t: State, a: nat)
    requires Start(s) && Steps(s, actions, t) && a < |t.attempts|
    ensures var r := t.attempts[a];
            if r.phase == DONE then Marks(t.log, a) == [Started(a), Finished(a, r.outcome, r.reason, r.actual)]
            else Marks(t.log, a) == [] || Marks(t.log, a) == [Started(a)]
    ensures t.attempts[a].phase == DONE <==> Terminal(t.attempts[a].outcome)
  {
    StartIsOk(s);
    RunKeepsInv(s, actions, t);
    assert RecordOk(t.attempts[a]);
  }

  // Attempts are only added, keep their identity, and never change once they ended.
  ghost predicate Extends(attempts: seq<Attempt>, later: seq<Attempt>) {
    |attempts| <= |later| &&
    forall a :: 0 <= a < |attempts| ==>
      later[a].batch == attempts[a].batch && later[a].item == attempts[a].item &&
      later[a].source == attempts[a].source && later[a].identity == attempts[a].identity &&
      later[a].plan == attempts[a].plan && later[a].manual == attempts[a].manual &&
      later[a].quarantine == attempts[a].quarantine &&
      (attempts[a].phase == DONE ==> later[a] == attempts[a])
  }

  lemma {:induction false} AcceptExtends(s: State, batch: nat, requests: seq<Request>)
    ensures s.attempts <= AcceptAll(s, batch, requests).attempts
  {
    if requests != [] { AcceptExtends(s, batch, requests[..|requests| - 1]); }
  }

  lemma CommitExtends(s: State)
    requires ProcOk(s.attempts, s.proc) && Enabled(s, Commit)
    ensures Extends(s.attempts, AfterCommit(s).attempts)
  {
    var a, t := s.proc.a, AfterCommit(s);
    if t.attempts != s.attempts {
      assert t.attempts == s.attempts[a := t.attempts[a]];
      ChangeExtends(s.attempts, a, t.attempts[a]);
    }
  }

  lemma ChangeExtends(attempts: seq<Attempt>, a: nat, u: Attempt)
    requires a < |attempts| && attempts[a].phase != DONE
    requires u.batch == attempts[a].batch && u.item == attempts[a].item && u.source == attempts[a].source
    requires u.identity == attempts[a].identity && u.plan == attempts[a].plan
    requires u.manual == attempts[a].manual && u.quarantine == attempts[a].quarantine
    ensures Extends(attempts, attempts[a := u])
  {
  }

  /** An attempt that ended never changes again, and no attempt changes the item, file or plan it is about. */
  lemma {:induction false} EndedAttemptsStay(s: State, actions: seq<Action>, t: State)
    requires Inv(s) && Steps(s, actions, t)
    ensures Extends(s.attempts, t.attempts)
    decreases |actions|
  {
    if actions != [] {
      var u := Step(s, actions[0]);
      StepExtends(s, actions[0]);
      StepKeepsInv(s, actions[0]);
      EndedAttemptsStay(u, actions[1..], t);
    }
  }

  lemma StepExtends(s: State, a: Action)
    requires ProcOk(s.attempts, s.proc) && Enabled(s, a)
    ensures Extends(s.attempts, Step(s, a).attempts)
  {
    match a
    case Accept(requests) => AcceptExtends(s, |s.batches|, requests);
    case Commit => CommitExtends(s);
    case _ =>
  }
}
