/**
 * The worker in the form of the program: it lists the unfinished attempts and takes each through looks,
 * transactions and renames. Any call into the file system may raise, and others may change the tree before
 * every look and rename. The recorded trace shows that each execution is a run of the file mover.
 */
module Workers {
  import opened Wrappers
  import opened FileMover
  import opened FileMoverSafety
  import opened FileMoverOutcomes
  import opened FileMoverUndisturbed

  lemma {:induction false} StepsAppend(s: State, actions: seq<Action>, t: State, a: Action)
    requires Steps(s, actions, t) && Enabled(t, a)
    ensures Steps(s, actions + [a], Step(t, a))
    decreases |actions|
  {
    var all := actions + [a];
    if actions == [] {
      assert all[1..] == [];
      assert Steps(Step(s, a), all[1..], Step(s, a));
    } else {
      StepsAppend(Step(s, actions[0]), actions[1..], t, a);
      assert all[0] == actions[0] && all[1..] == actions[1..] + [a];
    }
  }

  ghost predicate Run(s: State, actions: seq<Action>, t: State) {
    Inv(s) && Steps(s, actions, t)
  }

  lemma RunAppends(s: State, actions: seq<Action>, t: State, a: Action)
    requires Run(s, actions, t) && Enabled(t, a)
    ensures Run(s, actions + [a], Step(t, a))
  {
    StepsAppend(s, actions, t, a);
  }

  lemma RunCommits(s: State, actions: seq<Action>, t: State)
    requires Run(s, actions, t) && Commits(t.proc)
    ensures t.proc.a < |t.attempts| && Run(s, actions + [Commit], AfterCommit(t))
  {
    RunKeepsInv(s, actions, t);
    RunAppends(s, actions, t, Commit);
  }

  lemma RunLooks(s: State, actions: seq<Action>, t: State)
    requires Run(s, actions, t) && Looks(t.proc)
    ensures t.proc.a < |t.attempts| &&
            Run(s, actions + [Look], t.(proc := AfterLook(t.fs, t.attempts[t.proc.a], t.proc)))
  {
    RunKeepsInv(s, actions, t);
    RunAppends(s, actions, t, Look);
  }

  lemma RunRaises(s: State, actions: seq<Action>, t: State)
    requires Run(s, actions, t) && !t.proc.Idle?
    ensures Run(s, actions + [Raise], t.(proc := Failing(t.proc.a, None)))
  {
    RunAppends(s, actions, t, Raise);
  }

  lemma RunChanges(s: State, actions: seq<Action>, t: State, fs: Files)
    requires Run(s, actions, t)
    ensures Run(s, actions + [Outside(fs)], t.(fs := fs))
  {
    RunAppends(s, actions, t, Outside(fs));
  }

  lemma RunRenames(s: State, actions: seq<Action>, t: State, call: Call)
    requires Run(s, actions, t) && Enabled(t, Rename(call))
    ensures Run(s, actions + [Rename(call)], AfterRename(t, call))
  {
    RunAppends(s, actions, t, Rename(call));
  }

  lemma RunPicks(s: State, actions: seq<Action>, t: State, a: nat)
    requires Run(s, actions, t) && t.proc.Idle? && a < |t.attempts| && t.attempts[a].phase != DONE
    ensures Run(s, actions + [Pick(a)],
                t.(proc := if t.attempts[a].phase == QUEUED then Starting(a) else Recovering(a, false)))
  {
    RunAppends(s, actions, t, Pick(a));
  }

  lemma RunPicksByOperator(s: State, actions: seq<Action>, t: State, a: nat)
    requires Run(s, actions, t) && t.proc.Idle? && a < |t.attempts|
    requires t.attempts[a].phase == INTENT || t.attempts[a].phase == RECOVERY
    ensures Run(s, actions + [PickByOperator(a)], t.(proc := Recovering(a, true)))
  {
    RunAppends(s, actions, t, PickByOperator(a));
  }

  lemma RunAccepts(s: State, actions: seq<Action>, t: State, requests: seq<Request>)
    requires Run(s, actions, t) && Enabled(t, Accept(requests))
    ensures Run(s, actions + [Accept(requests)],
                AcceptAll(t, |t.batches|, requests).(batches := t.batches + [|requests|]))
  {
    RunAppends(s, actions, t, Accept(requests));
  }

  // The place of the worker names an attempt whose phase is the one its next step expects.
  lemma PlaceOf(s: State, actions: seq<Action>, t: State)
    requires Run(s, actions, t) && !t.proc.Idle?
    ensures t.proc.a < |t.attempts| && t.attempts[t.proc.a].phase != DONE && t.attempts[t.proc.a].item in t.rows
    ensures t.attempts[t.proc.a].phase == INTENT ==> t.attempts[t.proc.a].target.Some?
    ensures ProcOk(t.attempts, t.proc)
  {
    RunKeepsInv(s, actions, t);
    assert RecordOk(t.attempts[t.proc.a]);
    assert t.attempts[t.proc.a].item in t.claims;
  }

  class Worker {
    var fs: Files
    var attempts: seq<Attempt>
    var claims: map<nat, nat>
    var rows: map<nat, Row>
    var log: seq<Event>
    var batches: seq<nat>
    ghost var moved: set<nat>
    ghost var proc: Proc
    ghost var origin: State
    ghost var trace: seq<Action>

    constructor (fs: Files, rows: map<nat, Row>)
      requires forall item :: item in rows ==> !Held(rows[item])
      ensures Valid() && proc.Idle? && Start(Now()) && trace == []
    {
      this.fs, this.rows := fs, rows;
      attempts, claims, log, batches, moved, proc := [], map[], [], [], {}, Idle;
      origin, trace := State(fs, [], map[], rows, [], [], {}, Idle), [];
    }

    ghost function Now(): State
      reads this
    {
      State(fs, attempts, claims, rows, log, batches, moved, proc)
    }

    ghost predicate Valid()
      reads this
    {
      Run(origin, trace, Now())
    }

    // The run so far has only been continued.
    ghost predicate Onward(start: State, before: seq<Action>)
      reads this
    {
      origin == start && before <= trace
    }

    // Only one attempt was touched.
    ghost predicate Only(before: seq<Attempt>, a: nat)
      reads this
    {
      |attempts| == |before| && forall b :: 0 <= b < |before| && b != a ==> attempts[b] == before[b]
    }

    // The attempt is ended or set aside.
    ghost predicate Settled(a: nat)
      reads this
    {
      proc.Idle? && a < |attempts| && (attempts[a].phase == DONE || attempts[a].phase == RECOVERY)
    }

    // --- Accepting a batch --------------------------------------------------------------------

    // The checks that come before anything is written.
    method Check(requests: seq<Request>) returns (ok: bool)
      ensures ok <==> forall i :: 0 <= i < |requests| ==> Acceptable(Now(), requests[i])
    {
      ok := true;
      for i := 0 to |requests|
        invariant ok <==> forall k :: 0 <= k < i ==> Acceptable(Now(), requests[k])
      {
        var r := requests[i];
        if r.item !in claims && (r.item !in rows || rows[r.item].revision != r.revision || !rows[r.item].selectable ||
                                 Stat(fs, r.source) != Some(r.identity)) {
          ok := false;
        }
      }
    }

    method AddAttempt(batch: nat, r: Request)
      requires r.item in claims || r.item in rows
      modifies this`attempts, this`claims, this`rows, this`log
      ensures Now() == AcceptOne(old(Now()), batch, r)
    {
      var a := |attempts|;
      if r.item in claims {
        log := log + [Started(a), Finished(a, Skipped, Some(AlreadyProcessing), None)];
        attempts := attempts + [NewAttempt(batch, r, true)];
      } else {
        attempts := attempts + [NewAttempt(batch, r, false)];
        claims := claims[r.item := a];
        rows := rows[r.item := rows[r.item].(status := IN_PROCESS, selectable := false, active := Some(a),
                                             reason := None)];
      }
    }

    method AddAttempts(batch: nat, requests: seq<Request>)
      requires forall i :: 0 <= i < |requests| ==> requests[i].item in claims || requests[i].item in rows
      modifies this`attempts, this`claims, this`rows, this`log
      ensures Now() == AcceptAll(old(Now()), batch, requests)
    {
      for i := 0 to |requests|
        invariant Now() == AcceptAll(old(Now()), batch, requests[..i])
        invariant forall k :: 0 <= k < |requests| ==> requests[k].item in claims || requests[k].item in rows
      {
        assert requests[..i + 1][..i] == requests[..i];
        AddAttempt(batch, requests[i]);
      }
      assert requests[..|requests|] == requests;
    }

    /** A selection becomes a batch only as a whole: either nothing changes, or every selected file has its attempt. */
    method AcceptBatch(requests: seq<Request>) returns (ok: bool)
      requires Valid() && DistinctItems(requests)
      modifies this`attempts, this`claims, this`rows, this`log, this`batches, this`trace
      ensures Valid()
      ensures ok <==> forall i :: 0 <= i < |requests| ==> Acceptable(old(Now()), requests[i])
      ensures Now() == if !ok then old(Now())
                       else AcceptAll(old(Now()), |old(batches)|, requests).(batches := old(batches) + [|requests|])
    {
      ok := Check(requests);
      if ok {
        RunAccepts(origin, trace, Now(), requests);
        AddAttempts(|batches|, requests);
        batches, trace := batches + [|requests|], trace + [Accept(requests)];
      }
    }

    // Others may do anything to the tree at any time.
    method Interfere()
      requires Valid()
      modifies this`fs, this`trace
      ensures Valid() && trace == old(trace) + [Outside(fs)]
    {
      var later: Files := *;
      RunChanges(origin, trace, Now(), later);
      fs, trace := later, trace + [Outside(later)];
    }

    ghost method Looked()
      requires Valid() && Looks(proc) && proc.a < |attempts|
      modifies this`proc, this`trace
      ensures Valid() && proc == AfterLook(fs, attempts[old(proc).a], old(proc)) && trace == old(trace) + [Look]
    {
      RunLooks(origin, trace, Now());
      proc, trace := AfterLook(fs, attempts[proc.a], proc), trace + [Look];
    }

    // --- Transactions -------------------------------------------------------------------------

    method Intend(a: nat, target: Path, outcome: Outcome, reason: Option<Reason>)
      requires Valid() && proc == Intending(a, target, outcome, reason)
      modifies this`attempts, this`log, this`proc, this`trace
      ensures Valid() && proc == Executing(a) && Only(old(attempts), a) && trace == old(trace) + [Commit]
    {
      PlaceOf(origin, trace, Now());
      RunCommits(origin, trace, Now());
      var t := attempts[a];
      log := log + StartEvent(a, t);
      attempts := attempts[a := t.(phase := INTENT, target := Some(target), intended := outcome,
                                   intendedReason := reason, outcome := Processing, reason := None, started := true)];
      proc, trace := Executing(a), trace + [Commit];
    }

    method IntendQuarantine(a: nat)
      requires Valid() && proc == QuarantineIntending(a)
      modifies this`attempts, this`proc, this`trace
      ensures Valid() && proc == QuarantineExecuting(a) && Only(old(attempts), a) && trace == old(trace) + [Commit]
    {
      PlaceOf(origin, trace, Now());
      RunCommits(origin, trace, Now());
      WriteQuarantineIntent(a);
      trace := trace + [Commit];
    }

    method WriteQuarantineIntent(a: nat)
      requires a < |attempts|
      modifies this`attempts, this`proc
      ensures Now() == AfterQuarantineIntend(old(Now()), old(attempts[a]), a)
    {
      attempts := attempts[a := attempts[a].(target := Some(attempts[a].quarantine), intended := Quarantined,
                                             intendedReason := Some(TechnicalError))];
      proc := QuarantineExecuting(a);
    }

    method Requeue(a: nat)
      requires Valid() && proc == Requeueing(a)
      modifies this`attempts, this`proc, this`trace
      ensures Valid() && proc == Starting(a) && Only(old(attempts), a) && trace == old(trace) + [Commit]
    {
      PlaceOf(origin, trace, Now());
      RunCommits(origin, trace, Now());
      WriteQueued(a);
      trace := trace + [Commit];
    }

    method WriteQueued(a: nat)
      requires a < |attempts|
      modifies this`attempts, this`proc
      ensures Now() == AfterRequeue(old(Now()), old(attempts[a]), a)
    {
      attempts := attempts[a := attempts[a].(phase := QUEUED, outcome := Pending, reason := None, actual := None,
                                             finished := false)];
      proc := Starting(a);
    }

    method Reintend(a: nat)
      requires Valid() && proc == Reintending(a)
      modifies this`attempts, this`proc, this`trace
      ensures Valid() && proc == Executing(a) && Only(old(attempts), a) && trace == old(trace) + [Commit]
    {
      PlaceOf(origin, trace, Now());
      RunCommits(origin, trace, Now());
      attempts := attempts[a := attempts[a].(phase := INTENT)];
      proc, trace := Executing(a), trace + [Commit];
    }

    method Finish(a: nat, outcome: Outcome, reason: Option<Reason>, actual: Option<Path>)
      requires Valid() && proc == Finishing(a, outcome, reason, actual)
      modifies this`attempts, this`rows, this`claims, this`log, this`proc, this`trace
      ensures Valid() && Only(old(attempts), a) && Settled(a)
      ensures attempts[a].phase == DONE && attempts[a].outcome == outcome && attempts[a].actual == actual
      ensures trace == old(trace) + [Commit]
    {
      PlaceOf(origin, trace, Now());
      RunCommits(origin, trace, Now());
      WriteFinished(a, outcome, reason, actual);
      trace := trace + [Commit];
    }

    method WriteFinished(a: nat, outcome: Outcome, reason: Option<Reason>, actual: Option<Path>)
      requires a < |attempts| && attempts[a].phase != DONE && attempts[a].item in rows
      modifies this`attempts, this`rows, this`claims, this`log, this`proc
      ensures Now() == AfterFinish(old(Now()), old(attempts[a]), Finishing(a, outcome, reason, actual))
    {
      var t := attempts[a];
      log := log + StartEvent(a, t) + [Finished(a, outcome, reason, actual)];
      attempts := attempts[a := t.(phase := DONE, outcome := outcome, reason := reason, actual := actual,
                                   started := true, finished := true)];
      rows := rows[t.item := Released(rows[t.item], outcome, reason, Stat(fs, t.source))];
      claims := claims - {t.item};
      proc := Idle;
    }

    method RecoveryIsRequired(a: nat, actual: Option<Path>)
      requires Valid() && proc == Failing(a, actual)
      modifies this`attempts, this`rows, this`log, this`proc, this`trace
      ensures Valid() && Only(old(attempts), a) && Settled(a)
      ensures trace == old(trace) + [Commit]
    {
      PlaceOf(origin, trace, Now());
      RunCommits(origin, trace, Now());
      WriteBlocked(a, actual);
      trace := trace + [Commit];
    }

    method WriteBlocked(a: nat, actual: Option<Path>)
      requires a < |attempts| && attempts[a].phase != DONE && attempts[a].item in rows
      modifies this`attempts, this`rows, this`log, this`proc
      ensures Now() == AfterFail(old(Now()), old(attempts[a]), Failing(a, actual))
    {
      var t := attempts[a];
      if t.phase != RECOVERY {
        log := log + BlockEvents(a, t);
        attempts := attempts[a := t.(phase := RECOVERY, outcome := RecoveryRequired, reason := Some(RecoveryNeeded),
                                     actual := actual, started := true, finished := false)];
        rows := rows[t.item := rows[t.item].(status := NEEDS_RECOVERY, selectable := false,
                                             reason := Some(RecoveryNeeded))];
      }
      proc := Idle;
    }

    // An unexpected exception: the attempt is left for recovery.
    method Raised(a: nat)
      requires Valid() && !proc.Idle? && proc.a == a
      modifies this`attempts, this`rows, this`log, this`proc, this`trace
      ensures Valid() && Onward(old(origin), old(trace)) && Only(old(attempts), a) && Settled(a)
    {
      RunRaises(origin, trace, Now());
      proc, trace := Failing(a, None), trace + [Raise];
      RecoveryIsRequired(a, None);
    }

    // Others act before the worker looks, and its look may raise.
    method Pause(a: nat) returns (raised: bool)
      requires Valid() && !proc.Idle? && proc.a == a
      modifies this`fs, this`attempts, this`rows, this`log, this`proc, this`trace
      ensures Valid() && Onward(old(origin), old(trace)) && Only(old(attempts), a)
      ensures raised ==> Settled(a)
      ensures !raised ==> proc == old(proc) && attempts == old(attempts) && a < |attempts|
      ensures !raised && proc.Verifying? ==> attempts[a].target.Some?
    {
      Interfere();
      PlaceOf(origin, trace, Now());
      raised := *;
      if raised {
        Raised(a);
      }
    }

    // --- The file system ----------------------------------------------------------------------

    // The no-replace rename: it may refuse, fail, or take place, and it may take place and still raise.
    method RenameNoReplace(a: nat, source: Path, target: Path) returns (call: Call)
      requires Valid() && (proc == Executing(a) || proc == QuarantineExecuting(a))
      requires a < |attempts| && attempts[a].source == source && attempts[a].target == Some(target)
      modifies this`fs, this`moved, this`proc, this`trace
      ensures Valid() && trace == old(trace) + [Rename(call)]
      ensures proc == if old(proc).Executing? then AfterCall(a, attempts[a], call) else AfterQuarantineCall(a, call)
    {
      call := Attempted(a, source, target);
      RunRenames(origin, trace, Now(), call);
      ApplyRename(a, source, target, call);
      trace := trace + [Rename(call)];
    }

    method Attempted(a: nat, source: Path, target: Path) returns (call: Call)
      requires a < |attempts|
      ensures CallPossible(fs, attempts[a], target, call)
    {
      call := *;
      if !CallPossible(fs, attempts[a], target, call) {
        call := Error;
      }
    }

    method ApplyRename(a: nat, source: Path, target: Path, call: Call)
      requires (proc == Executing(a) || proc == QuarantineExecuting(a)) && Enabled(Now(), Rename(call))
      requires a < |attempts| && attempts[a].source == source && attempts[a].target == Some(target)
      modifies this`fs, this`moved, this`proc
      ensures Now() == AfterRename(old(Now()), call)
    {
      if Moves(call) {
        fs := Moved(fs, source, target);
        moved := moved + {a};
      }
      proc := if proc.Executing? then AfterCall(a, attempts[a], call) else AfterQuarantineCall(a, call);
    }

    // --- One attempt --------------------------------------------------------------------------

    method Begin(a: nat)
      requires Valid() && proc == Starting(a)
      modifies this
      ensures Valid() && Onward(old(origin), old(trace)) && Only(old(attempts), a) && Settled(a)
    {
      var raised := Pause(a);
      if raised {
        return;
      }
      var t := attempts[a];
      var seen := Stat(fs, t.source);
      Looked();
      if seen.None? {
        Finish(a, Skipped, Some(SourceMissing), None);
      } else if seen.value != t.identity {
        Finish(a, Skipped, Some(SourceChanged), Some(t.source));
      } else {
        Carry(a);
      }
    }

    // The source is unchanged: do what the plan says.
    method Carry(a: nat)
      requires Valid() && a < |attempts| && Stat(fs, attempts[a].source) == Some(attempts[a].identity)
      requires proc == AtStart(fs, a, attempts[a])
      modifies this
      ensures Valid() && Onward(old(origin), old(trace)) && Only(old(attempts), a) && Settled(a)
    {
      var t := attempts[a];
      match t.plan
      case NeedsDecision(reason) => Finish(a, RequiresDecision, Some(reason), Some(t.source));
      case WillMove(target) =>
        CarryOut(a, target, Sorted, None);
      case WillManualReview(reason) => CarryToReview(a);
      case Conflicting => Finish(a, Skipped, Some(SourceChanged), Some(t.source));
    }

    method CarryToReview(a: nat)
      requires Valid() && proc == ManualCheck(a)
      modifies this
      ensures Valid() && Onward(old(origin), old(trace)) && Only(old(attempts), a) && Settled(a)
    {
      var raised := Pause(a);
      if !raised {
        CarryIfFree(a);
      }
    }

    // The review path is free, or somebody has to decide.
    method CarryIfFree(a: nat)
      requires Valid() && proc == ManualCheck(a) && a < |attempts|
      modifies this
      ensures Valid() && Onward(old(origin), old(trace)) && Only(old(attempts), a) && Settled(a)
    {
      var t := attempts[a];
      var occupied := t.manual in fs;
      Looked();
      if occupied {
        Finish(a, RequiresDecision, Some(ManualNameOccupied), Some(t.source));
      } else {
        CarryOut(a, t.manual, ManualReview, if t.plan.WillManualReview? then Some(t.plan.reason) else None);
      }
    }

    // The intent first, then the rename.
    method CarryOut(a: nat, target: Path, outcome: Outcome, reason: Option<Reason>)
      requires Valid() && proc == Intending(a, target, outcome, reason)
      modifies this`fs, this`moved, this`attempts, this`rows, this`claims, this`log, this`proc, this`trace
      ensures Valid() && Onward(old(origin), old(trace)) && Only(old(attempts), a) && Settled(a)
    {
      Intend(a, target, outcome, reason);
      Execute(a);
    }

    // Others act, then the rename is tried.
    method TryRename(a: nat) returns (call: Call)
      requires Valid() && (proc == Executing(a) || proc == QuarantineExecuting(a))
      modifies this`fs, this`moved, this`proc, this`trace
      ensures Valid() && Onward(old(origin), old(trace)) && a < |attempts|
      ensures proc == if old(proc).Executing? then AfterCall(a, attempts[a], call) else AfterQuarantineCall(a, call)
    {
      Interfere();
      PlaceOf(origin, trace, Now());
      var t := attempts[a];
      call := RenameNoReplace(a, t.source, t.target.value);
    }

    method Execute(a: nat)
      requires Valid() && proc == Executing(a)
      modifies this`fs, this`moved, this`attempts, this`rows, this`claims, this`log, this`proc, this`trace
      ensures Valid() && Onward(old(origin), old(trace)) && Only(old(attempts), a) && Settled(a)
    {
      var call := TryRename(a);
      var t := attempts[a];
      match call
      case Renamed => Verify(a);
      case RenamedThenChanged => RecoveryIsRequired(a, None);
      case Exists =>
        Finish(a, RequiresDecision, Some(if t.intended.ManualReview? then ManualNameOccupied else TargetOccupied),
               Some(t.source));
      case Vanished => Recheck(a);
      case _ => QuarantineOrRecover(a);
    }

    method Verify(a: nat)
      requires Valid() && proc == Verifying(a)
      modifies this`fs, this`attempts, this`rows, this`claims, this`log, this`proc, this`trace
      ensures Valid() && Onward(old(origin), old(trace)) && Only(old(attempts), a) && Settled(a)
    {
      var raised := Pause(a);
      if raised {
        return;
      }
      var t := attempts[a];
      var same := Stat(fs, t.target.value) == Some(t.identity);
      Looked();
      if same {
        Finish(a, t.intended, t.intendedReason, t.target);
      } else {
        RecoveryIsRequired(a, None);
      }
    }

    method Recheck(a: nat)
      requires Valid() && proc == Rechecking(a)
      modifies this`fs, this`attempts, this`rows, this`claims, this`log, this`proc, this`trace
      ensures Valid() && Onward(old(origin), old(trace)) && Only(old(attempts), a) && Settled(a)
    {
      var raised := Pause(a);
      if raised {
        return;
      }
      var t := attempts[a];
      var current := Stat(fs, t.source);
      Looked();
      if current.None? {
        Finish(a, Skipped, Some(SourceMissing), None);
      } else {
        Finish(a, Skipped, Some(SourceChanged), Some(t.source));
      }
    }

    // An ambiguous failure: quarantine only a file that is still proven to be at its source.
    method QuarantineOrRecover(a: nat)
      requires Valid() && proc == Doubting(a)
      modifies this`fs, this`moved, this`attempts, this`rows, this`claims, this`log, this`proc, this`trace
      ensures Valid() && Onward(old(origin), old(trace)) && Only(old(attempts), a) && Settled(a)
    {
      var raised := Pause(a);
      if raised {
        return;
      }
      var same := Stat(fs, attempts[a].source) == Some(attempts[a].identity);
      Looked();
      if same {
        Quarantine(a);
      } else {
        RecoveryIsRequired(a, None);
      }
    }

    method Quarantine(a: nat)
      requires Valid() && proc == QuarantineCheck(a)
      modifies this`fs, this`moved, this`attempts, this`rows, this`claims, this`log, this`proc, this`trace
      ensures Valid() && Onward(old(origin), old(trace)) && Only(old(attempts), a) && Settled(a)
    {
      var raised := Pause(a);
      if raised {
        return;
      }
      var occupied := attempts[a].quarantine in fs;
      Looked();
      if occupied {
        RecoveryIsRequired(a, Some(attempts[a].source));
      } else {
        QuarantineNow(a);
      }
    }

    method QuarantineNow(a: nat)
      requires Valid() && proc == QuarantineIntending(a)
      modifies this`fs, this`moved, this`attempts, this`rows, this`claims, this`log, this`proc, this`trace
      ensures Valid() && Onward(old(origin), old(trace)) && Only(old(attempts), a) && Settled(a)
    {
      IntendQuarantine(a);
      MoveToQuarantine(a);
    }

    method MoveToQuarantine(a: nat)
      requires Valid() && proc == QuarantineExecuting(a)
      modifies this`fs, this`moved, this`attempts, this`rows, this`claims, this`log, this`proc, this`trace
      ensures Valid() && Onward(old(origin), old(trace)) && Only(old(attempts), a) && Settled(a)
    {
      var call := TryRename(a);
      if call.Renamed? {
        VerifyQuarantine(a);
      } else {
        RecoveryIsRequired(a, None);
      }
    }

    method VerifyQuarantine(a: nat)
      requires Valid() && proc == QuarantineVerifying(a)
      modifies this`fs, this`attempts, this`rows, this`claims, this`log, this`proc, this`trace
      ensures Valid() && Onward(old(origin), old(trace)) && Only(old(attempts), a) && Settled(a)
    {
      var raised := Pause(a);
      if raised {
        return;
      }
      var t := attempts[a];
      var same := Stat(fs, t.quarantine) == Some(t.identity);
      Looked();
      if same {
        Finish(a, Quarantined, Some(TechnicalError), Some(t.quarantine));
      } else {
        RecoveryIsRequired(a, None);
      }
    }

    // --- Recovery -----------------------------------------------------------------------------

    method Recover(a: nat, operator: bool)
      requires Valid() && proc == Recovering(a, operator)
      modifies this
      ensures Valid() && Onward(old(origin), old(trace)) && Only(old(attempts), a) && Settled(a)
    {
      var raised := Pause(a);
      if raised {
        return;
      }
      var t := attempts[a];
      var atSource := Stat(fs, t.source) == Some(t.identity);
      if t.target.None? {
        RecoverUnintended(a, atSource);
      } else {
        RecoverIntent(a, operator, atSource);
      }
    }

    // Nothing was intended: the file is where it was, or the attempt stays set aside.
    method RecoverUnintended(a: nat, atSource: bool)
      requires Valid() && proc.Recovering? && proc.a == a && a < |attempts| && attempts[a].target.None?
      requires atSource <==> Stat(fs, attempts[a].source) == Some(attempts[a].identity)
      modifies this
      ensures Valid() && Onward(old(origin), old(trace)) && Only(old(attempts), a) && Settled(a)
    {
      var phase := attempts[a].phase;
      Looked();
      if phase == RECOVERY && atSource {
        Requeue(a);
        Begin(a);
      } else {
        RecoveryIsRequired(a, None);
      }
    }

    method Repeat(a: nat)
      requires Valid() && proc == Reintending(a)
      modifies this`fs, this`moved, this`attempts, this`rows, this`claims, this`log, this`proc, this`trace
      ensures Valid() && Onward(old(origin), old(trace)) && Only(old(attempts), a) && Settled(a)
    {
      Reintend(a);
      Execute(a);
    }

    method RecoverIntent(a: nat, operator: bool, atSource: bool)
      requires Valid() && proc == Recovering(a, operator) && a < |attempts| && attempts[a].target.Some?
      requires atSource <==> Stat(fs, attempts[a].source) == Some(attempts[a].identity)
      modifies this`fs, this`moved, this`attempts, this`rows, this`claims, this`log, this`proc, this`trace
      ensures Valid() && Onward(old(origin), old(trace)) && Only(old(attempts), a) && Settled(a)
    {
      var t := attempts[a];
      var target := t.target.value;
      var atTarget, occupied := Stat(fs, target) == Some(t.identity), target in fs;
      Looked();
      if !atSource && atTarget {
        Finish(a, t.intended, t.intendedReason, t.target);
      } else if atSource && !occupied && (!t.intended.Quarantined? || operator) {
        Repeat(a);
      } else {
        RecoveryIsRequired(a, if atSource then Some(t.source) else None);
      }
    }

    // What is recorded about ended attempts follows from their plans.
    ghost predicate Faithful()
      reads this
    {
      Start(origin) ==>
        forall b :: 0 <= b < |attempts| && attempts[b].phase == DONE ==>
          EndFollowsPlan(attempts[b], attempts[b].outcome, attempts[b].reason, attempts[b].actual)
    }

    lemma IsFaithful()
      requires Valid()
      ensures Faithful()
    {
      if Start(origin) {
        forall b | 0 <= b < |attempts| && attempts[b].phase == DONE
          ensures EndFollowsPlan(attempts[b], attempts[b].outcome, attempts[b].reason, attempts[b].actual)
        {
          OutcomesFollowPlans(origin, trace, Now(), b);
        }
      }
    }

    /** One attempt. It ends as its plan and what was found say, and exactly as planned if its source was unchanged, its
        destination free, and nobody disturbed the steps taken here. */
    method RunAttempt(a: nat) returns (processed: bool)
      requires Valid() && proc.Idle? && a < |attempts|
      modifies this
      ensures Valid() && Onward(old(origin), old(trace)) && Only(old(attempts), a) && Settled(a) && Faithful()
      ensures Start(origin) && old(attempts[a].phase) == QUEUED && Clear(old(fs), old(attempts[a])) &&
              UndisturbedSteps(old(Now()), a, trace[|old(trace)|..], Now()) ==>
                EndedAsPlanned(attempts[a], a in moved) && Rests(fs, attempts[a], a in moved)
    {
      ghost var before, done := Now(), trace;
      processed := Process(a);
      IsFaithful();
      if Start(origin) && before.attempts[a].phase == QUEUED && Clear(before.fs, before.attempts[a]) &&
         UndisturbedSteps(before, a, trace[|done|..], Now()) {
        StartFollowed(origin, done, before);
        UndisturbedEndsAsPlanned(before, a, trace[|done|..], Now());
      }
    }

    method Process(a: nat) returns (processed: bool)
      requires Valid() && proc.Idle? && a < |attempts|
      modifies this
      ensures Valid() && Onward(old(origin), old(trace)) && Only(old(attempts), a) && Settled(a)
    {
      if attempts[a].phase == DONE {
        return false;
      }
      RunPicks(origin, trace, Now(), a);
      trace := trace + [Pick(a)];
      if attempts[a].phase == QUEUED {
        proc := Starting(a);
        Begin(a);
      } else {
        proc := Recovering(a, false);
        Recover(a, false);
      }
      return true;
    }

    // The operator's recovery of one attempt, which may also repeat a quarantine move.
    method RecoverByOperator(a: nat) returns (done: bool)
      requires Valid() && proc.Idle? && a < |attempts|
      modifies this
      ensures Valid() && Onward(old(origin), old(trace)) && Only(old(attempts), a) && proc.Idle?
      ensures done <==> attempts[a].phase == DONE
      ensures old(attempts[a].phase) == DONE || old(attempts[a].phase) == QUEUED ==> attempts == old(attempts)
    {
      if attempts[a].phase == INTENT || attempts[a].phase == RECOVERY {
        RunPicksByOperator(origin, trace, Now(), a);
        proc, trace := Recovering(a, true), trace + [PickByOperator(a)];
        Recover(a, true);
      }
      done := attempts[a].phase == DONE;
    }

    // The first n attempts are ended or set aside, the others are as they were, and so are the ended ones.
    ghost predicate Passed(before: seq<Attempt>, n: nat)
      reads this
    {
      |attempts| == |before| &&
      forall b :: 0 <= b < |before| ==>
        (b < n ==> attempts[b].phase == DONE || attempts[b].phase == RECOVERY) &&
        (b >= n || before[b].phase == DONE ==> attempts[b] == before[b])
    }

    method Visit(before: seq<Attempt>, a: nat) returns (processed: bool)
      requires Valid() && proc.Idle? && a < |attempts| && Passed(before, a)
      modifies this
      ensures Valid() && Onward(old(origin), old(trace)) && proc.Idle? && Passed(before, a + 1)
    {
      if before[a].phase == DONE {
        return false;
      }
      processed := RunAttempt(a);
    }

    /** One pass over the durable work: whatever fails and whatever others do meanwhile, every attempt that was
        unfinished is ended or set aside for recovery, and no ended attempt is touched. */
    method RunOnce() returns (processed: nat)
      requires Valid() && proc.Idle?
      modifies this
      ensures Valid() && Onward(old(origin), old(trace)) && proc.Idle? && |attempts| == |old(attempts)|
      ensures forall a :: 0 <= a < |attempts| ==> attempts[a].phase == DONE || attempts[a].phase == RECOVERY
      ensures forall a :: 0 <= a < |attempts| && old(attempts[a].phase) == DONE ==> attempts[a] == old(attempts[a])
      ensures Faithful()
    {
      processed := 0;
      var before := attempts;
      for a := 0 to |before|
        invariant Valid() && Onward(old(origin), old(trace)) && proc.Idle? && Passed(before, a)
      {
        var done := Visit(before, a);
        processed := processed + if done then 1 else 0;
      }
      IsFaithful();
    }
  }
}
