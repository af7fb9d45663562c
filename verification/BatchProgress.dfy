/**
 * The progress of an accepted batch, computed from the outcomes of its attempts.
 */
module BatchProgress {
  import opened Wrappers
  import opened FileMover
  import opened FileMoverSafety

  datatype Counts = Counts(sorted: nat, manualReview: nat, requiresDecision: nat, quarantined: nat, skipped: nat,
                           recoveryRequired: nat)
  {
    function Completed(): nat {
      sorted + manualReview + requiresDecision + quarantined + skipped
    }
  }

  datatype BatchStatus = ACCEPTED | RUNNING | BLOCKED | COMPLETED | COMPLETED_WITH_ISSUES

  function Tally(attempts: seq<Attempt>, batch: nat, o: Outcome): nat {
    if attempts == [] then 0
    else
      var last := attempts[|attempts| - 1];
      Tally(attempts[..|attempts| - 1], batch, o) + if last.batch == batch && last.outcome == o then 1 else 0
  }

  function Members(attempts: seq<Attempt>, batch: nat): nat {
    if attempts == [] then 0
    else Members(attempts[..|attempts| - 1], batch) + if attempts[|attempts| - 1].batch == batch then 1 else 0
  }

  function Ended(attempts: seq<Attempt>, batch: nat): nat {
    if attempts == [] then 0
    else
      var last := attempts[|attempts| - 1];
      Ended(attempts[..|attempts| - 1], batch) + if last.batch == batch && last.phase == DONE then 1 else 0
  }

  // The outcome counters, the overall status, and whether anything started.
  method View(attempts: seq<Attempt>, batch: nat, selected: nat) returns (counts: Counts, status: BatchStatus)
    ensures counts == Counts(Tally(attempts, batch, Sorted), Tally(attempts, batch, ManualReview),
                             Tally(attempts, batch, RequiresDecision), Tally(attempts, batch, Quarantined),
                             Tally(attempts, batch, Skipped), Tally(attempts, batch, RecoveryRequired))
    ensures status.COMPLETED? || status.COMPLETED_WITH_ISSUES? <==> counts.Completed() == selected
    ensures status.COMPLETED? ==> counts.sorted == selected
    ensures status.COMPLETED_WITH_ISSUES? ==> counts.sorted < selected
    ensures status.BLOCKED? <==> counts.Completed() != selected && counts.recoveryRequired > 0
    ensures status.RUNNING? || status.ACCEPTED? ==>
              (status.ACCEPTED? <==>
               forall a :: 0 <= a < |attempts| && attempts[a].batch == batch ==> !attempts[a].started)
  {
    var n := 0;
    var started := false;
    counts := Counts(0, 0, 0, 0, 0, 0);
    while n < |attempts|
      invariant n <= |attempts|
      invariant counts == Counts(Tally(attempts[..n], batch, Sorted), Tally(attempts[..n], batch, ManualReview),
                                 Tally(attempts[..n], batch, RequiresDecision), Tally(attempts[..n], batch, Quarantined),
                                 Tally(attempts[..n], batch, Skipped), Tally(attempts[..n], batch, RecoveryRequired))
      invariant started <==> exists a :: 0 <= a < n && attempts[a].batch == batch && attempts[a].started
    {
      assert attempts[..n + 1][..n] == attempts[..n];
      if attempts[n].batch == batch {
        counts := Add(counts, attempts[n].outcome);
        started := started || attempts[n].started;
      }
      n := n + 1;
    }
    assert attempts[..n] == attempts;
    if counts.Completed() == selected {
      status := if counts.sorted == counts.Completed() then COMPLETED else COMPLETED_WITH_ISSUES;
    } else if counts.recoveryRequired > 0 {
      status := BLOCKED;
    } else {
      status := if started then RUNNING else ACCEPTED;
    }
  }

  function Add(counts: Counts, o: Outcome): Counts {
    match o
    case Sorted => counts.(sorted := counts.sorted + 1)
    case ManualReview => counts.(manualReview := counts.manualReview + 1)
    case RequiresDecision => counts.(requiresDecision := counts.requiresDecision + 1)
    case Quarantined => counts.(quarantined := counts.quarantined + 1)
    case Skipped => counts.(skipped := counts.skipped + 1)
    case RecoveryRequired => counts.(recoveryRequired := counts.recoveryRequired + 1)
    case _ => counts
  }

  // --- What the counters mean -----------------------------------------------------------------

  // The attempts of a batch with an outcome.
  function Those(attempts: seq<Attempt>, batch: nat, o: Outcome): set<nat> {
    set a: nat | a < |attempts| && attempts[a].batch == batch && attempts[a].outcome == o
  }

  lemma ThoseGrow(attempts: seq<Attempt>, last: Attempt, batch: nat, o: Outcome)
    ensures |Those(attempts + [last], batch, o)| ==
            |Those(attempts, batch, o)| + if last.batch == batch && last.outcome == o then 1 else 0
  {
    var before, n := Those(attempts, batch, o), |attempts|;
    assert Those(attempts + [last], batch, o) == before + if last.batch == batch && last.outcome == o then {n} else {};
  }

  /** Each counter is the number of attempts of the batch with its outcome. */
  lemma {:induction false} TallyIsCount(attempts: seq<Attempt>, batch: nat, o: Outcome)
    ensures Tally(attempts, batch, o) == |Those(attempts, batch, o)|
  {
    if attempts != [] {
      var n := |attempts| - 1;
      TallyIsCount(attempts[..n], batch, o);
      ThoseGrow(attempts[..n], attempts[n], batch, o);
      assert attempts == attempts[..n] + [attempts[n]];
    }
  }

  lemma {:induction false} CompletedIsEnded(attempts: seq<Attempt>, batch: nat)
    requires RecordsOk(attempts)
    ensures Tally(attempts, batch, Sorted) + Tally(attempts, batch, ManualReview) +
            Tally(attempts, batch, RequiresDecision) + Tally(attempts, batch, Quarantined) +
            Tally(attempts, batch, Skipped) == Ended(attempts, batch)
  {
    if attempts != [] {
      var n := |attempts| - 1;
      assert RecordOk(attempts[n]);
      assert RecordsOk(attempts[..n]);
      CompletedIsEnded(attempts[..n], batch);
    }
  }

  lemma {:induction false} EndedBounds(attempts: seq<Attempt>, batch: nat)
    ensures Ended(attempts, batch) <= Members(attempts, batch)
    ensures Ended(attempts, batch) == Members(attempts, batch) <==>
              forall a :: 0 <= a < |attempts| && attempts[a].batch == batch ==> attempts[a].phase == DONE
  {
    if attempts != [] {
      var n := |attempts| - 1;
      EndedBounds(attempts[..n], batch);
      assert forall a :: 0 <= a < n ==> attempts[..n][a] == attempts[a];
    }
  }

  lemma {:induction false} EndedGrows(attempts: seq<Attempt>, later: seq<Attempt>, batch: nat)
    requires Extends(attempts, later)
    ensures Ended(attempts, batch) <= Ended(later, batch)
  {
    if |attempts| < |later| {
      EndedGrows(attempts, later[..|later| - 1], batch);
    } else if attempts != [] {
      var n := |attempts| - 1;
      EndedGrows(attempts[..n], later[..n], batch);
    }
  }

  // --- Every batch has as many attempts as it selected ----------------------------------------

  ghost predicate BatchesOk(attempts: seq<Attempt>, batches: seq<nat>) {
    (forall a :: 0 <= a < |attempts| ==> attempts[a].batch < |batches|) &&
    forall b: nat :: b < |batches| ==> Members(attempts, b) == batches[b]
  }

  lemma {:induction false} MembersSame(attempts: seq<Attempt>, later: seq<Attempt>, batch: nat)
    requires |later| == |attempts| && forall a :: 0 <= a < |attempts| ==> later[a].batch == attempts[a].batch
    ensures Members(later, batch) == Members(attempts, batch)
  {
    if attempts != [] { MembersSame(attempts[..|attempts| - 1], later[..|attempts| - 1], batch); }
  }

  lemma {:induction false} NoMembers(attempts: seq<Attempt>, batch: nat)
    requires forall a :: 0 <= a < |attempts| ==> attempts[a].batch != batch
    ensures Members(attempts, batch) == 0
  {
    if attempts != [] { NoMembers(attempts[..|attempts| - 1], batch); }
  }

  lemma {:induction false} AcceptAddsMembers(s: State, batch: nat, requests: seq<Request>)
    requires forall i :: 0 <= i < |requests| ==> requests[i].item in s.claims || requests[i].item in s.rows
    ensures var t := AcceptAll(s, batch, requests);
            t.rows.Keys == s.rows.Keys && (forall item :: item in s.claims ==> item in t.claims) &&
            s.attempts <= t.attempts && |t.attempts| == |s.attempts| + |requests| &&
            (forall a :: |s.attempts| <= a < |t.attempts| ==> t.attempts[a].batch == batch) &&
            forall b: nat :: Members(t.attempts, b) == Members(s.attempts, b) + if b == batch then |requests| else 0
  {
    if requests != [] {
      var n := |requests| - 1;
      AcceptAddsMembers(s, batch, requests[..n]);
      var t := AcceptAll(s, batch, requests[..n]);
      var u := AcceptOne(t, batch, requests[n]);
      assert u.attempts[..|t.attempts|] == t.attempts;
    }
  }

  lemma AcceptKeepsBatches(s: State, requests: seq<Request>)
    requires BatchesOk(s.attempts, s.batches) && Enabled(s, Accept(requests))
    ensures BatchesOk(Step(s, Accept(requests)).attempts, Step(s, Accept(requests)).batches)
  {
    AcceptAddsMembers(s, |s.batches|, requests);
    NoMembers(s.attempts, |s.batches|);
  }

  lemma StepKeepsLength(s: State, a: Action)
    requires Enabled(s, a) && !a.Accept?
    ensures |Step(s, a).attempts| == |s.attempts| && Step(s, a).batches == s.batches
  {
  }

  lemma {:induction false} RunKeepsBatches(s: State, actions: seq<Action>, t: State)
    requires Inv(s) && BatchesOk(s.attempts, s.batches) && Steps(s, actions, t)
    ensures Inv(t) && BatchesOk(t.attempts, t.batches)
    decreases |actions|
  {
    if actions != [] {
      var u := Step(s, actions[0]);
      StepKeepsInv(s, actions[0]);
      if actions[0].Accept? {
        AcceptKeepsBatches(s, actions[0].requests);
      } else {
        StepKeepsLength(s, actions[0]);
        StepExtends(s, actions[0]);
        forall b: nat | b < |s.batches| ensures Members(u.attempts, b) == s.batches[b] {
          MembersSame(s.attempts, u.attempts, b);
        }
      }
      RunKeepsBatches(u, actions[1..], t);
    }
  }

  /** In every reachable state the completed count of a batch is the number of its ended attempts, it never exceeds
      the number of selected files, and it reaches it exactly when all its attempts have ended. */
  lemma CompletedCountIsExact(s: State, actions: seq<Action>, t: State, batch: nat)
    requires Start(s) && Steps(s, actions, t) && batch < |t.batches|
    ensures var completed := Tally(t.attempts, batch, Sorted) + Tally(t.attempts, batch, ManualReview) +
                             Tally(t.attempts, batch, RequiresDecision) + Tally(t.attempts, batch, Quarantined) +
                             Tally(t.attempts, batch, Skipped);
            completed == Ended(t.attempts, batch) && completed <= t.batches[batch] &&
            (completed == t.batches[batch] <==>
              forall a :: 0 <= a < |t.attempts| && t.attempts[a].batch == batch ==> t.attempts[a].phase == DONE)
  {
    StartIsOk(s);
    assert BatchesOk(s.attempts, s.batches);
    RunKeepsBatches(s, actions, t);
    CompletedIsEnded(t.attempts, batch);
    EndedBounds(t.attempts, batch);
  }

  /** No crash, recovery or new batch ever lowers a completed count. */
  lemma CompletedCountNeverDrops(s: State, before: seq<Action>, t: State, after: seq<Action>, u: State, batch: nat)
    requires Start(s) && Steps(s, before, t) && Steps(t, after, u)
    ensures Ended(t.attempts, batch) <= Ended(u.attempts, batch)
  {
    StartIsOk(s);
    RunKeepsInv(s, before, t);
    EndedAttemptsStay(t, after, u);
    EndedGrows(t.attempts, u.attempts, batch);
  }
}
