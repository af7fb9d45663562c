/**
 * Every recorded end follows from the plan that was accepted: where a file may go, under which outcome and with which
 * reason, over all runs and crashes; and what an attempt that nobody disturbs comes to.
 */
module FileMoverOutcomes {
  import opened Wrappers
  import opened FileMover
  import opened FileMoverSafety

  // Only these plans rename a file.
  predicate Moving(plan: Plan) {
    plan.WillMove? || plan.WillManualReview?
  }

  // A recorded destination is the one of the plan, with its outcome, or the quarantine.
  predicate IntentFollowsPlan(t: Attempt) {
    t.target.None? ||
    (Moving(t.plan) &&
     match t.intended
     case Sorted => t.plan.WillMove? && t.target == Some(t.plan.target) && t.intendedReason == None
     case ManualReview =>
       t.plan.WillManualReview? && t.target == Some(t.manual) && t.intendedReason == Some(t.plan.reason)
     case Quarantined => t.target == Some(t.quarantine) && t.intendedReason == Some(TechnicalError)
     case _ => false)
  }

  // The end of an attempt: its outcome, its reason and the place of its file.
  predicate EndFollowsPlan(t: Attempt, outcome: Outcome, reason: Option<Reason>, actual: Option<Path>) {
    match outcome
    case Sorted => t.plan.WillMove? && actual == Some(t.plan.target) && reason == None
    case ManualReview => t.plan.WillManualReview? && actual == Some(t.manual) && reason == Some(t.plan.reason)
    case Quarantined => Moving(t.plan) && actual == Some(t.quarantine) && reason == Some(TechnicalError)
    case RequiresDecision =>
      actual == Some(t.source) &&
      ((t.plan.NeedsDecision? && reason == Some(t.plan.reason)) ||
       (t.plan.WillManualReview? && reason == Some(ManualNameOccupied)) ||
       (Moving(t.plan) && reason == Some(TargetOccupied)))
    case Skipped =>
      (reason == Some(SourceMissing) && actual == None) ||
      (reason == Some(SourceChanged) && actual == Some(t.source)) ||
      (reason == Some(AlreadyProcessing) && actual == None)
    case _ => false
  }

  predicate AttemptFollowsPlan(t: Attempt) {
    IntentFollowsPlan(t) && (t.phase == DONE ==> EndFollowsPlan(t, t.outcome, t.reason, t.actual))
  }

  predicate ProcFollowsPlan(attempts: seq<Attempt>, p: Proc) {
    p.Idle? || p.a >= |attempts| ||
    (var t := attempts[p.a];
     match p
     case ManualCheck(_) => t.plan.WillManualReview?
     case Intending(_, target, outcome, reason) =>
       if outcome.Sorted? then t.plan.WillMove? && target == t.plan.target && reason == None
       else outcome.ManualReview? && t.plan.WillManualReview? && target == t.manual && reason == Some(t.plan.reason)
     case Finishing(_, outcome, reason, actual) => EndFollowsPlan(t, outcome, reason, actual)
     case _ => true)
  }

  ghost predicate PlansFollowed(s: State) {
    (forall a :: 0 <= a < |s.attempts| ==> AttemptFollowsPlan(s.attempts[a])) &&
    (forall a :: a in s.moved ==> a < |s.attempts| && Moving(s.attempts[a].plan) && s.attempts[a].target.Some?) &&
    ProcFollowsPlan(s.attempts, s.proc)
  }

  lemma LookFollowsPlan(fs: Files, attempts: seq<Attempt>, p: Proc)
    requires Looks(p) && p.a < |attempts| && AttemptFollowsPlan(attempts[p.a]) && ProcFollowsPlan(attempts, p)
    requires ProcOk(attempts, p) && RecordOk(attempts[p.a])
    ensures ProcFollowsPlan(attempts, AfterLook(fs, attempts[p.a], p))
  {
  }

  // One attempt was written, and what it says follows its plan.
  ghost predicate WritesPlan(s: State, t: State, a: nat) {
    a < |t.attempts| == |s.attempts| && t.attempts == s.attempts[a := t.attempts[a]] && t.moved == s.moved &&
    t.attempts[a].plan == s.attempts[a].plan && (s.attempts[a].target.Some? ==> t.attempts[a].target.Some?) &&
    AttemptFollowsPlan(t.attempts[a]) && ProcFollowsPlan(t.attempts, t.proc)
  }

  lemma IntendWritesPlan(s: State)
    requires s.proc.Intending? && s.proc.a < |s.attempts| && ProcFollowsPlan(s.attempts, s.proc)
    ensures WritesPlan(s, AfterIntend(s, s.attempts[s.proc.a], s.proc), s.proc.a)
  {
  }

  lemma RepeatWritesPlan(s: State)
    requires s.proc.QuarantineIntending? || s.proc.Requeueing? || s.proc.Reintending?
    requires ProcOk(s.attempts, s.proc) && RecordOk(s.attempts[s.proc.a]) && AttemptFollowsPlan(s.attempts[s.proc.a])
    ensures WritesPlan(s, AfterCommit(s), s.proc.a)
  {
  }

  lemma EndWritesPlan(s: State)
    requires s.proc.Finishing? || s.proc.Failing?
    requires ProcOk(s.attempts, s.proc) && AttemptFollowsPlan(s.attempts[s.proc.a]) && ProcFollowsPlan(s.attempts, s.proc)
    ensures WritesPlan(s, AfterCommit(s), s.proc.a)
  {
  }

  lemma ChangeFollowsPlan(s: State, t: State, a: nat)
    requires PlansFollowed(s) && WritesPlan(s, t, a)
    ensures PlansFollowed(t)
  {
  }

  lemma CommitFollowsPlan(s: State)
    requires PlansFollowed(s) && Enabled(s, Commit) && ProcOk(s.attempts, s.proc) && RecordOk(s.attempts[s.proc.a])
    ensures PlansFollowed(AfterCommit(s))
  {
    var a, t := s.proc.a, AfterCommit(s);
    assert AttemptFollowsPlan(s.attempts[a]);
    match s.proc
    case Intending(_, _, _, _) => IntendWritesPlan(s);
    case Finishing(_, _, _, _) => EndWritesPlan(s);
    case Failing(_, _) => EndWritesPlan(s);
    case _ => RepeatWritesPlan(s);
    ChangeFollowsPlan(s, t, a);
  }

  lemma RenameFollowsPlan(s: State, call: Call)
    requires PlansFollowed(s) && Enabled(s, Rename(call)) && ProcOk(s.attempts, s.proc)
    ensures PlansFollowed(AfterRename(s, call))
  {
    assert AttemptFollowsPlan(s.attempts[s.proc.a]);
  }

  lemma {:induction false} AcceptFollowsPlan(s: State, batch: nat, requests: seq<Request>)
    requires PlansFollowed(s) && ProcOk(s.attempts, s.proc)
    ensures var t := AcceptAll(s, batch, requests);
            PlansFollowed(t) && t.proc == s.proc && |t.attempts| >= |s.attempts| &&
            t.attempts[..|s.attempts|] == s.attempts
  {
    if requests != [] { AcceptFollowsPlan(s, batch, requests[..|requests| - 1]); }
  }

  lemma StepFollowsPlan(s: State, a: Action)
    requires Inv(s) && PlansFollowed(s) && Enabled(s, a)
    ensures PlansFollowed(Step(s, a))
  {
    match a
    case Accept(requests) => AcceptFollowsPlan(s, |s.batches|, requests);
    case Look => LookFollowsPlan(s.fs, s.attempts, s.proc);
    case Rename(call) => RenameFollowsPlan(s, call);
    case Commit => CommitFollowsPlan(s);
    case _ =>
  }

  lemma {:induction false} RunFollowsPlans(s: State, actions: seq<Action>, t: State)
    requires Inv(s) && PlansFollowed(s) && Steps(s, actions, t)
    ensures PlansFollowed(t)
    decreases |actions|
  {
    if actions != [] {
      StepFollowsPlan(s, actions[0]);
      StepKeepsInv(s, actions[0]);
      RunFollowsPlans(Step(s, actions[0]), actions[1..], t);
    }
  }

  lemma StartFollowed(s: State, actions: seq<Action>, t: State)
    requires Start(s) && Steps(s, actions, t)
    ensures Inv(t) && PlansFollowed(t)
  {
    StartIsOk(s);
    RunKeepsInv(s, actions, t);
    RunFollowsPlans(s, actions, t);
  }

  /** In every reachable state, whatever failed and whatever others did: a file is recorded as sorted only at its planned
      target, as moved to review only at its review path with the planned reason, as quarantined only at its quarantine
      path; a file whose plan does not move it was never renamed, and neither was an intent recorded for it. */
  lemma OutcomesFollowPlans(s: State, actions: seq<Action>, t: State, a: nat)
    requires Start(s) && Steps(s, actions, t) && a < |t.attempts|
    ensures var r := t.attempts[a];
            (r.outcome.Sorted? ==> r.plan.WillMove? && r.actual == Some(r.plan.target) && r.reason == None) &&
            (r.outcome.ManualReview? ==>
              r.plan.WillManualReview? && r.actual == Some(r.manual) && r.reason == Some(r.plan.reason)) &&
            (r.outcome.Quarantined? ==> r.actual == Some(r.quarantine) && r.reason == Some(TechnicalError)) &&
            (r.phase == DONE ==> EndFollowsPlan(r, r.outcome, r.reason, r.actual)) &&
            (!r.plan.WillMove? && !r.plan.WillManualReview? ==> a !in t.moved && r.target == None)
  {
    StartFollowed(s, actions, t);
    assert RecordOk(t.attempts[a]) && AttemptFollowsPlan(t.attempts[a]);
  }
}
