/**
 * Where the files are. While others only add new files at free paths, every file of an unfinished attempt
 * is at its source or at the destination that was recorded before the rename, over all runs and crashes.
 */
module FileMoverPlacement {
  import opened Wrappers
  import opened FileMover
  import opened FileMoverSafety

  // No two paths are the same regular file.
  ghost predicate Unique(fs: Files) {
    forall p, q :: p in fs && q in fs && fs[p].File? && fs[p] == fs[q] ==> p == q
  }

  ghost predicate OnlyAdds(fs: Files, later: Files) {
    (forall p :: p in fs ==> p in later && later[p] == fs[p]) && Unique(later)
  }

  predicate Live(t: Attempt) {
    t.phase != DONE
  }

  // Accepted files come from paths where no unfinished attempt has its file.
  ghost predicate Apart(attempts: seq<Attempt>, source: Path) {
    forall a :: 0 <= a < |attempts| && Live(attempts[a]) ==>
      attempts[a].source != source && attempts[a].target != Some(source)
  }

  ghost predicate DistinctSources(requests: seq<Request>) {
    forall i, j :: 0 <= i < j < |requests| ==> requests[i].source != requests[j].source
  }

  ghost predicate Benign(s: State, a: Action) {
    match a
    case Outside(fs) => OnlyAdds(s.fs, fs)
    case Accept(requests) =>
      DistinctSources(requests) &&
      forall i :: 0 <= i < |requests| && requests[i].item !in s.claims ==> Apart(s.attempts, requests[i].source)
    case _ => true
  }

  ghost predicate BenignSteps(s: State, actions: seq<Action>, t: State)
    decreases |actions|
  {
    if actions == [] then s == t
    else Enabled(s, actions[0]) && Benign(s, actions[0]) && BenignSteps(Step(s, actions[0]), actions[1..], t)
  }

  // --- The invariant --------------------------------------------------------------------------

  predicate At(fs: Files, path: Path, identity: Identity) {
    path in fs && fs[path] == File(identity)
  }

  ghost predicate Placed(fs: Files, moved: set<nat>, a: nat, t: Attempt) {
    if a in moved then t.target.Some? && t.target.value != t.source && At(fs, t.target.value, t.identity)
    else At(fs, t.source, t.identity)
  }

  ghost predicate PlacesOk(fs: Files, attempts: seq<Attempt>, moved: set<nat>) {
    forall a :: 0 <= a < |attempts| && Live(attempts[a]) ==> Placed(fs, moved, a, attempts[a])
  }

  ghost predicate LiveApart(attempts: seq<Attempt>) {
    forall a, b :: 0 <= a < b < |attempts| && Live(attempts[a]) && Live(attempts[b]) ==>
      attempts[a].identity != attempts[b].identity
  }

  ghost predicate MovedOk(attempts: seq<Attempt>, moved: set<nat>) {
    (forall a :: a in moved ==> a < |attempts|) &&
    (forall a :: 0 <= a < |attempts| && attempts[a].phase == DONE ==> (a in moved <==> Departs(attempts[a].outcome)))
  }

  ghost predicate ProcPlaced(attempts: seq<Attempt>, moved: set<nat>, p: Proc) {
    p.Idle? ||
    (p.a < |attempts| &&
     match p
     case Idle => true
     case Executing(a) => a !in moved
     case QuarantineCheck(a) => a !in moved
     case QuarantineIntending(a) => a !in moved
     case QuarantineExecuting(a) => a !in moved
     case Reintending(a) => a !in moved
     case Verifying(a) => a in moved
     case QuarantineVerifying(a) => a in moved
     case Rechecking(a) => false
     case Finishing(a, outcome, _, actual) =>
       (Departs(outcome) <==> a in moved) &&
       (outcome.RequiresDecision? ==> actual == Some(attempts[a].source))
     case Failing(a, actual) => actual.Some? ==> a !in moved && actual == Some(attempts[a].source)
     case _ => true)
  }

  ghost predicate PlaceInv(s: State) {
    Unique(s.fs) && PlacesOk(s.fs, s.attempts, s.moved) && LiveApart(s.attempts) && MovedOk(s.attempts, s.moved) &&
    ProcPlaced(s.attempts, s.moved, s.proc)
  }

  // --- Steps ----------------------------------------------------------------------------------

  lemma MoveKeepsUnique(fs: Files, source: Path, target: Path, identity: Identity)
    requires Unique(fs) && CanMove(fs, source, target, identity)
    ensures Unique(Moved(fs, source, target)) && At(Moved(fs, source, target), target, identity)
    ensures forall p :: p in fs && p != source ==> p in Moved(fs, source, target) && Moved(fs, source, target)[p] == fs[p]
    ensures source != target
  {
  }

  lemma MoveKeepsPlaces(fs: Files, attempts: seq<Attempt>, moved: set<nat>, a: nat)
    requires Unique(fs) && PlacesOk(fs, attempts, moved) && LiveApart(attempts)
    requires a < |attempts| && Live(attempts[a]) && attempts[a].target.Some?
    requires CanMove(fs, attempts[a].source, attempts[a].target.value, attempts[a].identity)
    ensures PlacesOk(Moved(fs, attempts[a].source, attempts[a].target.value), attempts, moved + {a})
  {
    var source, target := attempts[a].source, attempts[a].target.value;
    var later := Moved(fs, source, target);
    MoveKeepsUnique(fs, source, target, attempts[a].identity);
    forall b | 0 <= b < |attempts| && Live(attempts[b]) ensures Placed(later, moved + {a}, b, attempts[b]) {
      if b != a {
        assert attempts[b].identity != attempts[a].identity;
        assert Placed(fs, moved, b, attempts[b]);
      }
    }
  }

  lemma RenameKeepsPlaces(s: State, call: Call)
    requires ProcOk(s.attempts, s.proc) && PlaceInv(s) && Enabled(s, Rename(call))
    ensures PlaceInv(AfterRename(s, call))
  {
    var a, t := s.proc.a, s.attempts[s.proc.a];
    assert Placed(s.fs, s.moved, a, t);
    if Moves(call) {
      MoveKeepsUnique(s.fs, t.source, t.target.value, t.identity);
      MoveKeepsPlaces(s.fs, s.attempts, s.moved, a);
    }
  }

  lemma LookKeepsPlaces(fs: Files, attempts: seq<Attempt>, moved: set<nat>, p: Proc)
    requires Unique(fs) && Looks(p) && p.a < |attempts| && Live(attempts[p.a]) && RecordOk(attempts[p.a])
    requires Placed(fs, moved, p.a, attempts[p.a]) && ProcPlaced(attempts, moved, p) && ProcOk(attempts, p)
    ensures ProcPlaced(attempts, moved, AfterLook(fs, attempts[p.a], p))
  {
  }

  // An unfinished attempt whose destination changes has not been moved yet.
  lemma ChangeKeepsPlaces(fs: Files, attempts: seq<Attempt>, moved: set<nat>, a: nat, u: Attempt)
    requires PlacesOk(fs, attempts, moved) && LiveApart(attempts) && MovedOk(attempts, moved)
    requires a < |attempts| && Live(attempts[a])
    requires u.source == attempts[a].source && u.identity == attempts[a].identity
    requires Live(u) ==> u.target == attempts[a].target || a !in moved
    requires !Live(u) ==> (a in moved <==> Departs(u.outcome))
    ensures PlacesOk(fs, attempts[a := u], moved) && LiveApart(attempts[a := u]) && MovedOk(attempts[a := u], moved)
  {
    assert Placed(fs, moved, a, attempts[a]);
  }

  lemma AttemptKeepsPlaces(s: State, t: State, a: nat)
    requires PlaceInv(s) && a < |s.attempts| && Live(s.attempts[a])
    requires t.fs == s.fs && t.moved == s.moved && |t.attempts| == |s.attempts| &&
             t.attempts == s.attempts[a := t.attempts[a]]
    requires t.attempts[a].source == s.attempts[a].source && t.attempts[a].identity == s.attempts[a].identity
    requires Live(t.attempts[a]) ==> t.attempts[a].target == s.attempts[a].target || a !in s.moved
    requires !Live(t.attempts[a]) ==> (a in s.moved <==> Departs(t.attempts[a].outcome))
    requires ProcPlaced(t.attempts, t.moved, t.proc)
    ensures PlaceInv(t)
  {
    ChangeKeepsPlaces(s.fs, s.attempts, s.moved, a, t.attempts[a]);
  }

  lemma IntentKeepsPlaces(s: State)
    requires PlaceInv(s) && ProcOk(s.attempts, s.proc) && RecordsOk(s.attempts)
    requires s.proc.Intending? || s.proc.QuarantineIntending?
    ensures PlaceInv(AfterCommit(s))
  {
    assert RecordOk(s.attempts[s.proc.a]) && Placed(s.fs, s.moved, s.proc.a, s.attempts[s.proc.a]);
    AttemptKeepsPlaces(s, AfterCommit(s), s.proc.a);
  }

  lemma RetryKeepsPlaces(s: State)
    requires PlaceInv(s) && ProcOk(s.attempts, s.proc) && (s.proc.Requeueing? || s.proc.Reintending?)
    ensures PlaceInv(AfterCommit(s))
  {
    AttemptKeepsPlaces(s, AfterCommit(s), s.proc.a);
  }

  lemma EndKeepsPlaces(s: State)
    requires PlaceInv(s) && ProcOk(s.attempts, s.proc) && (s.proc.Finishing? || s.proc.Failing?)
    ensures PlaceInv(AfterCommit(s))
  {
    if AfterCommit(s).attempts != s.attempts { AttemptKeepsPlaces(s, AfterCommit(s), s.proc.a); }
  }

  lemma CommitKeepsPlaces(s: State)
    requires Inv(s) && PlaceInv(s) && Enabled(s, Commit)
    ensures PlaceInv(AfterCommit(s))
  {
    match s.proc
    case Intending(_, _, _, _) => IntentKeepsPlaces(s);
    case QuarantineIntending(_) => IntentKeepsPlaces(s);
    case Requeueing(_) => RetryKeepsPlaces(s);
    case Reintending(_) => RetryKeepsPlaces(s);
    case Finishing(_, _, _, _) => EndKeepsPlaces(s);
    case Failing(_, _) => EndKeepsPlaces(s);
  }

  // --- Accepting ------------------------------------------------------------------------------

  lemma AppendKeepsPlaces(fs: Files, attempts: seq<Attempt>, moved: set<nat>, u: Attempt)
    requires Unique(fs) && PlacesOk(fs, attempts, moved) && LiveApart(attempts) && MovedOk(attempts, moved)
    requires Live(u) ==> At(fs, u.source, u.identity) && Apart(attempts, u.source)
    requires !Live(u) ==> !Departs(u.outcome)
    ensures PlacesOk(fs, attempts + [u], moved) && LiveApart(attempts + [u]) && MovedOk(attempts + [u], moved)
  {
    forall b | 0 <= b < |attempts| && Live(attempts[b]) && Live(u) ensures attempts[b].identity != u.identity {
      assert Placed(fs, moved, b, attempts[b]);
    }
  }

  // Accepting adds attempts and claims for the requested items, and nothing else that placement is about.
  ghost predicate Accepted(s: State, t: State, requests: seq<Request>) {
    t.fs == s.fs && t.moved == s.moved && t.proc == s.proc && t.rows.Keys == s.rows.Keys &&
    s.attempts <= t.attempts &&
    (forall item :: item in t.claims ==> item in s.claims || exists j :: 0 <= j < |requests| && requests[j].item == item) &&
    (forall item :: item in s.claims ==> item in t.claims) &&
    (forall path :: Apart(s.attempts, path) && (forall j :: 0 <= j < |requests| ==> requests[j].source != path)
       ==> Apart(t.attempts, path))
  }

  lemma AcceptOneAdds(s: State, t: State, batch: nat, requests: seq<Request>)
    requires requests != [] && Accepted(s, t, requests[..|requests| - 1])
    ensures Accepted(s, AcceptOne(t, batch, requests[|requests| - 1]), requests)
  {
    var n := |requests| - 1;
    var u := AcceptOne(t, batch, requests[n]);
    forall item | item in u.claims ensures item in s.claims || exists j :: 0 <= j < |requests| && requests[j].item == item {
      if item in t.claims && item !in s.claims {
        var j :| 0 <= j < n && requests[..n][j].item == item;
        assert requests[j].item == item;
      } else if item !in t.claims {
        assert requests[n].item == item;
      }
    }
    forall path | Apart(s.attempts, path) && (forall j :: 0 <= j < |requests| ==> requests[j].source != path)
      ensures Apart(u.attempts, path)
    {
      assert forall j :: 0 <= j < n ==> requests[..n][j].source != path;
    }
  }

  lemma {:induction false} AcceptKeepsPlaces(s: State, batch: nat, requests: seq<Request>)
    requires Inv(s) && PlaceInv(s) && DistinctItems(requests) && DistinctSources(requests)
    requires forall i :: 0 <= i < |requests| ==> Acceptable(s, requests[i])
    requires forall i :: 0 <= i < |requests| && requests[i].item !in s.claims ==> Apart(s.attempts, requests[i].source)
    ensures PlaceInv(AcceptAll(s, batch, requests)) && Accepted(s, AcceptAll(s, batch, requests), requests)
  {
    if requests != [] {
      var n := |requests| - 1;
      var t, r := AcceptAll(s, batch, requests[..n]), requests[n];
      AcceptKeepsPlaces(s, batch, requests[..n]);
      AcceptAllKeeps(s, batch, requests[..n]);
      AcceptOneAdds(s, t, batch, requests);
      StillAcceptable(s, t, requests);
      AcceptOneKeepsPlaces(t, batch, r);
    }
  }

  lemma StillAcceptable(s: State, t: State, requests: seq<Request>)
    requires requests != [] && DistinctItems(requests) && DistinctSources(requests)
    requires Accepted(s, t, requests[..|requests| - 1])
    requires var r := requests[|requests| - 1];
             Acceptable(s, r) && (r.item !in s.claims ==> Apart(s.attempts, r.source))
    ensures var r := requests[|requests| - 1];
            r.item !in t.claims ==> At(t.fs, r.source, r.identity) && Apart(t.attempts, r.source)
  {
    var n := |requests| - 1;
    assert forall j :: 0 <= j < n ==> requests[..n][j].source != requests[n].source;
  }

  lemma AcceptOneKeepsPlaces(s: State, batch: nat, r: Request)
    requires Inv(s) && PlaceInv(s)
    requires r.item !in s.claims ==> At(s.fs, r.source, r.identity) && Apart(s.attempts, r.source)
    ensures PlaceInv(AcceptOne(s, batch, r))
  {
    AppendKeepsPlaces(s.fs, s.attempts, s.moved, NewAttempt(batch, r, r.item in s.claims));
  }

  // --- Runs -----------------------------------------------------------------------------------

  lemma StepKeepsPlaces(s: State, a: Action)
    requires Inv(s) && PlaceInv(s) && Enabled(s, a) && Benign(s, a)
    ensures PlaceInv(Step(s, a))
  {
    match a
    case Accept(requests) => AcceptKeepsPlaces(s, |s.batches|, requests);
    case Look => LookKeepsPlaces(s.fs, s.attempts, s.moved, s.proc);
    case Rename(call) => RenameKeepsPlaces(s, call);
    case Commit => CommitKeepsPlaces(s);
    case Outside(fs) => assert PlacesOk(fs, s.attempts, s.moved);
    case _ =>
  }

  lemma {:induction false} RunKeepsPlaces(s: State, actions: seq<Action>, t: State)
    requires Inv(s) && PlaceInv(s) && BenignSteps(s, actions, t)
    ensures Inv(t) && PlaceInv(t)
    decreases |actions|
  {
    if actions != [] {
      StepKeepsInv(s, actions[0]);
      StepKeepsPlaces(s, actions[0]);
      RunKeepsPlaces(Step(s, actions[0]), actions[1..], t);
    }
  }

  /** Write-ahead placement: in every reachable state, between any two steps and after any crash, the file of an
      unfinished attempt is at exactly one of two paths: its source, or the destination in its durable record. */
  lemma WriteAheadPlacement(s: State, actions: seq<Action>, t: State, a: nat)
    requires Start(s) && Unique(s.fs) && BenignSteps(s, actions, t)
    requires a < |t.attempts| && Live(t.attempts[a])
    ensures var r := t.attempts[a];
            At(t.fs, r.source, r.identity) != (r.target.Some? && r.target.value != r.source && At(t.fs, r.target.value, r.identity))
    ensures t.attempts[a].phase == QUEUED ==> At(t.fs, t.attempts[a].source, t.attempts[a].identity)
  {
    RunKeepsPlaces(s, actions, t);
    assert Placed(t.fs, t.moved, a, t.attempts[a]);
    assert RecordOk(t.attempts[a]);
  }

  // The record that ends an attempt says where its file is.
  ghost predicate EndsTruthfully(t: State, u: State, a: nat) {
    a < |u.attempts| &&
    var r := u.attempts[a];
    r.phase == DONE && a !in u.claims.Values && u.fs == t.fs &&
    if Departs(r.outcome) then a in u.moved && r.actual.Some? && At(u.fs, r.actual.value, r.identity)
    else a !in u.moved && At(u.fs, r.source, r.identity) && (r.outcome.RequiresDecision? ==> r.actual == Some(r.source))
  }

  lemma FinishIsTruthful(t: State)
    requires t.proc.Finishing? && ProcOk(t.attempts, t.proc) && ProcPlaced(t.attempts, t.moved, t.proc)
    requires Placed(t.fs, t.moved, t.proc.a, t.attempts[t.proc.a]) && ClaimsOk(t.attempts, t.claims)
    requires t.attempts[t.proc.a].item in t.rows
    ensures EndsTruthfully(t, AfterCommit(t), t.proc.a)
  {
  }

  /** The transaction that ends an attempt tells the truth about its file: a sorted, reviewed or quarantined file is
      at the recorded location, and any other file was never moved and is still at its source. */
  lemma RecordedWhereItIs(s: State, actions: seq<Action>, t: State)
    requires Start(s) && Unique(s.fs) && BenignSteps(s, actions, t)
    requires t.proc.Finishing? && Enabled(t, Commit)
    ensures EndsTruthfully(t, Step(t, Commit), t.proc.a)
  {
    RunKeepsPlaces(s, actions, t);
    assert Placed(t.fs, t.moved, t.proc.a, t.attempts[t.proc.a]);
    assert t.attempts[t.proc.a].item in t.claims;
    FinishIsTruthful(t);
  }

  /** An attempt that ended without a move never had its file renamed, and every other ended one had. */
  lemma SkippedNeverMoved(s: State, actions: seq<Action>, t: State, a: nat)
    requires Start(s) && Unique(s.fs) && BenignSteps(s, actions, t)
    requires a < |t.attempts| && t.attempts[a].phase == DONE
    ensures a in t.moved <==> t.attempts[a].outcome.Sorted? || t.attempts[a].outcome.ManualReview? ||
                              t.attempts[a].outcome.Quarantined?
  {
    RunKeepsPlaces(s, actions, t);
  }

  /** A rename that takes place is the first of its attempt, and it moves the accepted file to the recorded target. */
  lemma AtMostOneRename(s: State, actions: seq<Action>, t: State, call: Call)
    requires Start(s) && Unique(s.fs) && BenignSteps(s, actions, t)
    requires Enabled(t, Rename(call)) && Moves(call)
    ensures var r := t.attempts[t.proc.a];
            t.proc.a !in t.moved && r.phase == INTENT && At(t.fs, r.source, r.identity) &&
            r.target.value !in t.fs && At(Step(t, Rename(call)).fs, r.target.value, r.identity)
  {
    RunKeepsPlaces(s, actions, t);
    assert ProcOk(t.attempts, t.proc);
  }

  /** After a crash that follows the rename, recovery ends the attempt with the intended outcome: one look, one
      transaction, no second rename. */
  lemma RecoveryFinishesTheMove(s: State, actions: seq<Action>, t: State, a: nat) returns (u: State)
    requires Start(s) && Unique(s.fs) && BenignSteps(s, actions, t)
    requires t.proc.Idle? && a in t.moved && a < |t.attempts| && Live(t.attempts[a])
    ensures BenignSteps(t, [Pick(a), Look, Commit], u) && u.fs == t.fs && |u.attempts| == |t.attempts|
    ensures u.attempts[a].phase == DONE && u.attempts[a].outcome == t.attempts[a].intended &&
            u.attempts[a].actual == t.attempts[a].target
  {
    RunKeepsPlaces(s, actions, t);
    assert Placed(t.fs, t.moved, a, t.attempts[a]) && RecordOk(t.attempts[a]);
    assert t.claims[t.attempts[a].item] == a && t.attempts[a].item in t.rows;
    u := FinishMoved(t, a);
  }

  lemma FinishMoved(t: State, a: nat) returns (u: State)
    requires t.proc.Idle? && a < |t.attempts| && Live(t.attempts[a]) && Unique(t.fs) && a in t.moved
    requires Placed(t.fs, t.moved, a, t.attempts[a]) && RecordOk(t.attempts[a]) && t.attempts[a].item in t.rows
    ensures BenignSteps(t, [Pick(a), Look, Commit], u) && u.fs == t.fs && |u.attempts| == |t.attempts|
    ensures u.attempts[a].phase == DONE && u.attempts[a].outcome == t.attempts[a].intended &&
            u.attempts[a].actual == t.attempts[a].target
  {
    var r := t.attempts[a];
    var picked := t.(proc := Recovering(a, false));
    var seen := t.(proc := Finishing(a, r.intended, r.intendedReason, r.target));
    assert AtRecovery(t.fs, a, r, false) == seen.proc;
    u := AfterFinish(seen, r, seen.proc);
    ThreeSteps(t, Pick(a), Look, Commit, picked, seen, u);
  }

  lemma ThreeSteps(s: State, a: Action, b: Action, c: Action, t: State, u: State, v: State)
    requires Enabled(s, a) && Benign(s, a) && t == Step(s, a)
    requires Enabled(t, b) && Benign(t, b) && u == Step(t, b)
    requires Enabled(u, c) && Benign(u, c) && v == Step(u, c)
    ensures BenignSteps(s, [a, b, c], v)
  {
    assert [a, b, c][1..] == [b, c] && [b, c][1..] == [c] && [c][1..] == [];
    assert BenignSteps(v, [], v);
    assert BenignSteps(u, [c], v);
    assert BenignSteps(t, [b, c], v);
  }

  // --- Nothing is lost ------------------------------------------------------------------------

  ghost function Holders(fs: Files, e: Entry): set<Path> {
    set p | p in fs && fs[p] == e
  }

  lemma MoveKeepsFiles(fs: Files, source: Path, target: Path, e: Entry)
    requires source in fs && target !in fs
    ensures |Holders(Moved(fs, source, target), e)| == |Holders(fs, e)|
  {
    var before, after := Holders(fs, e), Holders(Moved(fs, source, target), e);
    if fs[source] == e {
      assert after == before - {source} + {target};
    } else {
      assert after == before;
    }
  }

  /** Whatever happens, the worker itself neither creates, loses nor overwrites anything: every step but an outside
      one keeps how many paths hold each entry. */
  lemma StepsKeepFiles(s: State, a: Action, e: Entry)
    requires Enabled(s, a) && !a.Outside?
    ensures |Holders(Step(s, a).fs, e)| == |Holders(s.fs, e)|
  {
    if a.Rename? {
      if Moves(a.call) {
        var t := s.attempts[s.proc.a];
        MoveKeepsFiles(s.fs, t.source, t.target.value, e);
      }
    } else if a.Accept? {
      AcceptKeepsFiles(s, |s.batches|, a.requests);
    }
  }

  lemma {:induction false} AcceptKeepsFiles(s: State, batch: nat, requests: seq<Request>)
    ensures AcceptAll(s, batch, requests).fs == s.fs
  {
    if requests != [] { AcceptKeepsFiles(s, batch, requests[..|requests| - 1]); }
  }
}
