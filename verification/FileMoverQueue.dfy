/**
 * Why accepted files stand apart: every queue row has a path of its own in the incoming folders, a held row keeps it,
 * and files are moved to places outside of these folders.
 */
module FileMoverQueue {
  import opened Wrappers
  import opened FileMover
  import opened FileMoverSafety
  import opened FileMoverPlacement

  // The path of every queue row, by item.
  type Places = map<nat, Path>

  ghost predicate OwnPlaces(incoming: Path -> bool, where: Places) {
    (forall i, j :: i in where && j in where && i != j ==> where[i] != where[j]) &&
    forall i :: i in where ==> incoming(where[i])
  }

  predicate LeavesQueue(incoming: Path -> bool, plan: Plan, manual: Path, quarantine: Path) {
    !incoming(manual) && !incoming(quarantine) && (plan.WillMove? ==> !incoming(plan.target))
  }

  // A scan gives a row a path that no other row has; files are accepted at the paths of their rows.
  ghost predicate Lists(incoming: Path -> bool, where: Places, later: Places, s: State, a: Action) {
    match a
    case Outside(fs) => later == where && OnlyAdds(s.fs, fs)
    case Scan(item, _) =>
      item in later && later == where[item := later[item]] && incoming(later[item]) &&
      forall other :: other in where && other != item ==> where[other] != later[item]
    case Accept(requests) => later == where && forall i :: 0 <= i < |requests| ==> FromQueue(incoming, where, requests[i])
    case _ => later == where
  }

  ghost predicate FromQueue(incoming: Path -> bool, where: Places, r: Request) {
    r.item in where && r.source == where[r.item] && LeavesQueue(incoming, r.plan, r.manual, r.quarantine)
  }

  ghost predicate QueueSteps(incoming: Path -> bool, s: State, actions: seq<Action>, places: seq<Places>, t: State)
    decreases |actions|
  {
    |places| == |actions| + 1 &&
    if actions == [] then s == t
    else Enabled(s, actions[0]) && Lists(incoming, places[0], places[1], s, actions[0]) &&
         QueueSteps(incoming, Step(s, actions[0]), actions[1..], places[1..], t)
  }

  // --- The invariant --------------------------------------------------------------------------

  ghost predicate InQueue(incoming: Path -> bool, where: Places, t: Attempt) {
    t.item in where && t.source == where[t.item] && LeavesQueue(incoming, t.plan, t.manual, t.quarantine) &&
    (t.target.Some? ==> !incoming(t.target.value))
  }

  ghost predicate AllInQueue(incoming: Path -> bool, where: Places, attempts: seq<Attempt>) {
    forall a :: 0 <= a < |attempts| && Live(attempts[a]) ==> InQueue(incoming, where, attempts[a])
  }

  ghost predicate QueueOk(incoming: Path -> bool, where: Places, s: State) {
    OwnPlaces(incoming, where) && AllInQueue(incoming, where, s.attempts) &&
    (s.proc.Intending? ==> !incoming(s.proc.target))
  }

  // Who has no claim on an item has no unfinished attempt of it.
  lemma AcceptedIsApart(incoming: Path -> bool, where: Places, s: State, r: Request)
    requires Inv(s) && QueueOk(incoming, where, s) && FromQueue(incoming, where, r) && r.item !in s.claims
    ensures Apart(s.attempts, r.source)
  {
    forall a | 0 <= a < |s.attempts| && Live(s.attempts[a])
      ensures s.attempts[a].source != r.source && s.attempts[a].target != Some(r.source)
    {
      assert InQueue(incoming, where, s.attempts[a]) && s.attempts[a].item in s.claims;
    }
  }

  lemma QueueIsBenign(incoming: Path -> bool, where: Places, later: Places, s: State, a: Action)
    requires Inv(s) && QueueOk(incoming, where, s) && Enabled(s, a) && Lists(incoming, where, later, s, a)
    ensures Benign(s, a)
  {
    if a.Accept? {
      forall i, j | 0 <= i < j < |a.requests| ensures a.requests[i].source != a.requests[j].source {
        assert FromQueue(incoming, where, a.requests[i]) && FromQueue(incoming, where, a.requests[j]);
      }
      forall i | 0 <= i < |a.requests| && a.requests[i].item !in s.claims ensures Apart(s.attempts, a.requests[i].source) {
        AcceptedIsApart(incoming, where, s, a.requests[i]);
      }
    }
  }

  lemma {:induction false} AcceptKeepsQueue(incoming: Path -> bool, where: Places, s: State, batch: nat, requests: seq<Request>)
    requires AllInQueue(incoming, where, s.attempts)
    requires forall i :: 0 <= i < |requests| ==> FromQueue(incoming, where, requests[i])
    ensures AllInQueue(incoming, where, AcceptAll(s, batch, requests).attempts)
    ensures AcceptAll(s, batch, requests).proc == s.proc
  {
    if requests != [] { AcceptKeepsQueue(incoming, where, s, batch, requests[..|requests| - 1]); }
  }

  // A row that an unfinished attempt holds is not scanned.
  lemma ScanKeepsQueue(incoming: Path -> bool, where: Places, later: Places, s: State, item: nat, row: Row)
    requires Inv(s) && QueueOk(incoming, where, s) && Enabled(s, Scan(item, row))
    requires Lists(incoming, where, later, s, Scan(item, row))
    ensures QueueOk(incoming, later, Step(s, Scan(item, row)))
  {
    forall a | 0 <= a < |s.attempts| && Live(s.attempts[a]) ensures InQueue(incoming, later, s.attempts[a]) {
      assert s.attempts[a].item in s.claims && s.attempts[a].item in s.rows;
      assert InQueue(incoming, where, s.attempts[a]);
    }
  }

  lemma CommitKeepsQueue(incoming: Path -> bool, where: Places, s: State)
    requires Inv(s) && QueueOk(incoming, where, s) && Enabled(s, Commit)
    ensures QueueOk(incoming, where, AfterCommit(s))
  {
    assert Live(s.attempts[s.proc.a]) ==> InQueue(incoming, where, s.attempts[s.proc.a]);
  }

  lemma LookKeepsQueue(incoming: Path -> bool, where: Places, s: State)
    requires Inv(s) && QueueOk(incoming, where, s) && Enabled(s, Look)
    ensures QueueOk(incoming, where, Step(s, Look))
  {
    assert InQueue(incoming, where, s.attempts[s.proc.a]);
  }

  lemma StepKeepsQueue(incoming: Path -> bool, where: Places, later: Places, s: State, a: Action)
    requires Inv(s) && QueueOk(incoming, where, s) && Enabled(s, a) && Lists(incoming, where, later, s, a)
    ensures QueueOk(incoming, later, Step(s, a))
  {
    match a
    case Scan(item, row) => ScanKeepsQueue(incoming, where, later, s, item, row);
    case Accept(requests) => AcceptKeepsQueue(incoming, where, s, |s.batches|, requests);
    case Look => LookKeepsQueue(incoming, where, s);
    case Commit => CommitKeepsQueue(incoming, where, s);
    case _ =>
  }

  lemma {:induction false} QueueRunIsBenign(incoming: Path -> bool, s: State, actions: seq<Action>, places: seq<Places>, t: State)
    requires Inv(s) && places != [] && QueueOk(incoming, places[0], s) && QueueSteps(incoming, s, actions, places, t)
    ensures BenignSteps(s, actions, t)
    decreases |actions|
  {
    if actions != [] {
      QueueIsBenign(incoming, places[0], places[1], s, actions[0]);
      StepKeepsQueue(incoming, places[0], places[1], s, actions[0]);
      StepKeepsInv(s, actions[0]);
      QueueRunIsBenign(incoming, Step(s, actions[0]), actions[1..], places[1..], t);
    }
  }

  /** Write-ahead placement for a queue: with rows that have paths of their own, and targets outside of the incoming
      folders, the file of every unfinished attempt is at exactly one of its source and its intended target. */
  lemma QueuedFilesArePlaced(incoming: Path -> bool, s: State, actions: seq<Action>, places: seq<Places>, t: State, a: nat)
    requires Start(s) && Unique(s.fs) && places != [] && OwnPlaces(incoming, places[0])
    requires QueueSteps(incoming, s, actions, places, t) && a < |t.attempts| && Live(t.attempts[a])
    ensures var r := t.attempts[a];
            At(t.fs, r.source, r.identity) !=
            (r.target.Some? && r.target.value != r.source && At(t.fs, r.target.value, r.identity))
    ensures BenignSteps(s, actions, t)
  {
    StartIsOk(s);
    QueueRunIsBenign(incoming, s, actions, places, t);
    WriteAheadPlacement(s, actions, t, a);
  }
}
