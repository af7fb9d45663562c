/**
 * A return that drops another attempt's place in the queue: while a quarantined file is being returned, a new file takes
 * over its queue row, is accepted, and is renamed by the mover, which stops before it can say so.
 */
module QuarantineRace {
  import opened Wrappers
  import opened Blanks
  import FileMover
  import opened Quarantine

  // --- The mover's part -----------------------------------------------------------------------

  const Gone := FileMover.Row(FileMover.MISSING, false, None, 1, None, 5, true)
  const Free := FileMover.Row(FileMover.READY, true, None, 2, None, 6, false)
  const Busy := FileMover.Row(FileMover.IN_PROCESS, false, Some(0), 2, None, 6, false)

  const Stored: FileMover.Files := map["quarantine/a" := FileMover.File(5)]
  const Arrived: FileMover.Files := Stored["incoming/a" := FileMover.File(6)]
  const Carried: FileMover.Files := Stored["archive/a" := FileMover.File(6)]

  const Wish := FileMover.Request(7, 2, "incoming/a", 6, FileMover.WillMove("archive/a"), "review/a", "quarantine/b")
  const Queued := FileMover.NewAttempt(0, Wish, false)
  const Intended := Queued.(phase := FileMover.INTENT, target := Some("archive/a"), intended := FileMover.Sorted,
                            outcome := FileMover.Processing, started := true)

  const Before := FileMover.State(Stored, [], map[], map[7 := Gone], [], [], {}, FileMover.Idle)
  const Seen := Before.(fs := Arrived, rows := map[7 := Free])
  const Accepted := Seen.(attempts := [Queued], claims := map[7 := 0], rows := map[7 := Busy], batches := [1])
  const Executing := Accepted.(attempts := [Intended], log := [FileMover.Started(0)], proc := FileMover.Executing(0))
  const After := Executing.(fs := Carried, moved := {0}, proc := FileMover.Idle)

  lemma MoverFirst(s: FileMover.State, a: FileMover.Action, rest: seq<FileMover.Action>, t: FileMover.State)
    requires FileMover.Enabled(s, a) && FileMover.Steps(FileMover.Step(s, a), rest, t)
    ensures FileMover.Steps(s, [a] + rest, t)
  {
    assert ([a] + rest)[1..] == rest;
  }

  lemma OneRequest()
    ensures FileMover.AcceptAll(Seen, 0, [Wish]) == Accepted.(batches := [])
  {
    assert [Wish][..0] == [];
    assert FileMover.AcceptAll(Seen, 0, []) == Seen;
  }

  // Picked, found unchanged, and its intent committed.
  lemma Intends(rest: seq<FileMover.Action>) returns (actions: seq<FileMover.Action>)
    requires FileMover.Steps(Executing, rest, After)
    ensures FileMover.Steps(Accepted, actions, After)
  {
    var starting := Accepted.(proc := FileMover.Starting(0));
    var intending := Accepted.(proc := FileMover.Intending(0, "archive/a", FileMover.Sorted, None));
    assert FileMover.AfterCommit(intending) == Executing;
    MoverFirst(intending, FileMover.Commit, rest, After);
    actions := [FileMover.Commit] + rest;
    MoverFirst(starting, FileMover.Look, actions, After);
    actions := [FileMover.Look] + actions;
    MoverFirst(Accepted, FileMover.Pick(0), actions, After);
    actions := [FileMover.Pick(0)] + actions;
  }

  // Renamed, and stopped.
  lemma Renames() returns (actions: seq<FileMover.Action>)
    ensures FileMover.Steps(Executing, actions, After)
  {
    var carried := FileMover.AfterRename(Executing, FileMover.Renamed);
    assert carried.fs == Carried;
    actions := [FileMover.Crash] + [];
    MoverFirst(carried, FileMover.Crash, [], After);
    MoverFirst(Executing, FileMover.Rename(FileMover.Renamed), actions, After);
    actions := [FileMover.Rename(FileMover.Renamed)] + actions;
  }

  lemma Accepts(rest: seq<FileMover.Action>) returns (actions: seq<FileMover.Action>)
    requires FileMover.Steps(Accepted, rest, After)
    ensures FileMover.Steps(Seen, actions, After)
  {
    OneRequest();
    assert Seen.batches + [|[Wish]|] == [1];
    assert FileMover.Step(Seen, FileMover.Accept([Wish])) == Accepted;
    MoverFirst(Seen, FileMover.Accept([Wish]), rest, After);
    actions := [FileMover.Accept([Wish])] + rest;
  }

  // A new file, and the scan that gives it the row.
  lemma Arrives(rest: seq<FileMover.Action>) returns (actions: seq<FileMover.Action>)
    requires FileMover.Steps(Seen, rest, After)
    ensures FileMover.Steps(Before, actions, After)
  {
    var arrived := Before.(fs := Arrived);
    assert FileMover.Step(arrived, FileMover.Scan(7, Free)) == Seen;
    MoverFirst(arrived, FileMover.Scan(7, Free), rest, After);
    actions := [FileMover.Scan(7, Free)] + rest;
    assert FileMover.Step(Before, FileMover.Outside(Arrived)) == arrived;
    MoverFirst(Before, FileMover.Outside(Arrived), actions, After);
    actions := [FileMover.Outside(Arrived)] + actions;
  }

  lemma MoverClaims() returns (actions: seq<FileMover.Action>)
    ensures FileMover.Start(Before) && FileMover.Steps(Before, actions, After)
  {
    actions := Renames();
    actions := Intends(actions);
    actions := Accepts(actions);
    actions := Arrives(actions);
  }

  // --- The return ------------------------------------------------------------------------------

  const Shelved := Card(7, "quarantine/a", "incoming/a", 1, true, None, false, Some(5))
  const Again := Key(1, 0, "k")
  const Please := Body(1, "back")
  const Empty := QState(Stored, map[], [], map[], map[7 := Gone], map[], [], Resting)
  const WithCard := Empty.(cards := map[0 := Shelved])
  const Begun := WithCard.(
    cards := map[0 := Shelved.(canReturn := false, operation := Some(0))],
    ops := [Op(0, Please, PLANNED, 5, "quarantine/a", "incoming/a", None)],
    keys := map[Again := KeyRecord(Please, 0)], proc := Renaming(0))
  const Reclaimed := Begun.(fs := Carried, rows := map[7 := Busy], claims := map[7 := 0])
  const Back := Reclaimed.(fs := map["archive/a" := FileMover.File(6), "incoming/a" := FileMover.File(5)], moved := [0],
                           proc := Resolving(0))

  lemma FirstStep(s: QState, a: QAction, rest: seq<QAction>, t: QState)
    requires QEnabled(s, a) && QSteps(QStep(s, a), rest, t)
    ensures QSteps(s, [a] + rest, t)
  {
    assert ([a] + rest)[1..] == rest;
  }

  lemma BegunIsReached() returns (actions: seq<QAction>)
    ensures QStart(Empty) && QSteps(Empty, actions, Begun)
  {
    assert !IsSpace(Please.comment[0]);
    assert AfterPlan(WithCard, Again, Please) == Begun;
    FirstStep(WithCard, Plan(Again, Please), [], Begun);
    FirstStep(Empty, AddCard(0, Shelved), [Plan(Again, Please)] + [], Begun);
    actions := [AddCard(0, Shelved)] + ([Plan(Again, Please)] + []);
  }

  // What the mover did meanwhile, and then the rename.
  lemma BackIsReached() returns (actions: seq<QAction>)
    ensures QSteps(Begun, actions, Back)
  {
    assert AfterRename(Reclaimed, FileMover.Renamed) == Back;
    FirstStep(Reclaimed, QAction.Rename(FileMover.Renamed), [], Back);
    actions := [QAction.Rename(FileMover.Renamed)] + [];
    FirstStep(Begun.(fs := Carried), Mover(After.rows, After.claims), actions, Back);
    actions := [Mover(After.rows, After.claims)] + actions;
    FirstStep(Begun, QAction.Outside(After.fs), actions, Back);
    actions := [QAction.Outside(After.fs)] + actions;
  }

  const Completed := Back.(proc := Completing(0))

  lemma CompletionDisagrees()
    ensures QEnabled(Back, QAction.Look(true)) && QStep(Back, QAction.Look(true)) == Completed
    ensures QEnabled(Completed, Complete) && Agree(Completed.rows, Completed.claims)
    ensures !Agree(QStep(Completed, Complete).rows, QStep(Completed, Complete).claims)
  {
    assert QStep(Completed, Complete).rows[7].active == None;
  }

  /** A return clears the row of an attempt that still holds its claim. The claim comes from a run of the mover, which
      starts where the return was begun and leaves the tree, the rows and the claims that the return then meets. */
  lemma ReturnCanDropAnotherClaim()
    returns (before: seq<QAction>, mover: seq<FileMover.Action>, after: seq<QAction>)
    ensures QStart(Empty) && QSteps(Empty, before, Begun)
    ensures FileMover.Start(Before) && Before.fs == Begun.fs && Before.rows == Begun.rows && Before.claims == Begun.claims
    ensures FileMover.Steps(Before, mover, After) && After.attempts[0].phase == FileMover.INTENT
    ensures Reclaimed == Begun.(fs := After.fs, rows := After.rows, claims := After.claims)
    ensures QSteps(Begun, after, Back) && Back.rows == After.rows && Back.claims == After.claims
    ensures QEnabled(Back, QAction.Look(true)) && QStep(Back, QAction.Look(true)) == Completed
    ensures QEnabled(Completed, Complete) && Agree(Completed.rows, Completed.claims)
    ensures !Agree(QStep(Completed, Complete).rows, QStep(Completed, Complete).claims)
  {
    before := BegunIsReached();
    mover := MoverClaims();
    after := BackIsReached();
    CompletionDisagrees();
  }
}
