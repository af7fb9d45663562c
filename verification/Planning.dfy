/**
 * What a plan guarantees: order, safe targets, and counts of conflicts that do not depend on the file system.
 */
module Planning {
  import opened Wrappers
  import opened Utf8
  import opened Alphabets
  import opened Rules

  // --- Targets --------------------------------------------------------------------------------

  lemma PlannedTarget(u: Alphabet, item: Item, rules: seq<Rule>)
    ensures var row := PlanOne(u, item, rules);
            row.item == item.id && (row.state.WILL_MOVE? <==> row.target.Some?) && (row.state.WILL_MOVE? <==> row.selected.Some?)
    ensures PlanOne(u, item, rules).state.NOT_READY? <==> !item.ready
    ensures !PlanOne(u, item, rules).state.REQUIRES_DECISION?
  {
  }

  lemma {:induction false} OthersAreExact(rows: seq<Row>, i: nat, n: nat)
    requires i < |rows| && n <= |rows|
    ensures Others(rows, i, n) == [] <==>
              forall j :: 0 <= j < n && j != i ==> !(rows[j].state.WILL_MOVE? && rows[j].target == rows[i].target)
  {
    if n > 0 { OthersAreExact(rows, i, n - 1); }
  }

  // Another row plans the same target.
  ghost predicate Contested(u: Alphabet, items: seq<Item>, rules: seq<Rule>, i: nat)
    requires i < |items|
  {
    exists j :: 0 <= j < |items| && j != i && PlanOne(u, items[j], rules).state.WILL_MOVE? &&
                PlanOne(u, items[j], rules).target == PlanOne(u, items[i], rules).target
  }

  lemma ManualKeepsMoves(u: Alphabet, items: seq<Item>, rules: seq<Rule>, manual: Manual, taken: Target -> bool, i: nat)
    requires i < |items|
    ensures var rows, row := ManualChecked(u, items, rules, manual, taken), PlanOne(u, items[i], rules);
            |rows| == |items| && (rows[i].state.WILL_MOVE? <==> row.state.WILL_MOVE?) &&
            rows[i].target == row.target && rows[i].item == row.item
  {
  }

  lemma ContestedHasOthers(u: Alphabet, items: seq<Item>, rules: seq<Rule>, manual: Manual, taken: Target -> bool, i: nat)
    requires i < |items|
    ensures var rows := ManualChecked(u, items, rules, manual, taken);
            Others(rows, i, |rows|) != [] <==> Contested(u, items, rules, i)
  {
    var rows := ManualChecked(u, items, rules, manual, taken);
    OthersAreExact(rows, i, |rows|);
    forall j | 0 <= j < |items|
      ensures (rows[j].state.WILL_MOVE? <==> PlanOne(u, items[j], rules).state.WILL_MOVE?) &&
              rows[j].target == PlanOne(u, items[j], rules).target
    {
      ManualKeepsMoves(u, items, rules, manual, taken, j);
    }
    ManualKeepsMoves(u, items, rules, manual, taken, i);
  }

  /** An item moves exactly if its own rules give one target, nobody else plans that target, and it is free. */
  lemma MovesExactlyIf(u: Alphabet, items: seq<Item>, rules: seq<Rule>, manual: Manual, taken: Target -> bool, i: nat)
    requires i < |items|
    ensures var rows, own := Plan(u, items, rules, manual, taken), PlanOne(u, items[i], rules);
            |rows| == |items| && rows[i].item == items[i].id &&
            (rows[i].state.WILL_MOVE? <==>
              own.state.WILL_MOVE? && !Contested(u, items, rules, i) && !taken(own.target.value)) &&
            (rows[i].state.WILL_MOVE? ==> rows[i] == own)
  {
    PlannedTarget(u, items[i], rules);
    ManualKeepsMoves(u, items, rules, manual, taken, i);
    ContestedHasOthers(u, items, rules, manual, taken, i);
  }

  /** Rows keep the items in order, and the rows that still move have free targets, all different. */
  lemma SurvivingTargetsAreSafe(u: Alphabet, items: seq<Item>, rules: seq<Rule>, manual: Manual, taken: Target -> bool)
    ensures var rows := Plan(u, items, rules, manual, taken);
            |rows| == |items| && (forall i :: 0 <= i < |rows| ==> rows[i].item == items[i].id) &&
            (forall i :: 0 <= i < |rows| && rows[i].state.WILL_MOVE? ==>
              rows[i].target.Some? && !taken(rows[i].target.value)) &&
            (forall i, j :: 0 <= i < j < |rows| && rows[i].state.WILL_MOVE? && rows[j].state.WILL_MOVE? ==>
              rows[i].target != rows[j].target)
  {
    var rows := Plan(u, items, rules, manual, taken);
    forall i | 0 <= i < |rows|
      ensures rows[i].item == items[i].id
      ensures rows[i].state.WILL_MOVE? ==>
                rows[i] == PlanOne(u, items[i], rules) && rows[i].target.Some? && !taken(rows[i].target.value) &&
                !Contested(u, items, rules, i)
    {
      MovesExactlyIf(u, items, rules, manual, taken, i);
      PlannedTarget(u, items[i], rules);
    }
  }

  // --- Counts ---------------------------------------------------------------------------------

  datatype Counts = Counts(willMove: nat, willManualReview: nat, requiresDecision: nat, notReady: nat, ruleConflicts: nat,
                           noScenario: nat)

  predicate ManualCandidate(row: Row) {
    row.selected.None? && !row.state.NOT_READY?
  }

  predicate IsConflict(row: Row) {
    ManualCandidate(row) && |row.matched| >= 2
  }

  predicate IsUnmatched(row: Row) {
    ManualCandidate(row) && row.matched == []
  }

  function Count(rows: seq<Row>, f: Row -> bool): nat {
    if rows == [] then 0 else Count(rows[..|rows| - 1], f) + if f(rows[|rows| - 1]) then 1 else 0
  }

  function InState(s: Predicted): Row -> bool {
    (r: Row) => r.state == s
  }

  function Conflicts(): Row -> bool {
    (r: Row) => IsConflict(r)
  }

  function Unmatched(): Row -> bool {
    (r: Row) => IsUnmatched(r)
  }

  function Tally(rows: seq<Row>): Counts {
    Counts(Count(rows, InState(WILL_MOVE)), Count(rows, InState(WILL_MANUAL_REVIEW)), Count(rows, InState(REQUIRES_DECISION)),
           Count(rows, InState(NOT_READY)), Count(rows, Conflicts()), Count(rows, Unmatched()))
  }

  function AddRow(c: Counts, row: Row): Counts {
    var d :=
      match row.state
      case WILL_MOVE => c.(willMove := c.willMove + 1)
      case WILL_MANUAL_REVIEW => c.(willManualReview := c.willManualReview + 1)
      case REQUIRES_DECISION => c.(requiresDecision := c.requiresDecision + 1)
      case NOT_READY => c.(notReady := c.notReady + 1);
    if ManualCandidate(row) && |row.matched| >= 2 then d.(ruleConflicts := d.ruleConflicts + 1)
    else if ManualCandidate(row) && row.matched == [] then d.(noScenario := d.noScenario + 1)
    else d
  }

  /** The counts in one pass; the four states partition the rows. */
  method PlanCounts(rows: seq<Row>) returns (c: Counts)
    ensures c == Tally(rows)
    ensures c.willMove + c.willManualReview + c.requiresDecision + c.notReady == |rows|
  {
    c := Counts(0, 0, 0, 0, 0, 0);
    for i := 0 to |rows|
      invariant c == Tally(rows[..i]) && c.willMove + c.willManualReview + c.requiresDecision + c.notReady == i
    {
      assert rows[..i + 1][..i] == rows[..i];
      c := AddRow(c, rows[i]);
    }
    assert rows[..|rows|] == rows;
  }

  lemma {:induction false} SameCount(a: seq<Row>, b: seq<Row>, f: Row -> bool)
    requires |a| == |b| && forall i :: 0 <= i < |a| ==> f(a[i]) == f(b[i])
    ensures Count(a, f) == Count(b, f)
  {
    if a != [] { SameCount(a[..|a| - 1], b[..|b| - 1], f); }
  }

  lemma BlockingKeepsReasons(u: Alphabet, items: seq<Item>, rules: seq<Rule>, manual: Manual, taken: Target -> bool, i: nat)
    requires i < |items|
    ensures var row, own := Plan(u, items, rules, manual, taken)[i], PlanOne(u, items[i], rules);
            IsConflict(row) == IsConflict(own) && IsUnmatched(row) == IsUnmatched(own) &&
            row.matched == own.matched && row.selected == own.selected
  {
    PlannedTarget(u, items[i], rules);
  }

  /** Conflicts and missing scenarios depend on items and rules only, never on what exists. */
  lemma ReasonsIgnoreTheFileSystem(u: Alphabet, items: seq<Item>, rules: seq<Rule>, manual: Manual, taken: Target -> bool)
    ensures Tally(Plan(u, items, rules, manual, taken)).ruleConflicts == Count(PlanAll(u, items, rules), Conflicts())
    ensures Tally(Plan(u, items, rules, manual, taken)).noScenario == Count(PlanAll(u, items, rules), Unmatched())
  {
    var rows, all := Plan(u, items, rules, manual, taken), PlanAll(u, items, rules);
    forall i | 0 <= i < |rows| ensures Conflicts()(rows[i]) == Conflicts()(all[i]) && Unmatched()(rows[i]) == Unmatched()(all[i]) {
      BlockingKeepsReasons(u, items, rules, manual, taken, i);
    }
    SameCount(rows, all, Conflicts());
    SameCount(rows, all, Unmatched());
  }
}
