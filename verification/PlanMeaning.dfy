/**
 * What a plan says about each item in terms of the rules themselves: which rules are matched, when they conflict, which
 * target and which rule is chosen, and when a target is taken.
 */
module PlanMeaning {
  import opened Wrappers
  import opened Utf8
  import opened Alphabets
  import opened Rules
  import opened Planning

  // --- Winning rules ----------------------------------------------------------------------------

  // The rule matches, and no matching rule has a smaller priority number.
  ghost predicate Wins(u: Alphabet, rules: seq<Rule>, path: Text, i: nat) {
    i < |rules| && MatchRule(u, rules[i], path) &&
    forall j :: 0 <= j < |rules| && MatchRule(u, rules[j], path) ==> rules[i].priority <= rules[j].priority
  }

  ghost predicate Ascending(positions: seq<nat>) {
    forall k, l :: 0 <= k < l < |positions| ==> positions[k] < positions[l]
  }

  ghost predicate NoneMatches(u: Alphabet, rules: seq<Rule>, path: Text) {
    forall j :: 0 <= j < |rules| ==> !MatchRule(u, rules[j], path)
  }

  // The positions of exactly the winning rules, in the order of the rules.
  ghost predicate AreWinners(u: Alphabet, rules: seq<Rule>, path: Text, positions: seq<nat>) {
    Ascending(positions) &&
    (forall k :: 0 <= k < |positions| ==> Wins(u, rules, path, positions[k])) &&
    (forall i: nat :: Wins(u, rules, path, i) ==> i in positions)
  }

  function At(rules: seq<Rule>, positions: seq<nat>): seq<Rule>
    requires forall k :: 0 <= k < |positions| ==> positions[k] < |rules|
  {
    seq(|positions|, k requires 0 <= k < |positions| => rules[positions[k]])
  }

  lemma {:induction false} MinPriorityIsMin(rules: seq<Rule>)
    requires rules != []
    ensures forall r :: r in rules ==> MinPriority(rules) <= r.priority
    ensures exists r :: r in rules && r.priority == MinPriority(rules)
  {
    var n := |rules| - 1;
    assert rules == rules[..n] + [rules[n]];
    if n > 0 {
      MinPriorityIsMin(rules[..n]);
      var r :| r in rules[..n] && r.priority == MinPriority(rules[..n]);
      assert r in rules && rules[n] in rules;
    } else {
      assert rules[0] in rules;
    }
  }

  // The positions of the marks that are set.
  function Places(marks: seq<bool>): seq<nat> {
    if marks == [] then [] else Places(marks[..|marks| - 1]) + if marks[|marks| - 1] then [|marks| - 1] else []
  }

  // Exactly the marks that are set.
  ghost predicate ArePlaces(places: seq<nat>, marks: seq<bool>) {
    Ascending(places) &&
    (forall k :: 0 <= k < |places| ==> places[k] < |marks| && marks[places[k]]) &&
    (forall i :: 0 <= i < |marks| && marks[i] ==> i in places)
  }

  lemma PlacesAppend(places: seq<nat>, marks: seq<bool>, mark: bool)
    requires ArePlaces(places, marks)
    ensures ArePlaces(places + if mark then [|marks|] else [], marks + [mark])
  {
  }

  lemma {:induction false} PlacesAreExact(marks: seq<bool>)
    ensures ArePlaces(Places(marks), marks)
  {
    if marks != [] {
      var n := |marks| - 1;
      PlacesAreExact(marks[..n]);
      PlacesAppend(Places(marks[..n]), marks[..n], marks[n]);
      assert marks == marks[..n] + [marks[n]];
    }
  }

  lemma AtAppend(rules: seq<Rule>, places: seq<nat>, last: Rule)
    requires forall k :: 0 <= k < |places| ==> places[k] < |rules|
    ensures At(rules + [last], places) == At(rules, places)
    ensures At(rules + [last], places + [|rules|]) == At(rules, places) + [last]
  {
  }

  function Filter(rules: seq<Rule>, keep: Rule -> bool): seq<Rule> {
    if rules == [] then []
    else Filter(rules[..|rules| - 1], keep) + if keep(rules[|rules| - 1]) then [rules[|rules| - 1]] else []
  }

  function Marks(rules: seq<Rule>, keep: Rule -> bool): seq<bool> {
    seq(|rules|, i requires 0 <= i < |rules| => keep(rules[i]))
  }

  lemma {:induction false} FilterIsAt(rules: seq<Rule>, keep: Rule -> bool)
    ensures (forall k :: 0 <= k < |Places(Marks(rules, keep))| ==> Places(Marks(rules, keep))[k] < |rules|) &&
            Filter(rules, keep) == At(rules, Places(Marks(rules, keep)))
  {
    if rules != [] {
      var n := |rules| - 1;
      FilterIsAt(rules[..n], keep);
      AtAppend(rules[..n], Places(Marks(rules[..n], keep)), rules[n]);
      assert Marks(rules, keep)[..n] == Marks(rules[..n], keep) && rules == rules[..n] + [rules[n]];
    }
  }

  lemma WithPriorityAppend(a: seq<Rule>, r: Rule, priority: nat)
    ensures WithPriority(a + [r], priority) == WithPriority(a, priority) + if r.priority == priority then [r] else []
  {
    assert (a + [r])[..|a|] == a;
  }

  lemma {:induction false} FilterTwice(rules: seq<Rule>, keep: Rule -> bool, both: Rule -> bool, priority: nat)
    requires forall r :: both(r) == (keep(r) && r.priority == priority)
    ensures WithPriority(Filter(rules, keep), priority) == Filter(rules, both)
  {
    if rules != [] {
      var n := |rules| - 1;
      var before := Filter(rules[..n], keep);
      FilterTwice(rules[..n], keep, both, priority);
      if keep(rules[n]) {
        WithPriorityAppend(before, rules[n], priority);
      } else {
        assert Filter(rules, keep) == before;
      }
    }
  }

  lemma {:induction false} MatchingIsFilter(u: Alphabet, rules: seq<Rule>, path: Text)
    ensures Matching(u, rules, path) == Filter(rules, (r: Rule) => MatchRule(u, r, path))
  {
    if rules != [] { MatchingIsFilter(u, rules[..|rules| - 1], path); }
  }

  lemma {:induction false} FilterKeeps(rules: seq<Rule>, keep: Rule -> bool)
    ensures forall i :: 0 <= i < |rules| && keep(rules[i]) ==> rules[i] in Filter(rules, keep)
    ensures forall r :: r in Filter(rules, keep) ==> r in rules && keep(r)
  {
    if rules != [] {
      var n := |rules| - 1;
      FilterKeeps(rules[..n], keep);
      assert rules == rules[..n] + [rules[n]];
    }
  }

  // The same, for any test of rules in place of matching.
  ghost predicate WinsBy(rules: seq<Rule>, keep: Rule -> bool, i: nat) {
    i < |rules| && keep(rules[i]) && forall j :: 0 <= j < |rules| && keep(rules[j]) ==> rules[i].priority <= rules[j].priority
  }

  ghost predicate AreWinnersBy(rules: seq<Rule>, keep: Rule -> bool, positions: seq<nat>) {
    Ascending(positions) &&
    (forall k :: 0 <= k < |positions| ==> WinsBy(rules, keep, positions[k])) &&
    (forall i: nat :: WinsBy(rules, keep, i) ==> i in positions)
  }

  lemma FilterWinners(rules: seq<Rule>, keep: Rule -> bool) returns (positions: seq<nat>)
    ensures AreWinnersBy(rules, keep, positions)
    ensures positions == [] <==> Filter(rules, keep) == []
    ensures Filter(rules, keep) != [] ==>
              WithPriority(Filter(rules, keep), MinPriority(Filter(rules, keep))) == At(rules, positions)
  {
    var kept := Filter(rules, keep);
    FilterKeeps(rules, keep);
    if kept == [] {
      positions := [];
    } else {
      MinPriorityIsMin(kept);
      var priority := MinPriority(kept);
      var both := (r: Rule) => keep(r) && r.priority == priority;
      FilterTwice(rules, keep, both, priority);
      FilterIsAt(rules, both);
      PlacesAreExact(Marks(rules, both));
      positions := Places(Marks(rules, both));
      var r :| r in kept && r.priority == priority;
      var i: nat :| i < |rules| && rules[i] == r;
      BothWins(rules, keep, both, priority, i, positions);
    }
  }

  lemma BothWins(rules: seq<Rule>, keep: Rule -> bool, both: Rule -> bool, priority: nat, least: nat, positions: seq<nat>)
    requires forall r :: both(r) == (keep(r) && r.priority == priority)
    requires ArePlaces(positions, Marks(rules, both))
    requires least < |rules| && both(rules[least])
    requires forall j :: 0 <= j < |rules| && keep(rules[j]) ==> priority <= rules[j].priority
    ensures AreWinnersBy(rules, keep, positions) && positions != []
  {
    assert keep(rules[least]) && rules[least].priority == priority;
    assert Marks(rules, both)[least];
    forall i: nat | WinsBy(rules, keep, i) ensures i in positions {
      assert Marks(rules, both)[i];
    }
    forall k | 0 <= k < |positions| ensures WinsBy(rules, keep, positions[k]) {
      assert both(rules[positions[k]]);
    }
  }

  lemma WinnersArePositions(u: Alphabet, rules: seq<Rule>, path: Text) returns (positions: seq<nat>)
    ensures AreWinners(u, rules, path, positions)
    ensures Winners(u, rules, path) == At(rules, positions)
    ensures positions == [] <==> NoneMatches(u, rules, path)
  {
    var keep := (r: Rule) => MatchRule(u, r, path);
    MatchingIsFilter(u, rules, path);
    positions := FilterWinners(rules, keep);
    WinnersAreBy(u, rules, path, keep, positions);
  }

  lemma WinnersAreBy(u: Alphabet, rules: seq<Rule>, path: Text, keep: Rule -> bool, positions: seq<nat>)
    requires forall r :: keep(r) <==> MatchRule(u, r, path)
    requires AreWinnersBy(rules, keep, positions) && (positions == [] <==> Filter(rules, keep) == [])
    ensures AreWinners(u, rules, path, positions) && (positions == [] <==> NoneMatches(u, rules, path))
  {
    NoneIsKept(u, rules, path, keep);
    forall k | 0 <= k < |positions| ensures Wins(u, rules, path, positions[k]) {
      WinsAlike(u, rules, path, keep, positions[k]);
    }
    forall i: nat | Wins(u, rules, path, i) ensures i in positions {
      WinsAlike(u, rules, path, keep, i);
    }
  }

  lemma WinsAlike(u: Alphabet, rules: seq<Rule>, path: Text, keep: Rule -> bool, i: nat)
    requires forall r :: keep(r) <==> MatchRule(u, r, path)
    ensures WinsBy(rules, keep, i) <==> Wins(u, rules, path, i)
  {
  }

  lemma NoneIsKept(u: Alphabet, rules: seq<Rule>, path: Text, keep: Rule -> bool)
    requires forall r :: keep(r) <==> MatchRule(u, r, path)
    ensures Filter(rules, keep) == [] <==> NoneMatches(u, rules, path)
  {
    FilterKeeps(rules, keep);
    if Filter(rules, keep) != [] {
      var r := Filter(rules, keep)[0];
      assert r in Filter(rules, keep);
    }
  }

  // --- One item ---------------------------------------------------------------------------------

  // Two winning rules put the file at different places.
  ghost predicate Disagree(rules: seq<Rule>, positions: seq<nat>, filename: Text) {
    exists i, j :: i in positions && j in positions && i < |rules| && j < |rules| &&
                   TargetOf(rules[i], filename) != TargetOf(rules[j], filename)
  }

  // No winning rule has a smaller dictionary, or the same one and a smaller id.
  ghost predicate Leads(rules: seq<Rule>, positions: seq<nat>, i: nat) {
    i in positions && i < |rules| &&
    forall j :: j in positions && j < |rules| ==>
      rules[i].dictionary < rules[j].dictionary ||
      (rules[i].dictionary == rules[j].dictionary && rules[i].id <= rules[j].id)
  }

  ghost predicate References(refs: seq<Reference>, rules: seq<Rule>, positions: seq<nat>) {
    |refs| == |positions| &&
    forall k :: 0 <= k < |refs| ==>
      positions[k] < |rules| &&
      refs[k] == Reference(rules[positions[k]].dictionary, rules[positions[k]].version, rules[positions[k]].id)
  }

  // What a row says before anything is known about what exists.
  ghost predicate ChosenBy(row: Row, item: Item, rules: seq<Rule>, positions: seq<nat>) {
    row.item == item.id && row.filename == item.filename && row.collision == None &&
    if !item.ready then
      row.state == NOT_READY && row.reason == NotReady && row.matched == [] && row.target == None && row.selected == None
    else
      References(row.matched, rules, positions) &&
      if positions == [] then
        row.state == WILL_MANUAL_REVIEW && row.reason == NoScenario && row.target == None && row.selected == None
      else if Disagree(rules, positions, item.filename) then
        row.state == WILL_MANUAL_REVIEW && row.reason == RuleConflict && row.target == None && row.selected == None
      else
        row.state == WILL_MOVE && row.reason == NoReason &&
        (forall i :: i in positions && i < |rules| ==> row.target == Some(TargetOf(rules[i], item.filename))) &&
        SelectsLeader(row, rules, positions)
  }

  ghost predicate SelectsLeader(row: Row, rules: seq<Rule>, positions: seq<nat>) {
    exists i: nat :: Leads(rules, positions, i) &&
                     row.selected == Some(Reference(rules[i].dictionary, rules[i].version, rules[i].id))
  }

  lemma {:induction false} SelectedLeads(rules: seq<Rule>) returns (k: nat)
    requires rules != []
    ensures k < |rules| && rules[k] == Selected(rules)
    ensures forall j :: 0 <= j < |rules| ==>
              rules[k].dictionary < rules[j].dictionary ||
              (rules[k].dictionary == rules[j].dictionary && rules[k].id <= rules[j].id)
  {
    var n := |rules| - 1;
    if n == 0 {
      k := 0;
    } else {
      k := SelectedLeads(rules[..n]);
      assert forall j :: 0 <= j < n ==> rules[..n][j] == rules[j];
      if Precedes(rules[n], rules[k]) { k := n; }
    }
  }

  lemma TargetsAgreeIff(rules: seq<Rule>, positions: seq<nat>, filename: Text)
    requires forall k :: 0 <= k < |positions| ==> positions[k] < |rules|
    ensures SameTargets(At(rules, positions), filename) <==> !Disagree(rules, positions, filename)
  {
    var at := At(rules, positions);
    if Disagree(rules, positions, filename) {
      var i, j :| i in positions && j in positions && i < |rules| && j < |rules| &&
                  TargetOf(rules[i], filename) != TargetOf(rules[j], filename);
      var k :| 0 <= k < |positions| && positions[k] == i;
      var l :| 0 <= l < |positions| && positions[l] == j;
      assert at[k] == rules[i] && at[l] == rules[j];
    } else {
      forall k | 0 <= k < |at| ensures TargetOf(at[k], filename) == TargetOf(at[0], filename) {
        assert positions[k] in positions && positions[0] in positions;
      }
    }
  }

  lemma LeaderIsSelected(rules: seq<Rule>, positions: seq<nat>, row: Row)
    requires positions != [] && forall k :: 0 <= k < |positions| ==> positions[k] < |rules|
    requires row.selected == Some(Ref(Selected(At(rules, positions))))
    ensures SelectsLeader(row, rules, positions)
  {
    var k := SelectedLeads(At(rules, positions));
    var i := positions[k];
    forall j | j in positions && j < |rules|
      ensures rules[i].dictionary < rules[j].dictionary ||
              (rules[i].dictionary == rules[j].dictionary && rules[i].id <= rules[j].id)
    {
      var l :| 0 <= l < |positions| && positions[l] == j;
      assert At(rules, positions)[l] == rules[j];
    }
    assert Leads(rules, positions, i);
  }

  /** The matched rules of a ready item are exactly the matching rules of the smallest priority number, in order. Without
      one there is no scenario; if two of them have different targets they conflict; otherwise the target is the one of
      each of them, and the selected rule has the smallest dictionary and id. */
  lemma WinnersChoose(u: Alphabet, item: Item, rules: seq<Rule>) returns (positions: seq<nat>)
    ensures AreWinners(u, rules, item.path, positions) && ChosenBy(PlanOne(u, item, rules), item, rules, positions)
    ensures positions == [] <==> NoneMatches(u, rules, item.path)
  {
    positions := WinnersArePositions(u, rules, item.path);
    var winners, row := Winners(u, rules, item.path), PlanOne(u, item, rules);
    if item.ready && positions != [] {
      TargetsAgreeIff(rules, positions, item.filename);
      assert winners[0] == rules[positions[0]] && positions[0] in positions;
      if !Disagree(rules, positions, item.filename) { LeaderIsSelected(rules, positions, row); }
    }
  }

  // --- The whole plan ---------------------------------------------------------------------------

  // The ids of the other items that would move to the target of row i, in order.
  ghost predicate Rivals(rows: seq<Row>, i: nat, others: seq<nat>) {
    exists positions: seq<nat> ::
      Ascending(positions) && ItemsAt(others, rows, positions) && i < |rows| &&
      (forall k :: 0 <= k < |positions| ==>
        positions[k] < |rows| && positions[k] != i && rows[positions[k]].target == rows[i].target) &&
      (forall j :: 0 <= j < |rows| && j != i && rows[j].target == rows[i].target ==> j in positions)
  }

  // What is known to exist changes a row only by asking for a decision.
  ghost predicate Settled(own: Row, rows: seq<Row>, i: nat, manual: Manual, taken: Target -> bool)
    requires i < |rows|
  {
    match own.state
    case NOT_READY => rows[i] == own
    case WILL_MANUAL_REVIEW =>
      rows[i] == if taken(Target(manual.root, JoinPath(manual.directory, own.filename)))
                 then own.(state := REQUIRES_DECISION, reason := ManualNameOccupied, collision := Some(ManualName)) else own
    case WILL_MOVE =>
      own.target.Some? && rows[i].target == own.target &&
      if exists j :: 0 <= j < |rows| && j != i && rows[j].target == own.target then
        rows[i].collision.Some? && rows[i].collision.value.DuplicateTarget? &&
        rows[i] == own.(state := REQUIRES_DECISION, reason := TargetOccupied, collision := rows[i].collision) &&
        Rivals(rows, i, rows[i].collision.value.others)
      else if taken(own.target.value) then
        rows[i] == own.(state := REQUIRES_DECISION, reason := TargetOccupied, collision := Some(ExistingTarget))
      else rows[i] == own
    case REQUIRES_DECISION => false
  }

  predicate IsRival(row: Row, own: Row) {
    row.state.WILL_MOVE? && row.target == own.target
  }

  function RivalMarks(rows: seq<Row>, i: nat, n: nat): seq<bool>
    requires i < |rows| && n <= |rows|
  {
    seq(n, j requires 0 <= j < n => j != i && IsRival(rows[j], rows[i]))
  }

  ghost predicate ItemsAt(others: seq<nat>, rows: seq<Row>, positions: seq<nat>) {
    |others| == |positions| &&
    forall k :: 0 <= k < |positions| ==> positions[k] < |rows| && others[k] == rows[positions[k]].item
  }

  lemma {:induction false} OthersAreAt(rows: seq<Row>, i: nat, n: nat)
    requires i < |rows| && n <= |rows|
    ensures ItemsAt(Others(rows, i, n), rows, Places(RivalMarks(rows, i, n)))
  {
    if n > 0 {
      OthersAreAt(rows, i, n - 1);
      assert RivalMarks(rows, i, n)[..n - 1] == RivalMarks(rows, i, n - 1);
    }
  }

  // A row has a target exactly if its rules gave it one, whatever was found to exist.
  lemma TargetsStay(u: Alphabet, items: seq<Item>, rules: seq<Rule>, manual: Manual, taken: Target -> bool)
    ensures var checked, rows := ManualChecked(u, items, rules, manual, taken), Plan(u, items, rules, manual, taken);
            |rows| == |checked| == |items| &&
            forall j :: 0 <= j < |items| ==>
              rows[j].target == checked[j].target == PlanOne(u, items[j], rules).target &&
              rows[j].item == checked[j].item && (checked[j].state.WILL_MOVE? <==> checked[j].target.Some?)
  {
    forall j | 0 <= j < |items|
      ensures var checked := ManualChecked(u, items, rules, manual, taken);
              checked[j].target == PlanOne(u, items[j], rules).target &&
              (checked[j].state.WILL_MOVE? <==> checked[j].target.Some?)
    {
      PlannedTarget(u, items[j], rules);
      ManualKeepsMoves(u, items, rules, manual, taken, j);
    }
  }

  lemma RivalsShow(checked: seq<Row>, rows: seq<Row>, i: nat)
    requires i < |checked| == |rows| && rows[i].target.Some?
    requires forall j :: 0 <= j < |rows| ==>
               rows[j].target == checked[j].target && rows[j].item == checked[j].item &&
               (checked[j].state.WILL_MOVE? <==> checked[j].target.Some?)
    ensures Rivals(rows, i, Others(checked, i, |checked|))
    ensures Others(checked, i, |checked|) != [] <==>
              exists j :: 0 <= j < |rows| && j != i && rows[j].target == rows[i].target
  {
    var marks := RivalMarks(checked, i, |checked|);
    var positions := Places(marks);
    OthersAreAt(checked, i, |checked|);
    PlacesAreExact(marks);
    RivalsAre(rows, i, positions, marks, Others(checked, i, |checked|));
  }

  lemma RivalsAre(rows: seq<Row>, i: nat, positions: seq<nat>, marks: seq<bool>, others: seq<nat>)
    requires i < |rows| == |marks| && ArePlaces(positions, marks) && ItemsAt(others, rows, positions)
    requires forall j :: 0 <= j < |rows| ==> (marks[j] <==> j != i && rows[j].target == rows[i].target)
    ensures Rivals(rows, i, others)
    ensures others != [] <==> exists j :: 0 <= j < |rows| && j != i && rows[j].target == rows[i].target
  {
    assert forall k :: 0 <= k < |positions| ==> marks[positions[k]];
    if others != [] {
      var j := positions[0];
      assert marks[j];
    }
  }

  lemma ReasonsAre(own: Row, item: Item, rules: seq<Rule>, positions: seq<nat>)
    requires ChosenBy(own, item, rules, positions)
    ensures IsConflict(own) <==> item.ready && Disagree(rules, positions, item.filename)
    ensures IsUnmatched(own) <==> item.ready && positions == []
  {
    if item.ready && |positions| == 1 { assert forall i :: i in positions ==> i == positions[0]; }
  }

  /** Every row of a plan is chosen by the winning rules of its item; it then moves exactly if no other item has the same
      target and nothing exists there, and what blocks it is named. */
  lemma PlanFollowsTheRules(u: Alphabet, items: seq<Item>, rules: seq<Rule>, manual: Manual, taken: Target -> bool, i: nat)
    returns (own: Row, positions: seq<nat>)
    requires i < |items|
    ensures var rows := Plan(u, items, rules, manual, taken);
            |rows| == |items| && AreWinners(u, rules, items[i].path, positions) &&
            (positions == [] <==> NoneMatches(u, rules, items[i].path)) &&
            ChosenBy(own, items[i], rules, positions) && Settled(own, rows, i, manual, taken) &&
            (IsConflict(rows[i]) <==> items[i].ready && Disagree(rules, positions, items[i].filename)) &&
            (IsUnmatched(rows[i]) <==> items[i].ready && positions == [])
  {
    own := PlanOne(u, items[i], rules);
    positions := WinnersChoose(u, items[i], rules);
    PlannedTarget(u, items[i], rules);
    TargetsStay(u, items, rules, manual, taken);
    BlockingKeepsReasons(u, items, rules, manual, taken, i);
    ReasonsAre(own, items[i], rules, positions);
    if own.state.WILL_MOVE? {
      RivalsShow(ManualChecked(u, items, rules, manual, taken), Plan(u, items, rules, manual, taken), i);
    }
  }

  // --- Counts -----------------------------------------------------------------------------------

  function RowsIn(rows: seq<Row>, s: Predicted): set<nat> {
    set i: nat | i < |rows| && rows[i].state == s
  }

  lemma RowsGrow(rows: seq<Row>, last: Row, s: Predicted)
    ensures |RowsIn(rows + [last], s)| == |RowsIn(rows, s)| + if last.state == s then 1 else 0
  {
    assert RowsIn(rows + [last], s) == RowsIn(rows, s) + if last.state == s then {|rows|} else {};
  }

  lemma {:induction false} CountIsSize(rows: seq<Row>, s: Predicted)
    ensures Count(rows, InState(s)) == |RowsIn(rows, s)|
  {
    if rows != [] {
      var n := |rows| - 1;
      CountIsSize(rows[..n], s);
      RowsGrow(rows[..n], rows[n], s);
      assert rows == rows[..n] + [rows[n]];
    }
  }

  /** Each of the four counts is the number of rows in its state. */
  lemma TallyCounts(rows: seq<Row>)
    ensures var c := Tally(rows);
            c.willMove == |RowsIn(rows, WILL_MOVE)| && c.willManualReview == |RowsIn(rows, WILL_MANUAL_REVIEW)| &&
            c.requiresDecision == |RowsIn(rows, REQUIRES_DECISION)| && c.notReady == |RowsIn(rows, NOT_READY)|
  {
    CountIsSize(rows, WILL_MOVE);
    CountIsSize(rows, WILL_MANUAL_REVIEW);
    CountIsSize(rows, REQUIRES_DECISION);
    CountIsSize(rows, NOT_READY);
  }
}
