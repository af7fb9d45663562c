/**
 * Planning where queue items go: matching rules, choosing one target, and blocking targets that are taken.
 */
module Rules {
  import opened Wrappers
  import opened Utf8
  import opened Alphabets
  import opened Glob

  const Dot: CodePoint := 0x2E
  const Backslash: CodePoint := 0x5C

  datatype MatchField = Basename | WholePath
  datatype Target = Target(root: nat, path: Text)
  datatype Rule = Rule(dictionary: nat, version: Option<nat>, id: nat, field: MatchField, mask: Text, priority: nat,
                       root: nat, directory: Text, stem: Text)
  datatype Reference = Reference(dictionary: nat, version: Option<nat>, id: nat)

  datatype Item = Item(id: nat, path: Text, filename: Text, ready: bool)

  datatype Predicted = WILL_MOVE | WILL_MANUAL_REVIEW | REQUIRES_DECISION | NOT_READY
  datatype Reason = NoReason | NotReady | NoScenario | RuleConflict | ManualNameOccupied | TargetOccupied
  datatype Collision = ManualName | DuplicateTarget(others: seq<nat>) | ExistingTarget

  datatype Row = Row(item: nat, filename: Text, state: Predicted, reason: Reason, target: Option<Target>,
                     matched: seq<Reference>, selected: Option<Reference>, collision: Option<Collision>)

  // --- Matching -------------------------------------------------------------------------------

  function Replace(text: Text, from: CodePoint, to: CodePoint): Text {
    seq(|text|, i requires 0 <= i < |text| => if text[i] == from then to else text[i])
  }

  function AfterLast(text: Text, c: CodePoint): Text {
    if text == [] || text[|text| - 1] == c then []
    else AfterLast(text[..|text| - 1], c) + [text[|text| - 1]]
  }

  predicate HasDoubleStar(mask: Text) {
    exists i :: 0 <= i < |mask| - 1 && mask[i] == Star && mask[i + 1] == Star
  }

  function MatchValue(rule: Rule, path: Text): Text {
    if rule.field.Basename? then AfterLast(Replace(path, Backslash, Slash), Slash) else Replace(path, Slash, Backslash)
  }

  function MatchMask(rule: Rule): Text {
    if rule.field.Basename? then rule.mask else Replace(rule.mask, Slash, Backslash)
  }

  predicate MatchRule(u: Alphabet, rule: Rule, path: Text) {
    !HasDoubleStar(rule.mask) && MatchGlob(u.Fold(MatchMask(rule)), u.Fold(MatchValue(rule, path)))
  }

  /** On every path whose folded text has no star, a rule applies exactly if its mask has no double star and the folded
      mask means the folded value. */
  lemma RuleMeansItsMask(u: Alphabet, rule: Rule, path: Text)
    requires StarFree(u.Fold(MatchValue(rule, path)))
    ensures MatchRule(u, rule, path) <==>
              !HasDoubleStar(rule.mask) && Matches(u.Fold(MatchMask(rule)), u.Fold(MatchValue(rule, path)))
  {
    GlobIsComplete(u.Fold(MatchMask(rule)), u.Fold(MatchValue(rule, path)));
  }

  // --- One item -------------------------------------------------------------------------------

  function Extension(filename: Text): Text {
    var suffix := AfterLast(filename, Dot);
    var dot := |filename| - |suffix| - 1;
    if dot <= 0 || suffix == [] then [] else filename[dot..]
  }

  function TrimSlashes(directory: Text): Text {
    if directory != [] && directory[|directory| - 1] == Slash then TrimSlashes(directory[..|directory| - 1]) else directory
  }

  function JoinPath(directory: Text, filename: Text): Text {
    if directory == [] then filename else TrimSlashes(directory) + [Slash] + filename
  }

  function TargetOf(rule: Rule, filename: Text): Target {
    Target(rule.root, JoinPath(rule.directory, rule.stem + Extension(filename)))
  }

  function Ref(rule: Rule): Reference {
    Reference(rule.dictionary, rule.version, rule.id)
  }

  function Matching(u: Alphabet, rules: seq<Rule>, path: Text): seq<Rule> {
    if rules == [] then []
    else Matching(u, rules[..|rules| - 1], path) + if MatchRule(u, rules[|rules| - 1], path) then [rules[|rules| - 1]] else []
  }

  function MinPriority(rules: seq<Rule>): nat
    requires rules != []
  {
    if |rules| == 1 then rules[0].priority
    else
      var m := MinPriority(rules[..|rules| - 1]);
      if rules[|rules| - 1].priority < m then rules[|rules| - 1].priority else m
  }

  function WithPriority(rules: seq<Rule>, priority: nat): seq<Rule> {
    if rules == [] then []
    else
      WithPriority(rules[..|rules| - 1], priority) +
      if rules[|rules| - 1].priority == priority then [rules[|rules| - 1]] else []
  }

  function Winners(u: Alphabet, rules: seq<Rule>, path: Text): seq<Rule> {
    var matching := Matching(u, rules, path);
    if matching == [] then [] else WithPriority(matching, MinPriority(matching))
  }

  function Refs(rules: seq<Rule>): seq<Reference> {
    seq(|rules|, i requires 0 <= i < |rules| => Ref(rules[i]))
  }

  predicate SameTargets(rules: seq<Rule>, filename: Text) {
    forall i :: 0 <= i < |rules| ==> TargetOf(rules[i], filename) == TargetOf(rules[0], filename)
  }

  predicate Precedes(a: Rule, b: Rule) {
    a.dictionary < b.dictionary || (a.dictionary == b.dictionary && a.id < b.id)
  }

  // The winner with the smallest dictionary and rule id, the first of them if several have it.
  function Selected(rules: seq<Rule>): Rule
    requires rules != []
  {
    if |rules| == 1 then rules[0]
    else
      var s := Selected(rules[..|rules| - 1]);
      if Precedes(rules[|rules| - 1], s) then rules[|rules| - 1] else s
  }

  function PlanOne(u: Alphabet, item: Item, rules: seq<Rule>): Row {
    if item.ready then RowBy(item, Winners(u, rules, item.path))
    else Row(item.id, item.filename, NOT_READY, NotReady, None, [], None, None)
  }

  function RowBy(item: Item, winners: seq<Rule>): Row {
    var base := Row(item.id, item.filename, WILL_MANUAL_REVIEW, NoScenario, None, [], None, None);
    if winners == [] then base
    else if !SameTargets(winners, item.filename) then base.(reason := RuleConflict, matched := Refs(winners))
    else
      base.(state := WILL_MOVE, reason := NoReason, target := Some(TargetOf(winners[0], item.filename)),
            matched := Refs(winners), selected := Some(Ref(Selected(winners))))
  }

  function PlanAll(u: Alphabet, items: seq<Item>, rules: seq<Rule>): seq<Row> {
    seq(|items|, i requires 0 <= i < |items| => PlanOne(u, items[i], rules))
  }

  // --- Collisions -----------------------------------------------------------------------------

  datatype Manual = Manual(root: nat, directory: Text)

  function ManualTarget(manual: Manual, row: Row): Target {
    Target(manual.root, JoinPath(manual.directory, row.filename))
  }

  function Block(row: Row, reason: Reason, collision: Collision): Row {
    row.(state := REQUIRES_DECISION, reason := reason, collision := Some(collision))
  }

  function AfterManual(row: Row, manual: Manual, taken: Target -> bool): Row {
    if row.state.WILL_MANUAL_REVIEW? && taken(ManualTarget(manual, row))
    then Block(row, ManualNameOccupied, ManualName) else row
  }

  // The items that plan the same target as row i, except itself.
  function Others(rows: seq<Row>, i: nat, n: nat): seq<nat>
    requires i < |rows| && n <= |rows|
  {
    if n == 0 then []
    else
      Others(rows, i, n - 1) +
      if n - 1 != i && rows[n - 1].state.WILL_MOVE? && rows[n - 1].target == rows[i].target then [rows[n - 1].item] else []
  }

  function AfterTargets(rows: seq<Row>, i: nat, taken: Target -> bool): Row
    requires i < |rows|
  {
    var row := rows[i];
    if !row.state.WILL_MOVE? || row.target.None? then row
    else if Others(rows, i, |rows|) != [] then Block(row, TargetOccupied, DuplicateTarget(Others(rows, i, |rows|)))
    else if taken(row.target.value) then Block(row, TargetOccupied, ExistingTarget)
    else row
  }

  // What the plan must be, row by row.
  function Plan(u: Alphabet, items: seq<Item>, rules: seq<Rule>, manual: Manual, taken: Target -> bool): seq<Row> {
    var rows := ManualChecked(u, items, rules, manual, taken);
    seq(|rows|, i requires 0 <= i < |rows| => AfterTargets(rows, i, taken))
  }

  function ManualChecked(u: Alphabet, items: seq<Item>, rules: seq<Rule>, manual: Manual, taken: Target -> bool): seq<Row> {
    seq(|items|, i requires 0 <= i < |items| => AfterManual(PlanOne(u, items[i], rules), manual, taken))
  }

  // --- The planner as a program ---------------------------------------------------------------

  // Rows by planned target, in row order.
  type Groups = map<Target, seq<nat>>

  predicate PlansTarget(row: Row, t: Target) {
    row.state.WILL_MOVE? && row.target == Some(t)
  }

  function GroupOf(rows: seq<Row>, n: nat, t: Target): seq<nat>
    requires n <= |rows|
  {
    if n == 0 then [] else GroupOf(rows, n - 1, t) + if PlansTarget(rows[n - 1], t) then [n - 1] else []
  }

  ghost predicate GroupsOk(groups: Groups, rows: seq<Row>, n: nat)
    requires n <= |rows|
  {
    forall t :: (t in groups <==> GroupOf(rows, n, t) != []) && (t in groups ==> groups[t] == GroupOf(rows, n, t))
  }

  method GroupTargets(rows: seq<Row>) returns (groups: Groups)
    ensures GroupsOk(groups, rows, |rows|)
  {
    groups := map[];
    for i := 0 to |rows|
      invariant GroupsOk(groups, rows, i)
    {
      if rows[i].state.WILL_MOVE? && rows[i].target.Some? {
        var t := rows[i].target.value;
        groups := groups[t := (if t in groups then groups[t] else []) + [i]];
      }
    }
  }

  // Exactly the rows that plan the target, in ascending order.
  ghost predicate IsGroup(group: seq<nat>, rows: seq<Row>, n: nat, t: Target)
    requires n <= |rows|
  {
    (forall k, l :: 0 <= k < l < |group| ==> group[k] < group[l]) &&
    (forall k :: 0 <= k < |group| ==> group[k] < n) &&
    forall j: nat :: j < n ==> (j in group <==> PlansTarget(rows[j], t))
  }

  lemma {:induction false} GroupIsExact(rows: seq<Row>, n: nat, t: Target)
    requires n <= |rows|
    ensures IsGroup(GroupOf(rows, n, t), rows, n, t)
  {
    if n > 0 { GroupIsExact(rows, n - 1, t); }
  }

  // The ids of the other rows of a group.
  method OthersOf(rows: seq<Row>, group: seq<nat>, i: nat, ghost t: Target) returns (others: seq<nat>)
    requires i < |rows| && PlansTarget(rows[i], t) && IsGroup(group, rows, |rows|, t)
    ensures others == Others(rows, i, |rows|)
  {
    others := [];
    ghost var reach: nat := 0;
    for k := 0 to |group|
      invariant reach <= |rows| && others == Others(rows, i, reach)
      invariant reach == if k == 0 then 0 else group[k - 1] + 1
    {
      NoneBetween(rows, group, i, t, k, reach);
      if group[k] != i {
        others := others + [rows[group[k]].item];
      }
      reach := group[k] + 1;
    }
    NoneAfter(rows, group, i, t, reach);
  }

  lemma {:induction false} SkipOthers(rows: seq<Row>, i: nat, from: nat, to: nat)
    requires i < |rows| && from <= to <= |rows| && rows[i].state.WILL_MOVE?
    requires forall j :: from <= j < to ==> j == i || !rows[j].state.WILL_MOVE? || rows[j].target != rows[i].target
    ensures Others(rows, i, to) == Others(rows, i, from)
  {
    if from < to { SkipOthers(rows, i, from, to - 1); }
  }

  lemma Below(group: seq<nat>, k: nat, l: nat)
    requires forall a, b :: 0 <= a < b < |group| ==> group[a] < group[b]
    requires k < |group| && l < |group| && group[l] < group[k]
    ensures k > 0 && group[l] <= group[k - 1]
  {
    if l != k - 1 { assert l < k - 1; }
  }

  lemma NoneBetween(rows: seq<Row>, group: seq<nat>, i: nat, t: Target, k: nat, reach: nat)
    requires i < |rows| && PlansTarget(rows[i], t) && k < |group| && IsGroup(group, rows, |rows|, t)
    requires reach == if k == 0 then 0 else group[k - 1] + 1
    ensures reach <= group[k] && Others(rows, i, group[k]) == Others(rows, i, reach)
  {
    forall j: nat | reach <= j < group[k] ensures !PlansTarget(rows[j], t) {
      if j in group {
        var l: nat :| l < |group| && group[l] == j;
        Below(group, k, l);
      }
    }
    SkipOthers(rows, i, reach, group[k]);
  }

  lemma LastIsGreatest(group: seq<nat>)
    requires forall a, b :: 0 <= a < b < |group| ==> group[a] < group[b]
    ensures forall l :: 0 <= l < |group| ==> group[l] <= group[|group| - 1]
  {
  }

  lemma NoneAfter(rows: seq<Row>, group: seq<nat>, i: nat, t: Target, reach: nat)
    requires i < |rows| && PlansTarget(rows[i], t) && reach <= |rows| && IsGroup(group, rows, |rows|, t)
    requires reach == if group == [] then 0 else group[|group| - 1] + 1
    ensures Others(rows, i, |rows|) == Others(rows, i, reach)
  {
    LastIsGreatest(group);
    forall j: nat | reach <= j < |rows| ensures !PlansTarget(rows[j], t) {
    }
    SkipOthers(rows, i, reach, |rows|);
  }

  // Blocks the rows of one target, or its only row if the target exists.
  method BlockGroup(planned: seq<Row>, rows: seq<Row>, group: seq<nat>, t: Target, taken: Target -> bool)
    returns (later: seq<Row>)
    requires |rows| == |planned| && IsGroup(group, planned, |planned|, t)
    requires forall k :: 0 <= k < |group| ==> rows[group[k]] == planned[group[k]]
    ensures |later| == |planned|
    ensures forall j :: 0 <= j < |planned| ==>
              later[j] == if j in group then AfterTargets(planned, j, taken) else rows[j]
  {
    later := rows;
    for k := 0 to |group|
      invariant |later| == |planned|
      invariant forall j :: 0 <= j < |planned| ==>
                  later[j] == if j in group[..k] then AfterTargets(planned, j, taken) else rows[j]
    {
      var i := group[k];
      assert i in group && group[..k + 1] == group[..k] + [i];
      var others := OthersOf(planned, group, i, t);
      if others != [] {
        later := later[i := Block(planned[i], TargetOccupied, DuplicateTarget(others))];
      } else if taken(t) {
        later := later[i := Block(planned[i], TargetOccupied, ExistingTarget)];
      } else {
        later := later[i := planned[i]];
      }
    }
    assert group[..|group|] == group;
  }

  /** The plan, built in passes that update the rows: every row is what the specification says. */
  method PlanRows(u: Alphabet, items: seq<Item>, rules: seq<Rule>, manual: Manual, taken: Target -> bool)
    returns (rows: seq<Row>)
    ensures rows == Plan(u, items, rules, manual, taken)
  {
    rows := PlanEach(u, items, rules);
    rows := CheckManual(rows, manual, taken);
    assert rows == ManualChecked(u, items, rules, manual, taken);
    rows := BlockTargets(rows, taken);
  }

  method PlanEach(u: Alphabet, items: seq<Item>, rules: seq<Rule>) returns (rows: seq<Row>)
    ensures rows == PlanAll(u, items, rules)
  {
    rows := [];
    for i := 0 to |items|
      invariant |rows| == i && forall k :: 0 <= k < i ==> rows[k] == PlanOne(u, items[k], rules)
    {
      rows := rows + [PlanOne(u, items[i], rules)];
    }
  }

  method CheckManual(planned: seq<Row>, manual: Manual, taken: Target -> bool) returns (rows: seq<Row>)
    ensures |rows| == |planned| && forall k :: 0 <= k < |rows| ==> rows[k] == AfterManual(planned[k], manual, taken)
  {
    rows := planned;
    for i := 0 to |rows|
      invariant |rows| == |planned|
      invariant forall k :: 0 <= k < |rows| ==> rows[k] == if k < i then AfterManual(planned[k], manual, taken) else planned[k]
    {
      if rows[i].state.WILL_MANUAL_REVIEW? && taken(ManualTarget(manual, rows[i])) {
        rows := rows[i := Block(rows[i], ManualNameOccupied, ManualName)];
      }
    }
  }

  method BlockTargets(planned: seq<Row>, taken: Target -> bool) returns (rows: seq<Row>)
    ensures |rows| == |planned| && forall i :: 0 <= i < |rows| ==> rows[i] == AfterTargets(planned, i, taken)
  {
    var groups := GroupTargets(planned);
    rows := planned;
    var rest := groups.Keys;
    ghost var blocked := {};
    while rest != {}
      invariant rest <= groups.Keys && blocked == groups.Keys - rest && Blocked(planned, rows, blocked, taken)
      decreases |rest|
    {
      var t :| t in rest;
      rows := BlockNext(planned, rows, groups, t, blocked, taken);
      rest, blocked := rest - {t}, blocked + {t};
    }
    forall i | 0 <= i < |rows| ensures rows[i] == AfterTargets(planned, i, taken) {
      EveryTargetHasAGroup(planned, groups, i);
    }
  }

  // The rows of these targets are done, the others are as planned.
  ghost predicate Blocked(planned: seq<Row>, rows: seq<Row>, blocked: set<Target>, taken: Target -> bool) {
    |rows| == |planned| &&
    forall i :: 0 <= i < |rows| ==>
      rows[i] == if PlansOneOf(planned[i], blocked) then AfterTargets(planned, i, taken) else planned[i]
  }

  ghost predicate PlansOneOf(row: Row, targets: set<Target>) {
    row.state.WILL_MOVE? && row.target.Some? && row.target.value in targets
  }

  lemma EveryTargetHasAGroup(planned: seq<Row>, groups: Groups, i: nat)
    requires GroupsOk(groups, planned, |planned|) && i < |planned|
    ensures planned[i].state.WILL_MOVE? && planned[i].target.Some? ==> planned[i].target.value in groups
  {
    if planned[i].state.WILL_MOVE? && planned[i].target.Some? {
      GroupIsExact(planned, |planned|, planned[i].target.value);
      assert i in GroupOf(planned, |planned|, planned[i].target.value);
    }
  }

  method BlockNext(planned: seq<Row>, rows: seq<Row>, groups: Groups, t: Target, ghost blocked: set<Target>,
                   taken: Target -> bool)
    returns (later: seq<Row>)
    requires GroupsOk(groups, planned, |planned|) && t in groups && t !in blocked && Blocked(planned, rows, blocked, taken)
    ensures Blocked(planned, later, blocked + {t}, taken)
  {
    GroupIsExact(planned, |planned|, t);
    forall k | 0 <= k < |groups[t]| ensures rows[groups[t][k]] == planned[groups[t][k]] {
      assert groups[t][k] in groups[t];
    }
    later := BlockGroup(planned, rows, groups[t], t, taken);
    forall i | 0 <= i < |later|
      ensures later[i] == if PlansOneOf(planned[i], blocked + {t}) then AfterTargets(planned, i, taken) else planned[i]
    {
      assert i in groups[t] <==> PlansTarget(planned[i], t);
    }
  }
}
