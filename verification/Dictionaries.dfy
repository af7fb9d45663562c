/**
 * Rule dictionaries: drafts, published versions, simulations of a draft, and the freshness check that makes a
 * simulation binding for publication.
 */
module Dictionaries {
  import opened Wrappers
  import opened Blanks
  import opened Utf8
  import opened Alphabets
  import opened Rules
  import opened Planning

  datatype RuleBody = RuleBody(id: nat, field: MatchField, mask: Text, priority: nat, root: nat, directory: Text, stem: Text)
  datatype Draft = Draft(revision: nat, rules: seq<RuleBody>)
  // The name is kept stripped.
  datatype Dictionary = Dictionary(id: nat, company: nat, name: Text, active: Option<nat>, draft: Draft)

  type Versions = map<nat, seq<RuleBody>>

  function Bind(body: RuleBody, dictionary: nat, version: Option<nat>): Rule {
    Rule(dictionary, version, body.id, body.field, body.mask, body.priority, body.root, body.directory, body.stem)
  }

  function BindAll(bodies: seq<RuleBody>, dictionary: nat, version: Option<nat>): seq<Rule> {
    seq(|bodies|, i requires 0 <= i < |bodies| => Bind(bodies[i], dictionary, version))
  }

  // The rules one dictionary contributes; the candidate contributes its draft.
  function Contribution(d: Dictionary, versions: Versions, company: nat, candidate: Option<nat>): seq<Rule> {
    if d.company != company then []
    else if candidate == Some(d.id) then BindAll(d.draft.rules, d.id, None)
    else if d.active.Some? && d.active.value in versions then BindAll(versions[d.active.value], d.id, d.active)
    else []
  }

  // The dictionaries are kept in id order.
  function Flatten(dictionaries: seq<Dictionary>, versions: Versions, company: nat, candidate: Option<nat>): seq<Rule> {
    if dictionaries == [] then []
    else
      Flatten(dictionaries[..|dictionaries| - 1], versions, company, candidate) +
      Contribution(dictionaries[|dictionaries| - 1], versions, company, candidate)
  }

  datatype Member = Member(dictionary: nat, version: nat)

  function RuleSet(dictionaries: seq<Dictionary>, company: nat): seq<Member> {
    if dictionaries == [] then []
    else
      var d := dictionaries[|dictionaries| - 1];
      RuleSet(dictionaries[..|dictionaries| - 1], company) +
      if d.company == company && d.active.Some? then [Member(d.id, d.active.value)] else []
  }

  lemma {:induction false} FlattenJoins(a: seq<Dictionary>, b: seq<Dictionary>, versions: Versions, company: nat,
                                        candidate: Option<nat>)
    ensures Flatten(a + b, versions, company, candidate) ==
            Flatten(a, versions, company, candidate) + Flatten(b, versions, company, candidate)
  {
    if b == [] {
      assert a + b == a;
    } else {
      var n := |b| - 1;
      FlattenJoins(a, b[..n], versions, company, candidate);
      assert (a + b)[..|a + b| - 1] == a + b[..n];
      RulesRegroup(Flatten(a, versions, company, candidate), Flatten(b[..n], versions, company, candidate),
                   Contribution(b[n], versions, company, candidate));
    }
  }

  lemma RulesRegroup(a: seq<Rule>, b: seq<Rule>, c: seq<Rule>)
    ensures a + (b + c) == a + b + c
  {
  }

  // The rules of one dictionary, in order, each with the dictionary's id and the version it is taken from.
  ghost predicate AreRulesOf(rules: seq<Rule>, bodies: seq<RuleBody>, dictionary: nat, version: Option<nat>) {
    |rules| == |bodies| &&
    forall i :: 0 <= i < |bodies| ==>
      var b := bodies[i];
      rules[i] == Rule(dictionary, version, b.id, b.field, b.mask, b.priority, b.root, b.directory, b.stem)
  }

  /** The rules of a company are those of its dictionaries, one after the other: the draft of the candidate, the active
      version of every other dictionary that has one, and nothing of other companies. */
  lemma DictionaryContributes(before: seq<Dictionary>, d: Dictionary, after: seq<Dictionary>, versions: Versions,
                              company: nat, candidate: Option<nat>) returns (own: seq<Rule>)
    ensures Flatten(before + [d] + after, versions, company, candidate) ==
            Flatten(before, versions, company, candidate) + own + Flatten(after, versions, company, candidate)
    ensures if d.company != company then own == []
            else if candidate == Some(d.id) then AreRulesOf(own, d.draft.rules, d.id, None)
            else if d.active.Some? && d.active.value in versions
            then AreRulesOf(own, versions[d.active.value], d.id, Some(d.active.value))
            else own == []
  {
    FlattenJoins(before + [d], after, versions, company, candidate);
    FlattenJoins(before, [d], versions, company, candidate);
    assert [d][..0] == [];
    own := Contribution(d, versions, company, candidate);
    assert Flatten([d], versions, company, candidate) == own;
  }

  /** The rule set of a company names the dictionaries that have an active version, with that version. */
  lemma {:induction false} RuleSetNames(dictionaries: seq<Dictionary>, company: nat, m: Member)
    ensures m in RuleSet(dictionaries, company) <==>
            exists i :: 0 <= i < |dictionaries| && dictionaries[i].company == company &&
                        dictionaries[i].id == m.dictionary && dictionaries[i].active == Some(m.version)
  {
    if dictionaries != [] {
      var n := |dictionaries| - 1;
      RuleSetNames(dictionaries[..n], company, m);
      assert forall i :: 0 <= i < n ==> dictionaries[..n][i] == dictionaries[i];
    }
  }

  // What a simulation keeps of the moment it was made.
  datatype Simulation = Simulation(dictionary: nat, draftRevision: nat, ruleSet: seq<Member>, ready: seq<Item>, rules: seq<Rule>,
                                   rows: seq<Row>, counts: Counts, expires: nat)

  datatype Problem = NotFound | DraftConflict | WrongDictionary | StaleSimulation | ConflictingRules | AcknowledgementRequired
                   | InvalidRules | BlankComment | EmptyName | NameConflict

  // --- Publishing keeps the simulated rules ---------------------------------------------------

  function StripRule(r: Rule): Rule {
    r.(version := None)
  }

  function StripRules(rules: seq<Rule>): seq<Rule> {
    seq(|rules|, i requires 0 <= i < |rules| => StripRule(rules[i]))
  }

  function StripRef(r: Reference): Reference {
    r.(version := None)
  }

  function StripRow(row: Row): Row {
    row.(matched := seq(|row.matched|, i requires 0 <= i < |row.matched| => StripRef(row.matched[i])),
         selected := if row.selected.None? then None else Some(StripRef(row.selected.value)))
  }

  function StripRows(rows: seq<Row>): seq<Row> {
    seq(|rows|, i requires 0 <= i < |rows| => StripRow(rows[i]))
  }

  lemma StripAppend(a: seq<Rule>, b: seq<Rule>)
    ensures StripRules(a + b) == StripRules(a) + StripRules(b)
  {
  }

  lemma StripBound(bodies: seq<RuleBody>, dictionary: nat, v: Option<nat>, w: Option<nat>)
    ensures StripRules(BindAll(bodies, dictionary, v)) == StripRules(BindAll(bodies, dictionary, w))
  {
  }

  ghost predicate DistinctDictionaries(dictionaries: seq<Dictionary>) {
    forall i, j :: 0 <= i < j < |dictionaries| ==> dictionaries[i].id != dictionaries[j].id
  }

  // After publishing a draft as a version, the flattened rules are the ones with the draft in its place.
  lemma {:induction false} PublishedRulesAreDraftRules(before: seq<Dictionary>, after: seq<Dictionary>, versions: Versions, k: nat,
                                                       version: nat, company: nat)
    requires k < |before| && DistinctDictionaries(before) && version !in versions
    requires forall i :: 0 <= i < |before| && before[i].active.Some? ==> before[i].active.value in versions
    requires after == before[k := before[k].(active := Some(version))]
    ensures StripRules(Flatten(after, versions[version := before[k].draft.rules], company, None)) ==
            StripRules(Flatten(before, versions, company, Some(before[k].id)))
  {
    PrefixRules(before, after, versions, k, version, company, |before|);
    assert before[..|before|] == before && after[..|after|] == after;
  }

  lemma {:induction false} PrefixRules(before: seq<Dictionary>, after: seq<Dictionary>, versions: Versions, k: nat, version: nat,
                                       company: nat, n: nat)
    requires k < |before| && DistinctDictionaries(before) && version !in versions && n <= |before|
    requires forall i :: 0 <= i < |before| && before[i].active.Some? ==> before[i].active.value in versions
    requires after == before[k := before[k].(active := Some(version))]
    ensures StripRules(Flatten(after[..n], versions[version := before[k].draft.rules], company, None)) ==
            StripRules(Flatten(before[..n], versions, company, Some(before[k].id)))
  {
    if n > 0 {
      var later := versions[version := before[k].draft.rules];
      PrefixRules(before, after, versions, k, version, company, n - 1);
      FlattenLast(after, later, company, None, n);
      FlattenLast(before, versions, company, Some(before[k].id), n);
      StripAppend(Flatten(after[..n - 1], later, company, None), Contribution(after[n - 1], later, company, None));
      StripAppend(Flatten(before[..n - 1], versions, company, Some(before[k].id)),
                  Contribution(before[n - 1], versions, company, Some(before[k].id)));
      ContributionStays(before, after, versions, k, version, company, n - 1);
    }
  }

  lemma FlattenLast(dictionaries: seq<Dictionary>, versions: Versions, company: nat, candidate: Option<nat>, n: nat)
    requires 0 < n <= |dictionaries|
    ensures Flatten(dictionaries[..n], versions, company, candidate) ==
            Flatten(dictionaries[..n - 1], versions, company, candidate) +
            Contribution(dictionaries[n - 1], versions, company, candidate)
  {
    assert dictionaries[..n][..n - 1] == dictionaries[..n - 1];
  }

  lemma ContributionStays(before: seq<Dictionary>, after: seq<Dictionary>, versions: Versions, k: nat, version: nat,
                          company: nat, i: nat)
    requires k < |before| && DistinctDictionaries(before) && version !in versions && i < |before|
    requires before[i].active.Some? ==> before[i].active.value in versions
    requires after == before[k := before[k].(active := Some(version))]
    ensures StripRules(Contribution(after[i], versions[version := before[k].draft.rules], company, None)) ==
            StripRules(Contribution(before[i], versions, company, Some(before[k].id)))
  {
    if i == k {
      StripBound(before[k].draft.rules, before[k].id, Some(version), None);
    } else {
      assert before[i].id != before[k].id;
    }
  }

  // --- Plans do not look at version ids -------------------------------------------------------

  lemma {:induction false} MatchingStripped(u: Alphabet, rules: seq<Rule>, path: Text)
    ensures Matching(u, StripRules(rules), path) == StripRules(Matching(u, rules, path))
  {
    if rules != [] {
      var n := |rules| - 1;
      MatchingStripped(u, rules[..n], path);
      assert StripRules(rules)[..n] == StripRules(rules[..n]);
      StripAppend(Matching(u, rules[..n], path), if MatchRule(u, rules[n], path) then [rules[n]] else []);
    }
  }

  lemma {:induction false} PriorityStripped(rules: seq<Rule>, priority: nat)
    ensures rules != [] ==> MinPriority(StripRules(rules)) == MinPriority(rules)
    ensures WithPriority(StripRules(rules), priority) == StripRules(WithPriority(rules, priority))
  {
    if rules != [] {
      var n := |rules| - 1;
      PriorityStripped(rules[..n], priority);
      assert StripRules(rules)[..n] == StripRules(rules[..n]);
      StripAppend(WithPriority(rules[..n], priority), if rules[n].priority == priority then [rules[n]] else []);
    }
  }

  lemma {:induction false} SelectedStripped(rules: seq<Rule>)
    requires rules != []
    ensures Selected(StripRules(rules)) == StripRule(Selected(rules))
  {
    var n := |rules| - 1;
    if n > 0 {
      SelectedStripped(rules[..n]);
      assert StripRules(rules)[..n] == StripRules(rules[..n]);
    }
  }

  lemma WinnersStripped(u: Alphabet, rules: seq<Rule>, path: Text)
    ensures Winners(u, StripRules(rules), path) == StripRules(Winners(u, rules, path))
  {
    var matching := Matching(u, rules, path);
    MatchingStripped(u, rules, path);
    if matching != [] { PriorityStripped(matching, MinPriority(matching)); }
  }

  lemma TargetsStripped(rules: seq<Rule>, filename: Text)
    ensures SameTargets(StripRules(rules), filename) <==> SameTargets(rules, filename)
  {
    var stripped := StripRules(rules);
    assert forall i :: 0 <= i < |rules| ==> TargetOf(stripped[i], filename) == TargetOf(rules[i], filename);
  }

  lemma PlanOneStripped(u: Alphabet, item: Item, rules: seq<Rule>)
    ensures PlanOne(u, item, StripRules(rules)) == StripRow(PlanOne(u, item, rules))
  {
    if item.ready {
      WinnersStripped(u, rules, item.path);
      RowByStripped(item, Winners(u, rules, item.path));
    }
  }

  lemma RowByStripped(item: Item, winners: seq<Rule>)
    ensures RowBy(item, StripRules(winners)) == StripRow(RowBy(item, winners))
  {
    TargetsStripped(winners, item.filename);
    if winners != [] { SelectedStripped(winners); }
    RefsStripped(winners);
  }

  lemma RefsStripped(rules: seq<Rule>)
    ensures Refs(StripRules(rules)) == seq(|rules|, i requires 0 <= i < |rules| => StripRef(Ref(rules[i])))
  {
  }

  lemma {:induction false} OthersStripped(rows: seq<Row>, i: nat, n: nat)
    requires i < |rows| && n <= |rows|
    ensures Others(StripRows(rows), i, n) == Others(rows, i, n)
  {
    if n > 0 { OthersStripped(rows, i, n - 1); }
  }

  lemma ManualStripped(u: Alphabet, items: seq<Item>, rules: seq<Rule>, manual: Manual, taken: Target -> bool)
    ensures ManualChecked(u, items, StripRules(rules), manual, taken) == StripRows(ManualChecked(u, items, rules, manual, taken))
  {
    var a := ManualChecked(u, items, StripRules(rules), manual, taken);
    var b := StripRows(ManualChecked(u, items, rules, manual, taken));
    forall i | 0 <= i < |items| ensures a[i] == b[i] {
      PlanOneStripped(u, items[i], rules);
    }
  }

  /** Planning by rules without version ids gives the same plan without version ids. */
  lemma PlanStripped(u: Alphabet, items: seq<Item>, rules: seq<Rule>, manual: Manual, taken: Target -> bool)
    ensures Plan(u, items, StripRules(rules), manual, taken) == StripRows(Plan(u, items, rules, manual, taken))
  {
    var rows := ManualChecked(u, items, rules, manual, taken);
    ManualStripped(u, items, rules, manual, taken);
    var a, b := Plan(u, items, StripRules(rules), manual, taken), StripRows(Plan(u, items, rules, manual, taken));
    forall i | 0 <= i < |rows| ensures a[i] == b[i] {
      OthersStripped(rows, i, |rows|);
    }
  }

  lemma SamePlan(u: Alphabet, items: seq<Item>, a: seq<Rule>, b: seq<Rule>, manual: Manual, taken: Target -> bool)
    requires StripRules(a) == StripRules(b)
    ensures StripRows(Plan(u, items, a, manual, taken)) == StripRows(Plan(u, items, b, manual, taken))
  {
    PlanStripped(u, items, a, manual, taken);
    PlanStripped(u, items, b, manual, taken);
  }

  lemma StrippedConflicts(rows: seq<Row>)
    ensures Count(StripRows(rows), Conflicts()) == Count(rows, Conflicts())
  {
    SameCount(StripRows(rows), rows, Conflicts());
  }

  // The same reference, whatever its version.
  predicate SameButVersion(a: Reference, b: Reference) {
    a.dictionary == b.dictionary && a.id == b.id
  }

  /** Rows that are equal without version ids agree in everything else: state, reason, target, collision, and the rules
      they matched and selected. */
  lemma StrippedRowsAgree(a: Row, b: Row)
    ensures StripRow(a) == StripRow(b) <==>
            a.item == b.item && a.filename == b.filename && a.state == b.state && a.reason == b.reason &&
            a.target == b.target && a.collision == b.collision && |a.matched| == |b.matched| &&
            (forall i :: 0 <= i < |a.matched| ==> SameButVersion(a.matched[i], b.matched[i])) &&
            (a.selected.Some? <==> b.selected.Some?) &&
            (a.selected.Some? ==> SameButVersion(a.selected.value, b.selected.value))
  {
    var x, y := StripRow(a), StripRow(b);
    if x == y {
      forall i | 0 <= i < |a.matched| ensures SameButVersion(a.matched[i], b.matched[i]) {
        assert x.matched[i] == y.matched[i];
      }
    } else if |a.matched| == |b.matched| && forall i :: 0 <= i < |a.matched| ==> SameButVersion(a.matched[i], b.matched[i]) {
      assert x.matched == y.matched;
    }
  }

  // A simulation is what planning its own items by its own rules gave.
  ghost predicate Genuine(sim: Simulation, u: Alphabet, manual: Manual, taken: Target -> bool) {
    sim.rows == Plan(u, sim.ready, sim.rules, manual, taken) && sim.counts == Tally(sim.rows)
  }

  /** After a publication by these rules, planning the simulated items gives the simulated plan up to version ids, and
      no rule conflict, whatever exists by then. */
  lemma PublicationKeepsThePlan(u: Alphabet, sim: Simulation, manual: Manual, before: Target -> bool, now: Target -> bool,
                                rules: seq<Rule>)
    requires Genuine(sim, u, manual, before) && sim.counts.ruleConflicts == 0 && StripRules(rules) == StripRules(sim.rules)
    ensures StripRows(Plan(u, sim.ready, rules, manual, before)) == StripRows(sim.rows)
    ensures Tally(Plan(u, sim.ready, rules, manual, now)).ruleConflicts == 0
  {
    SamePlan(u, sim.ready, rules, sim.rules, manual, before);
    ReasonsIgnoreTheFileSystem(u, sim.ready, rules, manual, now);
    ReasonsIgnoreTheFileSystem(u, sim.ready, rules, manual, before);
    StrippedConflicts(Plan(u, sim.ready, rules, manual, before));
    StrippedConflicts(sim.rows);
  }

  // --- The service ----------------------------------------------------------------------------

  predicate UniqueIds(rules: seq<RuleBody>) {
    forall i, j :: 0 <= i < j < |rules| ==> rules[i].id != rules[j].id
  }

  datatype Policy = Policy(targets: set<(nat, Text)>, stemAllowed: Text -> bool)

  predicate ValidRules(rules: seq<RuleBody>, policy: Policy) {
    UniqueIds(rules) &&
    forall i :: 0 <= i < |rules| ==>
      (rules[i].root, rules[i].directory) in policy.targets && policy.stemAllowed(rules[i].stem)
  }

  class DictionaryService {
    const u: Alphabet
    const manual: Manual
    const ttl: nat
    const policy: Policy
    var dictionaries: seq<Dictionary>
    var versions: Versions
    var nextVersion: nat
    var ready: map<nat, seq<Item>>
    var clock: nat

    constructor (u: Alphabet, manual: Manual, ttl: nat, policy: Policy)
      ensures Valid() && dictionaries == [] && this.u == u && this.manual == manual
    {
      this.u, this.manual, this.ttl, this.policy := u, manual, ttl, policy;
      dictionaries, versions, nextVersion, ready, clock := [], map[], 0, map[], 0;
    }

    ghost predicate Valid()
      reads this
    {
      DistinctDictionaries(dictionaries) && (forall v :: v in versions ==> v < nextVersion) &&
      forall i :: 0 <= i < |dictionaries| && dictionaries[i].active.Some? ==> dictionaries[i].active.value in versions
    }

    function Ready(company: nat): seq<Item>
      reads this
    {
      if company in ready then ready[company] else []
    }

    function RulesWith(k: nat): seq<Rule>
      requires k < |dictionaries|
      reads this
    {
      Flatten(dictionaries, versions, dictionaries[k].company, Some(dictionaries[k].id))
    }

    // Another dictionary of the company has this name, but for case.
    predicate NameTaken(k: nat, name: Text)
      requires k < |dictionaries|
      reads this
    {
      exists i :: 0 <= i < |dictionaries| && i != k && dictionaries[i].company == dictionaries[k].company &&
                  u.Fold(dictionaries[i].name) == u.Fold(name)
    }

    // The first check of a new draft that fails.
    function DraftObstacle(k: nat, expected: nat, name: Text, rules: seq<RuleBody>): Option<Problem>
      requires k < |dictionaries|
      reads this
    {
      if dictionaries[k].draft.revision != expected then Some(DraftConflict)
      else if name == [] then Some(EmptyName)
      else if NameTaken(k, name) then Some(NameConflict)
      else if !ValidRules(rules, policy) then Some(InvalidRules)
      else None
    }

    // Saves a draft, and the stripped name, under the next revision number.
    method ReplaceDraft(k: nat, expected: nat, name: Text, rules: seq<RuleBody>) returns (problem: Option<Problem>)
      requires Valid() && k < |dictionaries|
      modifies this`dictionaries
      ensures Valid()
      ensures problem == old(DraftObstacle(k, expected, name, rules))
      ensures dictionaries == if problem.Some? then old(dictionaries)
                              else old(dictionaries)[k := old(dictionaries[k]).(name := name, draft := Draft(expected + 1, rules))]
      ensures old(DistinctNames()) ==> DistinctNames()
    {
      problem := DraftObstacle(k, expected, name, rules);
      if problem.None? {
        dictionaries := dictionaries[k := dictionaries[k].(name := name, draft := Draft(expected + 1, rules))];
      }
    }

    // No two dictionaries of a company have the same name, but for case.
    ghost predicate DistinctNames()
      reads this
    {
      forall i, j :: 0 <= i < j < |dictionaries| && dictionaries[i].company == dictionaries[j].company ==>
        u.Fold(dictionaries[i].name) != u.Fold(dictionaries[j].name)
    }

    /** A draft is accepted exactly if it replaces the expected revision, has a name that no other dictionary of the company
        has but for case, and its rules have different ids, allowed targets and allowed stems. */
    lemma DraftIsAcceptedIff(k: nat, expected: nat, name: Text, rules: seq<RuleBody>)
      requires k < |dictionaries|
      ensures DraftObstacle(k, expected, name, rules) == None <==>
              dictionaries[k].draft.revision == expected && name != [] &&
              (forall i :: 0 <= i < |dictionaries| && i != k && dictionaries[i].company == dictionaries[k].company ==>
                u.Fold(dictionaries[i].name) != u.Fold(name)) &&
              (forall i, j :: 0 <= i < j < |rules| ==> rules[i].id != rules[j].id) &&
              (forall i :: 0 <= i < |rules| ==>
                (rules[i].root, rules[i].directory) in policy.targets && policy.stemAllowed(rules[i].stem))
    {
    }

    // Plans the ready items with the draft in place of the active version; changes nothing.
    method Simulate(k: nat, expected: nat, taken: Target -> bool) returns (simulation: Option<Simulation>)
      requires Valid() && k < |dictionaries|
      ensures simulation.Some? <==> dictionaries[k].draft.revision == expected
      ensures simulation.Some? ==> Genuine(simulation.value, u, manual, taken) && Fresh(k, simulation.value) == (ttl > 0)
    {
      if dictionaries[k].draft.revision != expected {
        return None;
      }
      var company := dictionaries[k].company;
      var items, rules := Ready(company), RulesWith(k);
      var rows := PlanRows(u, items, rules, manual, taken);
      var counts := PlanCounts(rows);
      simulation := Some(Simulation(dictionaries[k].id, expected, RuleSet(dictionaries, company), items, rules, rows, counts,
                                    clock + ttl));
    }

    // Nothing the simulation depends on has changed, and it has not expired.
    predicate Fresh(k: nat, sim: Simulation)
      requires k < |dictionaries|
      reads this
    {
      clock < sim.expires && dictionaries[k].draft.revision == sim.draftRevision &&
      RuleSet(dictionaries, dictionaries[k].company) == sim.ruleSet && RulesWith(k) == sim.rules &&
      Ready(dictionaries[k].company) == sim.ready
    }

    // The first check that fails.
    function Obstacle(k: nat, expected: nat, sim: Simulation, acknowledged: bool, comment: string): Option<Problem>
      requires k < |dictionaries|
      reads this
    {
      if dictionaries[k].draft.revision != expected then Some(DraftConflict)
      else if sim.dictionary != dictionaries[k].id then Some(WrongDictionary)
      else if !Fresh(k, sim) then Some(StaleSimulation)
      else if sim.counts.ruleConflicts > 0 then Some(ConflictingRules)
      else if sim.counts.noScenario > 0 && !acknowledged then Some(AcknowledgementRequired)
      else if !ValidRules(dictionaries[k].draft.rules, policy) then Some(InvalidRules)
      else if Blank(comment) then Some(BlankComment)
      else None
    }

    /** Nothing stands in the way of a publication exactly if the simulation is of this draft revision, has not expired, was
        made with the same active versions, rules and ready items, has no conflict and no item without a scenario that
        was not acknowledged, the draft is valid, and the comment is not blank. The checks come in this order. */
    lemma PublishesIff(k: nat, expected: nat, sim: Simulation, acknowledged: bool, comment: string)
      requires k < |dictionaries|
      ensures var d := dictionaries[k];
              var stale := sim.expires <= clock || sim.draftRevision != d.draft.revision ||
                           sim.ruleSet != RuleSet(dictionaries, d.company) || sim.ready != Ready(d.company) ||
                           sim.rules != Flatten(dictionaries, versions, d.company, Some(d.id));
              match Obstacle(k, expected, sim, acknowledged, comment)
              case Some(DraftConflict) => d.draft.revision != expected
              case Some(WrongDictionary) => sim.dictionary != d.id
              case Some(StaleSimulation) => sim.dictionary == d.id && stale
              case Some(ConflictingRules) => !stale && sim.counts.ruleConflicts > 0
              case Some(AcknowledgementRequired) => !stale && sim.counts.noScenario > 0 && !acknowledged
              case Some(InvalidRules) => !stale && !ValidRules(d.draft.rules, policy)
              case Some(BlankComment) => !stale && Blank(comment)
              case Some(_) => false
              case None =>
                d.draft.revision == expected && sim.dictionary == d.id && !stale && sim.counts.ruleConflicts == 0 &&
                (sim.counts.noScenario == 0 || acknowledged) && ValidRules(d.draft.rules, policy) && !Blank(comment)
    {
    }

    /** Publishing turns the draft into the active version, or changes nothing. After it, planning the ready items with
        the company's rules gives the simulated plan up to version ids, with no rule conflict. */
    method Publish(k: nat, expected: nat, sim: Simulation, acknowledged: bool, comment: string, ghost taken: Target -> bool)
      returns (problem: Option<Problem>)
      requires Valid() && k < |dictionaries| && Genuine(sim, u, manual, taken)
      modifies this`dictionaries, this`versions, this`nextVersion
      ensures Valid()
      ensures problem == old(Obstacle(k, expected, sim, acknowledged, comment))
      ensures problem.Some? ==> dictionaries == old(dictionaries) && versions == old(versions)
      ensures problem.None? ==>
                dictionaries == old(dictionaries)[k := old(dictionaries[k]).(active := Some(old(nextVersion)))] &&
                versions == old(versions)[old(nextVersion) := old(dictionaries[k].draft.rules)]
      ensures problem.None? ==>
                var company := dictionaries[k].company;
                var rules := Flatten(dictionaries, versions, company, None);
                Ready(company) == sim.ready && StripRules(rules) == StripRules(sim.rules) &&
                StripRows(Plan(u, sim.ready, rules, manual, taken)) == StripRows(sim.rows) &&
                forall now: Target -> bool {:trigger Plan(u, sim.ready, rules, manual, now)} ::
                  Tally(Plan(u, sim.ready, rules, manual, now)).ruleConflicts == 0
    {
      problem := Obstacle(k, expected, sim, acknowledged, comment);
      if problem.Some? {
        return;
      }
      PublishedRulesAreDraftRules(dictionaries, dictionaries[k := dictionaries[k].(active := Some(nextVersion))], versions, k,
                                  nextVersion, dictionaries[k].company);
      versions := versions[nextVersion := dictionaries[k].draft.rules];
      dictionaries := dictionaries[k := dictionaries[k].(active := Some(nextVersion))];
      nextVersion := nextVersion + 1;
      ghost var rules := Flatten(dictionaries, versions, dictionaries[k].company, None);
      forall now: Target -> bool
        ensures StripRows(Plan(u, sim.ready, rules, manual, taken)) == StripRows(sim.rows) &&
                Tally(Plan(u, sim.ready, rules, manual, now)).ruleConflicts == 0
      {
        PublicationKeepsThePlan(u, sim, manual, taken, now, rules);
      }
      PublicationKeepsThePlan(u, sim, manual, taken, taken, rules);
    }
  }
}
