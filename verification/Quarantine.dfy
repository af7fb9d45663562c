/**
 * Returning a quarantined file to where it came from: an operation per accepted request, written before the
 * rename, resolved afterwards from what is observed, and never moved a second time.
 */
module Quarantine {
  import opened Wrappers
  import opened Blanks
  import opened FileMover
  import opened FileMoverPlacement

  datatype OpPhase = PLANNED | COMPLETED | REJECTED | UNRESOLVED

  datatype Body = Body(expectedRevision: nat, comment: string)
  datatype Key = Key(user: nat, card: nat, token: string)
  datatype KeyRecord = KeyRecord(body: Body, op: nat)

  datatype Card = Card(item: nat, location: Path, original: Path, revision: nat, canReturn: bool,
                       operation: Option<nat>, returned: bool, identity: Option<Identity>)

  // The result of a completed operation is the queue row as it was returned.
  datatype Op = Op(card: nat, body: Body, phase: OpPhase, identity: Identity, source: Path, target: Path,
                   result: Option<Row>)

  datatype Refusal = KeyReused | NotFound | InvalidState | VersionConflict | BlankComment | PathOccupied | NeedsRecovery
  datatype Reply = Returned(op: nat, row: Row) | Refused(why: Refusal)

  datatype Place =
    | Resting
    | Renaming(op: nat) | Rejecting(op: nat) | Resolving(op: nat) | Completing(op: nat) | Blocking(op: nat)

  datatype QState = QState(fs: Files, cards: map<nat, Card>, ops: seq<Op>, keys: map<Key, KeyRecord>,
                           rows: map<nat, Row>, claims: map<nat, nat>,
                           moved: seq<nat>,       // the operations whose file was renamed, in order
                           proc: Place)

  predicate Unfinished(op: Op) {
    op.phase == PLANNED || op.phase == UNRESOLVED
  }

  // Why a request for a new operation is refused, in the order of the checks.
  function Objection(s: QState, id: nat, body: Body): Option<Refusal> {
    if id !in s.cards then Some(NotFound)
    else
      var card := s.cards[id];
      if card.returned || card.operation.Some? || !card.canReturn then Some(InvalidState)
      else if card.revision != body.expectedRevision then Some(VersionConflict)
      else if Blank(body.comment) then Some(BlankComment)
      else if card.original in s.fs then Some(PathOccupied)
      else
        var seen := Stat(s.fs, card.location);
        if seen.None? || (card.identity.Some? && card.identity != seen) then Some(InvalidState) else None
  }

  function NewOp(s: QState, id: nat, body: Body): Op
    requires Objection(s, id, body).None?
  {
    var card := s.cards[id];
    Op(id, body, PLANNED, Stat(s.fs, card.location).value, card.location, card.original, None)
  }

  function AfterPlan(s: QState, key: Key, body: Body): QState
    requires Objection(s, key.card, body).None?
  {
    var o := |s.ops|;
    s.(ops := s.ops + [NewOp(s, key.card, body)], keys := s.keys[key := KeyRecord(body, o)],
       cards := s.cards[key.card := s.cards[key.card].(canReturn := false, operation := Some(o))],
       proc := Renaming(o))
  }

  function AfterReject(s: QState, o: nat): QState
    requires o < |s.ops|
  {
    var op := s.ops[o];
    if op.card !in s.cards then s.(proc := Resting)
    else
      s.(cards := s.cards[op.card := s.cards[op.card].(canReturn := true, operation := None)],
         ops := s.ops[o := op.(phase := REJECTED)], proc := Resting)
  }

  // The queue row of a returned file waits for the next scan; it names no attempt.
  function ReturnedRow(row: Row, identity: Identity): Row {
    row.(revision := row.revision + 1, status := WAITING_READY, selectable := false, reason := None, active := None,
         identity := identity, departed := false)
  }

  function AfterComplete(s: QState, o: nat): QState
    requires o < |s.ops|
  {
    var op := s.ops[o];
    if op.phase == COMPLETED || op.card !in s.cards || s.cards[op.card].item !in s.rows then s.(proc := Resting)
    else
      var card := s.cards[op.card];
      var row := ReturnedRow(s.rows[card.item], op.identity);
      s.(rows := s.rows[card.item := row],
         cards := s.cards[op.card := card.(revision := card.revision + 1, canReturn := false, operation := None,
                                           returned := true)],
         ops := s.ops[o := op.(phase := COMPLETED, result := Some(row))], proc := Resting)
  }

  function AfterBlock(s: QState, o: nat): QState
    requires o < |s.ops|
  {
    var op := s.ops[o];
    if op.phase == UNRESOLVED || op.card !in s.cards then s.(proc := Resting)
    else
      s.(cards := s.cards[op.card := s.cards[op.card].(revision := s.cards[op.card].revision + 1)],
         ops := s.ops[o := op.(phase := UNRESOLVED)], proc := Resting)
  }

  // An operation counts as done only if its file is seen at the target and nothing is left at the source.
  function Resolved(fs: Files, op: Op, o: nat, readable: bool): Place {
    if readable && Stat(fs, op.source).None? && Stat(fs, op.target) == Some(op.identity) then Completing(o)
    else Blocking(o)
  }

  datatype QAction =
    | Outside(fs: Files)
    | Mover(rows: map<nat, Row>, claims: map<nat, nat>)
    | AddCard(id: nat, card: Card)
    | Crash
    | Plan(key: Key, body: Body)
    | Rename(call: Call)
    | Reject
    | Pick(op: nat)
    | Look(readable: bool)
    | Complete
    | Block

  predicate RenamePossible(fs: Files, op: Op, call: Call) {
    match call
    case Exists => Stat(fs, op.source) == Some(op.identity) && op.target in fs
    case Vanished => Stat(fs, op.source) != Some(op.identity)
    case Error => true
    case _ => CanMove(fs, op.source, op.target, op.identity)
  }

  // The mover may do what it wants to rows and claims, but the rows that cards refer to are never deleted.
  predicate QEnabled(s: QState, a: QAction) {
    match a
    case Outside(_) => true
    case Mover(rows, claims) => forall item :: item in s.rows ==> item in rows
    case AddCard(id, card) =>
      id !in s.cards && card.canReturn && !card.returned && card.operation.None? && card.item in s.rows
    case Crash => true
    case Plan(key, body) => s.proc.Resting? && key !in s.keys && Objection(s, key.card, body).None?
    case Rename(call) => s.proc.Renaming? && s.proc.op < |s.ops| && RenamePossible(s.fs, s.ops[s.proc.op], call)
    case Reject => s.proc.Rejecting? && s.proc.op < |s.ops|
    case Pick(o) => s.proc.Resting? && o < |s.ops| && Unfinished(s.ops[o])
    case Look(_) => s.proc.Resolving? && s.proc.op < |s.ops|
    case Complete => s.proc.Completing? && s.proc.op < |s.ops|
    case Block => s.proc.Blocking? && s.proc.op < |s.ops|
  }

  function AfterRename(s: QState, call: Call): QState
    requires QEnabled(s, QAction.Rename(call))
  {
    var o := s.proc.op;
    var op := s.ops[o];
    s.(fs := if Moves(call) then Moved(s.fs, op.source, op.target) else s.fs,
       moved := if Moves(call) then s.moved + [o] else s.moved,
       proc := if call.Exists? then Rejecting(o) else Resolving(o))
  }

  function QStep(s: QState, a: QAction): QState
    requires QEnabled(s, a)
  {
    match a
    case Outside(fs) => s.(fs := fs)
    case Mover(rows, claims) => s.(rows := rows, claims := claims)
    case AddCard(id, card) => s.(cards := s.cards[id := card])
    case Crash => s.(proc := Resting)
    case Plan(key, body) => AfterPlan(s, key, body)
    case Rename(call) => AfterRename(s, call)
    case Reject => AfterReject(s, s.proc.op)
    case Pick(o) => s.(proc := Resolving(o))
    case Look(readable) => s.(proc := Resolved(s.fs, s.ops[s.proc.op], s.proc.op, readable))
    case Complete => AfterComplete(s, s.proc.op)
    case Block => AfterBlock(s, s.proc.op)
  }

  ghost predicate QStart(s: QState) {
    s.cards == map[] && s.ops == [] && s.keys == map[] && s.moved == [] && s.proc == Resting
  }

  ghost predicate QSteps(s: QState, actions: seq<QAction>, t: QState)
    decreases |actions|
  {
    if actions == [] then s == t
    else QEnabled(s, actions[0]) && QSteps(QStep(s, actions[0]), actions[1..], t)
  }

  // --- Invariant, in any environment ----------------------------------------------------------

  // A card is open for a return, or held by its one unfinished operation, or returned.
  ghost predicate CardOk(id: nat, card: Card, ops: seq<Op>, rows: map<nat, Row>) {
    card.item in rows &&
    (card.canReturn <==> card.operation.None? && !card.returned) &&
    (forall o :: 0 <= o < |ops| && ops[o].card == id && Unfinished(ops[o]) ==> card.operation == Some(o)) &&
    (card.operation.Some? ==>
      !card.returned && card.operation.value < |ops| && ops[card.operation.value].card == id &&
      Unfinished(ops[card.operation.value]))
  }

  ghost predicate CardsOk(cards: map<nat, Card>, ops: seq<Op>, rows: map<nat, Row>) {
    forall id :: id in cards ==> CardOk(id, cards[id], ops, rows)
  }

  ghost predicate OpsOk(ops: seq<Op>, cards: map<nat, Card>) {
    forall o :: 0 <= o < |ops| ==> ops[o].card in cards && (ops[o].phase == COMPLETED <==> ops[o].result.Some?)
  }

  ghost predicate KeysOk(keys: map<Key, KeyRecord>, ops: seq<Op>) {
    forall k :: k in keys ==> keys[k].op < |ops| && ops[keys[k].op].body == keys[k].body && ops[keys[k].op].card == k.card
  }

  // No operation renames twice.
  ghost predicate OnceEach(moved: seq<nat>, ops: seq<Op>, proc: Place) {
    (forall i :: 0 <= i < |moved| ==> moved[i] < |ops|) &&
    (forall i, j :: 0 <= i < j < |moved| ==> moved[i] != moved[j]) &&
    (proc.Renaming? ==> proc.op !in moved)
  }

  ghost predicate PlaceOk(ops: seq<Op>, proc: Place) {
    proc.Resting? ||
    (proc.op < |ops| && Unfinished(ops[proc.op]) && (proc.Renaming? || proc.Rejecting? ==> ops[proc.op].phase == PLANNED))
  }

  ghost predicate QInv(s: QState) {
    CardsOk(s.cards, s.ops, s.rows) && OpsOk(s.ops, s.cards) && KeysOk(s.keys, s.ops) &&
    OnceEach(s.moved, s.ops, s.proc) && PlaceOk(s.ops, s.proc)
  }

  lemma NewOpKeeps(s: QState, t: QState, key: Key, op: Op)
    requires QInv(s) && s.proc.Resting? && key !in s.keys && key.card in s.cards && op.card == key.card
    requires var card := s.cards[key.card]; card.canReturn && card.operation.None? && !card.returned
    requires op.phase == PLANNED && op.result.None?
    requires t == s.(ops := s.ops + [op], keys := s.keys[key := KeyRecord(op.body, |s.ops|)],
                     cards := s.cards[key.card := s.cards[key.card].(canReturn := false, operation := Some(|s.ops|))],
                     proc := Renaming(|s.ops|))
    ensures QInv(t)
  {
    assert CardOk(key.card, s.cards[key.card], s.ops, s.rows);
    forall id | id in t.cards ensures CardOk(id, t.cards[id], t.ops, t.rows) {
      assert CardOk(id, s.cards[id], s.ops, s.rows);
    }
  }

  lemma PlanKeeps(s: QState, key: Key, body: Body)
    requires QInv(s) && QEnabled(s, Plan(key, body))
    ensures QInv(AfterPlan(s, key, body))
  {
    NewOpKeeps(s, AfterPlan(s, key, body), key, NewOp(s, key.card, body));
  }

  // The end of an operation: its card no longer names it.
  lemma OneOpChanges(cards: map<nat, Card>, ops: seq<Op>, rows: map<nat, Row>, o: nat, op: Op, card: Card)
    requires CardsOk(cards, ops, rows) && OpsOk(ops, cards) && o < |ops| && Unfinished(ops[o])
    requires op.card == ops[o].card && card.item == cards[op.card].item
    requires card.canReturn <==> card.operation.None? && !card.returned
    requires if Unfinished(op) then card.operation == Some(o) && !card.returned else card.operation == None
    ensures CardsOk(cards[op.card := card], ops[o := op], rows)
  {
    assert CardOk(op.card, cards[op.card], ops, rows);
    forall id | id in cards && id != op.card ensures CardOk(id, cards[id], ops[o := op], rows) {
      assert CardOk(id, cards[id], ops, rows);
    }
  }

  lemma KeysStay(keys: map<Key, KeyRecord>, ops: seq<Op>, o: nat, op: Op)
    requires KeysOk(keys, ops) && o < |ops| && op.card == ops[o].card && op.body == ops[o].body
    ensures KeysOk(keys, ops[o := op])
  {
  }

  lemma RejectKeeps(s: QState)
    requires QInv(s) && QEnabled(s, Reject)
    ensures QInv(AfterReject(s, s.proc.op))
  {
    var o, t := s.proc.op, AfterReject(s, s.proc.op);
    assert CardOk(s.ops[o].card, s.cards[s.ops[o].card], s.ops, s.rows);
    OneOpChanges(s.cards, s.ops, s.rows, o, t.ops[o], t.cards[s.ops[o].card]);
    KeysStay(s.keys, s.ops, o, t.ops[o]);
  }

  lemma BlockKeeps(s: QState)
    requires QInv(s) && QEnabled(s, Block)
    ensures QInv(AfterBlock(s, s.proc.op))
  {
    var o, t := s.proc.op, AfterBlock(s, s.proc.op);
    assert CardOk(s.ops[o].card, s.cards[s.ops[o].card], s.ops, s.rows);
    if s.ops[o].phase != UNRESOLVED {
      OneOpChanges(s.cards, s.ops, s.rows, o, t.ops[o], t.cards[s.ops[o].card]);
      KeysStay(s.keys, s.ops, o, t.ops[o]);
    }
  }

  lemma RowsStay(cards: map<nat, Card>, ops: seq<Op>, rows: map<nat, Row>, later: map<nat, Row>)
    requires CardsOk(cards, ops, rows) && forall item :: item in rows ==> item in later
    ensures CardsOk(cards, ops, later)
  {
    forall id | id in cards ensures CardOk(id, cards[id], ops, later) {
      assert CardOk(id, cards[id], ops, rows);
    }
  }

  lemma CompleteKeeps(s: QState)
    requires QInv(s) && QEnabled(s, Complete)
    ensures QInv(AfterComplete(s, s.proc.op))
  {
    var o, t := s.proc.op, AfterComplete(s, s.proc.op);
    assert CardOk(s.ops[o].card, s.cards[s.ops[o].card], s.ops, s.rows);
    RowsStay(s.cards, s.ops, s.rows, t.rows);
    OneOpChanges(s.cards, s.ops, t.rows, o, t.ops[o], t.cards[s.ops[o].card]);
    KeysStay(s.keys, s.ops, o, t.ops[o]);
  }

  lemma AddCardKeeps(s: QState, id: nat, card: Card)
    requires QInv(s) && QEnabled(s, AddCard(id, card))
    ensures QInv(s.(cards := s.cards[id := card]))
  {
    var later := s.cards[id := card];
    forall k | k in later ensures CardOk(k, later[k], s.ops, s.rows) {
      if k != id { assert CardOk(k, s.cards[k], s.ops, s.rows); }
    }
  }

  lemma QStepKeepsInv(s: QState, a: QAction)
    requires QInv(s) && QEnabled(s, a)
    ensures QInv(QStep(s, a))
  {
    match a
    case Plan(key, body) => PlanKeeps(s, key, body);
    case Reject => RejectKeeps(s);
    case Complete => CompleteKeeps(s);
    case Block => BlockKeeps(s);
    case AddCard(id, card) => AddCardKeeps(s, id, card);
    case Mover(rows, _) => RowsStay(s.cards, s.ops, s.rows, rows);
    case _ =>
  }

  lemma {:induction false} QRunKeepsInv(s: QState, actions: seq<QAction>, t: QState)
    requires QInv(s) && QSteps(s, actions, t)
    ensures QInv(t)
    decreases |actions|
  {
    if actions != [] {
      QStepKeepsInv(s, actions[0]);
      QRunKeepsInv(QStep(s, actions[0]), actions[1..], t);
    }
  }

  // --- At most one move -----------------------------------------------------------------------

  /** Over any sequence of requests, replays, crashes, reconciliations and outside changes, no operation renames its
      file twice. */
  lemma AtMostOneMove(s: QState, actions: seq<QAction>, t: QState, o: nat)
    requires QStart(s) && QSteps(s, actions, t)
    ensures multiset(t.moved)[o] <= 1
  {
    QRunKeepsInv(s, actions, t);
    DistinctCounts(t.moved, o);
  }

  lemma {:induction false} DistinctCounts(moved: seq<nat>, o: nat)
    requires forall i, j :: 0 <= i < j < |moved| ==> moved[i] != moved[j]
    ensures multiset(moved)[o] <= 1 && (multiset(moved)[o] == 1 ==> o in moved)
  {
    if moved != [] {
      var n := |moved| - 1;
      assert moved == moved[..n] + [moved[n]];
      DistinctCounts(moved[..n], o);
    }
  }

  /** A step that is not an outside one changes the tree only by moving the operation's file to a free original path;
      nothing that was there is replaced or lost. */
  lemma NeverReplaces(s: QState, a: QAction)
    requires QEnabled(s, a) && !a.Outside?
    ensures QStep(s, a).fs == s.fs ||
            (a.Rename? && var op := s.ops[s.proc.op];
             At(s.fs, op.source, op.identity) && op.target !in s.fs &&
             QStep(s, a).fs == (s.fs - {op.source})[op.target := File(op.identity)] &&
             QStep(s, a).moved == s.moved + [s.proc.op])
  {
  }

  // --- Replays --------------------------------------------------------------------------------

  // The answer to a repeated key, when it needs no look at the file system.
  function Replayed(s: QState, key: Key, body: Body): Option<Reply> {
    if key !in s.keys then None
    else if s.keys[key].body != body then Some(Refused(KeyReused))
    else if s.keys[key].op >= |s.ops| then None
    else
      var op := s.ops[s.keys[key].op];
      if op.phase == COMPLETED && op.result.Some? then Some(Returned(s.keys[key].op, op.result.value))
      else if op.phase == REJECTED then Some(Refused(PathOccupied))
      else None
  }

  ghost predicate Grows(s: QState, t: QState) {
    |s.ops| <= |t.ops| &&
    (forall o :: 0 <= o < |s.ops| && !Unfinished(s.ops[o]) ==> t.ops[o] == s.ops[o]) &&
    (forall k :: k in s.keys ==> k in t.keys && t.keys[k] == s.keys[k])
  }

  lemma QStepGrows(s: QState, a: QAction)
    requires PlaceOk(s.ops, s.proc) && QEnabled(s, a)
    ensures Grows(s, QStep(s, a))
  {
  }

  lemma {:induction false} QRunGrows(s: QState, actions: seq<QAction>, t: QState)
    requires QInv(s) && QSteps(s, actions, t)
    ensures Grows(s, t)
    decreases |actions|
  {
    if actions != [] {
      QStepGrows(s, actions[0]);
      QStepKeepsInv(s, actions[0]);
      QRunGrows(QStep(s, actions[0]), actions[1..], t);
    }
  }

  /** Once a key has a final answer, every replay of it gives the same answer for ever, and another body under the
      same key is always refused. */
  lemma ReplaysAgree(s: QState, before: seq<QAction>, t: QState, after: seq<QAction>, u: QState, key: Key, body: Body)
    requires QStart(s) && QSteps(s, before, t) && QSteps(t, after, u)
    requires Replayed(t, key, body).Some?
    ensures Replayed(u, key, body) == Replayed(t, key, body)
  {
    QRunKeepsInv(s, before, t);
    QRunGrows(t, after, u);
  }

  // --- Where the file is ----------------------------------------------------------------------

  // Others leave the files of unfinished returns where they are.
  ghost predicate Respects(s: QState, fs: Files) {
    Unique(fs) &&
    forall o :: 0 <= o < |s.ops| && Unfinished(s.ops[o]) ==>
      (At(s.fs, s.ops[o].source, s.ops[o].identity) ==> At(fs, s.ops[o].source, s.ops[o].identity)) &&
      (At(s.fs, s.ops[o].target, s.ops[o].identity) ==> At(fs, s.ops[o].target, s.ops[o].identity))
  }

  // A quarantine location carries the id of its attempt: it is no other card's location and no original path.
  ghost predicate ApartFrom(card: Card, other: Card) {
    card.location != other.location && card.location != other.original && card.original != other.location
  }

  ghost predicate CardsApart(cards: map<nat, Card>) {
    (forall id :: id in cards ==> cards[id].location != cards[id].original) &&
    (forall id, other :: id in cards && other in cards && id != other ==> ApartFrom(cards[id], cards[other]))
  }

  ghost predicate QBenign(s: QState, a: QAction) {
    match a
    case Outside(fs) => Respects(s, fs)
    case AddCard(id, card) => CardsApart(s.cards[id := card])
    case _ => true
  }

  ghost predicate QBenignSteps(s: QState, actions: seq<QAction>, t: QState)
    decreases |actions|
  {
    if actions == [] then s == t
    else QEnabled(s, actions[0]) && QBenign(s, actions[0]) && QBenignSteps(QStep(s, actions[0]), actions[1..], t)
  }

  ghost predicate OpPlaced(fs: Files, moved: seq<nat>, o: nat, op: Op) {
    if Unfinished(op) then At(fs, if o in moved then op.target else op.source, op.identity)
    else (o in moved <==> op.phase == COMPLETED)
  }

  ghost predicate OpsPlaced(fs: Files, moved: seq<nat>, ops: seq<Op>) {
    forall o :: 0 <= o < |ops| ==> OpPlaced(fs, moved, o, ops[o])
  }

  ghost predicate OpsFollow(ops: seq<Op>, cards: map<nat, Card>) {
    forall o :: 0 <= o < |ops| ==> ops[o].card in cards && ops[o].source == cards[ops[o].card].location &&
                                   ops[o].target == cards[ops[o].card].original
  }

  ghost predicate OpsApart(ops: seq<Op>) {
    forall o, i :: 0 <= o < i < |ops| && Unfinished(ops[o]) && Unfinished(ops[i]) ==> ops[o].identity != ops[i].identity
  }

  ghost predicate PlaceMoved(moved: seq<nat>, proc: Place) {
    match proc
    case Renaming(o) => o !in moved
    case Rejecting(o) => o !in moved
    case Completing(o) => o in moved
    case _ => true
  }

  ghost predicate QPlaceInv(s: QState) {
    Unique(s.fs) && CardsApart(s.cards) && OpsFollow(s.ops, s.cards) && OpsApart(s.ops) &&
    OpsPlaced(s.fs, s.moved, s.ops) && PlaceMoved(s.moved, s.proc)
  }

  // A new operation starts from a quarantine location, where no unfinished operation has its file.
  lemma PlanIsApart(s: QState, id: nat, body: Body)
    requires Unique(s.fs) && CardsApart(s.cards) && OpsFollow(s.ops, s.cards) && OpsPlaced(s.fs, s.moved, s.ops)
    requires Objection(s, id, body).None?
    requires forall o :: 0 <= o < |s.ops| && Unfinished(s.ops[o]) ==> s.ops[o].card != id
    ensures forall o :: 0 <= o < |s.ops| && Unfinished(s.ops[o]) ==> s.ops[o].identity != NewOp(s, id, body).identity
  {
    forall o | 0 <= o < |s.ops| && Unfinished(s.ops[o]) ensures s.ops[o].identity != NewOp(s, id, body).identity {
      assert OpPlaced(s.fs, s.moved, o, s.ops[o]) && ApartFrom(s.cards[id], s.cards[s.ops[o].card]);
    }
  }

  lemma PlanPlaces(s: QState, key: Key, body: Body)
    requires QPlaceInv(s) && QEnabled(s, Plan(key, body)) && OnceEach(s.moved, s.ops, s.proc)
    requires CardOk(key.card, s.cards[key.card], s.ops, s.rows)
    ensures QPlaceInv(AfterPlan(s, key, body))
  {
    var t, n := AfterPlan(s, key, body), |s.ops|;
    PlanIsApart(s, key.card, body);
    OpsAppend(s.fs, s.moved, s.ops, NewOp(s, key.card, body));
    CardsStayApart(s.cards, t.cards);
  }

  lemma OpsAppend(fs: Files, moved: seq<nat>, ops: seq<Op>, op: Op)
    requires OpsPlaced(fs, moved, ops) && OpsApart(ops) && At(fs, op.source, op.identity) && Unfinished(op)
    requires forall i :: 0 <= i < |moved| ==> moved[i] < |ops|
    requires forall o :: 0 <= o < |ops| && Unfinished(ops[o]) ==> ops[o].identity != op.identity
    ensures OpsPlaced(fs, moved, ops + [op]) && OpsApart(ops + [op])
  {
    forall o | 0 <= o < |ops| + 1 ensures OpPlaced(fs, moved, o, (ops + [op])[o]) {
      if o < |ops| { assert OpPlaced(fs, moved, o, ops[o]); }
    }
  }

  lemma CardsStayApart(cards: map<nat, Card>, later: map<nat, Card>)
    requires CardsApart(cards) && later.Keys == cards.Keys
    requires forall id :: id in cards ==> later[id].location == cards[id].location && later[id].original == cards[id].original
    ensures CardsApart(later)
  {
    forall id, other | id in later && other in later && id != other ensures ApartFrom(later[id], later[other]) {
      assert ApartFrom(cards[id], cards[other]);
    }
  }

  lemma ReturnPlaces(s: QState, call: Call)
    requires QInv(s) && QPlaceInv(s) && QEnabled(s, QAction.Rename(call)) && Moves(call)
    ensures OpsPlaced(AfterRename(s, call).fs, AfterRename(s, call).moved, s.ops) && Unique(AfterRename(s, call).fs)
  {
    var o, t := s.proc.op, AfterRename(s, call);
    MoveKeepsUnique(s.fs, s.ops[o].source, s.ops[o].target, s.ops[o].identity);
    forall i | 0 <= i < |s.ops| ensures OpPlaced(t.fs, t.moved, i, s.ops[i]) {
      assert OpPlaced(s.fs, s.moved, i, s.ops[i]);
      assert i != o && Unfinished(s.ops[i]) ==> s.ops[i].identity != s.ops[o].identity;
    }
  }

  // The record of one operation changes; it ends as completed exactly if its file was moved.
  lemma RecordPlaces(s: QState, t: QState, o: nat)
    requires QPlaceInv(s) && o < |s.ops| && Unfinished(s.ops[o]) && t.fs == s.fs && t.moved == s.moved && t.proc.Resting?
    requires |t.ops| == |s.ops| && forall i :: 0 <= i < |s.ops| && i != o ==> t.ops[i] == s.ops[i]
    requires t.ops[o].card == s.ops[o].card && t.ops[o].source == s.ops[o].source &&
             t.ops[o].target == s.ops[o].target && t.ops[o].identity == s.ops[o].identity
    requires Unfinished(t.ops[o]) || (o in s.moved <==> t.ops[o].phase == COMPLETED)
    requires t.cards.Keys == s.cards.Keys &&
             forall id :: id in s.cards ==> t.cards[id].location == s.cards[id].location &&
                                            t.cards[id].original == s.cards[id].original
    ensures QPlaceInv(t)
  {
    CardsStayApart(s.cards, t.cards);
    forall i | 0 <= i < |t.ops| ensures OpPlaced(t.fs, t.moved, i, t.ops[i]) {
      assert OpPlaced(s.fs, s.moved, i, s.ops[i]);
    }
  }

  lemma RejectPlaces(s: QState)
    requires QPlaceInv(s) && PlaceOk(s.ops, s.proc) && QEnabled(s, Reject)
    ensures QPlaceInv(AfterReject(s, s.proc.op))
  {
    RecordPlaces(s, AfterReject(s, s.proc.op), s.proc.op);
  }

  lemma CompletePlaces(s: QState)
    requires QPlaceInv(s) && PlaceOk(s.ops, s.proc) && QEnabled(s, Complete)
    requires s.ops[s.proc.op].card in s.cards && s.cards[s.ops[s.proc.op].card].item in s.rows
    ensures QPlaceInv(AfterComplete(s, s.proc.op))
  {
    RecordPlaces(s, AfterComplete(s, s.proc.op), s.proc.op);
  }

  lemma CardAndOpPlaces(s: QState, t: QState, o: nat, op: Op, card: Card)
    requires QPlaceInv(s) && o < |s.ops| && Unfinished(s.ops[o]) && Unfinished(op) && op.card in s.cards
    requires op == s.ops[o].(phase := op.phase) && card == s.cards[op.card].(revision := card.revision)
    requires t == s.(cards := s.cards[op.card := card], ops := s.ops[o := op], proc := Resting)
    ensures QPlaceInv(t)
  {
    RecordPlaces(s, t, o);
  }

  lemma RestPlaces(s: QState)
    requires QPlaceInv(s)
    ensures QPlaceInv(s.(proc := Resting))
  {
  }

  lemma BlockPlaces(s: QState)
    requires QPlaceInv(s) && PlaceOk(s.ops, s.proc) && QEnabled(s, Block)
    ensures QPlaceInv(AfterBlock(s, s.proc.op))
  {
    var o := s.proc.op;
    var op := s.ops[o];
    if op.phase == UNRESOLVED || op.card !in s.cards {
      RestPlaces(s);
    } else {
      var card := s.cards[op.card].(revision := s.cards[op.card].revision + 1);
      CardAndOpPlaces(s, AfterBlock(s, o), o, op.(phase := UNRESOLVED), card);
    }
  }

  lemma LookPlaces(fs: Files, moved: seq<nat>, op: Op, o: nat, readable: bool)
    requires Unique(fs) && Unfinished(op) && OpPlaced(fs, moved, o, op)
    ensures Resolved(fs, op, o, readable).Completing? ==> o in moved
  {
  }

  lemma OutsidePlaces(s: QState, fs: Files)
    requires QPlaceInv(s) && Respects(s, fs)
    ensures QPlaceInv(s.(fs := fs))
  {
    forall o | 0 <= o < |s.ops| ensures OpPlaced(fs, s.moved, o, s.ops[o]) {
      assert OpPlaced(s.fs, s.moved, o, s.ops[o]);
    }
  }

  lemma QStepPlaces(s: QState, a: QAction)
    requires QInv(s) && QPlaceInv(s) && QEnabled(s, a) && QBenign(s, a)
    ensures QPlaceInv(QStep(s, a))
  {
    match a
    case Outside(fs) => OutsidePlaces(s, fs);
    case Plan(key, body) => PlanPlaces(s, key, body);
    case Rename(call) =>
      if Moves(call) { ReturnPlaces(s, call); }
    case Reject => RejectPlaces(s);
    case Complete =>
      assert CardOk(s.ops[s.proc.op].card, s.cards[s.ops[s.proc.op].card], s.ops, s.rows);
      CompletePlaces(s);
    case Block => BlockPlaces(s);
    case Look(readable) => LookPlaces(s.fs, s.moved, s.ops[s.proc.op], s.proc.op, readable);
    case _ =>
  }

  lemma {:induction false} QRunPlaces(s: QState, actions: seq<QAction>, t: QState)
    requires QInv(s) && QPlaceInv(s) && QBenignSteps(s, actions, t)
    ensures QInv(t) && QPlaceInv(t)
    decreases |actions|
  {
    if actions != [] {
      QStepKeepsInv(s, actions[0]);
      QStepPlaces(s, actions[0]);
      QRunPlaces(QStep(s, actions[0]), actions[1..], t);
    }
  }

  /** A return is recorded as done only when its file is at the original path and no longer in quarantine, and it
      was this operation that moved it; a rejected one never moved anything. */
  lemma DoneMeansReturned(s: QState, actions: seq<QAction>, t: QState)
    requires QStart(s) && Unique(s.fs) && QBenignSteps(s, actions, t)
    ensures forall o :: 0 <= o < |t.ops| && !Unfinished(t.ops[o]) ==> (t.ops[o].phase == COMPLETED <==> o in t.moved)
    ensures QEnabled(t, Complete) ==>
              var op := t.ops[t.proc.op];
              t.proc.op in t.moved && At(t.fs, op.target, op.identity) && !At(t.fs, op.source, op.identity)
  {
    assert CardsApart(s.cards);
    QRunPlaces(s, actions, t);
    forall o | 0 <= o < |t.ops| && !Unfinished(t.ops[o]) ensures t.ops[o].phase == COMPLETED <==> o in t.moved {
      assert OpPlaced(t.fs, t.moved, o, t.ops[o]);
    }
    if QEnabled(t, Complete) { assert OpPlaced(t.fs, t.moved, t.proc.op, t.ops[t.proc.op]); }
  }

  // --- Queue rows and claims ------------------------------------------------------------------

  // Every row names the attempt that claims its item.
  ghost predicate Agree(rows: map<nat, Row>, claims: map<nat, nat>) {
    forall item :: item in rows ==> rows[item].active == if item in claims then Some(claims[item]) else None
  }

  /** Completing a return clears the row's attempt. The rows still agree with the claims exactly if nobody claims the
      item: a claim taken on a reused row is not consulted. */
  lemma ReturnKeepsAgreementIffUnclaimed(s: QState)
    requires QInv(s) && QEnabled(s, Complete) && Agree(s.rows, s.claims)
    ensures var op := s.ops[s.proc.op];
            op.card in s.cards &&
            (Agree(QStep(s, Complete).rows, QStep(s, Complete).claims) <==> s.cards[op.card].item !in s.claims)
  {
    var op, t := s.ops[s.proc.op], QStep(s, Complete);
    assert CardOk(op.card, s.cards[op.card], s.ops, s.rows);
    assert t.rows[s.cards[op.card].item].active == None;
  }
}
