/**
 * What each step of a return writes, record by record, and what a return comes to that nobody disturbs.
 */
module QuarantineMeaning {
  import opened Wrappers
  import opened Blanks
  import opened FileMover
  import opened Quarantine

  // The card can be returned as the request expects it.
  predicate Returnable(s: QState, id: nat, body: Body) {
    id in s.cards &&
    var card := s.cards[id];
    !card.returned && card.operation == None && card.canReturn && card.revision == body.expectedRevision &&
    !Blank(body.comment) && card.original !in s.fs && Stat(s.fs, card.location).Some? &&
    (card.identity == None || card.identity == Stat(s.fs, card.location))
  }

  // The reason given is there, and no check that comes before it fails.
  predicate RefusedFor(s: QState, id: nat, body: Body, why: Refusal) {
    if id !in s.cards then why == NotFound
    else
      var card := s.cards[id];
      var open := !card.returned && card.operation == None && card.canReturn;
      var seen := Stat(s.fs, card.location);
      match why
      case InvalidState =>
        !open || (card.revision == body.expectedRevision && !Blank(body.comment) && card.original !in s.fs &&
                  (seen == None || (card.identity != None && card.identity != seen)))
      case VersionConflict => open && card.revision != body.expectedRevision
      case BlankComment => open && card.revision == body.expectedRevision && Blank(body.comment)
      case PathOccupied =>
        open && card.revision == body.expectedRevision && !Blank(body.comment) && card.original in s.fs
      case _ => false
  }

  /** A request is accepted exactly if its card is open at the expected revision, the comment says something, the original
      path is free and the file is there unchanged; otherwise the first check that fails is the answer. */
  lemma ObjectionIs(s: QState, id: nat, body: Body)
    ensures Objection(s, id, body) == None <==> Returnable(s, id, body)
    ensures Objection(s, id, body).Some? ==> RefusedFor(s, id, body, Objection(s, id, body).value)
  {
  }

  ghost predicate OthersStay(cards: map<nat, Card>, later: map<nat, Card>, id: nat) {
    later.Keys == cards.Keys && forall c :: c in cards && c != id ==> later[c] == cards[c]
  }

  /** An accepted return is written down before the file is touched: the file that was seen, where it is, and where it goes;
      its card is held by it. */
  lemma PlanningWrites(s: QState, key: Key, body: Body)
    requires QEnabled(s, Plan(key, body))
    ensures var t, o, card := QStep(s, Plan(key, body)), |s.ops|, s.cards[key.card];
            t.fs == s.fs && |t.ops| == o + 1 && t.ops[..o] == s.ops &&
            t.ops[o].card == key.card && t.ops[o].body == body && t.ops[o].phase == PLANNED && t.ops[o].result == None &&
            Some(t.ops[o].identity) == Stat(s.fs, card.location) &&
            t.ops[o].source == card.location && t.ops[o].target == card.original &&
            t.keys == s.keys[key := KeyRecord(body, o)] && OthersStay(s.cards, t.cards, key.card) &&
            t.cards[key.card] == card.(canReturn := false, operation := Some(o)) && t.proc == Renaming(o)
  {
  }


  /** A completed return puts the item back into the queue: under a new revision, waiting for the next scan, with the
      identity of the file that was moved and no attempt; its card is closed for good. */
  lemma CompletingWrites(s: QState)
    requires QInv(s) && QEnabled(s, Complete)
    ensures var t, o, op := QStep(s, Complete), s.proc.op, s.ops[s.proc.op];
            op.card in s.cards && op.card in t.cards && s.cards[op.card].item in s.rows &&
            var card := s.cards[op.card];
            card.item in t.rows && t.rows.Keys == s.rows.Keys &&
            t.rows[card.item] == Row(WAITING_READY, false, None, s.rows[card.item].revision + 1, None, op.identity, false) &&
            (forall item :: item in s.rows && item != card.item ==> t.rows[item] == s.rows[item]) &&
            OthersStay(s.cards, t.cards, op.card) &&
            t.cards[op.card] == card.(revision := card.revision + 1, canReturn := false, operation := None, returned := true) &&
            t.ops == s.ops[o := op.(phase := COMPLETED, result := Some(t.rows[card.item]))]
  {
    assert CardOk(s.ops[s.proc.op].card, s.cards[s.ops[s.proc.op].card], s.ops, s.rows);
  }

  /** A rejected return opens its card again, at the revision it had. */
  lemma RejectingWrites(s: QState)
    requires QInv(s) && QEnabled(s, Reject)
    ensures var t, o, op := QStep(s, Reject), s.proc.op, s.ops[s.proc.op];
            op.card in s.cards && OthersStay(s.cards, t.cards, op.card) && t.rows == s.rows &&
            t.cards[op.card] == s.cards[op.card].(canReturn := true, operation := None) &&
            t.ops == s.ops[o := op.(phase := REJECTED)]
  {
    assert CardOk(s.ops[s.proc.op].card, s.cards[s.ops[s.proc.op].card], s.ops, s.rows);
  }

  /** A return that cannot be decided is set aside under a new revision, once; its card stays held by it. */
  lemma SettingAsideWrites(s: QState)
    requires QInv(s) && QEnabled(s, Block)
    ensures var t, o, op := QStep(s, Block), s.proc.op, s.ops[s.proc.op];
            op.card in s.cards && OthersStay(s.cards, t.cards, op.card) && t.rows == s.rows && o < |t.ops| &&
            t.cards[op.card].operation == Some(o) && !t.cards[op.card].canReturn && !t.cards[op.card].returned &&
            t.cards[op.card].revision == s.cards[op.card].revision + (if op.phase == UNRESOLVED then 0 else 1) &&
            t.ops == s.ops[o := op.(phase := UNRESOLVED)]
  {
    assert CardOk(s.ops[s.proc.op].card, s.cards[s.ops[s.proc.op].card], s.ops, s.rows);
  }

  /** A look decides for completion exactly if the tree can be read, nothing regular is left at the source and the file is
      at the target; nothing else completes a return. */
  lemma LookingDecides(s: QState, readable: bool)
    requires QEnabled(s, QAction.Look(readable))
    ensures var t, op := QStep(s, QAction.Look(readable)), s.ops[s.proc.op];
            t.proc == if readable && Stat(s.fs, op.source) == None && Stat(s.fs, op.target) == Some(op.identity)
                      then Completing(s.proc.op) else Blocking(s.proc.op)
  {
  }

  lemma StepFirst(s: QState, a: QAction, t: QState, rest: seq<QAction>, u: QState)
    requires QEnabled(s, a) && t == QStep(s, a) && QSteps(t, rest, u)
    ensures QSteps(s, [a] + rest, u)
  {
    assert ([a] + rest)[1..] == rest;
  }

  // Up to the look, nothing but the file has moved.
  lemma UndisturbedMove(s: QState, key: Key, body: Body) returns (a: QState, b: QState)
    requires QInv(s) && s.proc.Resting? && key !in s.keys && Returnable(s, key.card, body)
    ensures QEnabled(s, Plan(key, body)) && a == QStep(s, Plan(key, body))
    ensures QEnabled(a, QAction.Rename(Renamed)) && b == QStep(a, QAction.Rename(Renamed)) && QInv(b)
    ensures var card := s.cards[key.card];
            b.proc == Resolving(|s.ops|) && |b.ops| == |s.ops| + 1 &&
            b.fs == Moved(s.fs, card.location, card.original) && b.ops[|s.ops|].card == key.card &&
            Stat(b.fs, b.ops[|s.ops|].source) == None && Stat(b.fs, b.ops[|s.ops|].target) == Some(b.ops[|s.ops|].identity)
  {
    ObjectionIs(s, key.card, body);
    a := QStep(s, Plan(key, body));
    b := QStep(a, QAction.Rename(Renamed));
    QStepKeepsInv(s, Plan(key, body));
    QStepKeepsInv(a, QAction.Rename(Renamed));
  }

  // What is then seen completes it.
  lemma SeenCompletes(b: QState) returns (c: QState, t: QState)
    requires QInv(b) && b.proc.Resolving? && b.proc.op < |b.ops|
    requires var op := b.ops[b.proc.op]; Stat(b.fs, op.source) == None && Stat(b.fs, op.target) == Some(op.identity)
    ensures QEnabled(b, QAction.Look(true)) && c == QStep(b, QAction.Look(true))
    ensures QEnabled(c, Complete) && t == QStep(c, Complete)
    ensures var op := b.ops[b.proc.op];
            t.fs == b.fs && |t.ops| == |b.ops| && t.ops[b.proc.op].phase == COMPLETED &&
            op.card in t.cards && t.cards[op.card].returned
  {
    c := QStep(b, QAction.Look(true));
    QStepKeepsInv(b, QAction.Look(true));
    CompletingWrites(c);
    t := QStep(c, Complete);
  }

  /** A return that nobody disturbs moves the file to its original path and is completed. */
  lemma UndisturbedReturn(s: QState, key: Key, body: Body) returns (t: QState)
    requires QInv(s) && s.proc.Resting? && key !in s.keys && Returnable(s, key.card, body)
    ensures QSteps(s, [Plan(key, body)] + ([QAction.Rename(Renamed)] + ([QAction.Look(true)] + ([Complete] + []))), t)
    ensures var card := s.cards[key.card];
            t.fs == Moved(s.fs, card.location, card.original) && |t.ops| == |s.ops| + 1 &&
            t.ops[|s.ops|].phase == COMPLETED && key.card in t.cards && t.cards[key.card].returned
  {
    var a, b := UndisturbedMove(s, key, body);
    var c;
    c, t := SeenCompletes(b);
    StepFirst(c, Complete, t, [], t);
    StepFirst(b, QAction.Look(true), c, [Complete] + [], t);
    StepFirst(a, QAction.Rename(Renamed), b, [QAction.Look(true)] + ([Complete] + []), t);
    StepFirst(s, Plan(key, body), a, [QAction.Rename(Renamed)] + ([QAction.Look(true)] + ([Complete] + [])), t);
  }
}
