/**
 * The quarantine service in the form of the program. Its trace shows that every execution is a run of the
 * return protocol, including the ones in which calls into the file system raise or others act meanwhile.
 */
module QuarantineServices {
  import opened Wrappers
  import opened Blanks
  import FileMover
  import opened Quarantine

  type Files = FileMover.Files
  type Row = FileMover.Row

  lemma {:induction false} QStepsAppend(s: QState, actions: seq<QAction>, t: QState, a: QAction)
    requires QSteps(s, actions, t) && QEnabled(t, a)
    ensures QSteps(s, actions + [a], QStep(t, a))
    decreases |actions|
  {
    var all := actions + [a];
    if actions == [] {
      assert all[1..] == [];
      assert QSteps(QStep(s, a), all[1..], QStep(s, a));
    } else {
      QStepsAppend(QStep(s, actions[0]), actions[1..], t, a);
      assert all[0] == actions[0] && all[1..] == actions[1..] + [a];
    }
  }

  ghost predicate QRun(s: QState, actions: seq<QAction>, t: QState) {
    QInv(s) && QSteps(s, actions, t)
  }

  lemma RunPlans(s: QState, actions: seq<QAction>, t: QState, key: Key, body: Body)
    requires QRun(s, actions, t) && QEnabled(t, Plan(key, body))
    ensures QRun(s, actions + [Plan(key, body)], AfterPlan(t, key, body))
  {
    QStepsAppend(s, actions, t, Plan(key, body));
  }

  lemma RunReturns(s: QState, actions: seq<QAction>, t: QState, call: FileMover.Call)
    requires QRun(s, actions, t) && QEnabled(t, QAction.Rename(call))
    ensures QRun(s, actions + [QAction.Rename(call)], AfterRename(t, call))
  {
    QStepsAppend(s, actions, t, QAction.Rename(call));
  }

  lemma RunLooks(s: QState, actions: seq<QAction>, t: QState, readable: bool)
    requires QRun(s, actions, t) && t.proc.Resolving? && t.proc.op < |t.ops|
    ensures QRun(s, actions + [QAction.Look(readable)],
                 t.(proc := Resolved(t.fs, t.ops[t.proc.op], t.proc.op, readable)))
  {
    QStepsAppend(s, actions, t, QAction.Look(readable));
  }

  lemma RunPicks(s: QState, actions: seq<QAction>, t: QState, o: nat)
    requires QRun(s, actions, t) && t.proc.Resting? && o < |t.ops| && Unfinished(t.ops[o])
    ensures QRun(s, actions + [QAction.Pick(o)], t.(proc := Resolving(o)))
  {
    QStepsAppend(s, actions, t, QAction.Pick(o));
  }

  lemma RunChanges(s: QState, actions: seq<QAction>, t: QState, fs: Files)
    requires QRun(s, actions, t)
    ensures QRun(s, actions + [QAction.Outside(fs)], t.(fs := fs))
  {
    QStepsAppend(s, actions, t, QAction.Outside(fs));
  }

  lemma RunRejects(s: QState, actions: seq<QAction>, t: QState)
    requires QRun(s, actions, t) && QEnabled(t, Reject)
    ensures QRun(s, actions + [Reject], AfterReject(t, t.proc.op))
  {
    QStepsAppend(s, actions, t, Reject);
  }

  lemma RunCompletes(s: QState, actions: seq<QAction>, t: QState)
    requires QRun(s, actions, t) && QEnabled(t, Complete)
    ensures QRun(s, actions + [Complete], AfterComplete(t, t.proc.op))
  {
    QStepsAppend(s, actions, t, Complete);
  }

  lemma RunBlocks(s: QState, actions: seq<QAction>, t: QState)
    requires QRun(s, actions, t) && QEnabled(t, Block)
    ensures QRun(s, actions + [Block], AfterBlock(t, t.proc.op))
  {
    QStepsAppend(s, actions, t, Block);
  }

  // The service always works on an unfinished operation whose card and row exist.
  lemma WorkingOn(s: QState, actions: seq<QAction>, t: QState)
    requires QRun(s, actions, t) && !t.proc.Resting?
    ensures t.proc.op < |t.ops| && Unfinished(t.ops[t.proc.op])
    ensures var op := t.ops[t.proc.op]; op.card in t.cards && t.cards[op.card].item in t.rows
  {
    QRunKeepsInv(s, actions, t);
    assert CardOk(t.ops[t.proc.op].card, t.cards[t.ops[t.proc.op].card], t.ops, t.rows);
  }

  lemma KeyNamesOp(s: QState, actions: seq<QAction>, t: QState, key: Key)
    requires QRun(s, actions, t) && key in t.keys
    ensures var o := t.keys[key].op;
            o < |t.ops| && (t.ops[o].phase == COMPLETED <==> t.ops[o].result.Some?)
  {
    QRunKeepsInv(s, actions, t);
  }

  class QuarantineService {
    var fs: Files
    var cards: map<nat, Card>
    var ops: seq<Op>
    var keys: map<Key, KeyRecord>
    var rows: map<nat, Row>
    var claims: map<nat, nat>
    ghost var moved: seq<nat>
    ghost var proc: Place
    ghost var origin: QState
    ghost var trace: seq<QAction>

    constructor (fs: Files, rows: map<nat, Row>, claims: map<nat, nat>)
      ensures Valid() && proc.Resting? && QStart(Now()) && trace == []
    {
      this.fs, this.rows, this.claims := fs, rows, claims;
      cards, ops, keys, moved, proc := map[], [], map[], [], Resting;
      origin, trace := QState(fs, map[], [], map[], rows, claims, [], Resting), [];
    }

    ghost function Now(): QState
      reads this
    {
      QState(fs, cards, ops, keys, rows, claims, moved, proc)
    }

    ghost predicate Valid()
      reads this
    {
      QRun(origin, trace, Now())
    }

    // The stored operation is what the reply says.
    ghost predicate Answers(o: nat, reply: Reply)
      reads this
    {
      o < |ops| && proc.Resting? &&
      match reply
      case Returned(op, row) => op == o && ops[o].phase == COMPLETED && ops[o].result == Some(row)
      case Refused(why) =>
        (why == PathOccupied && ops[o].phase == REJECTED) || (why == NeedsRecovery && ops[o].phase == UNRESOLVED)
    }

    ghost predicate OnlyOp(before: seq<Op>, o: nat)
      reads this
    {
      |ops| == |before| && forall i :: 0 <= i < |before| && i != o ==> ops[i] == before[i]
    }

    // The run so far has only been continued.
    ghost predicate Onward(start: QState, before: seq<QAction>)
      reads this
    {
      origin == start && before <= trace
    }

    method Interfere()
      requires Valid()
      modifies this`fs, this`trace
      ensures Valid() && trace == old(trace) + [QAction.Outside(fs)]
    {
      var later: Files := *;
      RunChanges(origin, trace, Now(), later);
      fs, trace := later, trace + [QAction.Outside(later)];
    }

    // --- Transactions -------------------------------------------------------------------------

    method Open(key: Key, body: Body) returns (o: nat)
      requires Valid() && proc.Resting? && key !in keys && Objection(Now(), key.card, body).None?
      modifies this`ops, this`keys, this`cards, this`proc, this`trace
      ensures Valid() && proc == Renaming(o) && o == |old(ops)| && |ops| == o + 1 && ops[..o] == old(ops)
      ensures keys == old(keys)[key := KeyRecord(body, o)] && trace == old(trace) + [Plan(key, body)]
    {
      RunPlans(origin, trace, Now(), key, body);
      o := WriteOp(key, body);
      trace := trace + [Plan(key, body)];
    }

    method WriteOp(key: Key, body: Body) returns (o: nat)
      requires Objection(Now(), key.card, body).None?
      modifies this`ops, this`keys, this`cards, this`proc
      ensures Now() == AfterPlan(old(Now()), key, body) && o == |old(ops)|
    {
      var card := cards[key.card];
      o := |ops|;
      ops := ops + [Op(key.card, body, PLANNED, FileMover.Stat(fs, card.location).value, card.location, card.original, None)];
      keys := keys[key := KeyRecord(body, o)];
      cards := cards[key.card := card.(canReturn := false, operation := Some(o))];
      proc := Renaming(o);
    }

    method Close(o: nat) returns (reply: Reply)
      requires Valid() && proc == Rejecting(o)
      modifies this`ops, this`cards, this`proc, this`trace
      ensures Valid() && Answers(o, reply) && OnlyOp(old(ops), o)
      ensures trace == old(trace) + [Reject]
    {
      WorkingOn(origin, trace, Now());
      RunRejects(origin, trace, Now());
      WriteRejected(o);
      trace := trace + [Reject];
      reply := Refused(PathOccupied);
    }

    method WriteRejected(o: nat)
      requires o < |ops| && ops[o].card in cards
      modifies this`ops, this`cards, this`proc
      ensures Now() == AfterReject(old(Now()), o)
    {
      cards := cards[ops[o].card := cards[ops[o].card].(canReturn := true, operation := None)];
      ops := ops[o := ops[o].(phase := REJECTED)];
      proc := Resting;
    }

    method Finish(o: nat) returns (reply: Reply)
      requires Valid() && proc == Completing(o)
      modifies this`ops, this`cards, this`rows, this`proc, this`trace
      ensures Valid() && Answers(o, reply) && OnlyOp(old(ops), o)
      ensures trace == old(trace) + [Complete]
    {
      WorkingOn(origin, trace, Now());
      RunCompletes(origin, trace, Now());
      var row := WriteCompleted(o);
      trace := trace + [Complete];
      reply := Returned(o, row);
    }

    method WriteCompleted(o: nat) returns (row: Row)
      requires o < |ops| && Unfinished(ops[o]) && ops[o].card in cards && cards[ops[o].card].item in rows
      modifies this`ops, this`cards, this`rows, this`proc
      ensures Now() == AfterComplete(old(Now()), o) && ops[o].result == Some(row)
    {
      var op := ops[o];
      var card := cards[op.card];
      row := ReturnedRow(rows[card.item], op.identity);
      rows := rows[card.item := row];
      cards := cards[op.card := card.(revision := card.revision + 1, canReturn := false, operation := None,
                                      returned := true)];
      ops := ops[o := op.(phase := COMPLETED, result := Some(row))];
      proc := Resting;
    }

    method SetAside(o: nat) returns (reply: Reply)
      requires Valid() && proc == Blocking(o)
      modifies this`ops, this`cards, this`proc, this`trace
      ensures Valid() && Answers(o, reply) && OnlyOp(old(ops), o)
      ensures trace == old(trace) + [Block]
    {
      WorkingOn(origin, trace, Now());
      RunBlocks(origin, trace, Now());
      WriteUnresolved(o);
      trace := trace + [Block];
      reply := Refused(NeedsRecovery);
    }

    method WriteUnresolved(o: nat)
      requires o < |ops| && Unfinished(ops[o]) && ops[o].card in cards
      modifies this`ops, this`cards, this`proc
      ensures Now() == AfterBlock(old(Now()), o)
    {
      var op := ops[o];
      if op.phase != UNRESOLVED {
        cards := cards[op.card := cards[op.card].(revision := cards[op.card].revision + 1)];
        ops := ops[o := op.(phase := UNRESOLVED)];
      }
      proc := Resting;
    }

    // --- Renaming and resolving ---------------------------------------------------------------

    method Move(o: nat) returns (call: FileMover.Call)
      requires Valid() && proc == Renaming(o)
      modifies this`fs, this`moved, this`proc, this`trace
      ensures Valid() && Onward(old(origin), old(trace)) && proc == if call.Exists? then Rejecting(o) else Resolving(o)
      ensures |trace| == |old(trace)| + 2 && trace[|trace| - 1] == QAction.Rename(call)
    {
      Interfere();
      WorkingOn(origin, trace, Now());
      call := *;
      if !RenamePossible(fs, ops[o], call) {
        call := FileMover.Error;
      }
      RunReturns(origin, trace, Now(), call);
      WriteMove(o, call);
      trace := trace + [QAction.Rename(call)];
    }

    method WriteMove(o: nat, call: FileMover.Call)
      requires proc == Renaming(o) && QEnabled(Now(), QAction.Rename(call))
      modifies this`fs, this`moved, this`proc
      ensures Now() == AfterRename(old(Now()), call)
    {
      if FileMover.Moves(call) {
        fs := FileMover.Moved(fs, ops[o].source, ops[o].target);
        moved := moved + [o];
      }
      proc := if call.Exists? then Rejecting(o) else Resolving(o);
    }

    // What can be seen at both places, if the tree can be read.
    method Look(o: nat) returns (done: bool)
      requires Valid() && proc == Resolving(o)
      modifies this`fs, this`proc, this`trace
      ensures Valid() && Onward(old(origin), old(trace)) && proc == if done then Completing(o) else Blocking(o)
    {
      Interfere();
      WorkingOn(origin, trace, Now());
      var readable: bool := *;
      var op := ops[o];
      var source := if readable then FileMover.Stat(fs, op.source) else None;
      var target := if readable then FileMover.Stat(fs, op.target) else None;
      RunLooks(origin, trace, Now(), readable);
      proc, trace := Resolved(fs, op, o, readable), trace + [QAction.Look(readable)];
      done := source.None? && target == Some(op.identity);
    }

    // Decides from what is observed, and never moves the file.
    method Resolve(o: nat) returns (reply: Reply)
      requires Valid() && proc == Resolving(o)
      modifies this`fs, this`ops, this`cards, this`rows, this`proc, this`trace
      ensures Valid() && Onward(old(origin), old(trace)) && Answers(o, reply) && OnlyOp(old(ops), o)
    {
      var done := Look(o);
      if done {
        reply := Finish(o);
      } else {
        reply := SetAside(o);
      }
    }

    /** A return request. A repeated key never moves anything; a refused request changes nothing; an accepted one is
        answered with the state its operation really reached. */
    method ReturnItem(key: Key, body: Body) returns (reply: Reply)
      requires Valid() && proc.Resting?
      modifies this
      ensures Valid() && Onward(old(origin), old(trace)) && proc.Resting?
      ensures Replayed(old(Now()), key, body).Some? ==>
                reply == Replayed(old(Now()), key, body).value && Now() == old(Now())
      ensures key !in old(keys) && Objection(old(Now()), key.card, body).Some? ==>
                reply == Refused(Objection(old(Now()), key.card, body).value) && Now() == old(Now())
      ensures reply != Refused(KeyReused) && (key in old(keys) || Objection(old(Now()), key.card, body).None?) ==>
                key in keys && keys[key].body == body && Answers(keys[key].op, reply)
    {
      if key in keys {
        reply := Replay(key, body);
      } else {
        var objection := Object(key.card, body);
        if objection.Some? {
          return Refused(objection.value);
        }
        reply := Begin(key, body);
      }
    }

    method Replay(key: Key, body: Body) returns (reply: Reply)
      requires Valid() && proc.Resting? && key in keys
      modifies this`fs, this`ops, this`cards, this`rows, this`proc, this`trace
      ensures Valid() && Onward(old(origin), old(trace)) && proc.Resting?
      ensures Replayed(old(Now()), key, body).Some? ==>
                reply == Replayed(old(Now()), key, body).value && Now() == old(Now())
      ensures reply != Refused(KeyReused) ==> keys[key].body == body && Answers(keys[key].op, reply)
    {
      if keys[key].body != body {
        return Refused(KeyReused);
      }
      KeyNamesOp(origin, trace, Now(), key);
      var o := keys[key].op;
      if ops[o].phase == COMPLETED {
        return Returned(o, ops[o].result.value);
      }
      if ops[o].phase == REJECTED {
        return Refused(PathOccupied);
      }
      RunPicks(origin, trace, Now(), o);
      proc, trace := Resolving(o), trace + [QAction.Pick(o)];
      reply := Resolve(o);
    }

    method Object(id: nat, body: Body) returns (objection: Option<Refusal>)
      ensures objection == Objection(Now(), id, body)
    {
      if id !in cards {
        return Some(NotFound);
      }
      var card := cards[id];
      if card.returned || card.operation.Some? || !card.canReturn {
        return Some(InvalidState);
      }
      if card.revision != body.expectedRevision {
        return Some(VersionConflict);
      }
      if Blank(body.comment) {
        return Some(BlankComment);
      }
      if card.original in fs {
        return Some(PathOccupied);
      }
      var seen := FileMover.Stat(fs, card.location);
      if seen.None? || (card.identity.Some? && card.identity != seen) {
        return Some(InvalidState);
      }
      return None;
    }

    method Begin(key: Key, body: Body) returns (reply: Reply)
      requires Valid() && proc.Resting? && key !in keys && Objection(Now(), key.card, body).None?
      modifies this
      ensures Valid() && Onward(old(origin), old(trace)) && proc.Resting?
      ensures key in keys && keys[key].body == body && Answers(keys[key].op, reply)
    {
      var o := Open(key, body);
      var call := Move(o);
      if call.Exists? {
        reply := Close(o);
      } else {
        reply := Resolve(o);
      }
    }

    /** Reconciliation looks at every unfinished return once: afterwards each is done or set aside, no file was moved,
        and no finished return was touched. */
    method Reconcile()
      requires Valid() && proc.Resting?
      modifies this`fs, this`ops, this`cards, this`rows, this`proc, this`trace
      ensures Valid() && Onward(old(origin), old(trace)) && proc.Resting? && |ops| == |old(ops)| && moved == old(moved)
      ensures forall o :: 0 <= o < |ops| ==> ops[o].phase != PLANNED
      ensures forall o :: 0 <= o < |ops| && !Unfinished(old(ops[o])) ==> ops[o] == old(ops[o])
    {
      var before := ops;
      for o := 0 to |before|
        invariant Valid() && Onward(old(origin), old(trace)) && proc.Resting? && |ops| == |before|
        invariant forall i :: 0 <= i < o ==> ops[i].phase != PLANNED && (!Unfinished(before[i]) ==> ops[i] == before[i])
        invariant forall i :: o <= i < |before| ==> ops[i] == before[i]
      {
        if Unfinished(before[o]) {
          RunPicks(origin, trace, Now(), o);
          proc, trace := Resolving(o), trace + [QAction.Pick(o)];
          var reply := Resolve(o);
        }
      }
    }
  }
}
