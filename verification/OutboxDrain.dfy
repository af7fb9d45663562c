/** Enqueueing and draining in the form of the program; every execution is a sequence of SearchOutbox steps. */
module OutboxDrain {
  import opened Wrappers
  import opened ArchiveManifest
  import opened ArchiveImport
  import opened ArchiveImporters
  import opened SearchOutbox
  import opened OutboxMeaning

  function Wrap(actions: seq<Action>): seq<OutAction> {
    seq(|actions|, i requires 0 <= i < |actions| => Core(actions[i]))
  }

  // What the importer does is a run of the outbox system too.
  lemma {:induction false} ImporterSteps(o: Outbox, actions: seq<Action>, t: State)
    requires Steps(o.core, actions, t)
    ensures OutSteps(o, Wrap(actions), o.(core := t))
    decreases |actions|
  {
    if actions != [] {
      ImporterSteps(o.(core := Step(o.core, actions[0])), actions[1..], t);
      assert Wrap(actions)[1..] == Wrap(actions[1..]);
    }
  }

  lemma {:induction false} OutConcat(o: Outbox, first: seq<OutAction>, p: Outbox, second: seq<OutAction>, q: Outbox)
    requires OutSteps(o, first, p) && OutSteps(p, second, q)
    ensures OutSteps(o, first + second, q)
    decreases |first|
  {
    var all := first + second;
    if first == [] {
      assert all == second;
    } else {
      OutConcat(OutStep(o, first[0]), first[1..], p, second, q);
      assert all[0] == first[0] && all[1..] == first[1..] + second;
    }
  }

  lemma OneStep(o: Outbox, a: OutAction)
    requires OutEnabled(o, a)
    ensures OutSteps(o, [a], OutStep(o, a))
  {
    assert [a][1..] == [];
  }

  class Drainer {
    const importer: ArchiveImporter
    var rows: seq<Row>
    var batches: map<string, Batch>
    var next: nat
    ghost var enqueued: seq<Row>
    ghost var log: map<string, seq<Batch>>
    ghost var dropped: set<(string, Batch)>

    constructor (importer: ArchiveImporter)
      ensures this.importer == importer && rows == [] && batches == map[] && enqueued == [] && log == map[] && dropped == {}
    {
      this.importer := importer;
      rows, batches, next, enqueued, log, dropped := [], map[], 0, [], map[], {};
    }

    ghost function Now(): Outbox
      reads this, importer
    {
      Outbox(importer.Now(), rows, batches, next, enqueued, log, dropped)
    }

    method EnqueueMove(root: string, key: string, line: Line, bytes: nat)
      modifies this`rows, this`next, this`enqueued
      ensures Now() == OutStep(old(Now()), Enqueue(root, key, line, bytes))
      ensures rows == if (exists j :: 0 <= j < |importer.jobs| && importer.jobs[j].root == root) &&
                         (forall i :: 0 <= i < |old(rows)| ==> old(rows)[i].key != key)
                      then old(rows) + [Row(old(next), root, key, line, bytes)] else old(rows)
    {
      if !HasJob(importer.jobs, root) || Contains(rows, key) {
        return;
      }
      var row := Row(next, root, key, line, bytes);
      rows, next, enqueued := rows + [row], next + 1, enqueued + [row];
    }

    // Reuses the saved batch of a root, or cuts and saves the next one.
    method PrepareBatch(root: string) returns (batch: Option<Batch>, ghost all: seq<OutAction>)
      requires importer.proc.Idle?
      modifies this`batches, this`log
      ensures OutSteps(old(Now()), all, Now())
      ensures batch.Some? ==> root in batches && batches[root] == batch.value
      ensures batch.None? ==> Now() == old(Now())
      ensures batch.Some? && root !in old(batches) ==> CutFrom(batch.value, RowsOf(rows, root), importer.pointers, root)
      ensures rows == old(rows)
    {
      all := [];
      if root !in importer.pointers || !importer.pointers[root].Archive? {
        return None, all;
      }
      if root in batches {
        return Some(batches[root]), all;
      }
      var mine := RowsOf(rows, root);
      if mine == [] {
        return None, all;
      }
      OneStep(Now(), SaveBatch(root));
      BatchLengthBounds(mine, 0, 0);
      BatchIsLongest(mine);
      var saved := Batch(importer.pointers[root].generation, mine[..BatchLength(mine)]);
      batches := batches[root := saved];
      log := log[root := (if root in log then log[root] else []) + [saved]];
      return Some(saved), [SaveBatch(root)];
    }

    method Acknowledged(root: string, ghost j: nat)
      requires OutEnabled(Now(), Acknowledge(root, j))
      modifies this`rows, this`batches
      ensures Now() == OutStep(old(Now()), Acknowledge(root, j))
    {
      var saved := batches[root].rows;
      rows := Without(rows, root, saved[0].number, saved[|saved| - 1].number);
      batches := batches - {root};
    }

    method ForgetBatch(root: string)
      requires OutEnabled(Now(), DropBatch(root))
      modifies this`batches, this`log, this`dropped
      ensures Now() == OutStep(old(Now()), DropBatch(root))
    {
      if root in batches {
        var standing := Log(Now(), root);
        dropped := dropped + {(root, batches[root])};
        log := log[root := if standing == [] then [] else standing[..|standing| - 1]];
        batches := batches - {root};
      }
    }

    // An abort that ends an unfinished job of a root drops the saved batch of the root, in a transaction before its own.
    method AbortImport(root: string) returns (aborted: bool, ghost all: seq<OutAction>)
      requires importer.proc.Idle?
      modifies this`batches, this`log, this`dropped, importer
      ensures OutSteps(old(Now()), all, Now()) && aborted == Unfinished(old(importer.jobs), root)
      ensures importer.jobs == AbortAll(old(importer.jobs), root)
      ensures batches == if aborted then old(batches) - {root} else old(batches)
    {
      all := [];
      if Unfinished(importer.jobs, root) {
        OneStep(Now(), DropBatch(root));
        ForgetBatch(root);
        all := [DropBatch(root)];
      }
      ghost var mid := Now();
      ghost var acts;
      aborted, acts := importer.Abort(root);
      ImporterSteps(mid, acts, importer.Now());
      OutConcat(old(Now()), all, mid, Wrap(acts), Now());
      all := all + Wrap(acts);
    }

    // Runs the importer on the saved batch, under the lock the drain already holds.
    method ImportBatch(root: string, batch: Batch, responses: seq<Response>)
      returns (done: bool, ghost j: nat, ghost all: seq<OutAction>)
      requires OutInv(Now()) && importer.Ready() && root in batches && batches[root] == batch
      modifies importer
      ensures OutSteps(old(Now()), all, Now()) && OutInv(Now()) && importer.Ready()
      ensures done ==> Carries(importer.jobs, root, batch, j)
    {
      var outcome;
      ghost var acts;
      outcome, acts := importer.Run(root, Lines(batch.rows), Delta, Some(batch.base), responses);
      ImporterSteps(old(Now()), acts, importer.Now());
      all := Wrap(acts);
      OutStepsKeep(old(Now()), all, Now());
      done := outcome.Success?;
      j := if outcome.Success? then outcome.job else 0;
    }

    method FinishBatch(root: string, ghost j: nat) returns (delivered: nat)
      requires OutInv(Now()) && importer.Ready() && root in batches && Carries(importer.jobs, root, batches[root], j)
      modifies this`rows, this`batches
      ensures OutSteps(old(Now()), [Acknowledge(root, j)], Now()) && OutInv(Now())
      ensures 0 < delivered <= |RowsOf(old(rows), root)| && old(batches)[root].rows == RowsOf(old(rows), root)[..delivered]
      ensures RowsOf(rows, root) == RowsOf(old(rows), root)[delivered..]
    {
      ghost var o := Now();
      delivered := |batches[root].rows|;
      assert RowsOk(o, root);
      OneStep(o, Acknowledge(root, j));
      WithoutPrefix(rows, root, delivered, next);
      Acknowledged(root, j);
      OutStepsKeep(o, [Acknowledge(root, j)], Now());
    }

    /** Delivers at most one batch of a root. Rows leave the outbox only after the importer reports their delta
        published, and then exactly the rows of the batch do. */
    method DrainRoot(root: string, responses: seq<Response>) returns (delivered: nat, ghost all: seq<OutAction>)
      requires OutInv(Now()) && importer.Ready()
      modifies this, importer
      ensures OutSteps(old(Now()), all, Now()) && OutInv(Now()) && importer.Ready()
      ensures delivered <= |RowsOf(old(rows), root)|
      ensures RowsOf(rows, root) == RowsOf(old(rows), root)[delivered..]
      ensures delivered > 0 ==>
                exists base, j: nat :: Published(importer.jobs, root, base, RowsOf(old(rows), root)[..delivered], j)
    {
      var batch;
      batch, all := PrepareBatch(root);
      OutStepsKeep(old(Now()), all, Now());
      if batch.None? {
        return 0, all;
      }
      ghost var saved := Now();
      var done;
      ghost var j, more;
      done, j, more := ImportBatch(root, batch.value, responses);
      OutConcat(old(Now()), all, saved, more, Now());
      all := all + more;
      if !done {
        return 0, all;
      }
      ghost var mid := Now();
      delivered := FinishBatch(root, j);
      OutConcat(old(Now()), all, mid, [Acknowledge(root, j)], Now());
      all := all + [Acknowledge(root, j)];
      CarryingIsPublishing(importer.jobs, root, batch.value, j);
      assert Published(importer.jobs, root, batch.value.base, batch.value.rows, j);
    }
  }
}
