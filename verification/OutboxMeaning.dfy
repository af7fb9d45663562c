/**
 * What the outbox's own words mean: which moves a batch takes, whose moves are waiting, and what carrying a batch is.
 */
module OutboxMeaning {
  import opened Wrappers
  import opened ArchiveManifest
  import opened ArchiveImport
  import opened SearchOutbox

  function TotalBytes(rows: seq<Row>): nat {
    if rows == [] then 0 else TotalBytes(rows[..|rows| - 1]) + rows[|rows| - 1].bytes
  }

  // This many of the waiting moves fit into a batch: at most 25,000, and 4 MiB unless it is only one.
  predicate Fits(rows: seq<Row>, n: nat) {
    n <= |rows| && n <= 25000 && (n <= 1 || TotalBytes(rows[..n]) <= 4194304)
  }

  lemma {:induction false} LengthFits(rows: seq<Row>, n: nat)
    requires Fits(rows, n)
    ensures Fits(rows, BatchLength(rows, n, TotalBytes(rows[..n])))
    ensures var m := BatchLength(rows, n, TotalBytes(rows[..n]));
            m < |rows| && m < 25000 ==> 0 < m && TotalBytes(rows[..m + 1]) > 4194304
    decreases |rows| - n
  {
    if n < |rows| {
      assert rows[..n + 1][..n] == rows[..n];
      if !(n >= BATCH_ROWS || (n > 0 && TotalBytes(rows[..n]) + rows[n].bytes > BATCH_BYTES)) {
        LengthFits(rows, n + 1);
      }
    }
  }

  lemma {:induction false} MoreBytes(rows: seq<Row>, m: nat, n: nat)
    requires m <= n <= |rows|
    ensures TotalBytes(rows[..m]) <= TotalBytes(rows[..n])
  {
    if m < n {
      MoreBytes(rows, m, n - 1);
      assert rows[..n][..n - 1] == rows[..n - 1];
    }
  }

  /** A batch is the longest beginning of the waiting moves that fits: no longer one does, and it is never empty while a move
      waits. */
  lemma BatchIsLongest(rows: seq<Row>)
    ensures Fits(rows, BatchLength(rows))
    ensures forall n: nat :: n > BatchLength(rows) ==> !Fits(rows, n)
    ensures rows != [] ==> BatchLength(rows) > 0
  {
    assert TotalBytes(rows[..0]) == 0;
    LengthFits(rows, 0);
    var m := BatchLength(rows);
    forall n: nat | n > m ensures !Fits(rows, n) {
      if n <= |rows| && n <= 25000 { MoreBytes(rows, m + 1, n); }
    }
  }

  // The batch is cut from the front of the waiting moves: as many as fit, over the published generation.
  ghost predicate CutFrom(batch: Batch, waiting: seq<Row>, pointers: map<string, Pointer>, root: string) {
    root in pointers && batch.base == pointers[root].generation && batch.rows <= waiting && batch.rows != [] &&
    Fits(waiting, |batch.rows|) && forall n: nat :: n > |batch.rows| ==> !Fits(waiting, n)
  }

  lemma {:induction false} RowsOfJoin(a: seq<Row>, b: seq<Row>, root: string)
    ensures RowsOf(a + b, root) == RowsOf(a, root) + RowsOf(b, root)
  {
    if b == [] {
      assert a + b == a;
    } else {
      var n := |b| - 1;
      RowsOfJoin(a, b[..n], root);
      assert (a + b)[..|a + b| - 1] == a + b[..n] && (a + b)[|a + b| - 1] == b[n];
    }
  }

  /** The waiting moves of a root are all moves of that root, in order, and no others. */
  lemma RowBelongs(before: seq<Row>, row: Row, after: seq<Row>, root: string)
    ensures RowsOf(before + [row] + after, root) ==
            RowsOf(before, root) + (if row.root == root then [row] else []) + RowsOf(after, root)
  {
    RowsOfJoin(before + [row], after, root);
    RowsOfJoin(before, [row], root);
    assert [row][..0] == [];
  }

  // A delta over the base has exactly these moves as its lines, in order.
  predicate LineByLine(job: Job, root: string, base: nat, rows: seq<Row>) {
    job.root == root && job.mode == Delta && job.base == Some(base) && |job.source| == |rows| &&
    forall i :: 0 <= i < |rows| ==> job.source[i] == rows[i].line
  }

  lemma MatchesLineByLine(job: Job, root: string, batch: Batch)
    ensures Matches(job, root, batch) <==> LineByLine(job, root, batch.base, batch.rows)
  {
    if LineByLine(job, root, batch.base, batch.rows) { assert job.source == Lines(batch.rows); }
  }

  // A published job carried the moves.
  ghost predicate Published(jobs: seq<Job>, root: string, base: nat, rows: seq<Row>, j: nat) {
    j < |jobs| && jobs[j].state == PUBLISHED && LineByLine(jobs[j], root, base, rows)
  }

  /** Carrying a batch is publishing a delta over its base with exactly its moves. */
  lemma CarryingIsPublishing(jobs: seq<Job>, root: string, batch: Batch, j: nat)
    ensures Carries(jobs, root, batch, j) <==> Published(jobs, root, batch.base, batch.rows, j)
  {
    if j < |jobs| { MatchesLineByLine(jobs[j], root, batch); }
  }

  /** Readers have seen a batch exactly if a delta with its moves is published, or is the one its root's pointer names. */
  lemma ReachedIs(s: State, root: string, batch: Batch)
    ensures Reached(s, root, batch) <==>
            exists j :: 0 <= j < |s.jobs| && LineByLine(s.jobs[j], root, batch.base, batch.rows) &&
                        (s.jobs[j].state == PUBLISHED ||
                         (root in s.pointers && s.pointers[root].Archive? && s.pointers[root].imported == s.jobs[j].generation))
  {
    forall j | 0 <= j < |s.jobs|
      ensures Matches(s.jobs[j], root, batch) <==> LineByLine(s.jobs[j], root, batch.base, batch.rows)
    {
      MatchesLineByLine(s.jobs[j], root, batch);
    }
  }
}
