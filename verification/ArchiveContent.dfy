/**
 * What readers of a published snapshot see, line by line: at every id what the last line says that mentions it, over all
 * complete manifests of the index.
 */
module ArchiveContent {
  import opened Wrappers
  import opened ArchiveManifest
  import opened ArchiveImport
  import opened ArchiveImportSafety

  predicate MentionsAt(jobs: seq<Job>, index: nat, i: nat, p: nat, id: string) {
    i < |jobs| && jobs[i].index == index && p < |jobs[i].source| && Mentions(jobs[i].source[p], jobs[i].mode, id)
  }

  // The last line about an id among the first n jobs that write to an index.
  ghost predicate LastLine(jobs: seq<Job>, index: nat, n: nat, i: nat, p: nat, id: string) {
    i < n <= |jobs| && MentionsAt(jobs, index, i, p, id) &&
    forall k: nat, q: nat :: k < n && (i < k || (i == k && p < q)) ==> !MentionsAt(jobs, index, k, q, id)
  }

  lemma SaysTheSame(content: map<string, Document>, later: map<string, Document>, line: Line, config: string)
    requires !line.Malformed? && Says(content, line, config)
    requires (line.id in later <==> line.id in content) && (line.id in content ==> later[line.id] == content[line.id])
    ensures Says(later, line, config)
  {
  }

  lemma JobIsSilent(jobs: seq<Job>, index: nat, k: nat, id: string)
    requires k < |jobs| && jobs[k].index == index && forall q: nat :: !MentionsAt(jobs, index, k, q, id)
    ensures Silent(jobs[k].source, jobs[k].mode, id)
  {
    forall q | 0 <= q < |jobs[k].source| ensures !Mentions(jobs[k].source[q], jobs[k].mode, id) {
      assert !MentionsAt(jobs, index, k, q, id);
    }
  }

  lemma {:induction false} ExpectedSays(jobs: seq<Job>, index: nat, n: nat, i: nat, p: nat, id: string)
    requires LastLine(jobs, index, n, i, p, id)
    ensures Says(Expected(jobs, index, n), jobs[i].source[p], jobs[i].config)
  {
    var last := jobs[n - 1];
    var before := Expected(jobs, index, n - 1);
    if last.index == index { FoldImports(before, last.source, last.mode, last.config); }
    if i == n - 1 {
      forall q | p < q < |last.source| ensures !Mentions(last.source[q], last.mode, id) {
        assert !MentionsAt(jobs, index, i, q, id);
      }
      assert LastMention(last.source, last.mode, p, id);
    } else {
      assert LastLine(jobs, index, n - 1, i, p, id);
      ExpectedSays(jobs, index, n - 1, i, p, id);
      if last.index == index {
        JobIsSilent(jobs, index, n - 1, id);
        SaysTheSame(before, Expected(jobs, index, n), jobs[i].source[p], jobs[i].config);
      }
    }
  }

  lemma {:induction false} ExpectedIsSilent(jobs: seq<Job>, index: nat, n: nat, id: string)
    requires n <= |jobs| && forall k: nat, q: nat :: k < n ==> !MentionsAt(jobs, index, k, q, id)
    ensures id !in Expected(jobs, index, n)
  {
    if n > 0 {
      var last := jobs[n - 1];
      ExpectedIsSilent(jobs, index, n - 1, id);
      if last.index == index {
        JobIsSilent(jobs, index, n - 1, id);
        FoldImports(Expected(jobs, index, n - 1), last.source, last.mode, last.config);
      }
    }
  }

  ghost predicate NeverMentioned(jobs: seq<Job>, index: nat, n: nat, id: string) {
    forall k: nat, q: nat :: k < n ==> !MentionsAt(jobs, index, k, q, id)
  }

  // The first n jobs of an index, line by line.
  ghost predicate SeesLastLines(seen: map<string, Document>, jobs: seq<Job>, index: nat, n: nat) {
    (forall i: nat, p: nat, id :: LastLine(jobs, index, n, i, p, id) ==> Says(seen, jobs[i].source[p], jobs[i].config)) &&
    forall id :: NeverMentioned(jobs, index, n, id) ==> id !in seen
  }

  lemma ExpectedSeesLastLines(jobs: seq<Job>, index: nat, n: nat)
    requires n <= |jobs|
    ensures SeesLastLines(Expected(jobs, index, n), jobs, index, n)
  {
    forall i: nat, p: nat, id | LastLine(jobs, index, n, i, p, id)
      ensures Says(Expected(jobs, index, n), jobs[i].source[p], jobs[i].config)
    {
      ExpectedSays(jobs, index, n, i, p, id);
    }
    forall id | NeverMentioned(jobs, index, n, id) ensures id !in Expected(jobs, index, n) {
      ExpectedIsSilent(jobs, index, n, id);
    }
  }

  /** In every reachable state, readers of an open snapshot that is pointed to see at each id what the last line says
      that mentions it, in the manifests of this index up to the imported one, and no id that no line mentions. */
  lemma ReadersSeeTheLastLines(s: State, actions: seq<Action>, t: State, root: string) returns (j: nat)
    requires Start(s) && Steps(s, actions, t) && root in t.pointers && t.pointers[root].Archive?
    requires t.pointers[root].pit in t.pits
    ensures j < |t.jobs| && t.jobs[j].root == root && t.jobs[j].generation == t.pointers[root].imported
    ensures SeesLastLines(Visible(t.pits[t.pointers[root].pit]), t.jobs, t.jobs[j].index, j + 1)
  {
    j := PublishedSnapshotsAreWhole(s, actions, t, root);
    ExpectedSeesLastLines(t.jobs, t.jobs[j].index, j + 1);
  }

  /** The step that publishes a job shows its lines, and leaves all other ids as they were before it. */
  lemma SwapShowsTheLines(s: State, actions: seq<Action>, t: State) returns (k: nat)
    requires Start(s) && Steps(s, actions, t) && Enabled(t, Swap) && t.proc.pit in t.pits
    ensures var job, u := t.jobs[t.proc.job], AfterSwap(t);
            k < |t.jobs| && u.pointers[job.root].Archive? && u.pointers[job.root].pit in u.pits &&
            Imports(Before(t, t.proc.job, k), job.source, job.mode, job.config, Visible(u.pits[u.pointers[job.root].pit]))
  {
    k := SwapPublishesTheFold(s, actions, t);
    var job := t.jobs[t.proc.job];
    FoldImports(Before(t, t.proc.job, k), job.source, job.mode, job.config);
  }

  // The snapshot of this job is the one that its root shows, and the engine has it.
  ghost predicate Shown(s: State, j: nat) {
    j < |s.jobs| && s.jobs[j].root in s.pointers && s.pointers[s.jobs[j].root].Archive? &&
    s.pointers[s.jobs[j].root].imported == s.jobs[j].generation && s.pointers[s.jobs[j].root].pit in s.pits
  }

  // Every line was usable, and readers see what the last line about an id says.
  ghost predicate ShowsLines(seen: map<string, Document>, source: seq<Line>, mode: Mode, config: string) {
    (forall p :: 0 <= p < |source| ==> UsableLine(source[p], mode)) &&
    forall p: nat, id :: LastMention(source, mode, p, id) ==> Says(seen, source[p], config)
  }

  lemma CompleteIsUsable(s: State, j: nat)
    requires Inv(s) && j < |s.jobs| && Complete(s.jobs[j])
    ensures forall p :: 0 <= p < |s.jobs[j].source| ==> UsableLine(s.jobs[j].source[p], s.jobs[j].mode)
  {
    var job := s.jobs[j];
    assert JobOk(job, j);
    forall p | 0 <= p < |job.source| ensures UsableLine(job.source[p], job.mode) {
      assert job.Doc(p).Some?;
      LineIsUsable(job.source[p], job.mode, job.config);
    }
  }

  /** A job whose snapshot is shown was applied line by line. */
  lemma ShownJobShowsLines(s: State, j: nat)
    requires Inv(s) && Shown(s, j)
    ensures var job := s.jobs[j];
            ShowsLines(Visible(s.pits[s.pointers[job.root].pit]), job.source, job.mode, job.config)
  {
    var job := s.jobs[j];
    var p := s.pointers[job.root];
    var k: nat :| Publishes(p, job.root, s.jobs, k) && PitOk(p.pit, s.jobs, k, s.pits, s.closed, s.nextPit);
    assert k == j;
    CompleteIsUsable(s, j);
    FoldImports(Expected(s.jobs, job.index, j), job.source, job.mode, job.config);
  }
}
