/** One full round of a raw mirror pair, as it is run: walk, plan, queue, transfer, delete (engine/scan.go, engine/diff.go,
    engine/transfer.go, engine/reap.go) - after which the next plan wants nothing. */
module Cycle {
  import opened Base
  import opened Jobs
  import opened Plan
  import T = Text
  import F = Filter
  import W = Walk
  import S = Scanner
  import M = Machine
  import R = Resume
  import E = Engine
  import C = Convergence
  import D = Reaper
  import A = Approvals
  import JT = JobTable

  // ---------------------------------------------------------------- paths of the walk as paths of the tables

  /** Segments joined by slashes. */
  function TextOf(p: W.Path): Path { T.Join(W.Segs(p), "/") }

  /** Names a file system allows. */
  ghost predicate Named(t: W.Tree) { forall p: W.Path | p in t && p.Sub? :: p.name != "" && '/' !in p.name }

  lemma {:induction false} SegsNamed(t: W.Tree, p: W.Path)
    requires W.WellFormed(t) && Named(t) && p in t
    ensures forall i | 0 <= i < |W.Segs(p)| :: W.Segs(p)[i] != "" && '/' !in W.Segs(p)[i]
    ensures p.Sub? ==> W.Segs(p) != []
    decreases p
  {
    if p.Sub? { SegsNamed(t, p.dir); }
  }

  lemma {:induction false} SegsInjective(p: W.Path, q: W.Path)
    requires W.Segs(p) == W.Segs(q)
    ensures p == q
    decreases p
  {
    if p.Sub? && q.Sub? {
      var a, b := W.Segs(p), W.Segs(q);
      assert a[..|a| - 1] == W.Segs(p.dir) && b[..|b| - 1] == W.Segs(q.dir);
      assert a[|a| - 1] == p.name && b[|b| - 1] == q.name;
      SegsInjective(p.dir, q.dir);
    }
  }

  /** A file's text gives its segments back, so it is its own and never empty. */
  lemma TextGivesSegs(t: W.Tree, p: W.Path)
    requires W.WellFormed(t) && Named(t) && p in t && p.Sub?
    ensures T.Split(TextOf(p), '/') == W.Segs(p) && TextOf(p) != ""
  {
    SegsNamed(t, p);
    T.SplitJoin(W.Segs(p), '/');
    assert T.Split("", '/') == [""];
  }

  lemma TextInjective(t: W.Tree, p: W.Path, q: W.Path)
    requires W.WellFormed(t) && Named(t) && p in t && q in t && p.Sub? && q.Sub? && TextOf(p) == TextOf(q)
    ensures p == q
  {
    TextGivesSegs(t, p);
    TextGivesSegs(t, q);
    SegsInjective(p, q);
  }

  // ---------------------------------------------------------------- the manifest of a walk

  /** The files of a tree that a walk should find, under their texts. */
  ghost predicate Describes(m: Manifest, t: W.Tree, keep: W.Keep) {
    && (forall p | W.Reachable(t, keep, p) && !t[p].isDir :: TextOf(p) in m && m[TextOf(p)] == Version(t[p].size, t[p].mtime))
    && (forall s | s in m :: exists p :: W.Reachable(t, keep, p) && !t[p].isDir && TextOf(p) == s)
  }

  /** Any two walks of one tree that end done agree. */
  lemma WalksAgree(m: Manifest, m': Manifest, t: W.Tree, keep: W.Keep)
    requires Describes(m, t, keep) && Describes(m', t, keep)
    ensures m == m'
  {
    forall s | s in m ensures s in m' && m'[s] == m[s] {
      var p :| W.Reachable(t, keep, p) && !t[p].isDir && TextOf(p) == s;
    }
    forall s | s in m' ensures s in m {
      var p :| W.Reachable(t, keep, p) && !t[p].isDir && TextOf(p) == s;
    }
  }

  /** The file rows of the manifest table, row by row. */
  method ReadManifest(table: S.ManifestTable, ghost id: nat, ghost t: W.Tree, ghost keep: W.Keep) returns (m: Manifest)
    requires W.WellFormed(t) && Named(t) && W.HoldsExactly(table.View(), id, t, keep)
    ensures Describes(m, t, keep) && "" !in m
  {
    m := map[];
    var left := table.manifest.Keys;
    while left != {}
      invariant left <= table.manifest.Keys && "" !in m
      invariant forall p | p in table.manifest && p !in left && !t[p].isDir :: TextOf(p) in m && m[TextOf(p)] == Version(t[p].size, t[p].mtime)
      invariant forall s | s in m :: exists p :: p in table.manifest && p !in left && !t[p].isDir && TextOf(p) == s
      decreases left
    {
      var p :| p in left;
      left := left - {p};
      var row := table.manifest[p];
      if !row.isDir {
        TextGivesSegs(t, p);
        forall q | q in table.manifest && q !in left && !t[q].isDir && q != p ensures TextOf(q) != TextOf(p) {
          if TextOf(q) == TextOf(p) { TextInjective(t, p, q); }
        }
        m := m[TextOf(p) := Version(row.size, row.mtime)];
      }
    }
  }

  // ---------------------------------------------------------------- the queue

  /** Nothing runs or waits, and whether everything is done. */
  method ReadQueue(table: JT.JobTable) returns (open: nat, allDone: bool)
    ensures open == |set k | k in table.rows && Open(table.rows[k])|
    ensures allDone <==> C.AllDone(table.rows)
    ensures allDone ==> open == 0
  {
    ghost var seen: set<nat> := {};
    open, allDone := 0, true;
    var left := table.rows.Keys;
    while left != {}
      invariant left <= table.rows.Keys && open == |seen|
      invariant forall k :: k in seen <==> k in table.rows && k !in left && Open(table.rows[k])
      invariant allDone <==> forall k | k in table.rows && k !in left :: table.rows[k].state.Done?
      decreases left
    {
      var k :| k in left;
      left := left - {k};
      if Open(table.rows[k]) {
        open, seen := open + 1, seen + {k};
      }
      allDone := allDone && table.rows[k].state.Done?;
    }
    assert seen == set k | k in table.rows && Open(table.rows[k]);
  }

  // ---------------------------------------------------------------- the round

  /** The publisher has the files of the tree. */
  ghost predicate Serves(remote: M.Publisher, t: W.Tree) {
    forall p | p in t && !t[p].isDir :: remote.had(TextOf(p), Version(t[p].size, t[p].mtime))
  }

  lemma ManifestIsServed(m: Manifest, t: W.Tree, keep: W.Keep, remote: M.Publisher)
    requires Describes(m, t, keep) && Serves(remote, t)
    ensures forall s | s in m :: remote.had(s, m[s])
  {
    forall s | s in m ensures remote.had(s, m[s]) {
      var p :| W.Reachable(t, keep, p) && !t[p].isDir && TextOf(p) == s;
    }
  }

  /** What a process finds: the transfer tables and files of the pair, with nothing in flight. */
  ghost function Found(jobs: JT.JobTable, parts: map<Path, Bytes>, dst: map<Path, FileOnDisk>, files: Truth, acct: map<nat, M.Account>): M.Sys
    reads jobs
  {
    M.Sys(jobs.rows, parts, dst, files, None, acct)
  }

  /** Queue the plan and run the queue: whatever happened, if every job is done then the deletion decides the rest. */
  method QueueAndSync(m: Manifest, scope: Scope, jobs: JT.JobTable, o: M.Options, backoff: int, remote: M.Publisher,
                      parts: map<Path, Bytes>, dst: map<Path, FileOnDisk>, files: Truth, ghost acct: map<nat, M.Account>, started: int, now: nat)
    returns (e: E.Engine)
    requires R.Inv(Found(jobs, parts, dst, files, acct), o, remote) && forall p | p in m :: remote.had(p, m[p])
    requires NothingUnwanted(jobs.rows, Transfers(m, files, scope), started)
    modifies jobs
    ensures e.Valid() && e.att.None? && e.o == o && e.remote == remote && e.table == jobs && fresh(e)
    ensures e.start.att.None? && e.start.files == files && QueueIsPlan(e.start.rows, m, Transfers(m, files, scope))
  {
    var queued: nat;
    ghost var sys: M.Sys;
    queued, sys := Enqueue(m, files, scope, jobs, started, Found(jobs, parts, dst, files, acct), o, remote);
    e := new E.Engine(o, backoff, remote, jobs, parts, dst, files, sys.acct);
    var tally, later := e.Sync(now);
  }

  /** What the queue left local truth with: no path is empty, and once everything is done the deletion decides the rest. */
  lemma AfterSync(r: R.Run, start: M.Sys, o: M.Options, pub: M.Publisher, m: Manifest, scope: Scope)
    requires o.Filled() && E.TraceFrom(r, start, o, pub) && start.att.None? && "" !in m && "" !in start.files
    requires QueueIsPlan(start.rows, m, Transfers(m, start.files, scope))
    ensures "" !in r.states[|r.steps|].files
    ensures C.AllDone(r.states[|r.steps|].rows) && scope.gated.None? ==>
              forall f | C.Reaped(m, r.states[|r.steps|].files, f, scope) :: CountsOf(m, f, scope) == NONE
  {
    E.TraceIsRun(r, start, o, pub);
    var wanted := Transfers(m, start.files, scope);
    C.RunStaysOnTheWay(r, o, pub, m, wanted, |r.steps|);
    assert "" !in wanted;
    if C.AllDone(r.states[|r.steps|].rows) && scope.gated.None? {
      forall f | C.Reaped(m, r.states[|r.steps|].files, f, scope) ensures CountsOf(m, f, scope) == NONE {
        C.Converges(r, o, pub, m, scope, f);
      }
    }
  }

  /** It removed everything it was after. */
  predicate Cleared(out: D.Outcome) { out.Nothing? || (out.Done? && out.t.failed == 0) }

  /** The deletion phase of a mirror pair on what the queue left. */
  method Delete(m: Manifest, scope: Scope, files: Truth, tree: set<Path>, walk: nat, open: nat, pageSize: int) returns (files': Truth, out: D.Outcome)
    requires "" !in files && scope.gated.None?
    ensures Cleared(out) ==> C.Reaped(m, files, files', scope)
    ensures m != map[] && open == 0 ==> !out.Untouched? && !out.Blocked?
  {
    var reaper := new D.Reaper(m.Keys, scope.allows, "", pageSize, files, tree);
    var table := new A.ApprovalTable();
    ghost var hist := A.Run([A.World([], walk, A.Idle)], []);
    C.PassDeletesThePlan(m, files, scope, "");
    assert reaper.Wanted() == Deletes(m, files, scope).Keys;
    out, hist := reaper.Reap(D.Mirror, walk, true, open, A.Limits(false, 0, 0), table, hist);
    files' := reaper.files;
  }

  /** A walk, and what it found when it ended done. */
  method WalkTree(table: S.ManifestTable, tree: W.Tree, f: F.Filter, seg: F.SegMatch, resume: bool, workers: nat)
    returns (walked: bool, m: Manifest, id: nat)
    requires W.WellFormed(tree) && Named(tree) && W.Inv(W.Sys(table.View(), None), tree, W.Kept(f, seg))
    modifies table
    ensures walked ==> Describes(m, tree, W.Kept(f, seg)) && "" !in m
  {
    var state;
    id, state := S.RunScan(table, tree, f, seg, resume, workers);
    walked, m := state.Done?, map[];
    if walked {
      m := ReadManifest(table, id, tree, W.Kept(f, seg));
    }
  }

  /** What is held here of the allowed paths are exactly the files a walk reaches, each with its size and a time no further
      off than the tolerance. */
  ghost predicate Mirrored(files: Truth, tree: W.Tree, keep: W.Keep, allows: Path -> bool, tolerance: nat) {
    && (forall p | W.Reachable(tree, keep, p) && !tree[p].isDir && allows(TextOf(p)) ::
          && TextOf(p) in files && files[TextOf(p)].size == tree[p].size
          && files[TextOf(p)].mtime - tree[p].mtime <= tolerance && tree[p].mtime - files[TextOf(p)].mtime <= tolerance)
    && (forall s | s in files && allows(s) :: exists p :: W.Reachable(tree, keep, p) && !tree[p].isDir && TextOf(p) == s)
  }

  /** A plan that wants nothing says that the mirror is one. */
  lemma NothingWantedIsMirrored(m: Manifest, files: Truth, tree: W.Tree, keep: W.Keep, allows: Path -> bool, tolerance: nat)
    requires Describes(m, tree, keep) && CountsOf(m, files, Scope(allows, tolerance, None)) == NONE
    ensures Mirrored(files, tree, keep, allows, tolerance)
  {
    WantsNothingExactly(m, files, Scope(allows, tolerance, None));
  }

  /** One round of a raw mirror pair on a tree that stays as it is. When the walk is done, every job ends done and the
      deletion removed all it was after, the next plan is empty - on this manifest, and so on that of any later walk of the
      same tree that ends done. */
  method Round(table: S.ManifestTable, tree: W.Tree, f: F.Filter, seg: F.SegMatch, resume: bool, workers: nat,
               jobs: JT.JobTable, o: M.Options, backoff: int, remote: M.Publisher,
               parts: map<Path, Bytes>, dst: map<Path, FileOnDisk>, files: Truth, ghost acct: map<nat, M.Account>,
               allows: Path -> bool, started: int, now: nat, pageSize: int)
    returns (c: Counts, m: Manifest, files': Truth, walked: bool, out: D.Outcome)
    requires W.WellFormed(tree) && Named(tree) && W.Inv(W.Sys(table.View(), None), tree, W.Kept(f, seg))
    requires R.Inv(Found(jobs, parts, dst, files, acct), o, remote) && "" !in files && Serves(remote, tree)
    requires forall m | Describes(m, tree, W.Kept(f, seg)) ::
               NothingUnwanted(jobs.rows, Transfers(m, files, Scope(allows, o.tolerance, None)), started)
    modifies table, jobs
    ensures walked ==> Describes(m, tree, W.Kept(f, seg)) && c == CountsOf(m, files', Scope(allows, o.tolerance, None))
    ensures walked && C.AllDone(jobs.rows) && Cleared(out) ==>
              Mirrored(files', tree, W.Kept(f, seg), allows, o.tolerance)
    ensures walked && C.AllDone(jobs.rows) && Cleared(out) ==>
              c == NONE && forall m' | Describes(m', tree, W.Kept(f, seg)) :: CountsOf(m', files', Scope(allows, o.tolerance, None)) == NONE
  {
    var scope := Scope(allows, o.tolerance, None);
    c, m, files', out := NONE, map[], files, D.Untouched;
    var id;
    walked, m, id := WalkTree(table, tree, f, seg, resume, workers);
    if !walked {
      return;
    }
    ManifestIsServed(m, tree, W.Kept(f, seg), remote);
    var e := QueueAndSync(m, scope, jobs, o, backoff, remote, parts, dst, files, acct, started, now);
    var open, allDone := ReadQueue(jobs);
    AfterSync(e.run, e.start, o, remote, m, scope);
    files', out := Delete(m, scope, e.files, e.dst.Keys, id, open, pageSize);
    c := PlanPair(m, files', scope);
    if c == NONE { NothingWantedIsMirrored(m, files', tree, W.Kept(f, seg), allows, o.tolerance); }
    forall m' | Describes(m', tree, W.Kept(f, seg)) ensures m' == m {
      WalksAgree(m, m', tree, W.Kept(f, seg));
    }
  }
}
