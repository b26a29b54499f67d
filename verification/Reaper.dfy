/** The deletion phase of a pair as it is written: count, ask, remove (engine/reap.go). */
module Reaper {
  import opened Base
  import opened PathOrder
  import opened Deletion
  import opened Sums
  import A = Approvals

  /** What became of one file. Cancelled comes before anything is touched; unforgotten, the file went and its row would
      not. Both end the pass. */
  datatype Fate = Deleted | Missing | Failed | Cancelled | Unforgotten

  /** What was visited, how many bytes that is, what became of it, and the bytes of the files that went. */
  datatype Tally = Tally(files: nat, bytes: nat, deleted: nat, missing: nat, failed: nat, freed: nat)

  datatype Mode = Additive | Mirror | Guarded

  /** Free where no guard was in the way. */
  datatype Answer = Free | GoAhead(id: nat) | SaidNo | Asked(id: nat)

  /** How a deletion phase ends: not allowed, nothing vanished, waiting for a person, stopped on the way, or done. */
  datatype Outcome = Untouched | Nothing | Blocked | Stopped | Done(t: Tally, counted: Tally)

  /** The course of a pass: the paths visited, those of them that would not go, and one that went without its row. */
  datatype Trail = Trail(visited: seq<string>, stuck: set<string>, lost: set<string>)

  function TotalSize(files: Files, ps: seq<string>): nat
    requires forall p | p in ps :: p in files
  {
    if ps == [] then 0 else TotalSize(files, ps[..|ps| - 1]) + files[ps[|ps| - 1]].size
  }

  lemma TotalSizeSnoc(files: Files, ps: seq<string>, p: string)
    requires p in files && forall q | q in ps :: q in files
    ensures TotalSize(files, ps + [p]) == TotalSize(files, ps) + files[p].size
  {
    assert (ps + [p])[..|ps|] == ps;
  }

  /** The bytes of the listed files that were there and are not stuck. */
  function Freed(files: Files, ps: seq<string>, tree: set<string>, stuck: set<string>): nat
    requires forall p | p in ps :: p in files
  {
    if ps == [] then 0
    else
      var p := ps[|ps| - 1];
      Freed(files, ps[..|ps| - 1], tree, stuck) + (if p in tree && p !in stuck then files[p].size else 0)
  }

  lemma {:induction false} FreedSame(files: Files, ps: seq<string>, tree: set<string>, stuck: set<string>, p: string)
    requires p !in ps && forall q | q in ps :: q in files
    ensures Freed(files, ps, tree, stuck + {p}) == Freed(files, ps, tree, stuck)
    decreases |ps|
  {
    if ps != [] { FreedSame(files, ps[..|ps| - 1], tree, stuck, p); }
  }

  lemma FreedSnoc(files: Files, ps: seq<string>, tree: set<string>, stuck: set<string>, p: string)
    requires p in files && p !in ps && p !in stuck && forall q | q in ps :: q in files
    ensures Freed(files, ps + [p], tree, stuck) == Freed(files, ps, tree, stuck) + (if p in tree then files[p].size else 0)
    ensures Freed(files, ps + [p], tree, stuck + {p}) == Freed(files, ps, tree, stuck)
  {
    assert (ps + [p])[..|ps|] == ps;
    FreedSame(files, ps, tree, stuck, p);
  }

  /** The rows that are left when the visited files are forgotten, but for those that would not go. */
  ghost predicate Remain(files0: Files, files: Files, visited: seq<string>, stuck: set<string>) {
    && (forall p :: p in files <==> p in files0 && (p !in visited || p in stuck))
    && (forall p | p in files :: files[p] == files0[p])
  }

  /** The wanted paths up to the cursor, each once, in order. */
  ghost predicate VisitedUpTo(visited: seq<string>, wanted: set<string>, after: string) {
    InOrder(visited) && forall p :: p in visited <==> p in wanted && AtMost(p, after)
  }

  lemma VisitNext(visited: seq<string>, wanted: set<string>, after: string, p: string)
    requires VisitedUpTo(visited, wanted, after) && p in wanted && Less(after, p)
    requires forall q | q in wanted :: AtMost(q, p) <==> AtMost(q, after) || q == p
    ensures VisitedUpTo(visited + [p], wanted, p) && p !in visited
  {
    forall q | q in visited ensures Less(q, p) {
      if q != after { Transitive(q, after, p); }
    }
    Irreflexive(p);
    Snoc(visited, p);
  }

  lemma StepOver(visited: seq<string>, wanted: set<string>, after: string, p: string)
    requires VisitedUpTo(visited, wanted, after) && p !in wanted
    requires forall q | q in wanted :: AtMost(q, p) <==> AtMost(q, after) || q == p
    ensures VisitedUpTo(visited, wanted, p)
  {}

  /** Forgetting what was visited does not move what lies behind the cursor. */
  lemma RestUnchanged(files0: Files, files: Files, visited: seq<string>, stuck: set<string>, manifest: set<string>, wanted: set<string>, after: string)
    requires Remain(files0, files, visited, stuck) && VisitedUpTo(visited, wanted, after)
    ensures forall p | Less(after, p) :: p in Vanished(files0, manifest) <==> p in Vanished(files, manifest)
  {
    forall p | Less(after, p) ensures p !in visited {
      Asymmetric(after, p);
    }
  }

  /** The visited files that were there and went, and those that were not there. */
  ghost function Went(ps: seq<string>, tree: set<string>, stuck: set<string>): set<string> { set p | p in ps && p in tree && p !in stuck }
  ghost function Lacked(ps: seq<string>, tree: set<string>, stuck: set<string>): set<string> { set p | p in ps && p !in tree && p !in stuck }

  /** The tally counts them one by one. */
  ghost predicate Counts(t: Tally, ps: seq<string>, tree: set<string>, stuck: set<string>) {
    t.deleted == |Went(ps, tree, stuck)| && t.missing == |Lacked(ps, tree, stuck)| && t.failed == |stuck|
  }

  lemma CountsNext(t: Tally, t': Tally, ps: seq<string>, tree: set<string>, stuck: set<string>, p: string, fate: Fate)
    requires Counts(t, ps, tree, stuck) && p !in ps && (forall q | q in stuck :: q in ps)
    requires fate == Deleted || fate == Missing || fate == Failed
    requires (fate == Deleted ==> p in tree) && (fate == Missing ==> p !in tree)
    requires t'.deleted == t.deleted + (if fate == Deleted then 1 else 0) && t'.missing == t.missing + (if fate == Missing then 1 else 0)
    requires t'.failed == t.failed + (if fate == Failed then 1 else 0)
    ensures Counts(t', ps + [p], tree, if fate == Failed then stuck + {p} else stuck)
  {
    if fate == Failed {
      StuckNext(ps, tree, stuck, p);
    } else {
      GoneNext(ps, tree, stuck, p);
    }
  }

  lemma StuckNext(ps: seq<string>, tree: set<string>, stuck: set<string>, p: string)
    requires p !in ps
    ensures Went(ps + [p], tree, stuck + {p}) == Went(ps, tree, stuck) && Lacked(ps + [p], tree, stuck + {p}) == Lacked(ps, tree, stuck)
  {}

  lemma GoneNext(ps: seq<string>, tree: set<string>, stuck: set<string>, p: string)
    requires p !in ps && p !in stuck
    ensures |Went(ps + [p], tree, stuck)| == |Went(ps, tree, stuck)| + (if p in tree then 1 else 0)
    ensures |Lacked(ps + [p], tree, stuck)| == |Lacked(ps, tree, stuck)| + (if p in tree then 0 else 1)
  {
    if p in tree {
      assert Went(ps + [p], tree, stuck) == Went(ps, tree, stuck) + {p} && Lacked(ps + [p], tree, stuck) == Lacked(ps, tree, stuck);
    } else {
      assert Went(ps + [p], tree, stuck) == Went(ps, tree, stuck) && Lacked(ps + [p], tree, stuck) == Lacked(ps, tree, stuck) + {p};
    }
  }

  /** The state a pass started from, and what it is after. */
  datatype Start = Start(files: Files, tree: set<string>, wanted: set<string>)

  /** A file counted, and what became of it where the pass acts. */
  function Counting(t: Tally, size: nat, act: bool, fate: Fate): Tally {
    Tally(t.files + 1, t.bytes + size,
          t.deleted + (if act && fate == Deleted then 1 else 0),
          t.missing + (if act && fate == Missing then 1 else 0),
          t.failed + (if act && fate == Failed then 1 else 0),
          t.freed + (if act && fate == Deleted then size else 0))
  }

  /** The tally of what was visited. */
  ghost predicate Adds(from: Start, act: bool, t: Tally, trail: Trail)
    requires forall p | p in trail.visited :: p in from.files
  {
    && t.files == |trail.visited| && t.bytes == TotalSize(from.files, trail.visited)
    && (act ==> t.deleted + t.missing + t.failed == t.files && (t.failed == 0 ==> trail.stuck == {}))
    && (act ==> t.freed == Freed(from.files, trail.visited, from.tree, trail.stuck))
    && (act ==> Counts(t, trail.visited, from.tree, trail.stuck))
  }

  lemma AddsNext(from: Start, act: bool, t: Tally, trail: Trail, p: string, fate: Fate)
    requires p in from.files && p !in trail.visited && (forall q | q in trail.visited :: q in from.files) && (forall q | q in trail.stuck :: q in trail.visited)
    requires Adds(from, act, t, trail)
    requires if act then fate == Deleted || fate == Missing || fate == Failed else fate == Failed
    requires act ==> (fate == Deleted ==> p in from.tree) && (fate == Missing ==> p !in from.tree)
    ensures forall q | q in trail.visited + [p] :: q in from.files
    ensures Adds(from, act, Counting(t, from.files[p].size, act, fate),
                 Trail(trail.visited + [p], if !act || fate == Failed then trail.stuck + {p} else trail.stuck, {}))
  {
    TotalSizeSnoc(from.files, trail.visited, p);
    if act {
      FreedSnoc(from.files, trail.visited, from.tree, trail.stuck, p);
      CountsNext(t, Counting(t, from.files[p].size, act, fate), trail.visited, from.tree, trail.stuck, p, fate);
    }
  }

  class Reaper {
    const manifest: set<string>
    const allows: string -> bool
    const gated: string
    const pageSize: int
    var files: Files
    var tree: set<string>

    /** No path here is empty. */
    ghost predicate Valid()
      reads this
    {
      "" !in files
    }

    constructor (manifest: set<string>, allows: string -> bool, gated: string, pageSize: int, files: Files, tree: set<string>)
      requires "" !in files
      ensures Valid() && this.files == files && this.tree == tree
      ensures this.manifest == manifest && this.allows == allows && this.gated == gated && this.pageSize == pageSize
    {
      this.manifest, this.allows, this.gated, this.pageSize := manifest, allows, gated, pageSize;
      this.files, this.tree := files, tree;
    }

    predicate Takes(p: string) { allows(p) && p != gated }

    /** What the pass is after, all at once. */
    ghost function Wanted(): set<string>
      reads this
    {
      set p | p in Vanished(files, manifest) && Takes(p)
    }

    /** Takes one file out of the tree and forgets its row, unless it will not go. */
    method RemoveOne(p: string) returns (fate: Fate)
      requires Valid()
      modifies this
      ensures Valid()
      ensures files == if fate == Deleted || fate == Missing then old(files) - {p} else old(files)
      ensures tree == if fate == Deleted || fate == Unforgotten then old(tree) - {p} else old(tree)
      ensures fate == Deleted ==> p in old(tree)
      ensures fate == Missing ==> p !in tree
    {
      var cancelled: bool, fails: bool := *, *;
      if cancelled {
        return Cancelled;
      }
      if fails {
        return Failed;
      }
      fate := if p in tree then Deleted else Missing;
      tree := tree - {p};
      fails := *;
      if fails {
        return Unforgotten;
      }
      files := files - {p};
    }

    /** One entry of a page. */
    method Consider(p: string, act: bool, t: Tally) returns (t': Tally, fate: Fate)
      requires Valid() && p in files && Takes(p)
      modifies this
      ensures Valid()
      ensures files == if act && (fate == Deleted || fate == Missing) then old(files) - {p} else old(files)
      ensures !act ==> tree == old(tree) && fate == Failed
      ensures act ==> tree == if fate == Deleted || fate == Unforgotten then old(tree) - {p} else old(tree)
      ensures (fate == Deleted ==> p in old(tree)) && (fate == Missing ==> p !in tree)
      ensures t' == Counting(t, old(files)[p].size, act, fate)
    {
      fate := Failed;
      if act {
        var size := files[p].size;
        fate := RemoveOne(p);
        t' := Counting(t, size, act, fate);
      } else {
        t' := Counting(t, files[p].size, act, fate);
      }
    }

    /** Where a pass stands: it has dealt with the wanted paths up to the cursor, and its tally says so. */
    ghost predicate Going(from: Start, after: string, act: bool, t: Tally, trail: Trail)
      reads this
    {
      && Valid() && from.wanted <= from.files.Keys && VisitedUpTo(trail.visited, from.wanted, after)
      && (forall p | p in trail.stuck :: p in trail.visited) && (forall p | p in trail.lost :: p in from.wanted && p !in trail.visited)
      && Remain(from.files, files, trail.visited, trail.stuck)
      && Adds(from, act, t, trail)
      && (act ==> forall p :: p in tree <==> p in from.tree && p !in trail.lost && (p !in trail.visited || p in trail.stuck))
      && (!act ==> files == from.files && tree == from.tree)
    }

    method NextEntry(ghost from: Start, after: string, p: string, act: bool, t: Tally, ghost trail: Trail)
      returns (t': Tally, stopped: bool, ghost trail': Trail)
      requires Going(from, after, act, t, trail) && trail.lost == {} && Takes(p) && p in from.wanted && Less(after, p)
      requires forall q | q in from.wanted :: AtMost(q, p) <==> AtMost(q, after) || q == p
      modifies this
      ensures if stopped then act && t' == t && Going(from, after, act, t, trail') else Going(from, p, act, t', trail') && trail'.lost == {}
    {
      VisitNext(trail.visited, from.wanted, after, p);
      var fate;
      t', fate := Consider(p, act, t);
      stopped := fate == Cancelled || fate == Unforgotten;
      if stopped {
        t' := t;
        trail' := if fate == Unforgotten then trail.(lost := {p}) else trail;
      } else {
        AddsNext(from, act, t, trail, p, fate);
        trail' := Trail(trail.visited + [p], if !act || fate == Failed then trail.stuck + {p} else trail.stuck, {});
      }
    }

    /** Entry k of a page: stepped over, or dealt with. */
    method PageEntry(ghost from: Start, ghost start: string, after: string, page: seq<string>, k: nat, act: bool, t: Tally, ghost trail: Trail)
      returns (t': Tally, stopped: bool, ghost trail': Trail)
      requires Going(from, after, act, t, trail) && trail.lost == {}
      requires IsPage(page, Vanished(from.files, manifest), start, PageSize(pageSize)) && k < |page| && after == Cursor(page, start, k)
      requires from.wanted == set p | p in Vanished(from.files, manifest) && Takes(p)
      modifies this
      ensures if stopped then act && Going(from, after, act, t', trail') else Going(from, page[k], act, t', trail') && trail'.lost == {}
    {
      ghost var all := Vanished(from.files, manifest);
      var p := page[k];
      forall q | q in all ensures AtMost(q, p) <==> AtMost(q, after) || q == p {
        NextInPage(page, all, start, PageSize(pageSize), k, q);
      }
      assert Less(after, p) && p in all by { assert page[k] in page; }
      if Takes(p) {
        t', stopped, trail' := NextEntry(from, after, p, act, t, trail);
      } else {
        t', stopped, trail' := t, false, trail;
        StepOver(trail.visited, from.wanted, after, p);
      }
    }

    method OnePage(ghost from: Start, after: string, page: seq<string>, act: bool, t: Tally, ghost trail: Trail)
      returns (after': string, t': Tally, stopped: bool, ghost trail': Trail)
      requires Going(from, after, act, t, trail) && trail.lost == {}
      requires IsPage(page, Vanished(from.files, manifest), after, PageSize(pageSize))
      requires from.wanted == set p | p in Vanished(from.files, manifest) && Takes(p)
      modifies this
      ensures Going(from, after', act, t', trail')
      ensures stopped ==> act
      ensures !stopped ==> after' == Cursor(page, after, |page|) && trail'.lost == {}
    {
      after', t', stopped, trail' := after, t, false, trail;
      for k := 0 to |page|
        invariant Going(from, after', act, t', trail') && trail'.lost == {} && after' == Cursor(page, after, k) && !stopped
      {
        t', stopped, trail' := PageEntry(from, after, after', page, k, act, t', trail');
        if stopped {
          return;
        }
        after' := page[k];
      }
    }

    /** The pass over everything that vanished, a page at a time; act says whether it removes or only counts. For any
        page size it visits each wanted path once, in order, whatever was forgotten or would not go meanwhile. */
    method Pass(act: bool) returns (t: Tally, stopped: bool, ghost trail: Trail)
      requires Valid()
      modifies this
      ensures Valid() && Remain(old(files), files, trail.visited, trail.stuck)
      ensures InOrder(trail.visited) && (forall p | p in trail.visited :: p in old(files) && p in old(Wanted()))
      ensures (forall p | p in trail.stuck :: p in trail.visited) && forall p | p in trail.lost :: p in old(Wanted())
      ensures !stopped ==> trail.lost == {} && forall p :: p in trail.visited <==> p in old(Wanted())
      ensures t.files == |trail.visited| && t.bytes == TotalSize(old(files), trail.visited)
      ensures act ==> t.deleted + t.missing + t.failed == t.files && (t.failed == 0 ==> trail.stuck == {})
      ensures act ==> t.freed == Freed(old(files), trail.visited, old(tree), trail.stuck)
      ensures act ==> Counts(t, trail.visited, old(tree), trail.stuck)
      ensures act ==> forall p :: p in tree <==> p in old(tree) && p !in trail.lost && (p !in trail.visited || p in trail.stuck)
      ensures !act ==> !stopped && files == old(files) && tree == old(tree)
    {
      ghost var from := Start(files, tree, Wanted());
      ghost var all := Vanished(files, manifest);
      trail, stopped, t := Trail([], {}, {}), false, Tally(0, 0, 0, 0, 0, 0);
      var after := "";
      while true
        invariant Going(from, after, act, t, trail) && trail.lost == {} && !stopped
        decreases Ahead(all, after)
      {
        var page := VanishedPage(files, manifest, after, pageSize);
        RestUnchanged(from.files, files, trail.visited, trail.stuck, manifest, from.wanted, after);
        if page == [] {
          forall p | p in from.wanted ensures AtMost(p, after) { Total(p, after); }
          return;
        }
        PageOfRest(page, Vanished(files, manifest), all, after, PageSize(pageSize));
        ghost var start := after;
        after, t, stopped, trail := OnePage(from, after, page, act, t, trail);
        if stopped {
          return;
        }
        PageMoves(page, all, start, PageSize(pageSize));
      }
    }

    /** What a tripped guard makes of it: an approval that still describes it, a refusal that does, or a request. It is the
        decision of the approval machine, and one step of its run. */
    method Hold(table: A.ApprovalTable, l: A.Limits, walk: nat, count: nat, local: nat, ghost r: A.Run) returns (answer: Answer, ghost r': A.Run)
      requires table.Valid() && A.IsRun(r) && A.Last(r) == Asking(table.rows, walk, count, local, l)
      requires l.guarded && A.Trips(l, count, local)
      modifies table
      ensures table.Valid() && A.IsRun(r') && A.Goes(r, r') && r'.steps == r.steps + [A.Hold]
      ensures A.Last(r') == A.Held(A.Last(r)) && table.rows == A.Last(r').rows
      ensures !answer.Free? && (answer.GoAhead? <==> A.Last(r').run.Busy?)
      ensures answer.GoAhead? ==> table.rows == old(table.rows) && answer.id == |table.rows| - 1 && table.rows[answer.id].Covers(walk, count)
      ensures answer.SaidNo? ==> table.rows == old(table.rows) && 0 < |table.rows| && table.rows[|table.rows| - 1].Refuses(walk, count)
      ensures answer.Asked? ==> table.rows == A.Requested(old(table.rows), walk, count)
      ensures var n := |old(table.rows)|;
              && (answer.GoAhead? <==> 0 < n && old(table.rows)[n - 1].state == A.Approved
                                       && old(table.rows)[n - 1].scan == walk && count <= old(table.rows)[n - 1].files)
              && (answer.SaidNo? <==> 0 < n && old(table.rows)[n - 1].state == A.Rejected
                                      && old(table.rows)[n - 1].scan == walk && count <= old(table.rows)[n - 1].files)
      ensures answer.Asked? ==> answer.id == |table.rows| - 1 && table.rows[answer.id] == A.Approval(walk, count, A.Pending)
    {
      r' := A.Extend(r, A.Hold);
      var n := |table.rows|;
      if 0 < n && table.rows[n - 1].Covers(walk, count) {
        answer := GoAhead(n - 1);
      } else if 0 < n && table.rows[n - 1].Refuses(walk, count) {
        answer := SaidNo;
      } else {
        var id := table.RequestDeleteApproval(walk, count);
        answer := Asked(id);
      }
    }

    /** Whether a run that counted this much may remove it: within the limits, or with an approval. */
    method Clear(table: A.ApprovalTable, l: A.Limits, walk: nat, count: nat, local: nat, ghost hist: A.Run) returns (answer: Answer, ghost r: A.Run)
      requires table.Valid() && A.IsRun(hist) && A.Last(hist) == A.World(table.rows, walk, A.Idle) && 0 < count
      modifies table
      ensures table.Valid() && A.IsRun(r) && A.Goes(hist, r) && A.Bounded(r, |hist.steps|, l)
      ensures answer.Asked? ==> l.guarded && A.Last(r) == A.World(table.rows, walk, A.Idle) && table.rows == A.Requested(old(table.rows), walk, count)
      ensures answer.SaidNo? ==> l.guarded && A.Last(r) == A.World(table.rows, walk, A.Idle) && table.rows == old(table.rows)
                                 && 0 < |table.rows| && table.rows[|table.rows| - 1].Refuses(walk, count)
      ensures answer.GoAhead? || answer.Free? ==> table.rows == old(table.rows) && Cleared(A.Last(r), table.rows, walk, count, local, l, answer)
      ensures answer.GoAhead? ==> l.guarded && A.Trips(l, count, local) && answer.id == |table.rows| - 1 && table.rows[answer.id].Covers(walk, count)
      ensures answer.Free? <==> !(l.guarded && A.Trips(l, count, local))
    {
      r := A.Extend(hist, A.Count(count, local, l));
      if l.guarded && A.Trips(l, count, local) {
        answer, r := Hold(table, l, walk, count, local, r);
      } else {
        r := A.Extend(r, A.Pass);
        answer := Free;
      }
    }

    /** The acting pass, one removal of the approval machine per file it visits, and the approval spent if nothing stopped it. */
    method RemoveAll(table: A.ApprovalTable, l: A.Limits, answer: Answer, ghost listed: seq<string>, ghost r: A.Run, ghost from: nat)
      returns (t: Tally, stopped: bool, ghost trail: Trail, ghost r': A.Run)
      requires Valid() && table.Valid() && A.IsRun(r) && A.Bounded(r, from, l) && (answer.GoAhead? || answer.Free?)
      requires InOrder(listed) && (forall p :: p in listed <==> p in Wanted())
      requires A.Last(r).run.Busy? && Cleared(A.Last(r), table.rows, A.Last(r).walk, |listed|, A.Last(r).run.reaping.local, l, answer)
      modifies this, table
      ensures Valid() && table.Valid() && A.IsRun(r') && A.Goes(r, r') && A.Bounded(r', from, l)
      ensures A.Last(r') == A.World(table.rows, A.Last(r).walk, A.Idle)
      ensures Remain(old(files), files, trail.visited, trail.stuck) && t.files == |trail.visited|
      ensures forall p | p in trail.lost :: p in old(Wanted())
      ensures (forall p | p in trail.visited :: p in old(Wanted())) && (forall p | p in trail.stuck :: p in trail.visited)
      ensures t.deleted + t.missing + t.failed == t.files && (t.failed == 0 ==> trail.stuck == {})
      ensures Counts(t, trail.visited, old(tree), trail.stuck)
      ensures forall p :: p in tree <==> p in old(tree) && p !in trail.lost && (p !in trail.visited || p in trail.stuck)
      ensures if stopped then table.rows == old(table.rows)
              else trail.visited == listed && trail.lost == {} && t.bytes == TotalSize(old(files), listed)
                   && t.freed == Freed(old(files), listed, old(tree), trail.stuck)
                   && table.rows == if answer.GoAhead? then A.Spent(old(table.rows), answer.id) else old(table.rows)
    {
      t, stopped, trail := Pass(true);
      NoMoreThan(trail.visited, listed);
      r' := A.ExtendRemovals(r, |trail.visited|, from);
      if stopped {
        r' := A.Extend(r', A.Stop);
        return;
      }
      OrderIsUnique(listed, trail.visited);
      r' := A.Extend(r', A.Finish);
      if answer.GoAhead? {
        table.UseApproval(answer.id);
      }
    }

    /** The deletion phase. It touches nothing while a transfer is open, before a walk is done or when the walk found
        nothing at all; a guarded pair beyond its limits needs an approval for this walk and this many files, which a
        finished run spends; a run that nothing stopped removes exactly what it counted, but for what would not go; and
        all of it is a run of the approval machine, whose removals never go beyond what was counted. */
    method Reap(mode: Mode, walk: nat, done: bool, openJobs: nat, l: A.Limits, table: A.ApprovalTable, ghost hist: A.Run)
      returns (out: Outcome, ghost hist': A.Run)
      requires Valid() && table.Valid() && l.guarded == (mode == Guarded)
      requires A.IsRun(hist) && A.Last(hist) == A.World(table.rows, walk, A.Idle)
      modifies this, table
      ensures Valid() && table.Valid()
      ensures A.IsRun(hist') && A.Goes(hist, hist') && A.Bounded(hist', |hist.steps|, l) && A.Last(hist') == A.World(table.rows, walk, A.Idle)
      ensures out.Untouched? || out.Nothing? || out.Blocked? ==> files == old(files) && tree == old(tree)
      ensures mode == Additive || !done || manifest == {} || 0 < openJobs ==> out.Untouched? && table.rows == old(table.rows)
      ensures mode != Additive && done && manifest != {} && openJobs == 0 ==> (out.Nothing? <==> old(Wanted()) == {})
      ensures mode != Additive && done && manifest != {} && openJobs == 0 && out.Untouched? ==>
                mode == Guarded && old(table.rows) != [] && old(table.rows)[|old(table.rows)| - 1].Refuses(walk, |old(Wanted())|)
      ensures out.Nothing? ==> old(Wanted()) == {} && table.rows == old(table.rows)
      ensures out.Blocked? ==> mode == Guarded && table.rows == A.Requested(old(table.rows), walk, |old(Wanted())|)
      ensures files != old(files) || tree != old(tree) ==>
                mode != Additive && (mode == Guarded ==>
                  || !A.Trips(l, |old(Wanted())|, |old(files)|)
                  || (old(table.rows) != [] && old(table.rows)[|old(table.rows)| - 1].Covers(walk, |old(Wanted())|)))
      ensures out.Done? ==> out.t.files == |old(Wanted())| == out.t.deleted + out.t.missing + out.t.failed
      ensures out.Done? ==> out.counted.files == out.t.files && out.counted.bytes == out.t.bytes
      ensures out.Done? && out.t.failed == 0 ==> files.Keys == old(files.Keys) - old(Wanted()) && tree == old(tree) - old(Wanted())
      ensures forall p | p in files :: p in old(files) && files[p] == old(files[p])
      ensures forall p | p in old(files) && p !in old(Wanted()) :: p in files
      ensures out.Done? && out.t.failed == 0 ==>
                && (forall p :: p in files <==> p in old(files) && (p in manifest || !allows(p) || p == gated))
                && out.t.deleted == |old(Wanted()) * old(tree)| && out.t.missing == |old(Wanted()) - old(tree)|
      ensures forall p | p in old(files) && (p in manifest || !allows(p) || p == gated) :: p in files
      ensures forall p | p in old(tree) && (p !in old(files) || p in manifest || !allows(p) || p == gated) :: p in tree
      ensures out.Done? && l.guarded && A.Trips(l, |old(Wanted())|, |old(files)|) ==>
                old(table.rows) != [] && table.rows == A.Spent(old(table.rows), |old(table.rows)| - 1)
      ensures out.Stopped? ==> table.rows == old(table.rows)
    {
      hist' := hist;
      if mode == Additive || !done || manifest == {} || 0 < openJobs {
        return Untouched, hist;
      }
      var count, _, listed := Pass(false);
      ListSize(listed.visited, Wanted());
      if count.files == 0 {
        return Nothing, hist;
      }
      out, hist' := ReapCounted(mode, walk, l, table, count, listed.visited, hist);
    }

    /** The rest of a deletion phase that counted something. */
    method ReapCounted(mode: Mode, walk: nat, l: A.Limits, table: A.ApprovalTable, count: Tally, ghost listed: seq<string>, ghost hist: A.Run)
      returns (out: Outcome, ghost hist': A.Run)
      requires Valid() && table.Valid() && l.guarded == (mode == Guarded) && mode != Additive
      requires A.IsRun(hist) && A.Last(hist) == A.World(table.rows, walk, A.Idle)
      requires InOrder(listed) && (forall p :: p in listed <==> p in Wanted()) && 0 < |listed| == count.files
      requires (forall p | p in listed :: p in files) && count.bytes == TotalSize(files, listed)
      modifies this, table
      ensures Valid() && table.Valid()
      ensures A.IsRun(hist') && A.Goes(hist, hist') && A.Bounded(hist', |hist.steps|, l) && A.Last(hist') == A.World(table.rows, walk, A.Idle)
      ensures out.Untouched? || out.Blocked? || out.Stopped? || out.Done?
      ensures out.Untouched? ==> mode == Guarded && old(table.rows) != [] && old(table.rows)[|old(table.rows)| - 1].Refuses(walk, count.files)
      ensures out.Untouched? || out.Blocked? ==> files == old(files) && tree == old(tree)
      ensures out.Blocked? ==> mode == Guarded && table.rows == A.Requested(old(table.rows), walk, count.files)
      ensures out.Stopped? || out.Done? ==>
                !(mode == Guarded && A.Trips(l, count.files, |old(files)|))
                || (old(table.rows) != [] && old(table.rows)[|old(table.rows)| - 1].Covers(walk, count.files))
      ensures out.Done? ==> out.counted == count && out.t.bytes == count.bytes
                            && out.t.files == count.files == out.t.deleted + out.t.missing + out.t.failed
      ensures out.Done? && out.t.failed == 0 ==> files.Keys == old(files.Keys) - old(Wanted()) && tree == old(tree) - old(Wanted())
      ensures forall p | p in files :: p in old(files) && files[p] == old(files[p])
      ensures forall p | p in old(files) && p !in old(Wanted()) :: p in files
      ensures forall p | p in old(tree) && p !in old(Wanted()) :: p in tree
      ensures out.Done? && out.t.failed == 0 ==>
                out.t.deleted == |old(Wanted()) * old(tree)| && out.t.missing == |old(Wanted()) - old(tree)|
      ensures out.Done? && l.guarded && A.Trips(l, count.files, |old(files)|) ==>
                old(table.rows) != [] && table.rows == A.Spent(old(table.rows), |old(table.rows)| - 1)
      ensures out.Stopped? ==> table.rows == old(table.rows)
    {
      var answer;
      answer, hist' := Clear(table, l, walk, count.files, |files|, hist);
      if answer.SaidNo? {
        return Untouched, hist';
      }
      if answer.Asked? {
        return Blocked, hist';
      }
      var t, stopped;
      ghost var trail;
      ghost var files0, tree0, wanted := files, tree, Wanted();
      t, stopped, trail, hist' := RemoveAll(table, l, answer, listed, hist', |hist.steps|);
      if !stopped && t.failed == 0 {
        AllGone(files0, files, tree0, tree, listed, wanted);
        AllCounted(listed, wanted, tree0);
      }
      out := if stopped then Stopped else Done(t, count);
    }
  }

  /** A run that has counted and not asked yet. */
  ghost function Asking(rows: A.Rows, walk: nat, count: nat, local: nat, l: A.Limits): A.World {
    A.World(rows, walk, A.Busy(A.Reaping(walk, count, local, l, A.Unasked, 0)))
  }

  /** A run that may go ahead, and why. */
  ghost predicate Cleared(w: A.World, rows: A.Rows, walk: nat, count: nat, local: nat, l: A.Limits, answer: Answer) {
    && w.rows == rows && w.walk == walk && w.run.Busy? && w.run.reaping.files == count && w.run.reaping.local == local
    && w.run.reaping.limits == l && w.run.reaping.removed == 0 && !w.run.reaping.clear.Unasked?
    && (answer.GoAhead? ==> w.run.reaping.clear == A.ByApproval(answer.id))
    && (answer.Free? ==> !w.run.reaping.clear.ByApproval?)
  }

  lemma AllCounted(ps: seq<string>, wanted: set<string>, tree: set<string>)
    requires forall p :: p in ps <==> p in wanted
    ensures Went(ps, tree, {}) == wanted * tree && Lacked(ps, tree, {}) == wanted - tree
  {}

  lemma AllGone(files0: Files, files: Files, tree0: set<string>, tree: set<string>, visited: seq<string>, wanted: set<string>)
    requires Remain(files0, files, visited, {}) && (forall p :: p in visited <==> p in wanted)
    requires forall p :: p in tree <==> p in tree0 && p !in visited
    ensures files.Keys == files0.Keys - wanted && tree == tree0 - wanted
  {}

  /** A list without repetition of some members of another is no longer. */
  lemma {:induction false} NoMoreThan(ps: seq<string>, qs: seq<string>)
    requires InOrder(ps) && InOrder(qs) && forall p | p in ps :: p in qs
    ensures |ps| <= |qs|
  {
    var a, b := (set p | p in ps), (set q | q in qs);
    ListSize(ps, a);
    ListSize(qs, b);
    assert a <= b;
    SubsetCardinality(a, b);
  }

  lemma {:induction false} ListSize(ps: seq<string>, s: set<string>)
    requires InOrder(ps) && forall p :: p in ps <==> p in s
    ensures |ps| == |s|
  {
    if ps == [] {
      assert s == {};
    } else {
      var last, front := ps[|ps| - 1], ps[..|ps| - 1];
      Irreflexive(last);
      assert ps == front + [last];
      forall p ensures p in front <==> p in s - {last} {
        assert p in ps <==> p in front || p == last;
      }
      ListSize(front, s - {last});
    }
  }

  ghost function Ahead(all: set<string>, after: string): set<string> { set p | p in all && Less(after, p) }

  /** A page that is not empty leaves less ahead of the cursor. */
  lemma PageMoves(page: seq<string>, all: set<string>, start: string, limit: nat)
    requires IsPage(page, all, start, limit) && page != []
    ensures Ahead(all, Cursor(page, start, |page|)) < Ahead(all, start)
  {
    assert page[0] in page && page[|page| - 1] in page;
    Behind(start, page[0], page[|page| - 1]);
    assert page[0] in Ahead(all, start) && page[0] !in Ahead(all, page[|page| - 1]);
  }

  lemma Behind(start: string, first: string, after: string)
    requires Less(start, first) && AtMost(first, after)
    ensures !Less(after, first) && forall p | Less(after, p) :: Less(start, p)
  {
    Irreflexive(first);
    if first != after {
      Asymmetric(first, after);
      Transitive(start, first, after);
    }
    forall p | Less(after, p) ensures Less(start, p) { Transitive(start, after, p); }
  }
}
