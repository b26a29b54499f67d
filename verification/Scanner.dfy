/** The walk as it is run: the manifest and scans tables, and the loop that lists batch after batch
    (store/manifest.go, engine/scan.go). */
module Scanner {
  import opened Base
  import opened Filter
  import opened Sums
  import opened Walk

  datatype Entry = Entry(path: Path, node: Node)

  ghost predicate Distinct(entries: seq<Entry>) {
    forall i, j | 0 <= i < j < |entries| :: entries[i].path != entries[j].path
  }

  /** A listing as a map. */
  function ByPath(entries: seq<Entry>): map<Path, Node> {
    if entries == [] then map[] else ByPath(entries[..|entries| - 1])[entries[|entries| - 1].path := entries[|entries| - 1].node]
  }

  lemma {:induction false} ByPathKeys(entries: seq<Entry>)
    ensures forall p :: p in ByPath(entries) <==> exists i | 0 <= i < |entries| :: entries[i].path == p
  {
    if entries != [] {
      var front := entries[..|entries| - 1];
      ByPathKeys(front);
      forall p ensures p in ByPath(entries) <==> exists i | 0 <= i < |entries| :: entries[i].path == p {
        if p in ByPath(front) {
          var i :| 0 <= i < |front| && front[i].path == p;
          assert entries[i].path == p;
        }
        if i :| 0 <= i < |entries| && entries[i].path == p && i < |front| { assert front[i].path == p; }
      }
    }
  }

  lemma ByPathNext(entries: seq<Entry>, i: nat)
    requires Distinct(entries) && i < |entries|
    ensures ByPath(entries[..i + 1]) == ByPath(entries[..i])[entries[i].path := entries[i].node]
    ensures entries[i].path !in ByPath(entries[..i])
  {
    assert entries[..i + 1][..i] == entries[..i];
    ByPathKeys(entries[..i]);
  }

  /** One more entry adds its size exactly when it is a file. */
  lemma FileSizesGrow(entries: map<Path, Node>, e: Entry)
    requires e.path !in entries
    ensures var sizes, sizes' := FileSizes(entries), FileSizes(entries[e.path := e.node]);
            && |sizes'| == |sizes| + (if e.node.isDir then 0 else 1)
            && Sum(sizes') == Sum(sizes) + (if e.node.isDir then 0 else e.node.size)
  {
    var sizes := FileSizes(entries);
    FileSizesNext(entries, e);
    if !e.node.isDir {
      SumUpdate(sizes, e.path, e.node.size);
      assert sizes[e.path := e.node.size].Keys == sizes.Keys + {e.path};
    }
  }

  lemma FileSizesNext(entries: map<Path, Node>, e: Entry)
    requires e.path !in entries
    ensures FileSizes(entries[e.path := e.node]) == if e.node.isDir then FileSizes(entries) else FileSizes(entries)[e.path := e.node.size]
  {}

  class ManifestTable {
    var manifest: map<Path, Row>
    var scans: map<nat, Scan>

    ghost function View(): Store
      reads this
    {
      Store(manifest, scans)
    }

    /** The newest unfinished walk, and an id above every scan's. */
    method RunningScan() returns (running: Option<nat>, unused: nat)
      ensures running.Some? ==> running.value in scans && Unfinished(scans[running.value])
      ensures running.Some? ==> forall k | k in scans && Unfinished(scans[k]) :: k <= running.value
      ensures running.None? ==> forall k | k in scans :: !Unfinished(scans[k])
      ensures forall k | k in scans :: k < unused
    {
      running, unused := None, 1;
      var todo := scans.Keys;
      while todo != {}
        invariant todo <= scans.Keys
        invariant running.Some? ==> running.value in scans && Unfinished(scans[running.value])
        invariant running.Some? ==> forall k | k in scans && k !in todo && Unfinished(scans[k]) :: k <= running.value
        invariant running.None? ==> forall k | k in scans && k !in todo :: !Unfinished(scans[k])
        invariant forall k | k in scans && k !in todo :: k < unused
        decreases todo
      {
        var k :| k in todo;
        todo := todo - {k};
        if Unfinished(scans[k]) && (running.None? || running.value < k) {
          running := Some(k);
        }
        if unused <= k {
          unused := k + 1;
        }
      }
    }

    method BeginScan(resume: bool) returns (id: nat, resumed: bool)
      modifies this
      ensures resumed <==> resume && exists k | k in old(scans) :: Unfinished(old(scans)[k])
      ensures resumed ==> View() == old(View()) && id in scans && Unfinished(scans[id])
                          && forall k | k in scans && Unfinished(scans[k]) :: k <= id
      ensures !resumed ==> View() == old(Begun(View(), id)) && forall k | k in old(scans) :: k < id
      ensures resumed <==> resume && exists k | k in old(scans) :: old(scans)[k].state == Running || old(scans)[k].state == Interrupted
      ensures resumed ==> (scans[id].state == Running || scans[id].state == Interrupted) && scans == old(scans) && manifest == old(manifest)
      ensures !resumed ==> id !in old(scans) && scans.Keys == old(scans.Keys) + {id} && scans[id] == Scan(Running, 0, 0, 0)
      ensures !resumed ==> forall k | k in old(scans) ::
                scans[k] == if old(scans)[k].state == Running || old(scans)[k].state == Interrupted then old(scans)[k].(state := Failed) else old(scans)[k]
      ensures !resumed ==> manifest.Keys == old(manifest.Keys) + {Root} && Pending(View(), id, Root) == manifest[Root].isDir
                           && forall p | p in old(manifest) && p != Root :: manifest[p] == old(manifest)[p]
    {
      var running, unused := RunningScan();
      if resume && running.Some? {
        return running.value, true;
      }
      id, resumed := unused, false;
      scans := map k | k in scans :: if Unfinished(scans[k]) then scans[k].(state := Failed) else scans[k];
      scans := scans[id := Scan(Running, 0, 0, 0)];
      var root := if Root in manifest then manifest[Root].(listed := false, scan := id) else Row(true, 0, 0, false, id);
      manifest := manifest[Root := root];
    }

    /** Directories this scan found and has not listed, at most limit of them. */
    method PendingDirs(id: nat, limit: nat) returns (dirs: seq<Path>)
      requires 0 < limit
      ensures forall i | 0 <= i < |dirs| :: Pending(View(), id, dirs[i])
      ensures forall i, j | 0 <= i < j < |dirs| :: dirs[i] != dirs[j]
      ensures |dirs| <= limit && (|dirs| < limit ==> forall p | Pending(View(), id, p) :: p in dirs)
      ensures dirs == [] <==> Drained(View(), id)
    {
      dirs := [];
      var todo := manifest.Keys;
      while todo != {} && |dirs| < limit
        invariant todo <= manifest.Keys && |dirs| <= limit
        invariant forall i | 0 <= i < |dirs| :: Pending(View(), id, dirs[i]) && dirs[i] !in todo
        invariant forall i, j | 0 <= i < j < |dirs| :: dirs[i] != dirs[j]
        invariant forall p | Pending(View(), id, p) :: p in todo || p in dirs
        decreases todo
      {
        var p :| p in todo;
        todo := todo - {p};
        if manifest[p].scan == id && manifest[p].isDir && !manifest[p].listed {
          dirs := dirs + [p];
        }
      }
      if dirs != [] { assert Pending(View(), id, dirs[0]); }
    }

    method WriteEntries(id: nat, entries: seq<Entry>) returns (files: nat, bytes: int)
      requires Distinct(entries)
      modifies this`manifest
      ensures manifest == Written(old(manifest), id, ByPath(entries))
      ensures files == |FileSizes(ByPath(entries))| && bytes == Sum(FileSizes(ByPath(entries)))
    {
      ghost var was := manifest;
      files, bytes := 0, 0;
      NothingWritten(was, id, entries);
      for i := 0 to |entries|
        invariant WrittenUpTo(was, manifest, id, entries, i, files, bytes)
      {
        var e := entries[i];
        OneWritten(was, manifest, id, entries, i, files, bytes);
        manifest := manifest[e.path := RowOf(e.node, id)];
        if !e.node.isDir {
          files, bytes := files + 1, bytes + e.node.size;
        }
      }
      assert entries[..|entries|] == entries;
    }

    method MarkListed(id: nat, dir: Path)
      modifies this`manifest
      ensures manifest == MarkedListed(old(manifest), id, dir)
    {
      if dir in manifest {
        manifest := manifest[dir := manifest[dir].(listed := true, scan := id)];
      }
    }

    /** One directory's children, the mark on it and the counters. */
    method PutListing(id: nat, dir: Path, entries: seq<Entry>)
      requires id in scans && Distinct(entries)
      modifies this
      ensures View() == old(Listed(View(), id, dir, ByPath(entries)))
    {
      var files, bytes := WriteEntries(id, entries);
      MarkListed(id, dir);
      AddCounters(id, files, bytes);
    }

    method AddCounters(id: nat, files: nat, bytes: int)
      requires id in scans
      modifies this`scans
      ensures scans == old(scans)[id := Grown(old(scans)[id], files, bytes)]
    {
      var sc := scans[id];
      scans := scans[id := sc.(dirs := sc.dirs + 1, files := sc.files + files, bytes := sc.bytes + bytes)];
    }

    /** Close the walk; only a completed one sweeps what it did not see. */
    method FinishScan(id: nat, state: ScanState) returns (swept: nat)
      requires id in scans
      modifies this
      ensures View() == old(Finished(View(), id, state))
      ensures swept == |old(manifest)| - |manifest|
      ensures scans == old(scans)[id := old(scans)[id].(state := state)]
      ensures forall p | p in manifest :: p in old(manifest) && manifest[p] == old(manifest)[p]
      ensures forall p | p in old(manifest) :: p !in manifest <==> state == Done && old(manifest)[p].scan != id
    {
      var was := manifest;
      if state.Done? {
        manifest := map p | p in manifest && manifest[p].scan == id :: manifest[p];
      }
      assert was.Keys == manifest.Keys + (was.Keys - manifest.Keys);
      assert |was.Keys| == |manifest.Keys| + |was.Keys - manifest.Keys|;
      swept := |was| - |manifest|;
      scans := scans[id := scans[id].(state := state)];
    }
  }

  /** The first i entries are written and counted. */
  ghost predicate WrittenUpTo(was: map<Path, Row>, m: map<Path, Row>, id: nat, entries: seq<Entry>, i: nat, files: nat, bytes: int)
    requires i <= |entries|
  {
    m == Written(was, id, ByPath(entries[..i])) && files == |FileSizes(ByPath(entries[..i]))| && bytes == Sum(FileSizes(ByPath(entries[..i])))
  }

  lemma NothingWritten(was: map<Path, Row>, id: nat, entries: seq<Entry>)
    ensures WrittenUpTo(was, was, id, entries, 0, 0, 0)
  {
    assert ByPath(entries[..0]) == map[] && FileSizes(map[]) == map[];
  }

  lemma OneWritten(was: map<Path, Row>, m: map<Path, Row>, id: nat, entries: seq<Entry>, i: nat, files: nat, bytes: int)
    requires i < |entries| && Distinct(entries) && WrittenUpTo(was, m, id, entries, i, files, bytes)
    ensures var e := entries[i];
            WrittenUpTo(was, m[e.path := RowOf(e.node, id)], id, entries, i + 1,
                        if e.node.isDir then files else files + 1, if e.node.isDir then bytes else bytes + e.node.size)
  {
    ByPathNext(entries, i);
    FileSizesGrow(ByPath(entries[..i]), entries[i]);
    WrittenOne(was, id, ByPath(entries[..i]), entries[i]);
  }

  lemma WrittenOne(m: map<Path, Row>, id: nat, entries: map<Path, Node>, e: Entry)
    ensures Written(m, id, entries)[e.path := RowOf(e.node, id)] == Written(m, id, entries[e.path := e.node])
  {}

  /** One request and the filter: what a directory holds that the pair covers. */
  method ListDir(tree: Tree, f: Filter, seg: SegMatch, dir: Path) returns (entries: seq<Entry>)
    ensures Distinct(entries) && ByPath(entries) == Children(tree, Kept(f, seg), dir)
  {
    entries := [];
    ghost var keep := Kept(f, seg);
    var todo := set p | p in tree && p.Sub? && p.dir == dir;
    while todo != {}
      invariant forall p | p in todo :: p in tree && p.Sub? && p.dir == dir
      invariant forall p | p in todo :: p !in ByPath(entries)
      invariant forall p :: p in ByPath(entries) <==> IsChild(tree, keep, dir, p) && p !in todo
      invariant forall p | p in ByPath(entries) :: ByPath(entries)[p] == tree[p]
      invariant Distinct(entries)
      decreases todo
    {
      var p :| p in todo;
      todo := todo - {p};
      var take;
      if tree[p].isDir {
        take := AllowsDir(f, seg, Segs(p));
      } else {
        take := Allows(f, seg, Segs(p));
      }
      assert take <==> IsChild(tree, keep, dir, p);
      if take {
        ByPathKeys(entries);
        var more := entries + [Entry(p, tree[p])];
        assert more[..|more| - 1] == entries;
        entries := more;
      }
    }
    assert ByPath(entries) == Children(tree, keep, dir);
  }

  /** One walk from start or resume to its verdict. Listings come in any order within a batch and any of them may
      fail; the walk itself ends because every listing leaves fewer directories to list. */
  method RunScan(table: ManifestTable, tree: Tree, f: Filter, seg: SegMatch, resume: bool, workers: nat)
      returns (id: nat, state: ScanState)
    requires WellFormed(tree) && Inv(Sys(table.View(), None), tree, Kept(f, seg))
    modifies table
    ensures Inv(Sys(table.View(), None), tree, Kept(f, seg))
    ensures id in table.scans && table.scans[id].state == state && !state.Running?
    ensures state.Done? ==> HoldsExactly(table.View(), id, tree, Kept(f, seg)) && 0 < table.scans[id].files
    ensures !state.Done? ==> forall p | p in old(table.manifest) :: p in table.manifest
    ensures state == Failed ==> table.scans[id].files == 0 && Drained(table.View(), id)
    ensures OnlyOne(table.scans, id)
    ensures TakenUp(old(table.scans), table.scans, id, resume)
  {
    ghost var was := table.scans;
    id := StartScan(table, tree, f, seg, resume);
    ghost var begun := table.scans;
    var drained := WalkAll(table, tree, f, seg, id, workers);
    ghost var walked := table.scans;
    state := EndScan(table, tree, f, seg, id, drained);
    ScansEnd(was, begun, walked, id, resume, state);
  }

  ghost predicate InProgress(sc: Scan) { sc.state == Running || sc.state == Interrupted }

  /** The scan a walk works on: the one that is unfinished if it is to be resumed, else a new one, and the unfinished one failed. */
  method StartScan(table: ManifestTable, tree: Tree, f: Filter, seg: SegMatch, resume: bool) returns (id: nat)
    requires WellFormed(tree) && Inv(Sys(table.View(), None), tree, Kept(f, seg))
    modifies table
    ensures Inv(Sys(table.View(), Some(id)), tree, Kept(f, seg)) && id in table.scans
    ensures forall p | p in old(table.manifest) :: p in table.manifest
    ensures TakenUp(old(table.scans), table.scans, id, resume) && OnlyOne(table.scans, id)
  {
    ghost var before := table.View();
    var resumed;
    id, resumed := table.BeginScan(resume);
    if !resumed { BeginKeeps(Sys(before, None), id, tree, Kept(f, seg)); }
    ScanStarted(before.scans, table.scans, id, resume, resumed);
  }

  lemma ScanStarted(was: map<nat, Scan>, now: map<nat, Scan>, id: nat, resume: bool, resumed: bool)
    requires forall a, b | a in was && b in was && Unfinished(was[a]) && Unfinished(was[b]) :: a == b
    requires resumed <==> resume && exists k | k in was :: Unfinished(was[k])
    requires resumed ==> now == was && id in was && Unfinished(was[id])
    requires !resumed ==> id !in was && now == Superseded(was)[id := Scan(Running, 0, 0, 0)]
    ensures TakenUp(was, now, id, resume) && OnlyOne(now, id)
  {}

  /** What was in progress is what the walk resumes, or has failed. */
  ghost predicate TakenUp(was: map<nat, Scan>, now: map<nat, Scan>, id: nat, resume: bool) {
    forall k | k in was && InProgress(was[k]) :: if resume then id == k else id != k && k in now && now[k].state == Failed
  }

  ghost predicate OnlyOne(scans: map<nat, Scan>, id: nat) { forall k | k in scans && InProgress(scans[k]) :: k == id }

  /** Its verdict. */
  method EndScan(table: ManifestTable, ghost tree: Tree, ghost f: Filter, ghost seg: SegMatch, id: nat, drained: bool) returns (state: ScanState)
    requires WellFormed(tree) && Inv(Sys(table.View(), Some(id)), tree, Kept(f, seg)) && (drained ==> Drained(table.View(), id))
    requires id in table.scans
    modifies table
    ensures Inv(Sys(table.View(), None), tree, Kept(f, seg))
    ensures id in table.scans && table.scans[id].state == state
    ensures state == (if !drained then Interrupted else if old(table.scans)[id].files == 0 then Failed else Done)
    ensures table.scans == old(table.scans)[id := old(table.scans)[id].(state := state)]
    ensures state.Done? ==> HoldsExactly(table.View(), id, tree, Kept(f, seg)) && 0 < table.scans[id].files
    ensures !state.Done? ==> table.manifest == old(table.manifest)
    ensures state == Failed ==> Drained(table.View(), id)
  {
    ghost var before := table.View();
    state := if !drained then Interrupted else if table.scans[id].files == 0 then Failed else Done;
    if state.Done? { CompletedScan(table.View(), id, tree, Kept(f, seg)); }
    FinishKeeps(Sys(table.View(), Some(id)), state, tree, Kept(f, seg));
    var swept := table.FinishScan(id, state);
    if state.Failed? { SameFrontier(before, table.View(), id); }
  }

  lemma SameFrontier(st: Store, st': Store, id: nat)
    requires st'.manifest == st.manifest && Drained(st, id)
    ensures Drained(st', id)
  {
    forall p ensures !Pending(st', id, p) { assert !Pending(st, id, p); }
  }

  /** Only scan id may differ, and its state does not. */
  ghost predicate OthersStand(was: map<nat, Scan>, scans: map<nat, Scan>, id: nat) {
    && scans.Keys == was.Keys && (forall k | k in was && k != id :: scans[k] == was[k])
    && (id in was ==> scans[id].state == was[id].state)
  }

  lemma ListedStands(st: Store, id: nat, dir: Path, entries: map<Path, Node>)
    requires id in st.scans
    ensures OthersStand(st.scans, Listed(st, id, dir, entries).scans, id)
  {}

  /** What a walk makes of the scans: those that were in progress were taken up or failed, and none but its own still is. */
  lemma ScansEnd(was: map<nat, Scan>, begun: map<nat, Scan>, walked: map<nat, Scan>, id: nat, resume: bool, state: ScanState)
    requires id in begun && OthersStand(begun, walked, id)
    requires TakenUp(was, begun, id, resume) && OnlyOne(begun, id)
    ensures var now := walked[id := walked[id].(state := state)]; TakenUp(was, now, id, resume) && OnlyOne(now, id)
  {}

  /** Batches of pending directories until there are none, or until one will not list. */
  method WalkAll(table: ManifestTable, tree: Tree, f: Filter, seg: SegMatch, id: nat, workers: nat) returns (drained: bool)
    requires WellFormed(tree) && Inv(Sys(table.View(), Some(id)), tree, Kept(f, seg))
    modifies table
    ensures Inv(Sys(table.View(), Some(id)), tree, Kept(f, seg))
    ensures drained ==> Drained(table.View(), id)
    ensures forall p | p in old(table.manifest) :: p in table.manifest
    ensures OthersStand(old(table.scans), table.scans, id)
  {
    var batch := if workers * 8 < 32 then 32 else workers * 8;
    drained := false;
    while true
      invariant Inv(Sys(table.View(), Some(id)), tree, Kept(f, seg))
      invariant forall p | p in old(table.manifest) :: p in table.manifest
      invariant OthersStand(old(table.scans), table.scans, id)
      decreases Unlisted(table.View(), id, tree, Kept(f, seg))
    {
      if * {
        return;   // interrupted
      }
      var dirs := table.PendingDirs(id, batch);
      if dirs == [] {
        return true;
      }
      var ok := ListBatch(table, tree, f, seg, id, dirs);
      if !ok {
        return;
      }
    }
  }

  method ListBatch(table: ManifestTable, tree: Tree, f: Filter, seg: SegMatch, id: nat, dirs: seq<Path>) returns (ok: bool)
    requires WellFormed(tree) && Inv(Sys(table.View(), Some(id)), tree, Kept(f, seg))
    requires dirs != [] && forall i | 0 <= i < |dirs| :: Pending(table.View(), id, dirs[i])
    modifies table
    ensures Inv(Sys(table.View(), Some(id)), tree, Kept(f, seg))
    ensures forall p | p in old(table.manifest) :: p in table.manifest
    ensures OthersStand(old(table.scans), table.scans, id)
    ensures ok ==> Unlisted(table.View(), id, tree, Kept(f, seg)) < old(Unlisted(table.View(), id, tree, Kept(f, seg)))
  {
    ghost var keep := Kept(f, seg);
    var todo := set d | d in dirs;
    ok := false;
    assert dirs[0] in todo;
    while todo != {}
      invariant forall d | d in todo :: Pending(table.View(), id, d)
      invariant Inv(Sys(table.View(), Some(id)), tree, keep)
      invariant forall p | p in old(table.manifest) :: p in table.manifest
      invariant OthersStand(old(table.scans), table.scans, id)
      invariant var left, all := Unlisted(table.View(), id, tree, keep), old(Unlisted(table.View(), id, tree, Kept(f, seg)));
                left <= all && (dirs[0] !in todo ==> left < all)
      decreases todo
    {
      if * {
        return;   // a directory that keeps failing stops the scan
      }
      var d :| d in todo;
      todo := todo - {d};
      ListOne(table, tree, f, seg, id, d);
    }
    ok := true;
  }

  /** One directory listed and committed. */
  method ListOne(table: ManifestTable, tree: Tree, f: Filter, seg: SegMatch, id: nat, d: Path)
    requires WellFormed(tree) && Inv(Sys(table.View(), Some(id)), tree, Kept(f, seg)) && Pending(table.View(), id, d)
    modifies table
    ensures Inv(Sys(table.View(), Some(id)), tree, Kept(f, seg))
    ensures forall p | p != d && Pending(old(table.View()), id, p) :: Pending(table.View(), id, p)
    ensures forall p | p in old(table.manifest) :: p in table.manifest
    ensures OthersStand(old(table.scans), table.scans, id)
    ensures Unlisted(table.View(), id, tree, Kept(f, seg)) < Unlisted(old(table.View()), id, tree, Kept(f, seg))
  {
    ghost var before := table.View();
    var entries := ListDir(tree, f, seg, d);
    ListedStands(before, id, d, ByPath(entries));
    OneListing(Sys(table.View(), Some(id)), d, tree, Kept(f, seg));
    table.PutListing(id, d, entries);
  }

  /** What one committed listing does to the walk: the others stay pending, and one directory less is left. */
  lemma OneListing(s: Sys, dir: Path, t: Tree, keep: Keep)
    requires WellFormed(t) && Inv(s, t, keep) && s.live.Some? && Pending(s.store, s.live.value, dir)
    ensures var st' := Listed(s.store, s.live.value, dir, Children(t, keep, dir));
            && Inv(s.(store := st'), t, keep)
            && (forall p | p != dir && Pending(s.store, s.live.value, p) :: Pending(st', s.live.value, p))
            && (forall p | p in s.store.manifest :: p in st'.manifest)
            && Unlisted(st', s.live.value, t, keep) < Unlisted(s.store, s.live.value, t, keep)
  {
    ListStepKeeps(s, dir, t, keep);
    ListingProgress(s.store, s.live.value, dir, t, keep);
    ChildrenAreNew(s.store, s.live.value, dir, t, keep);
    ListedRows(s.store.manifest, s.live.value, dir, Children(t, keep, dir));
    forall p | p != dir && Pending(s.store, s.live.value, p)
      ensures Pending(Listed(s.store, s.live.value, dir, Children(t, keep, dir)), s.live.value, p)
    {
      assert InScan(s.store, s.live.value, p);
      assert p in Children(t, keep, dir) ==> IsChild(t, keep, dir, p);
    }
  }
}
