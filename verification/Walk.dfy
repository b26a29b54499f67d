/** The resumable walk of a publisher's tree into the manifest (engine/scan.go over store/manifest.go).
    The frontier is the manifest itself: directories of the scan that are not listed yet. */
module Walk {
  import opened Base
  import opened Filter
  import opened Sums

  // ---------------------------------------------------------------- the remote tree

  /** A path below the pair's root, as the directory it lies in and its name there. */
  datatype Path = Root | Sub(dir: Path, name: Segment)

  datatype Node = Node(isDir: bool, size: nat, mtime: int)
  type Tree = map<Path, Node>

  ghost predicate WellFormed(t: Tree) {
    && Root in t && t[Root].isDir
    && forall p: Path {:trigger p.dir} | p in t && p.Sub? :: p.dir in t && t[p.dir].isDir
  }

  /** Which entries the walk takes: the files the filter allows and the directories it descends into. */
  type Keep = (Path, Node) -> bool

  ghost predicate IsChild(t: Tree, keep: Keep, dir: Path, p: Path) {
    p in t && p.Sub? && p.dir == dir && keep(p, t[p])
  }

  /** What one listing of a directory brings. */
  ghost function Children(t: Tree, keep: Keep, dir: Path): map<Path, Node> {
    map p | p in t && IsChild(t, keep, dir, p) :: t[p]
  }

  /** A path the walk should find: kept, under directories that are kept. */
  ghost predicate Reachable(t: Tree, keep: Keep, p: Path)
    decreases p
  {
    p in t && (p.Root? || (keep(p, t[p]) && p.dir in t && t[p.dir].isDir && Reachable(t, keep, p.dir)))
  }

  // ---------------------------------------------------------------- the tables

  datatype ScanState = Running | Interrupted | Done | Failed
  datatype Scan = Scan(state: ScanState, dirs: nat, files: nat, bytes: int)
  datatype Row = Row(isDir: bool, size: nat, mtime: int, listed: bool, scan: nat)
  datatype Store = Store(manifest: map<Path, Row>, scans: map<nat, Scan>)

  predicate Unfinished(sc: Scan) { sc.state.Running? || sc.state.Interrupted? }

  predicate Pending(st: Store, id: nat, p: Path) {
    p in st.manifest && st.manifest[p].scan == id && st.manifest[p].isDir && !st.manifest[p].listed
  }

  function RowOf(n: Node, id: nat): Row { Row(n.isDir, n.size, n.mtime, false, id) }

  function Superseded(scans: map<nat, Scan>): map<nat, Scan> {
    map k | k in scans :: if Unfinished(scans[k]) then scans[k].(state := Failed) else scans[k]
  }

  /** BeginScan without a walk to resume: everything unfinished is superseded and the root seeds the frontier. */
  function Begun(st: Store, id: nat): Store {
    var root := if Root in st.manifest then st.manifest[Root].(listed := false, scan := id) else Row(true, 0, 0, false, id);
    Store(st.manifest[Root := root], Superseded(st.scans)[id := Scan(Running, 0, 0, 0)])
  }

  ghost function FileSizes(entries: map<Path, Node>): map<Path, int> {
    map p | p in entries && !entries[p].isDir :: entries[p].size
  }

  function Written(m: map<Path, Row>, id: nat, entries: map<Path, Node>): map<Path, Row> {
    map p | p in m.Keys + entries.Keys :: if p in entries then RowOf(entries[p], id) else m[p]
  }

  function MarkedListed(m: map<Path, Row>, id: nat, dir: Path): map<Path, Row> {
    if dir in m then m[dir := m[dir].(listed := true, scan := id)] else m
  }

  function Grown(sc: Scan, files: nat, bytes: int): Scan {
    sc.(dirs := sc.dirs + 1, files := sc.files + files, bytes := sc.bytes + bytes)
  }

  /** PutListing: the children, the mark on the directory and the counters, in one transaction. */
  ghost function Listed(st: Store, id: nat, dir: Path, entries: map<Path, Node>): Store
    requires id in st.scans
  {
    Store(MarkedListed(Written(st.manifest, id, entries), id, dir),
          st.scans[id := Grown(st.scans[id], |FileSizes(entries)|, Sum(FileSizes(entries)))])
  }

  /** FinishScan: only a completed walk sweeps. */
  function Finished(st: Store, id: nat, state: ScanState): Store
    requires id in st.scans
  {
    Store(if state.Done? then (map p | p in st.manifest && st.manifest[p].scan == id :: st.manifest[p]) else st.manifest,
          st.scans[id := st.scans[id].(state := state)])
  }

  // ---------------------------------------------------------------- the walk as a machine

  /** live is the scan a process is walking; None between processes. */
  datatype Sys = Sys(store: Store, live: Option<nat>)

  datatype Step =
    | Begin(id: nat)
    | Resume(id: nat)
    | List(dir: Path, entries: map<Path, Node>)
    | Stop                                     // interrupted, or a directory that would not list
    | Complete                                 // the frontier is drained
    | Die

  ghost predicate Drained(st: Store, id: nat) { forall p :: !Pending(st, id, p) }

  ghost predicate Enabled(s: Sys, step: Step) {
    match step
    case Begin(id) => s.live.None? && forall k | k in s.store.scans :: k < id
    case Resume(id) => s.live.None? && id in s.store.scans && Unfinished(s.store.scans[id])
                       && forall k | k in s.store.scans && Unfinished(s.store.scans[k]) :: k <= id
    case List(dir, _) => s.live.Some? && s.live.value in s.store.scans && Pending(s.store, s.live.value, dir)
    case Stop => s.live.Some? && s.live.value in s.store.scans
    case Complete => s.live.Some? && s.live.value in s.store.scans && Drained(s.store, s.live.value)
    case Die => s.live.Some?
  }

  /** A walk that found no file at all is an error rather than a deletion. */
  function Verdict(sc: Scan): ScanState { if sc.files == 0 then Failed else Done }

  ghost function Apply(s: Sys, step: Step): Sys
    requires Enabled(s, step)
  {
    match step
    case Begin(id) => Sys(Begun(s.store, id), Some(id))
    case Resume(id) => s.(live := Some(id))
    case List(dir, entries) => s.(store := Listed(s.store, s.live.value, dir, entries))
    case Stop => Sys(Finished(s.store, s.live.value, Interrupted), None)
    case Complete => Sys(Finished(s.store, s.live.value, Verdict(s.store.scans[s.live.value])), None)
    case Die => s.(live := None)
  }

  // ---------------------------------------------------------------- what the steps keep, on a fixed tree

  ghost predicate InScan(st: Store, id: nat, p: Path) { p in st.manifest && st.manifest[p].scan == id }

  ghost function FilesOf(st: Store, id: nat): map<Path, int> {
    map p | p in st.manifest && InScan(st, id, p) && !st.manifest[p].isDir :: st.manifest[p].size
  }

  ghost function ListedOf(st: Store, id: nat): set<Path> {
    set p | p in st.manifest && InScan(st, id, p) && st.manifest[p].isDir && st.manifest[p].listed
  }

  ghost predicate RowsTrue(st: Store, id: nat, t: Tree, keep: Keep) {
    && InScan(st, id, Root) && st.manifest[Root].isDir
    && forall p | InScan(st, id, p) ::
         && Reachable(t, keep, p) && st.manifest[p].isDir == t[p].isDir
         && (p.Sub? ==> st.manifest[p].size == t[p].size && st.manifest[p].mtime == t[p].mtime)
  }

  /** Everything found was found by listing its directory, and a listed directory's children are all there. */
  ghost predicate Closed(st: Store, id: nat, t: Tree, keep: Keep) {
    && (forall p: Path {:trigger p.dir} | p.Sub? && InScan(st, id, p) :: p.dir in ListedOf(st, id))
    && (forall d, p | d in ListedOf(st, id) && IsChild(t, keep, d, p) :: InScan(st, id, p))
  }

  ghost predicate Counted(st: Store, id: nat) {
    id in st.scans && var sc := st.scans[id];
    sc.dirs == |ListedOf(st, id)| && sc.files == |FilesOf(st, id)| && sc.bytes == Sum(FilesOf(st, id))
  }

  ghost predicate ScanInv(st: Store, id: nat, t: Tree, keep: Keep) {
    RowsTrue(st, id, t, keep) && Closed(st, id, t, keep) && Counted(st, id)
  }

  /** Every row belongs to a recorded scan, at most one scan is unfinished, and a process walks only that one. */
  ghost predicate Tables(s: Sys) {
    && (forall p | p in s.store.manifest :: s.store.manifest[p].scan in s.store.scans)
    && (Root in s.store.manifest ==> s.store.manifest[Root].isDir)
    && (forall a, b | a in s.store.scans && b in s.store.scans && Unfinished(s.store.scans[a]) && Unfinished(s.store.scans[b]) :: a == b)
    && (s.live.Some? ==> s.live.value in s.store.scans && Unfinished(s.store.scans[s.live.value]))
  }

  ghost predicate Inv(s: Sys, t: Tree, keep: Keep) {
    Tables(s) && forall id | id in s.store.scans && Unfinished(s.store.scans[id]) :: ScanInv(s.store, id, t, keep)
  }

  lemma BeginKeeps(s: Sys, id: nat, t: Tree, keep: Keep)
    requires WellFormed(t) && Inv(s, t, keep) && s.live.None? && forall k | k in s.store.scans :: k < id
    ensures Inv(Sys(Begun(s.store, id), Some(id)), t, keep)
  {
    var st := Begun(s.store, id);
    assert forall p | InScan(st, id, p) :: p.Root?;
    assert ListedOf(st, id) == {} && FilesOf(st, id) == map[];
  }

  /** The manifest after a listing, path by path. */
  lemma ListedRows(m: map<Path, Row>, id: nat, dir: Path, entries: map<Path, Node>)
    requires dir in m && dir !in entries
    ensures var m' := MarkedListed(Written(m, id, entries), id, dir);
            && (forall p :: p in m' <==> p in m || p in entries)
            && m'[dir] == m[dir].(listed := true, scan := id)
            && (forall p | p in entries :: m'[p] == RowOf(entries[p], id))
            && (forall p | p in m && p !in entries && p != dir :: m'[p] == m[p])
  {}

  /** The children of a directory that is not listed yet are not in the scan yet. */
  lemma ChildrenAreNew(st: Store, id: nat, dir: Path, t: Tree, keep: Keep)
    requires Closed(st, id, t, keep) && Pending(st, id, dir)
    ensures dir !in Children(t, keep, dir)
    ensures forall p | IsChild(t, keep, dir, p) :: !InScan(st, id, p)
  {
    forall p | IsChild(t, keep, dir, p) ensures !InScan(st, id, p) {
      assert dir !in ListedOf(st, id);
    }
  }

  lemma ListedAdds(st: Store, id: nat, dir: Path, t: Tree, keep: Keep, p: Path)
    requires Closed(st, id, t, keep) && Pending(st, id, dir) && id in st.scans
    ensures var st' := Listed(st, id, dir, Children(t, keep, dir));
            InScan(st', id, p) <==> InScan(st, id, p) || IsChild(t, keep, dir, p)
  {
    ChildrenAreNew(st, id, dir, t, keep);
    ListedRows(st.manifest, id, dir, Children(t, keep, dir));
    assert p in Children(t, keep, dir) <==> IsChild(t, keep, dir, p);
  }

  lemma ListedMarks(st: Store, id: nat, dir: Path, t: Tree, keep: Keep, p: Path)
    requires Closed(st, id, t, keep) && Pending(st, id, dir) && id in st.scans
    ensures var st' := Listed(st, id, dir, Children(t, keep, dir));
            p in ListedOf(st', id) <==> p in ListedOf(st, id) || p == dir
  {
    ChildrenAreNew(st, id, dir, t, keep);
    ListedRows(st.manifest, id, dir, Children(t, keep, dir));
    assert p in Children(t, keep, dir) <==> IsChild(t, keep, dir, p);
  }

  lemma ListedInScan(st: Store, id: nat, dir: Path, t: Tree, keep: Keep)
    requires Closed(st, id, t, keep) && Pending(st, id, dir) && id in st.scans
    ensures var st' := Listed(st, id, dir, Children(t, keep, dir));
            && (forall p :: InScan(st', id, p) <==> InScan(st, id, p) || IsChild(t, keep, dir, p))
            && ListedOf(st', id) == ListedOf(st, id) + {dir}
  {
    var st' := Listed(st, id, dir, Children(t, keep, dir));
    forall p ensures InScan(st', id, p) <==> InScan(st, id, p) || IsChild(t, keep, dir, p) {
      ListedAdds(st, id, dir, t, keep, p);
    }
    forall p ensures p in ListedOf(st', id) <==> p in ListedOf(st, id) || p == dir {
      ListedMarks(st, id, dir, t, keep, p);
    }
  }

  lemma ListKeepsRows(st: Store, id: nat, dir: Path, t: Tree, keep: Keep)
    requires WellFormed(t) && RowsTrue(st, id, t, keep) && Closed(st, id, t, keep) && Pending(st, id, dir) && id in st.scans
    ensures RowsTrue(Listed(st, id, dir, Children(t, keep, dir)), id, t, keep)
  {
    var st' := Listed(st, id, dir, Children(t, keep, dir));
    ChildrenAreNew(st, id, dir, t, keep);
    ListedRows(st.manifest, id, dir, Children(t, keep, dir));
    ListedInScan(st, id, dir, t, keep);
    forall p | InScan(st', id, p)
      ensures Reachable(t, keep, p) && st'.manifest[p].isDir == t[p].isDir
              && (p.Sub? ==> st'.manifest[p].size == t[p].size && st'.manifest[p].mtime == t[p].mtime)
    {
      if IsChild(t, keep, dir, p) {
        assert InScan(st, id, dir);
      } else {
        assert InScan(st, id, p);
      }
    }
  }

  lemma ListAddsFiles(st: Store, id: nat, dir: Path, t: Tree, keep: Keep)
    requires Closed(st, id, t, keep) && Pending(st, id, dir) && id in st.scans
    ensures var entries := Children(t, keep, dir);
            && (forall p | p in FileSizes(entries) :: p !in FilesOf(st, id))
            && FilesOf(Listed(st, id, dir, entries), id) == FilesOf(st, id) + FileSizes(entries)
  {
    var entries := Children(t, keep, dir);
    var st' := Listed(st, id, dir, entries);
    ChildrenAreNew(st, id, dir, t, keep);
    ListedRows(st.manifest, id, dir, entries);
    forall p | p in entries ensures !InScan(st, id, p) { assert IsChild(t, keep, dir, p); }
    FilesMerge(st, st', id, entries);
  }

  lemma FilesMerge(st: Store, st': Store, id: nat, entries: map<Path, Node>)
    requires forall p :: p in st'.manifest <==> p in st.manifest || p in entries
    requires forall p | p in entries :: !InScan(st, id, p) && st'.manifest[p] == RowOf(entries[p], id)
    requires forall p | p in st.manifest && p !in entries ::
               st'.manifest[p] == st.manifest[p] || (st'.manifest[p].isDir && st.manifest[p].isDir)
    ensures FilesOf(st', id) == FilesOf(st, id) + FileSizes(entries)
  {
    var had, added, has := FilesOf(st, id), FileSizes(entries), FilesOf(st', id);
    forall p ensures p in has <==> p in had || p in added {}
    forall p | p in has ensures has[p] == (had + added)[p] {}
  }

  lemma ListKeepsCounters(st: Store, id: nat, dir: Path, t: Tree, keep: Keep)
    requires Closed(st, id, t, keep) && Counted(st, id) && Pending(st, id, dir)
    ensures Counted(Listed(st, id, dir, Children(t, keep, dir)), id)
  {
    ListedInScan(st, id, dir, t, keep);
    assert dir !in ListedOf(st, id);
    ListAddsFiles(st, id, dir, t, keep);
    SizeDisjoint(FilesOf(st, id), FileSizes(Children(t, keep, dir)));
    SumDisjoint(FilesOf(st, id), FileSizes(Children(t, keep, dir)));
  }

  lemma ListKeeps(st: Store, id: nat, dir: Path, t: Tree, keep: Keep)
    requires WellFormed(t) && ScanInv(st, id, t, keep) && Pending(st, id, dir)
    ensures ScanInv(Listed(st, id, dir, Children(t, keep, dir)), id, t, keep)
  {
    ListKeepsRows(st, id, dir, t, keep);
    ListKeepsCounters(st, id, dir, t, keep);
    ListedInScan(st, id, dir, t, keep);
  }

  /** A step of a walk over this tree: every listing brings the directory's kept children. */
  ghost predicate Faithful(step: Step, t: Tree, keep: Keep) {
    step.List? ==> step.entries == Children(t, keep, step.dir)
  }

  lemma RootStays(st: Store, id: nat, dir: Path, t: Tree, keep: Keep)
    requires Pending(st, id, dir) && id in st.scans && (Root in st.manifest ==> st.manifest[Root].isDir)
    ensures var m' := Listed(st, id, dir, Children(t, keep, dir)).manifest; Root in m' ==> m'[Root].isDir
  {
    assert Root !in Children(t, keep, dir);
  }

  /** The tables stay in order when no scan changes its state and every row belongs to one. */
  lemma TablesCarry(s: Sys, s': Sys)
    requires Tables(s) && s'.live == s.live
    requires (forall p | p in s'.store.manifest :: s'.store.manifest[p].scan in s.store.scans)
    requires Root in s'.store.manifest ==> s'.store.manifest[Root].isDir
    requires (forall k :: k in s'.store.scans <==> k in s.store.scans) && forall k | k in s.store.scans :: s'.store.scans[k].state == s.store.scans[k].state
    ensures Tables(s')
  {}

  lemma ListKeepsTables(s: Sys, dir: Path, t: Tree, keep: Keep)
    requires WellFormed(t) && Inv(s, t, keep) && s.live.Some? && Pending(s.store, s.live.value, dir)
    ensures Tables(s.(store := Listed(s.store, s.live.value, dir, Children(t, keep, dir))))
  {
    ListScans(s.store, s.live.value, dir, t, keep);
    RootStays(s.store, s.live.value, dir, t, keep);
    TablesCarry(s, s.(store := Listed(s.store, s.live.value, dir, Children(t, keep, dir))));
  }

  lemma ListStepKeeps(s: Sys, dir: Path, t: Tree, keep: Keep)
    requires WellFormed(t) && Inv(s, t, keep) && s.live.Some? && Pending(s.store, s.live.value, dir)
    ensures Inv(s.(store := Listed(s.store, s.live.value, dir, Children(t, keep, dir))), t, keep)
  {
    var live := s.live.value;
    var s' := s.(store := Listed(s.store, live, dir, Children(t, keep, dir)));
    ListKeeps(s.store, live, dir, t, keep);
    ListKeepsTables(s, dir, t, keep);
    ListScans(s.store, live, dir, t, keep);
    forall id | id in s'.store.scans && Unfinished(s'.store.scans[id]) ensures id == live {
      assert Unfinished(s.store.scans[id]);
    }
  }

  lemma ListScans(st: Store, id: nat, dir: Path, t: Tree, keep: Keep)
    requires Closed(st, id, t, keep) && Pending(st, id, dir) && id in st.scans
    requires forall p | p in st.manifest :: st.manifest[p].scan in st.scans
    ensures var st' := Listed(st, id, dir, Children(t, keep, dir));
            && (forall p | p in st'.manifest :: st'.manifest[p].scan in st.scans)
            && (forall k :: k in st'.scans <==> k in st.scans) && (forall k | k in st.scans :: st'.scans[k].state == st.scans[k].state)
  {
    var st' := Listed(st, id, dir, Children(t, keep, dir));
    ChildrenAreNew(st, id, dir, t, keep);
    forall p | p in st'.manifest ensures st'.manifest[p].scan in st.scans {
      RowInScan(st.manifest, id, dir, Children(t, keep, dir), p);
    }
  }

  /** A row after a listing belongs to the scan that listed, or is as it was. */
  lemma RowInScan(m: map<Path, Row>, id: nat, dir: Path, entries: map<Path, Node>, p: Path)
    requires dir in m && dir !in entries && p in MarkedListed(Written(m, id, entries), id, dir)
    ensures var m' := MarkedListed(Written(m, id, entries), id, dir); m'[p].scan == id || (p in m && m'[p] == m[p])
  {
    ListedRows(m, id, dir, entries);
  }

  lemma FinishKeeps(s: Sys, state: ScanState, t: Tree, keep: Keep)
    requires Inv(s, t, keep) && s.live.Some? && !state.Running?
    ensures Inv(Sys(Finished(s.store, s.live.value, state), None), t, keep)
  {
    StopKeeps(s.store, s.live.value, t, keep);
  }

  lemma StepKeeps(s: Sys, step: Step, t: Tree, keep: Keep)
    requires WellFormed(t) && Inv(s, t, keep) && Enabled(s, step) && Faithful(step, t, keep)
    ensures Inv(Apply(s, step), t, keep)
  {
    match step
    case Begin(id) => BeginKeeps(s, id, t, keep);
    case Resume(_) =>
    case List(dir, _) => ListStepKeeps(s, dir, t, keep);
    case Stop => FinishKeeps(s, Interrupted, t, keep);
    case Complete => FinishKeeps(s, Verdict(s.store.scans[s.live.value]), t, keep);
    case Die =>
  }

  lemma StopKeeps(st: Store, id: nat, t: Tree, keep: Keep)
    requires ScanInv(st, id, t, keep)
    ensures ScanInv(Finished(st, id, Interrupted), id, t, keep)
  {
    var st' := Finished(st, id, Interrupted);
    assert ListedOf(st', id) == ListedOf(st, id) && FilesOf(st', id) == FilesOf(st, id);
  }

  // ---------------------------------------------------------------- completeness

  lemma {:induction false} DrainedFindsAll(st: Store, id: nat, t: Tree, keep: Keep, p: Path)
    requires ScanInv(st, id, t, keep) && Drained(st, id) && Reachable(t, keep, p)
    ensures InScan(st, id, p)
    decreases p
  {
    if p.Sub? {
      DrainedFindsAll(st, id, t, keep, p.dir);
      assert !Pending(st, id, p.dir);
      assert p.dir in ListedOf(st, id) && IsChild(t, keep, p.dir, p);
    }
  }

  /** The manifest is exactly what the walk should find on this tree, with the counters of the scan equal to its rows. */
  ghost predicate HoldsExactly(st: Store, id: nat, t: Tree, keep: Keep) {
    && (forall p :: p in st.manifest <==> Reachable(t, keep, p))
    && (forall p | p in st.manifest :: st.manifest[p].isDir == t[p].isDir && st.manifest[p].scan == id)
    && (forall p | p in st.manifest && p.Sub? :: st.manifest[p].size == t[p].size && st.manifest[p].mtime == t[p].mtime)
    && id in st.scans && var sc := st.scans[id];
       var dirs := set p | p in st.manifest && st.manifest[p].isDir;
       var files := map p | p in st.manifest && !st.manifest[p].isDir :: st.manifest[p].size as int;
       sc.dirs == |dirs| && sc.files == |files| && sc.bytes == Sum(files)
  }

  lemma CompletedScan(st: Store, id: nat, t: Tree, keep: Keep)
    requires ScanInv(st, id, t, keep) && Drained(st, id)
    ensures HoldsExactly(Finished(st, id, Done), id, t, keep)
  {
    var st' := Finished(st, id, Done);
    forall p ensures p in st'.manifest <==> Reachable(t, keep, p) {
      if Reachable(t, keep, p) { DrainedFindsAll(st, id, t, keep, p); }
      if p in st'.manifest { assert InScan(st, id, p); }
    }
    assert (set p | p in st'.manifest && st'.manifest[p].isDir) == ListedOf(st, id) by {
      forall p | p in st'.manifest && st'.manifest[p].isDir ensures p in ListedOf(st, id) { assert !Pending(st, id, p); }
    }
    assert (map p | p in st'.manifest && !st'.manifest[p].isDir :: st'.manifest[p].size as int) == FilesOf(st, id);
  }

  datatype Run = Run(states: seq<Sys>, steps: seq<Step>)

  ghost predicate IsRun(r: Run) {
    && |r.states| == |r.steps| + 1
    && forall i | 0 <= i < |r.steps| :: Enabled(r.states[i], r.steps[i]) && r.states[i + 1] == Apply(r.states[i], r.steps[i])
  }

  /** No walk is under way; whatever earlier walks of whatever tree left in the manifest stays. */
  ghost predicate Idle(s: Sys) {
    && s.live.None?
    && (forall p | p in s.store.manifest :: s.store.manifest[p].scan in s.store.scans)
    && (Root in s.store.manifest ==> s.store.manifest[Root].isDir)
    && (forall k | k in s.store.scans :: !Unfinished(s.store.scans[k]))
  }

  lemma {:induction false} RunKeeps(r: Run, t: Tree, keep: Keep, n: nat)
    requires WellFormed(t) && IsRun(r) && Idle(r.states[0]) && n <= |r.steps|
    requires forall i | 0 <= i < |r.steps| :: Faithful(r.steps[i], t, keep)
    ensures Inv(r.states[n], t, keep)
  {
    if n > 0 {
      RunKeeps(r, t, keep, n - 1);
      StepKeeps(r.states[n - 1], r.steps[n - 1], t, keep);
    }
  }

  /** Walk completeness: whatever the order of the listings and whatever interruptions, deaths and resumes lie in
      between, a walk that ends done leaves exactly the reachable paths. */
  lemma WalkCompleteness(r: Run, t: Tree, keep: Keep, n: nat)
    requires WellFormed(t) && IsRun(r) && Idle(r.states[0]) && n < |r.steps|
    requires forall i | 0 <= i < |r.steps| :: Faithful(r.steps[i], t, keep)
    requires r.steps[n].Complete? && Verdict(r.states[n].store.scans[r.states[n].live.value]).Done?
    ensures HoldsExactly(r.states[n + 1].store, r.states[n].live.value, t, keep)
  {
    RunKeeps(r, t, keep, n);
    CompletedScan(r.states[n].store, r.states[n].live.value, t, keep);
  }

  ghost function Unlisted(st: Store, id: nat, t: Tree, keep: Keep): set<Path> {
    set d | d in t && t[d].isDir && Reachable(t, keep, d) && d !in ListedOf(st, id)
  }

  /** Each committed listing leaves strictly fewer reachable directories unlisted, so a walk that is not stopped ends. */
  lemma ListingProgress(st: Store, id: nat, dir: Path, t: Tree, keep: Keep)
    requires WellFormed(t) && ScanInv(st, id, t, keep) && Pending(st, id, dir)
    ensures var st' := Listed(st, id, dir, Children(t, keep, dir));
            Unlisted(st', id, t, keep) == Unlisted(st, id, t, keep) - {dir} && dir in Unlisted(st, id, t, keep)
  {
    ListedInScan(st, id, dir, t, keep);
    assert InScan(st, id, dir);
  }

  // ---------------------------------------------------------------- sweep safety, on any tree that changes as it likes

  /** A path leaves the manifest only in the finish of a walk that drained its frontier and counted a file. */
  lemma StepSweepsOnlyWhenDone(s: Sys, step: Step, p: Path)
    requires Enabled(s, step) && p in s.store.manifest && p !in Apply(s, step).store.manifest
    ensures step.Complete? && Drained(s.store, s.live.value) && 0 < s.store.scans[s.live.value].files
    ensures s.store.manifest[p].scan != s.live.value
  {}

  lemma {:induction false} FirstLoss(states: seq<Sys>, p: Path, i: nat, j: nat) returns (m: nat)
    requires i <= j < |states| && p in states[i].store.manifest && p !in states[j].store.manifest
    ensures i <= m < j && p in states[m].store.manifest && p !in states[m + 1].store.manifest
    decreases j - i
  {
    if p in states[i + 1].store.manifest {
      m := FirstLoss(states, p, i + 1, j);
    } else {
      m := i;
    }
  }

  /** Over every run a path that is gone went in the finish of a walk that drained its frontier, counted a file and had
      not seen the path. */
  lemma SweepSafety(r: Run, p: Path, i: nat, j: nat) returns (m: nat)
    requires IsRun(r) && i <= j <= |r.steps|
    requires p in r.states[i].store.manifest && p !in r.states[j].store.manifest
    ensures i <= m < j && r.steps[m].Complete? && r.states[m].live.Some?
    ensures var s := r.states[m]; Drained(s.store, s.live.value) && s.live.value in s.store.scans && 0 < s.store.scans[s.live.value].files
    ensures p in r.states[m].store.manifest && r.states[m].store.manifest[p].scan != r.states[m].live.value
  {
    m := FirstLoss(r.states, p, i, j);
    StepSweepsOnlyWhenDone(r.states[m], r.steps[m], p);
  }

  // ---------------------------------------------------------------- the filter as the walk uses it

  /** The segments of a path, as the filter reads it. */
  function Segs(p: Path): Rel {
    if p.Root? then [] else Segs(p.dir) + [p.name]
  }

  ghost function Kept(f: Filter, seg: SegMatch): Keep {
    (p, n: Node) => if n.isDir then f.AllowsDir(seg, Segs(p)) else f.Allows(seg, Segs(p))
  }

  /** No directory above is refused by its name. */
  ghost predicate NoneRefusedAbove(f: Filter, rel: Rel) { forall n | 1 <= n < |rel| :: !f.Refused(rel[..n]) }

  lemma SegsOf(p: Path)
    requires p.Sub?
    ensures Segs(p) == Segs(p.dir) + [p.name] && Segs(p)[..|Segs(p.dir)|] == Segs(p.dir)
  {}

  /** Excludes reach down: what excludes a directory excludes everything below it. */
  lemma ExcludedBelow(f: Filter, seg: SegMatch, rel: Rel, n: nat)
    requires n <= |rel| && Selected(seg, f.excludes, rel[..n])
    ensures Selected(seg, f.excludes, rel)
  {
    var i :| 0 <= i < |f.excludes| && Covers(seg, f.excludes[i], rel[..n]);
    CoversBelow(seg, f.excludes[i], rel, n);
  }

  /** The refusals above a path are those above its directory, and the directory's own. */
  lemma RefusedAboveStep(f: Filter, p: Path)
    requires p.Sub?
    ensures NoneRefusedAbove(f, Segs(p)) <==> NoneRefusedAbove(f, Segs(p.dir)) && (p.dir.Root? || !f.Refused(Segs(p.dir)))
  {
    var rel, above := Segs(p), Segs(p.dir);
    SegsOf(p);
    assert forall n | 1 <= n <= |above| :: rel[..n] == above[..n];
    assert above[..|above|] == above;
    assert p.dir.Sub? ==> 1 <= |above|;
  }

  /** The directories the walk reaches: not excluded, and no name on the way down refused. */
  lemma {:induction false} DirReachedExactly(t: Tree, f: Filter, seg: SegMatch, d: Path)
    requires WellFormed(t) && d in t && t[d].isDir
    ensures Reachable(t, Kept(f, seg), d) <==>
              d.Root? || (!Selected(seg, f.excludes, Segs(d)) && !f.Refused(Segs(d)) && NoneRefusedAbove(f, Segs(d)))
    decreases d
  {
    if d.Sub? {
      DirReachedExactly(t, f, seg, d.dir);
      SegsOf(d);
      RefusedAboveStep(f, d);
      if d.dir.Sub? && Selected(seg, f.excludes, Segs(d.dir)) { ExcludedBelow(f, seg, Segs(d), |Segs(d.dir)|); }
    }
  }

  /** The pruned walk, exactly and for every filter: it finds a file if and only if the filter allows it and no directory
      above it has a name that a jcc pair refuses. */
  lemma PrunedWalkFindsExactly(t: Tree, f: Filter, seg: SegMatch, p: Path)
    requires WellFormed(t) && p in t && !t[p].isDir
    ensures Reachable(t, Kept(f, seg), p) <==>
              f.Allows(seg, Segs(p)) && forall n | 1 <= n < |Segs(p)| :: !f.Refused(Segs(p)[..n])
  {
    DirReachedExactly(t, f, seg, p.dir);
    SegsOf(p);
    RefusedAboveStep(f, p);
    if p.dir.Sub? && Selected(seg, f.excludes, Segs(p.dir)) { ExcludedBelow(f, seg, Segs(p), |Segs(p.dir)|); }
  }

  /** A raw pair refuses no name: there the pruned walk finds exactly the files the filter allows on the whole tree. */
  lemma PrunedWalkFindsAllowedFiles(t: Tree, f: Filter, seg: SegMatch, p: Path)
    requires WellFormed(t) && !f.jcc && p in t && !t[p].isDir
    ensures Reachable(t, Kept(f, seg), p) <==> f.Allows(seg, Segs(p))
  {
    PrunedWalkFindsExactly(t, f, seg, p);
  }
}
