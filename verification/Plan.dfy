/** What a sync would do: the last walk joined with local truth, and the queue it becomes (engine/diff.go, store/diff.go). */
module Plan {
  import opened Base
  import opened Sums
  import opened Jobs
  import opened Machine
  import JT = JobTable
  import R = Resume

  /** The files of the last completed walk. */
  type Manifest = map<Path, Version>
  type Truth = map<Path, FileRow>

  /** Settings of a pair: which paths it covers, how far two timestamps may be apart, and the database behind the gate of a
      jcc pair, which a raw pair has none of. */
  datatype Scope = Scope(allows: Path -> bool, tolerance: nat, gated: Option<Path>)

  predicate Changed(m: Manifest, f: Truth, s: Scope, p: Path) {
    p in m && (p !in f || f[p].size != m[p].size || !Within(f[p].mtime, m[p].mtime, s.tolerance))
  }

  predicate Fetches(m: Manifest, f: Truth, s: Scope, p: Path) { Changed(m, f, s, p) && s.allows(p) }

  /** The gated database is counted and never queued or deleted. */
  predicate Queues(m: Manifest, f: Truth, s: Scope, p: Path) { Fetches(m, f, s, p) && s.gated != Some(p) }

  predicate IsAdd(m: Manifest, f: Truth, s: Scope, p: Path) { Fetches(m, f, s, p) && p !in f }
  predicate IsReplace(m: Manifest, f: Truth, s: Scope, p: Path) { Fetches(m, f, s, p) && p in f }
  predicate IsDelete(m: Manifest, f: Truth, s: Scope, p: Path) { p in f && p !in m && s.allows(p) && s.gated != Some(p) }

  /** The files to fetch, which are new here or replace one that is, with their sizes on the publisher; the files to delete,
      with their sizes here; and the files to queue. */
  function Adds(m: Manifest, f: Truth, s: Scope): map<Path, int> { map p | p in m && IsAdd(m, f, s, p) :: m[p].size }
  function Replaces(m: Manifest, f: Truth, s: Scope): map<Path, int> { map p | p in m && IsReplace(m, f, s, p) :: m[p].size }
  function Deletes(m: Manifest, f: Truth, s: Scope): map<Path, int> { map p | p in f && IsDelete(m, f, s, p) :: f[p].size }
  function Transfers(m: Manifest, f: Truth, s: Scope): set<Path> { set p | p in m && Queues(m, f, s, p) }

  datatype Total = Total(files: nat, bytes: int)
  datatype Counts = Counts(add: Total, replace: Total, vanished: Total)

  ghost function TotalOf(sizes: map<Path, int>): Total { Total(|sizes|, Sum(sizes)) }

  ghost function CountsOf(m: Manifest, f: Truth, s: Scope): Counts {
    Counts(TotalOf(Adds(m, f, s)), TotalOf(Replaces(m, f, s)), TotalOf(Deletes(m, f, s)))
  }

  /** The mirror: every allowed file of the walk is held here with its size and a time within the tolerance, either way, and
      what is held of the allowed files the walk found too, but for the gated database. */
  predicate InStep(m: Manifest, f: Truth, s: Scope) {
    && (forall p | p in m && s.allows(p) ::
          p in f && f[p].size == m[p].size && f[p].mtime - m[p].mtime <= s.tolerance && m[p].mtime - f[p].mtime <= s.tolerance)
    && (forall p | p in f && s.allows(p) && s.gated != Some(p) :: p in m)
  }

  /** A plan wants nothing exactly when the mirror is in step. */
  lemma WantsNothingExactly(m: Manifest, f: Truth, s: Scope)
    ensures CountsOf(m, f, s) == NONE <==> InStep(m, f, s)
  {
    var a, b, c := Adds(m, f, s), Replaces(m, f, s), Deletes(m, f, s);
    if InStep(m, f, s) {
      assert a == map[] && b == map[] && c == map[];
    } else if CountsOf(m, f, s) == NONE {
      assert a == map[] && b == map[] && c == map[];
      forall p | p in m && s.allows(p) ensures p in f && !Changed(m, f, s, p) { assert p !in a && p !in b; }
      forall p | p in f && s.allows(p) && s.gated != Some(p) ensures p in m { assert p !in c; }
    }
  }

  const NONE: Counts := Counts(Total(0, 0), Total(0, 0), Total(0, 0))

  function Plus(t: Total, size: nat): Total { Total(t.files + 1, t.bytes + size) }

  lemma OneMoreFile(sizes: map<Path, int>, p: Path, size: nat)
    requires p !in sizes
    ensures TotalOf(sizes[p := size]) == Plus(TotalOf(sizes), size)
  {
    SumUpdate(sizes, p, size);
    assert sizes[p := size].Keys == sizes.Keys + {p};
  }

  /** The part of a map whose keys have been seen. */
  ghost function Seen(sizes: map<Path, int>, left: set<Path>): map<Path, int> { map p | p in sizes && p !in left :: sizes[p] }

  lemma SeeNext(sizes: map<Path, int>, left: set<Path>, p: Path)
    requires p in left && (p in sizes ==> 0 <= sizes[p])
    ensures TotalOf(Seen(sizes, left - {p})) == if p in sizes then Plus(TotalOf(Seen(sizes, left)), sizes[p]) else TotalOf(Seen(sizes, left))
  {
    if p in sizes {
      assert Seen(sizes, left - {p}) == Seen(sizes, left)[p := sizes[p]];
      OneMoreFile(Seen(sizes, left), p, sizes[p]);
    } else {
      assert Seen(sizes, left - {p}) == Seen(sizes, left);
    }
  }

  /** The same with size and time written out. */
  lemma TransfersWritten(m: Manifest, f: Truth, s: Scope)
    ensures Adds(m, f, s) == map p | p in m && s.allows(p) && p !in f :: m[p].size
    ensures Replaces(m, f, s)
         == map p | p in m && s.allows(p) && p in f && (f[p].size != m[p].size || f[p].mtime - m[p].mtime > s.tolerance || m[p].mtime - f[p].mtime > s.tolerance) :: m[p].size
  {}

  lemma VanishedWritten(m: Manifest, f: Truth, s: Scope)
    ensures Deletes(m, f, s) == map p | p in f && s.allows(p) && p !in m && s.gated != Some(p) :: f[p].size
  {}

  lemma SetsWritten(m: Manifest, f: Truth, s: Scope)
    ensures Adds(m, f, s).Keys == set p | p in m && s.allows(p) && p !in f
    ensures Replaces(m, f, s).Keys
         == set p | p in m && s.allows(p) && p in f && (f[p].size != m[p].size || f[p].mtime - m[p].mtime > s.tolerance || m[p].mtime - f[p].mtime > s.tolerance)
    ensures Deletes(m, f, s).Keys == set p | p in f && s.allows(p) && p !in m && s.gated != Some(p)
  {}

  lemma QueueWritten(m: Manifest, f: Truth, s: Scope)
    ensures Transfers(m, f, s)
         == set p | p in m && s.allows(p) && s.gated != Some(p)
                    && (p !in f || f[p].size != m[p].size || f[p].mtime - m[p].mtime > s.tolerance || m[p].mtime - f[p].mtime > s.tolerance)
  {}

  /** The files a sync would fetch, row by row. */
  method CountTransfers(m: Manifest, f: Truth, s: Scope) returns (add: Total, replace: Total)
    ensures add == TotalOf(Adds(m, f, s)) && replace == TotalOf(Replaces(m, f, s))
    ensures add == TotalOf(map p | p in m && s.allows(p) && p !in f :: m[p].size)
    ensures replace == TotalOf(map p | p in m && s.allows(p) && p in f && (f[p].size != m[p].size || f[p].mtime - m[p].mtime > s.tolerance || m[p].mtime - f[p].mtime > s.tolerance) ::
                         m[p].size)
  {
    ghost var adds, overwrites := Adds(m, f, s), Replaces(m, f, s);
    add, replace := Total(0, 0), Total(0, 0);
    var left := m.Keys;
    assert Seen(adds, left) == map[] && Seen(overwrites, left) == map[];
    while left != {}
      invariant left <= m.Keys && add == TotalOf(Seen(adds, left)) && replace == TotalOf(Seen(overwrites, left))
      decreases left
    {
      var p :| p in left;
      SeeNext(adds, left, p);
      SeeNext(overwrites, left, p);
      left := left - {p};
      if IsReplace(m, f, s, p) {
        replace := Plus(replace, m[p].size);
      } else if IsAdd(m, f, s, p) {
        add := Plus(add, m[p].size);
      }
    }
    assert Seen(adds, left) == adds && Seen(overwrites, left) == overwrites;
    TransfersWritten(m, f, s);
  }

  /** The files we hold and the walk did not find. */
  method CountVanished(m: Manifest, f: Truth, s: Scope) returns (vanished: Total)
    ensures vanished == TotalOf(Deletes(m, f, s))
    ensures vanished == TotalOf(map p | p in f && s.allows(p) && p !in m && s.gated != Some(p) :: f[p].size)
  {
    ghost var gone := Deletes(m, f, s);
    vanished := Total(0, 0);
    var left := f.Keys;
    assert Seen(gone, left) == map[];
    while left != {}
      invariant left <= f.Keys && vanished == TotalOf(Seen(gone, left))
      decreases left
    {
      var p :| p in left;
      SeeNext(gone, left, p);
      left := left - {p};
      if IsDelete(m, f, s, p) {
        vanished := Plus(vanished, f[p].size);
      }
    }
    assert Seen(gone, left) == gone;
    VanishedWritten(m, f, s);
  }

  /** Both directions of the diff, counted. */
  method PlanPair(m: Manifest, f: Truth, s: Scope) returns (c: Counts)
    ensures c == CountsOf(m, f, s) && (c == NONE <==> InStep(m, f, s))
    ensures c.add.files == |set p | p in m && s.allows(p) && p !in f|
    ensures c.replace.files == |set p | p in m && s.allows(p) && p in f && (f[p].size != m[p].size || f[p].mtime - m[p].mtime > s.tolerance || m[p].mtime - f[p].mtime > s.tolerance)|
    ensures c.vanished.files == |set p | p in f && s.allows(p) && p !in m && s.gated != Some(p)|
  {
    WantsNothingExactly(m, f, s);
    SetsWritten(m, f, s);
    var add, replace := CountTransfers(m, f, s);
    var vanished := CountVanished(m, f, s);
    c := Counts(add, replace, vanished);
  }

  // ---------------------------------------------------------------- the queue

  /** One open row for this file, of this version, and no failed one. */
  ghost predicate Queued(rows: Rows, p: Path, v: Version) {
    && (exists k :: OpenFor(rows, p, k) && rows[k].version == v)
    && (forall j, k | OpenFor(rows, p, j) && OpenFor(rows, p, k) :: j == k)
    && (forall k :: !FailedFor(rows, p, k))
  }

  /** The queue is the plan: one open row per wanted file with the walk's size and mtime, and nothing else unfinished. */
  ghost predicate QueueIsPlan(rows: Rows, m: Manifest, wanted: set<Path>) {
    && wanted <= m.Keys && OneLivePerPath(rows)
    && (forall p | p in wanted :: Queued(rows, p, m[p]))
    && (forall k | k in rows && Live(rows[k]) :: rows[k].path in wanted && Open(rows[k]) && rows[k].version == m[rows[k].path])
  }

  lemma EnqueueQueues(rows: Rows, k: nat, p: Path, op: Op, v: Version, now: int)
    requires OneLivePerPath(rows) && Target(rows, p, k)
    ensures var rows' := Enqueued(rows, k, p, op, v, now);
            && OneLivePerPath(rows') && Queued(rows', p, v)
            && (forall j | j in rows && rows[j].path != p :: j in rows' && rows'[j] == rows[j])
            && (forall j | j in rows' && rows'[j].path != p :: j in rows && rows'[j] == rows[j])
  {
    EnqueueLeavesOneOpenRow(rows, k, p, op, v, now);
    assert OpenFor(Enqueued(rows, k, p, op, v, now), p, k);
  }

  lemma OthersStayQueued(rows: Rows, rows': Rows, p: Path, q: Path, v: Version)
    requires q != p && Queued(rows, q, v)
    requires forall j | j in rows && rows[j].path != p :: j in rows' && rows'[j] == rows[j]
    requires forall j | j in rows' && rows'[j].path != p :: j in rows && rows'[j] == rows[j]
    ensures Queued(rows', q, v)
  {
    var k :| OpenFor(rows, q, k) && rows[k].version == v;
    assert OpenFor(rows', q, k);
    forall j | FailedFor(rows', q, j) ensures false { assert FailedFor(rows, q, j); }
    forall i, j | OpenFor(rows', q, i) && OpenFor(rows', q, j) ensures i == j {
      assert OpenFor(rows, q, i) && OpenFor(rows, q, j);
    }
  }

  /** What the queue looks like when these files have been queued: nothing else was touched. */
  ghost predicate QueuedSoFar(was: Rows, rows: Rows, m: Manifest, done: set<Path>) {
    && OneLivePerPath(rows) && done <= m.Keys
    && (forall p | p in done :: Queued(rows, p, m[p]))
    && (forall k | k in rows && rows[k].path !in done :: k in was && rows[k] == was[k])
  }

  /** A row that was written is of the operation its file needs, a replacement where something is held here; and finished
      rows stay. */
  ghost predicate WellQueued(was: Rows, rows: Rows, f: Truth) {
    && (forall k | k in rows && !(k in was && rows[k] == was[k]) :: rows[k].op == if rows[k].path in f then Replace else Add)
    && (forall k | k in was && was[k].state == Done :: k in rows && rows[k] == was[k])
  }

  lemma OneMoreWell(was: Rows, rows: Rows, f: Truth, k: nat, p: Path, op: Op, v: Version, now: int)
    requires WellQueued(was, rows, f) && Target(rows, p, k) && op == (if p in f then Replace else Add)
    ensures WellQueued(was, Enqueued(rows, k, p, op, v, now), f)
  {
    var rows' := Enqueued(rows, k, p, op, v, now);
    assert k in rows ==> rows[k].path == p && !rows[k].state.Done?;
    assert rows'[k] == (if k in rows then rows[k] else rows'[k]) || (rows'[k].path == p && rows'[k].op == op);
  }

  lemma DropLeavesWell(was: Rows, rows: Rows, f: Truth, since: int)
    requires WellQueued(was, rows, f)
    ensures WellQueued(was, DroppedFailed(rows, since), f)
  {}

  lemma OneMoreQueued(was: Rows, rows: Rows, m: Manifest, done: set<Path>, k: nat, p: Path, op: Op, now: int)
    requires QueuedSoFar(was, rows, m, done) && p in m && p !in done && Target(rows, p, k)
    ensures QueuedSoFar(was, Enqueued(rows, k, p, op, m[p], now), m, done + {p})
  {
    var rows' := Enqueued(rows, k, p, op, m[p], now);
    EnqueueQueues(rows, k, p, op, m[p], now);
    forall q | q in done ensures Queued(rows', q, m[q]) {
      OthersStayQueued(rows, rows', p, q, m[q]);
    }
  }

  lemma DroppedIsQueued(was: Rows, rows: Rows, m: Manifest, done: set<Path>, since: int)
    requires QueuedSoFar(was, rows, m, done)
    ensures QueuedSoFar(was, DroppedFailed(rows, since), m, done)
  {
    forall p | p in done ensures Queued(DroppedFailed(rows, since), p, m[p]) {
      StillQueued(rows, since, p, m[p]);
    }
  }

  /** Nothing unfinished is queued but what the plan wants and failures from before it. */
  ghost predicate NothingUnwanted(rows: Rows, wanted: set<Path>, since: int) {
    forall k | k in rows && Live(rows[k]) && rows[k].path !in wanted :: rows[k].state.Failed? && rows[k].updated < since
  }

  lemma QueueBecomesPlan(was: Rows, rows: Rows, m: Manifest, wanted: set<Path>, since: int)
    requires QueuedSoFar(was, rows, m, wanted) && NothingUnwanted(was, wanted, since)
    requires forall k | k in rows :: !(rows[k].state.Failed? && rows[k].updated < since)
    ensures QueueIsPlan(rows, m, wanted)
  {
    forall k | k in rows && Live(rows[k]) ensures rows[k].path in wanted && Open(rows[k]) && rows[k].version == m[rows[k].path] {
      var p := rows[k].path;
      if p in wanted {
        assert Queued(rows, p, m[p]) && !FailedFor(rows, p, k);
        var j :| OpenFor(rows, p, j) && rows[j].version == m[p];
        assert OpenFor(rows, p, k);
      }
    }
  }

  /** The system before and after planning: only the queue and its accounts change, and every row stays resumable. */
  ghost predicate Planned(s: Sys, s': Sys, o: Options, pub: Publisher) {
    R.Inv(s', o, pub) && s' == s.(rows := s'.rows, acct := s'.acct)
  }

  /** Every file that is wanted, size and time written out, has an open row of the walk's version. */
  lemma WantedIsQueued(was: Rows, rows: Rows, m: Manifest, f: Truth, s: Scope)
    requires QueuedSoFar(was, rows, m, Transfers(m, f, s))
    ensures forall p | p in m && s.allows(p) && s.gated != Some(p)
                       && (p !in f || f[p].size != m[p].size || f[p].mtime - m[p].mtime > s.tolerance || m[p].mtime - f[p].mtime > s.tolerance) ::
              exists k :: OpenFor(rows, p, k) && rows[k].version == m[p]
  {
    forall p | p in m && s.allows(p) && s.gated != Some(p)
               && (p !in f || f[p].size != m[p].size || f[p].mtime - m[p].mtime > s.tolerance || m[p].mtime - f[p].mtime > s.tolerance)
      ensures exists k :: OpenFor(rows, p, k) && rows[k].version == m[p]
    {
      assert p in Transfers(m, f, s) && Queued(rows, p, m[p]);
    }
  }

  /** Write the plan into the queue; failures from before it go. When nothing unwanted was open the queue then is exactly
      the plan. Each row written is a step of the transfer machine, whose invariant it keeps. */
  method Enqueue(m: Manifest, f: Truth, s: Scope, table: JT.JobTable, started: int, ghost sys: Sys, ghost o: Options, ghost pub: Publisher)
    returns (queued: nat, ghost sys': Sys)
    requires sys.rows == table.rows && sys.att.None? && R.Inv(sys, o, pub)
    requires forall p | p in m :: pub.had(p, m[p])
    modifies table
    ensures sys'.rows == table.rows && Planned(sys, sys', o, pub)
    ensures QueuedSoFar(old(table.rows), table.rows, m, Transfers(m, f, s)) && queued == |Transfers(m, f, s)|
    ensures forall p | p in m && s.allows(p) && s.gated != Some(p)
                       && (p !in f || f[p].size != m[p].size || f[p].mtime - m[p].mtime > s.tolerance || m[p].mtime - f[p].mtime > s.tolerance) ::
              exists k :: OpenFor(table.rows, p, k) && table.rows[k].version == m[p]
    ensures queued == |set p | p in m && s.allows(p) && s.gated != Some(p)
                               && (p !in f || f[p].size != m[p].size || f[p].mtime - m[p].mtime > s.tolerance || m[p].mtime - f[p].mtime > s.tolerance)|
    ensures WellQueued(old(table.rows), table.rows, f)
    ensures forall k | k in table.rows :: !(table.rows[k].state == Failed && table.rows[k].updated < started)
    ensures NothingUnwanted(old(table.rows), Transfers(m, f, s), started) ==> QueueIsPlan(table.rows, m, Transfers(m, f, s))
  {
    ghost var was := table.rows;
    queued, sys' := EnqueueAll(m, f, s, table, sys, o, pub);
    ghost var before, wanted := table.rows, Transfers(m, f, s);
    R.DropFailedKeeps(sys', started, o, pub);
    sys' := DoDropFailed(sys', started);
    var dropped := table.DropFailedJobs(started);
    DroppedIsQueued(was, before, m, wanted, started);
    DropLeavesWell(was, before, f, started);
    WantedIsQueued(was, table.rows, m, f, s);
    QueueWritten(m, f, s);
    if NothingUnwanted(was, wanted, started) {
      QueueBecomesPlan(was, table.rows, m, wanted, started);
    }
  }

  /** What is queued of the files that were looked at. */
  ghost function Queueing(m: Manifest, f: Truth, s: Scope, left: set<Path>): set<Path> { set p | p in m && p !in left && Queues(m, f, s, p) }

  lemma QueueNext(m: Manifest, f: Truth, s: Scope, left: set<Path>, p: Path)
    requires p in left && p in m
    ensures p !in Queueing(m, f, s, left)
    ensures Queueing(m, f, s, left - {p}) == Queueing(m, f, s, left) + (if Queues(m, f, s, p) then {p} else {})
  {}

  lemma AllQueueing(m: Manifest, f: Truth, s: Scope)
    ensures Queueing(m, f, s, {}) == Transfers(m, f, s) && Queueing(m, f, s, m.Keys) == {}
  {}

  /** Row after row of the walk. */
  method EnqueueAll(m: Manifest, f: Truth, s: Scope, table: JT.JobTable, ghost sys: Sys, ghost o: Options, ghost pub: Publisher)
    returns (queued: nat, ghost sys': Sys)
    requires sys.rows == table.rows && sys.att.None? && R.Inv(sys, o, pub)
    requires forall p | p in m :: pub.had(p, m[p])
    modifies table
    ensures sys'.rows == table.rows && Planned(sys, sys', o, pub)
    ensures QueuedSoFar(old(table.rows), table.rows, m, Transfers(m, f, s)) && queued == |Transfers(m, f, s)|
    ensures WellQueued(old(table.rows), table.rows, f)
  {
    ghost var was, done: set<Path> := table.rows, {};
    queued, sys' := 0, sys;
    var left := m.Keys;
    AllQueueing(m, f, s);
    while left != {}
      invariant left <= m.Keys && queued == |done| && done == Queueing(m, f, s, left)
      invariant PlannedSoFar(was, table.rows, m, f, done, sys, sys', o, pub)
      decreases left
    {
      var p :| p in left;
      QueueNext(m, f, s, left, p);
      left := left - {p};
      if Queues(m, f, s, p) {
        sys' := EnqueueOne(m, f, table, p, was, done, sys, sys', o, pub);
        queued, done := queued + 1, done + {p};
      }
    }
    assert left == {} && done == Transfers(m, f, s);
  }

  ghost predicate PlannedSoFar(was: Rows, rows: Rows, m: Manifest, f: Truth, done: set<Path>, first: Sys, sys: Sys, o: Options, pub: Publisher) {
    QueuedSoFar(was, rows, m, done) && WellQueued(was, rows, f) && sys.rows == rows && Planned(first, sys, o, pub)
  }

  method EnqueueOne(m: Manifest, f: Truth, table: JT.JobTable, p: Path, ghost was: Rows, ghost done: set<Path>,
                    ghost first: Sys, ghost sys: Sys, ghost o: Options, ghost pub: Publisher) returns (ghost sys': Sys)
    requires p in m && p !in done && pub.had(p, m[p]) && first.att.None?
    requires PlannedSoFar(was, table.rows, m, f, done, first, sys, o, pub)
    modifies table
    ensures PlannedSoFar(was, table.rows, m, f, done + {p}, first, sys', o, pub)
  {
    ghost var before := table.rows;
    var now: int := *;
    var op := if p in f then Replace else Add;
    var k := table.EnqueueJob(p, op, m[p], now);
    OneMoreQueued(was, before, m, done, k, p, op, now);
    OneMoreWell(was, before, f, k, p, op, m[p], now);
    R.EnqueueKeeps(sys, k, p, op, m[p], now, o, pub);
    sys' := DoEnqueue(sys, k, p, op, m[p], now);
  }

  lemma StillQueued(rows: Rows, since: int, p: Path, v: Version)
    requires Queued(rows, p, v)
    ensures Queued(DroppedFailed(rows, since), p, v)
  {
    var rows' := DroppedFailed(rows, since);
    var k :| OpenFor(rows, p, k) && rows[k].version == v;
    assert OpenFor(rows', p, k);
    forall j | j in rows' ensures OpenFor(rows', p, j) ==> OpenFor(rows, p, j) {}
    forall j | FailedFor(rows', p, j) ensures false { assert FailedFor(rows, p, j); }
  }
}
