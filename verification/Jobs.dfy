/** The transfer queue of one pair: one row per file with a resume watermark and a retry budget (store/jobs.go). */
module Jobs {
  import opened Sums

  type Path = string

  datatype JobState = Pending | Running | Verifying | Done | Failed
  datatype Op = Add | Replace

  /** What identifies one version of a publisher's file: size and modification time in milliseconds. */
  datatype Version = Version(size: nat, mtime: int)

  datatype Job = Job(
    path: Path,
    op: Op,
    version: Version,
    bytesDone: int,        // the resume watermark
    state: JobState,
    attempts: nat,
    nextAttempt: int,      // milliseconds; 0 when the row is not backing off
    updated: int)

  /** The table, keyed by row id. */
  type Rows = map<nat, Job>

  predicate Open(j: Job) {
    j.state.Pending? || j.state.Running? || j.state.Verifying?
  }

  /** A row that may still be run again: everything but a finished one. */
  predicate Live(j: Job) {
    !j.state.Done?
  }

  predicate SameFile(a: Job, b: Job) { a.path == b.path && a.op == b.op && a.version == b.version }

  /** Only row k may differ. */
  predicate OthersSame(rows: Rows, rows': Rows, k: nat) {
    rows'.Keys == rows.Keys && forall j | j in rows && j != k :: rows'[j] == rows[j]
  }

  // ---------------------------------------------------------------- queueing

  predicate OpenFor(rows: Rows, p: Path, k: nat) {
    k in rows && rows[k].path == p && Open(rows[k])
  }

  predicate FailedFor(rows: Rows, p: Path, k: nat) {
    k in rows && rows[k].path == p && rows[k].state.Failed?
  }

  /** The row EnqueueJob works on: the open one, else the newest failed one, else a new id. */
  ghost predicate Target(rows: Rows, p: Path, k: nat) {
    if exists o :: OpenFor(rows, p, o) then OpenFor(rows, p, k)
    else if exists f :: FailedFor(rows, p, f) then
      FailedFor(rows, p, k) && forall f: nat | FailedFor(rows, p, f) :: f <= k
    else forall o | o in rows :: o < k
  }

  /** The table after EnqueueJob worked on row k. */
  function Enqueued(rows: Rows, k: nat, p: Path, op: Op, v: Version, now: int): Rows {
    if k !in rows then
      rows[k := Job(p, op, v, 0, Pending, 0, 0, now)]
    else if rows[k].state.Failed? then
      rows[k := rows[k].(op := op, version := v, state := Pending, attempts := 0, nextAttempt := 0,
                         bytesDone := if rows[k].version == v then rows[k].bytesDone else 0, updated := now)]
    else if rows[k].version == v then
      rows
    else
      rows[k := rows[k].(op := op, version := v, bytesDone := 0, state := Pending, nextAttempt := 0, updated := now)]
  }

  /** At most one row per file is unfinished. */
  ghost predicate OneLivePerPath(rows: Rows) {
    forall a, b | a in rows && b in rows && Live(rows[a]) && Live(rows[b]) && rows[a].path == rows[b].path :: a == b
  }

  /** Queueing a file leaves exactly one open row for it, of the wanted version, and never a second
      unfinished one; the watermark survives only where the version did. */
  lemma EnqueueLeavesOneOpenRow(rows: Rows, k: nat, p: Path, op: Op, v: Version, now: int)
    requires OneLivePerPath(rows) && Target(rows, p, k)
    ensures var rows' := Enqueued(rows, k, p, op, v, now);
            && OneLivePerPath(rows')
            && (forall o :: OpenFor(rows', p, o) <==> o == k)
            && (forall f :: !FailedFor(rows', p, f))
            && rows'[k].version == v
            && (rows'[k].bytesDone == 0 || (k in rows && rows[k].version == v && rows'[k].bytesDone == rows[k].bytesDone))
            && (forall o | o in rows && o != k :: o in rows' && rows'[o] == rows[o])
            && rows'.Keys == rows.Keys + {k}
  {
    var rows' := Enqueued(rows, k, p, op, v, now);
    if k !in rows {
      assert forall o | o in rows && rows[o].path == p :: !Live(rows[o]) by {
        forall o | o in rows && rows[o].path == p ensures !Live(rows[o]) {
          assert !OpenFor(rows, p, o) && !FailedFor(rows, p, o);
        }
      }
    }
  }

  // ---------------------------------------------------------------- claiming and settling

  predicate Due(rows: Rows, k: nat, now: int) {
    k in rows && rows[k].state.Pending? && rows[k].nextAttempt <= now
  }

  predicate Before(rows: Rows, a: nat, b: nat)
    requires a in rows && b in rows
  {
    rows[a].nextAttempt < rows[b].nextAttempt || (rows[a].nextAttempt == rows[b].nextAttempt && a <= b)
  }

  /** The row ClaimJob takes: the first runnable one in (next_attempt_at, id) order. */
  predicate NextDue(rows: Rows, k: nat, now: int) {
    Due(rows, k, now) && forall o | o in rows && Due(rows, o, now) :: Before(rows, k, o)
  }

  function Claimed(rows: Rows, k: nat, now: int): Rows
    requires k in rows
  {
    rows[k := rows[k].(state := Running, attempts := rows[k].attempts + 1, updated := now)]
  }

  function Progressed(rows: Rows, k: nat, mark: int, now: int): Rows
    requires k in rows
  {
    rows[k := rows[k].(bytesDone := mark, updated := now)]
  }

  function WithState(rows: Rows, k: nat, state: JobState, now: int): Rows
    requires k in rows
  {
    rows[k := rows[k].(state := state, updated := now)]
  }

  function Released(rows: Rows, k: nat, now: int): Rows
    requires k in rows
  {
    rows[k := rows[k].(state := Pending, attempts := if rows[k].attempts == 0 then 0 else rows[k].attempts - 1,
                       updated := now)]
  }

  function FailedAttempt(rows: Rows, k: nat, maxAttempts: nat, wait: int, now: int): Rows
    requires k in rows
  {
    if rows[k].attempts < maxAttempts then
      rows[k := rows[k].(state := Pending, nextAttempt := now + wait, updated := now)]
    else
      rows[k := rows[k].(state := Failed, nextAttempt := 0, updated := now)]
  }

  /** The jobs a process that is gone left in flight go back to pending. */
  function Requeued(rows: Rows, now: int): Rows {
    map k | k in rows ::
      if rows[k].state.Running? || rows[k].state.Verifying? then rows[k].(state := Pending, updated := now) else rows[k]
  }

  /** Nothing is in flight any more. */
  predicate NoneInFlight(rows: Rows) { forall k | k in rows :: rows[k].state != Running && rows[k].state != Verifying }

  function DroppedFailed(rows: Rows, since: int): Rows {
    map k | k in rows && !(rows[k].state.Failed? && rows[k].updated < since) :: rows[k]
  }

  // ---------------------------------------------------------------- the retry budget

  /** What a row can still cost a run: one claim more than the attempts it has left. */
  function Weight(j: Job, maxAttempts: nat): nat {
    if !j.state.Pending? then 0
    else 1 + (if j.attempts < maxAttempts then maxAttempts - j.attempts else 0)
  }

  ghost function Weights(rows: Rows, maxAttempts: nat): map<nat, int> {
    map k | k in rows :: Weight(rows[k], maxAttempts)
  }

  /** The summed remaining budget of the pending rows. */
  ghost function Budget(rows: Rows, maxAttempts: nat): (b: int)
    ensures 0 <= b
  {
    SumNonNegative(Weights(rows, maxAttempts));
    Sum(Weights(rows, maxAttempts))
  }

  lemma BudgetUpdate(rows: Rows, k: nat, j: Job, maxAttempts: nat)
    requires k in rows
    ensures Budget(rows[k := j], maxAttempts) == Budget(rows, maxAttempts) - Weight(rows[k], maxAttempts) + Weight(j, maxAttempts)
  {
    var w := Weights(rows, maxAttempts);
    SumUpdate(w, k, Weight(j, maxAttempts));
    assert Weights(rows[k := j], maxAttempts) == w[k := Weight(j, maxAttempts)];
  }

  /** A claimed row that ends done, or is failed with or without another try, leaves strictly less budget. */
  lemma SettledClaimSpendsBudget(rows: Rows, rows': Rows, k: nat, maxAttempts: nat)
    requires k in rows && rows[k].state.Pending? && rows'.Keys == rows.Keys
    requires forall j | j in rows && j != k :: rows'[j] == rows[j]
    requires rows'[k].state.Pending? ==> rows[k].attempts < rows'[k].attempts < maxAttempts
    ensures Budget(rows', maxAttempts) < Budget(rows, maxAttempts)
  {
    assert rows' == rows[k := rows'[k]];
    BudgetUpdate(rows, k, rows'[k], maxAttempts);
  }
}
