/** The jobs table as the store writes it: each method is one transaction (store/jobs.go). */
module JobTable {
  import opened Base
  import opened Sums
  import opened Jobs

  const HOUR: int := 3_600_000
  const DEFAULT_BACKOFF: int := 30_000

  function Pow2(n: nat): (r: int)
    ensures 1 <= r
  {
    if n == 0 then 1 else 2 * Pow2(n - 1)
  }

  /** The wait before the attempt after this many: doubled each time, an hour at most. */
  function Backoff(attempts: nat, base: int): int {
    var start := if base <= 0 then DEFAULT_BACKOFF else base;
    var d := if attempts <= 1 then start else start * Pow2(attempts - 1);
    if HOUR < d then HOUR else d
  }

  /** In minutes and hours: half a minute where none is set, twice as long after each further attempt, an hour at most. */
  lemma BackoffDoubles(attempts: nat, base: int)
    ensures base <= 0 ==> Backoff(attempts, base) == Backoff(attempts, 30 * 1000)
    ensures 0 < base && attempts <= 1 ==> Backoff(attempts, base) == if base < 60 * 60 * 1000 then base else 60 * 60 * 1000
    ensures 0 < base && 1 <= attempts ==>
              var d := Backoff(attempts, base); Backoff(attempts + 1, base) == if 2 * d < 60 * 60 * 1000 then 2 * d else 60 * 60 * 1000
  {
    if 0 < base && 1 <= attempts {
      var p := Pow2(attempts - 1);
      assert base * (2 * p) == 2 * (base * p);
      assert Pow2(attempts) == 2 * p && Pow2(0) == 1;
      assert base * 1 == base;
    }
  }

  lemma {:induction false} Pow2Grows(n: nat, m: nat)
    requires n <= m
    ensures Pow2(n) <= Pow2(m)
    decreases m - n
  {
    if n < m { Pow2Grows(n + 1, m); }
  }

  /** The loop stops doubling at an hour and still gives what doubling to the end would. */
  method BackoffFor(attempts: nat, base: int) returns (d: int)
    ensures d == Backoff(attempts, base)
  {
    var start := if base <= 0 then DEFAULT_BACKOFF else base;
    d := start;
    var i := 1;
    while i < attempts && d < HOUR
      invariant 1 <= i && (i <= attempts || i == 1) && d == start * Pow2(i - 1)
    {
      assert start * Pow2(i) == 2 * (start * Pow2(i - 1));
      d := d * 2;
      i := i + 1;
    }
    if 1 < attempts {
      Pow2Grows(i - 1, attempts - 1);
      ScaleGrows(start, Pow2(i - 1), Pow2(attempts - 1));
    }
    if HOUR < d {
      d := HOUR;
    }
  }

  lemma ScaleGrows(s: int, a: int, b: int)
    requires 0 < s && a <= b
    ensures s * a <= s * b
  {}

  class JobTable {
    var rows: Rows

    constructor ()
      ensures rows == map[]
    {
      rows := map[];
    }

    /** Queue a file, or refresh what is already queued for it. */
    method EnqueueJob(p: Path, op: Op, v: Version, now: int) returns (k: nat)
      modifies this
      ensures Target(old(rows), p, k)
      ensures rows == Enqueued(old(rows), k, p, op, v, now)
      ensures k in rows && rows[k].path == p && rows[k].version == v && Open(rows[k])
      ensures forall j | j in old(rows) && j != k :: j in rows && rows[j] == old(rows)[j]
      ensures k !in old(rows) ==> rows[k].op == op && rows[k].bytesDone == 0 && rows[k].attempts == 0 && rows[k].state == Pending
      ensures k in old(rows) && Open(old(rows)[k]) && old(rows)[k].version == v ==> rows == old(rows)
      ensures k in old(rows) && rows != old(rows) ==>
                && rows[k].op == op && rows[k].state == Pending && rows[k].nextAttempt == 0 && rows[k].updated == now
                && rows[k].bytesDone == (if old(rows)[k].version == v then old(rows)[k].bytesDone else 0)
                && rows[k].attempts == (if old(rows)[k].state == Failed then 0 else old(rows)[k].attempts)
    {
      var open, failed, unused := FindRows(p);
      match open {
        case Some(o) =>
          k := o;
          if rows[k].version != v {
            rows := rows[k := rows[k].(op := op, version := v, bytesDone := 0, state := Pending, nextAttempt := 0, updated := now)];
          }
        case None =>
          match failed {
            case Some(f) =>
              k := f;
              var same := rows[k].version == v;
              rows := rows[k := rows[k].(op := op, version := v, state := Pending, attempts := 0, nextAttempt := 0,
                                         bytesDone := if same then rows[k].bytesDone else 0, updated := now)];
            case None =>
              k := unused;
              rows := rows[k := Job(p, op, v, 0, Pending, 0, 0, now)];
          }
      }
    }

    /** The open row of a file, its newest failed row, and an id above every row's. */
    method FindRows(p: Path) returns (open: Option<nat>, failed: Option<nat>, unused: nat)
      ensures open.Some? ==> OpenFor(rows, p, open.value)
      ensures open.None? ==> forall o :: !OpenFor(rows, p, o)
      ensures failed.Some? ==> FailedFor(rows, p, failed.value) && forall f: nat | FailedFor(rows, p, f) :: f <= failed.value
      ensures failed.None? ==> forall f :: !FailedFor(rows, p, f)
      ensures forall o | o in rows :: o < unused
    {
      open, failed, unused := None, None, 1;
      var todo := rows.Keys;
      while todo != {}
        invariant todo <= rows.Keys
        invariant open.Some? ==> OpenFor(rows, p, open.value)
        invariant open.None? ==> forall o | OpenFor(rows, p, o) :: o in todo
        invariant failed.Some? ==> FailedFor(rows, p, failed.value)
        invariant failed.Some? ==> forall f: nat | FailedFor(rows, p, f) && f !in todo :: f <= failed.value
        invariant failed.None? ==> forall f | FailedFor(rows, p, f) :: f in todo
        invariant forall o | o in rows && o !in todo :: o < unused
        decreases todo
      {
        var k :| k in todo;
        todo := todo - {k};
        if rows[k].path == p {
          if Open(rows[k]) {
            open := Some(k);
          } else if rows[k].state.Failed? && (failed.None? || failed.value < k) {
            failed := Some(k);
          }
        }
        if unused <= k {
          unused := k + 1;
        }
      }
    }

    method DropFailedJobs(since: int) returns (n: nat)
      modifies this
      ensures rows == DroppedFailed(old(rows), since)
      ensures n == |old(rows)| - |rows|
      ensures forall k | k in rows :: k in old(rows) && rows[k] == old(rows)[k]
      ensures forall k | k in old(rows) :: k !in rows <==> old(rows)[k].state == Failed && old(rows)[k].updated < since
    {
      var was := rows;
      rows := map k | k in rows && !(rows[k].state.Failed? && rows[k].updated < since) :: rows[k];
      assert rows.Keys <= was.Keys;
      SubsetCardinality(rows.Keys, was.Keys);
      n := |was| - |rows|;
    }

    /** Take the next runnable row and mark it running; the attempt is counted in the same statement. */
    method ClaimJob(now: int) returns (k: nat, ok: bool)
      modifies this
      ensures ok ==> NextDue(old(rows), k, now) && rows == Claimed(old(rows), k, now)
      ensures !ok ==> rows == old(rows) && forall j :: !Due(rows, j, now)
      ensures ok ==> OthersSame(old(rows), rows, k) && old(rows)[k].state == Pending && old(rows)[k].nextAttempt <= now
      ensures ok ==> SameFile(old(rows)[k], rows[k]) && rows[k].state == Running && rows[k].attempts == old(rows)[k].attempts + 1
                     && rows[k].bytesDone == old(rows)[k].bytesDone
      ensures forall j | j in old(rows) && old(rows)[j].state == Pending && old(rows)[j].nextAttempt <= now ::
                ok && (old(rows)[k].nextAttempt < old(rows)[j].nextAttempt
                       || (old(rows)[k].nextAttempt == old(rows)[j].nextAttempt && k <= j))
    {
      k, ok := 0, false;
      var todo := rows.Keys;
      while todo != {}
        invariant todo <= rows.Keys
        invariant ok ==> Due(rows, k, now) && forall j | j in rows && Due(rows, j, now) && j !in todo :: Before(rows, k, j)
        invariant !ok ==> forall j | Due(rows, j, now) :: j in todo
        decreases todo
      {
        var j :| j in todo;
        todo := todo - {j};
        if Due(rows, j, now) && (!ok || Before(rows, j, k)) {
          k, ok := j, true;
        }
      }
      forall j | j in rows && rows[j].state == Pending && rows[j].nextAttempt <= now ensures ok && Before(rows, k, j) {
        assert Due(rows, j, now);
      }
      if ok {
        rows := rows[k := rows[k].(state := Running, attempts := rows[k].attempts + 1, updated := now)];
      }
    }

    method JobProgress(k: nat, mark: int, now: int)
      modifies this
      ensures rows == if k in old(rows) then Progressed(old(rows), k, mark, now) else old(rows)
    {
      if k in rows {
        rows := rows[k := rows[k].(bytesDone := mark, updated := now)];
      }
    }

    method SetJobState(k: nat, state: JobState, now: int)
      modifies this
      ensures rows == if k in old(rows) then WithState(old(rows), k, state, now) else old(rows)
    {
      if k in rows {
        rows := rows[k := rows[k].(state := state, updated := now)];
      }
    }

    /** Hand a claimed job back untouched, its attempt included. */
    method ReleaseJob(k: nat, now: int)
      modifies this
      ensures rows == if k in old(rows) then Released(old(rows), k, now) else old(rows)
      ensures OthersSame(old(rows), rows, k)
      ensures k in rows ==> SameFile(old(rows)[k], rows[k]) && rows[k].state == Pending && rows[k].bytesDone == old(rows)[k].bytesDone
                            && rows[k].nextAttempt == old(rows)[k].nextAttempt
      ensures k in rows && 0 < old(rows)[k].attempts ==> rows[k].attempts == old(rows)[k].attempts - 1
    {
      if k in rows {
        var left := if rows[k].attempts == 0 then 0 else rows[k].attempts - 1;
        rows := rows[k := rows[k].(state := Pending, attempts := left, updated := now)];
      }
    }

    /** Record an attempt that did not work; a row that is not there is an error. */
    method FailJob(k: nat, maxAttempts: nat, backoff: int, now: int) returns (retrying: bool, found: bool)
      modifies this
      ensures found == (k in old(rows))
      ensures !found ==> rows == old(rows) && !retrying
      ensures found ==> retrying == (old(rows)[k].attempts < maxAttempts)
      ensures found ==> rows == FailedAttempt(old(rows), k, maxAttempts, Backoff(old(rows)[k].attempts, backoff), now)
      ensures OthersSame(old(rows), rows, k)
      ensures found ==> SameFile(old(rows)[k], rows[k]) && rows[k].bytesDone == old(rows)[k].bytesDone
                        && rows[k].attempts == old(rows)[k].attempts && rows[k].updated == now
      ensures found && retrying ==> rows[k].state == Pending && rows[k].nextAttempt == now + Backoff(old(rows)[k].attempts, backoff)
      ensures found && !retrying ==> rows[k].state == Failed && rows[k].nextAttempt == 0
    {
      retrying, found := false, k in rows;
      if found {
        if rows[k].attempts < maxAttempts {
          var wait := BackoffFor(rows[k].attempts, backoff);
          rows := rows[k := rows[k].(state := Pending, nextAttempt := now + wait, updated := now)];
          retrying := true;
        } else {
          rows := rows[k := rows[k].(state := Failed, nextAttempt := 0, updated := now)];
        }
      }
    }

    /** What a process that is gone left in flight is pending again, with all it had; every other row stays. */
    method RequeueRunning(now: int)
      modifies this
      ensures rows == Requeued(old(rows), now)
      ensures NoneInFlight(rows) && rows.Keys == old(rows).Keys
      ensures forall k | k in old(rows) && (old(rows)[k].state == Running || old(rows)[k].state == Verifying) ::
                && SameFile(old(rows)[k], rows[k]) && rows[k].state == Pending && rows[k].bytesDone == old(rows)[k].bytesDone
                && rows[k].attempts == old(rows)[k].attempts && rows[k].nextAttempt == old(rows)[k].nextAttempt
      ensures forall k | k in old(rows) && old(rows)[k].state != Running && old(rows)[k].state != Verifying :: rows[k] == old(rows)[k]
    {
      var todo := rows.Keys;
      while todo != {}
        invariant todo <= rows.Keys == old(rows).Keys
        invariant forall k | k in rows ::
                    rows[k] == if k in todo then old(rows)[k] else Requeued(old(rows), now)[k]
        decreases todo
      {
        var k :| k in todo;
        todo := todo - {k};
        if rows[k].state.Running? || rows[k].state.Verifying? {
          rows := rows[k := rows[k].(state := Pending, updated := now)];
        }
      }
    }

    /** The earliest moment a backing-off row becomes runnable. */
    method NextAttempt() returns (next: Moment)
      ensures next.Never? ==> forall k | k in rows && rows[k].state.Pending? :: rows[k].nextAttempt <= 0
      ensures next.At? ==> 0 < next.at
      ensures next.At? ==> exists k | k in rows && rows[k].state.Pending? :: rows[k].nextAttempt == next.at
      ensures next.At? ==> forall k | k in rows && rows[k].state.Pending? && 0 < rows[k].nextAttempt :: next.at <= rows[k].nextAttempt
    {
      next := Never;
      var todo := rows.Keys;
      while todo != {}
        invariant todo <= rows.Keys
        invariant next.Never? ==> forall k | k in rows && k !in todo && rows[k].state.Pending? :: rows[k].nextAttempt <= 0
        invariant next.At? ==> 0 < next.at && exists k | k in rows && rows[k].state.Pending? :: rows[k].nextAttempt == next.at
        invariant next.At? ==> forall k | k in rows && k !in todo && rows[k].state.Pending? && 0 < rows[k].nextAttempt ::
                                 next.at <= rows[k].nextAttempt
        decreases todo
      {
        var k :| k in todo;
        todo := todo - {k};
        if rows[k].state.Pending? && 0 < rows[k].nextAttempt && (next.Never? || rows[k].nextAttempt < next.at) {
          next := At(rows[k].nextAttempt);
        }
      }
    }
  }

  datatype Moment = Never | At(at: int)
}
