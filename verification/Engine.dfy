/** The queue runner: one process at work on a pair (engine/transfer.go). What can go wrong outside - a stream
    that breaks, a volume that fills, a window that closes - is a nondeterministic choice. Every write goes through
    one step of the transfer machine, so what a process did is a run of it and may be cut off anywhere. */
module Engine {
  import opened Base
  import opened Jobs
  import opened Machine
  import opened Resume
  import JT = JobTable

  /** Bytes the chunks of a round still wait for. */
  function Remaining(round: seq<Chunk>, got: seq<nat>): int
    requires |got| == |round|
  {
    if round == [] then 0 else round[0].len - got[0] + Remaining(round[1..], got[1..])
  }

  lemma {:induction false} RemainingFalls(round: seq<Chunk>, got: seq<nat>, i: nat, n: nat)
    requires |got| == |round| && i < |round|
    ensures Remaining(round, Grown(got, i, n)) == Remaining(round, got) - n
  {
    if i == 0 {
      assert Grown(got, 0, n)[1..] == got[1..];
    } else {
      assert Grown(got, i, n)[1..] == Grown(got[1..], i - 1, n);
      RemainingFalls(round[1..], got[1..], i - 1, n);
    }
  }

  lemma {:induction false} RemainingNonNegative(round: seq<Chunk>, got: seq<nat>)
    requires |got| == |round| && forall i | 0 <= i < |round| :: got[i] <= round[i].len
    ensures 0 <= Remaining(round, got)
  {
    if round != [] { RemainingNonNegative(round[1..], got[1..]); }
  }

  /** The requests of one round, as the loop lays them out. */
  /** As many whole chunks as allowed, one behind the other from the mark on, or as far as the file goes. */
  ghost predicate LaidOut(round: seq<Chunk>, mark: nat, total: nat, chunks: nat, size: nat, reach: nat) {
    && |round| <= chunks
    && (forall i | 0 <= i < |round| :: 1 <= round[i].len <= size && (i < |round| - 1 ==> round[i].len == size))
    && (forall i | 0 <= i < |round| :: round[i].off == if i == 0 then mark else round[i - 1].off + round[i - 1].len)
    && (mark < total ==> round != [] && var last := round[|round| - 1];
          last.off + last.len == if mark + reach < total then mark + reach else total)
  }

  lemma RoundLaidOut(o: Options, mark: nat, total: nat)
    requires o.Filled() && mark <= total
    ensures LaidOut(RoundAt(o, mark, total), mark, total, o.chunks, o.chunkSize, Reach(o.chunks, o.chunkSize))
  {
    RoundCuts(mark, total, o.chunks, o.chunkSize);
    RoundBounds(o, mark, total);
    TilesFollow(RoundAt(o, mark, total), mark, RoundEnd(o, mark, total));
    if mark < total { RoundEndsAtLast(o, mark, total); }
  }

  lemma PlanStep(round: seq<Chunk>, off: nat, total: nat, n: nat, size: nat, all: seq<Chunk>)
    requires 1 <= size && off < total && 0 < n && round + Round(off, total, n, size) == all
    ensures (round + [Chunk(off, if total - off < size then total - off else size)]) + Round(off + size, total, n - 1, size) == all
  {}

  method PlanRound(o: Options, mark: nat, total: nat) returns (round: seq<Chunk>)
    requires o.Filled() && mark <= total
    ensures round == RoundAt(o, mark, total)
  {
    round := [];
    var off := mark;
    while off < total && |round| < o.chunks
      invariant mark <= off && |round| <= o.chunks
      invariant round + Round(off, total, o.chunks - |round|, o.chunkSize) == RoundAt(o, mark, total)
      decreases o.chunks - |round|
    {
      var len := if total - off < o.chunkSize then total - off else o.chunkSize;
      PlanStep(round, off, total, o.chunks - |round|, o.chunkSize, RoundAt(o, mark, total));
      round := round + [Chunk(off, len)];
      off := off + o.chunkSize;
    }
  }

  lemma {:induction false} TilesFollow(round: seq<Chunk>, from: nat, to: nat)
    requires Tiles(round, from, to)
    ensures forall i | 0 <= i < |round| :: 1 <= round[i].len && round[i].off == if i == 0 then from else round[i - 1].off + round[i - 1].len
  {
    if round != [] {
      TilesFollow(round[1..], from + round[0].len, to);
      forall i | 0 < i < |round| ensures 1 <= round[i].len && round[i].off == round[i - 1].off + round[i - 1].len {
        assert round[i] == round[1..][i - 1] && (1 < i ==> round[i - 1] == round[1..][i - 2]);
      }
    }
  }

  lemma {:induction false} LastEnds(round: seq<Chunk>, from: nat, to: nat)
    requires Tiles(round, from, to) && round != []
    ensures round[|round| - 1].off + round[|round| - 1].len == to
  {
    if |round| > 1 { LastEnds(round[1..], from + round[0].len, to); }
  }

  lemma RoundEndsAtLast(o: Options, mark: nat, total: nat)
    requires o.Filled() && mark < total
    ensures var round := RoundAt(o, mark, total);
            round != [] && round[|round| - 1].off + round[|round| - 1].len == RoundEnd(o, mark, total)
  {
    RoundBounds(o, mark, total);
    LastEnds(RoundAt(o, mark, total), mark, RoundEnd(o, mark, total));
  }

  ghost function Extended(r: Run, st: Step, s: Sys): Run { Run(r.states + [s], r.steps + [st]) }

  /** What one process did, told from its end: transfers, and no death of its own. */
  ghost predicate TraceFrom(r: Run, start: Sys, o: Options, pub: Publisher)
    requires o.Filled()
    decreases |r.steps|
  {
    && |r.states| == |r.steps| + 1
    && if r.steps == [] then r.states[0] == start
       else
         var n := |r.steps| - 1;
         && TraceFrom(Run(r.states[..n + 1], r.steps[..n]), start, o, pub) && !r.steps[n].Die? && !Plans(r.steps[n])
         && Enabled(r.states[n], r.steps[n], o, pub) && r.states[n + 1] == Apply(r.states[n], r.steps[n], o, pub)
  }

  lemma TraceOne(r: Run, start: Sys, st: Step, o: Options, pub: Publisher)
    requires o.Filled() && TraceFrom(r, start, o, pub) && !st.Die? && !Plans(st) && Enabled(r.states[|r.steps|], st, o, pub)
    ensures TraceFrom(Extended(r, st, Apply(r.states[|r.steps|], st, o, pub)), start, o, pub)
  {
    var longer := Extended(r, st, Apply(r.states[|r.steps|], st, o, pub));
    assert longer.states[..|r.states|] == r.states && longer.steps[..|r.steps|] == r.steps;
    assert Run(longer.states[..|r.states|], longer.steps[..|r.steps|]) == r;
  }

  /** It is a run of the transfer machine from what the process found, without a death and without planning. */
  lemma {:induction false} TraceIsRun(r: Run, start: Sys, o: Options, pub: Publisher)
    requires o.Filled() && TraceFrom(r, start, o, pub)
    ensures IsRun(r, o, pub) && r.states[0] == start && Deathless(r) && Unplanned(r)
    decreases |r.steps|
  {
    if r.steps != [] {
      var n := |r.steps| - 1;
      var front := Run(r.states[..n + 1], r.steps[..n]);
      TraceIsRun(front, start, o, pub);
      forall i | 0 <= i < |r.steps|
        ensures Enabled(r.states[i], r.steps[i], o, pub) && r.states[i + 1] == Apply(r.states[i], r.steps[i], o, pub)
      {
        if i < n {
          assert front.states[i] == r.states[i] && front.steps[i] == r.steps[i] && front.states[i + 1] == r.states[i + 1];
        }
      }
      forall i | 0 <= i < |r.steps| ensures !r.steps[i].Die? && !Plans(r.steps[i]) {
        if i < n { assert front.steps[i] == r.steps[i]; }
      }
    }
  }

  /** Only row k may differ, and its attempts do not. */
  ghost predicate OnlyRow(rows: Rows, rows': Rows, k: nat) {
    && rows'.Keys == rows.Keys
    && (forall j | j in rows && j != k :: rows'[j] == rows[j])
    && (k in rows ==> rows'[k].attempts == rows[k].attempts)
  }

  lemma StoppedMaySettle(s: Sys, now: int, o: Options, pub: Publisher)
    requires o.Filled() && Inv(s, o, pub) && FetchingNow(s)
    ensures CanSettle(DoStop(s, now)) && !DoStop(s, now).rows[s.att.value.k].state.Pending?
    ensures OnlyRow(s.rows, DoStop(s, now).rows, s.att.value.k)
  {}

  /** Never past what the file reaches, and from the start when the watermark is out of range. */
  method ResumeOffset(part: Bytes, j: Job) returns (from: nat)
    ensures from == ResumeFrom(part, j)
    ensures from <= |part| && (0 <= j.bytesDone <= j.version.size ==> from == if j.bytesDone <= |part| then j.bytesDone else |part|)
  {
    var resume := j.bytesDone;
    if |part| < resume {
      resume := |part|;
    }
    if j.version.size < resume || resume < 0 {
      resume := 0;
    }
    from := resume;
  }

  class Engine {
    const o: Options
    const backoff: int
    const remote: Publisher
    const table: JT.JobTable
    var parts: map<Path, Bytes>
    var dst: map<Path, FileOnDisk>
    var files: map<Path, FileRow>
    ghost var att: Option<Attempt>
    ghost var acct: map<nat, Account>
    ghost const start: Sys   // what this process found
    ghost var run: Run       // what it did so far

    ghost function View(): Sys
      reads this, table
    {
      Sys(table.rows, parts, dst, files, att, acct)
    }

    ghost predicate Valid()
      reads this, table
    {
      && o.Filled() && Inv(View(), o, remote)
      && TraceFrom(run, start, o, remote) && run.states[|run.steps|] == View()
    }

    /** A process starts on whatever state an earlier one left resumable. */
    constructor (o: Options, backoff: int, remote: Publisher, table: JT.JobTable, parts: map<Path, Bytes>,
                 dst: map<Path, FileOnDisk>, files: map<Path, FileRow>, ghost acct: map<nat, Account>)
      requires o.Filled() && Inv(Sys(table.rows, parts, dst, files, None, acct), o, remote)
      ensures Valid() && View() == Sys(table.rows, parts, dst, files, None, acct) && run.steps == []
      ensures this.o == o && this.table == table && this.remote == remote
      ensures start == Sys(table.rows, parts, dst, files, None, acct)
    {
      this.o, this.backoff, this.remote, this.table := o, backoff, remote, table;
      this.parts, this.dst, this.files, this.att, this.acct := parts, dst, files, None, acct;
      this.start := Sys(table.rows, parts, dst, files, None, acct);
      this.run := Run([Sys(table.rows, parts, dst, files, None, acct)], []);
    }

    ghost method Took(st: Step, before: Sys)
      requires o.Filled() && Inv(before, o, remote) && TraceFrom(run, start, o, remote) && !st.Die? && !Plans(st)
      requires run.states[|run.steps|] == before && Enabled(before, st, o, remote) && View() == Apply(before, st, o, remote)
      modifies this`run
      ensures Valid() && run == old(Extended(run, st, View()))
    {
      StepKeeps(before, st, o, remote);
      TraceOne(run, start, st, o, remote);
      run := Extended(run, st, View());
    }

    method RecordFile(j: Job)
      requires Valid() && Holds(j) && (CanAdopt(View(), o) || CanRecord(View()))
      modifies this, table
      ensures Valid() && View() == old(DoRecord(View())) && old(run.steps) <= run.steps
    {
      ghost var before := View();
      files := files[j.path := FileRow(j.version.size, j.version.mtime)];
      att := Entering(before, Recorded);
      Took(if CanAdopt(before, o) then Adopt else Record, before);
    }

    /** Open the partial file and cut it to where the job may carry on. */
    method OpenPart(j: Job) returns (from: nat)
      requires Valid() && Holds(j) && CanOpen(View(), o)
      modifies this, table
      ensures Valid() && View() == old(DoOpen(View())) && old(run.steps) <= run.steps
      ensures att.value.phase == Opened(from)
    {
      ghost var before := View();
      var part := if j.path in parts then parts[j.path] else [];
      from := ResumeOffset(part, j);
      parts := parts[j.path := if from == 0 then [] else part];
      att := Entering(before, Opened(from));
      Took(Step.OpenPart, before);
    }

    ghost method Begin()
      requires Valid() && CanBegin(View())
      modifies this
      ensures Valid() && View() == old(DoBegin(View(), o)) && old(run.steps) <= run.steps
    {
      var before := View();
      att := DoBegin(before, o).att;
      Took(BeginFetch, before);
    }

    /** One read of one stream: n more bytes of chunk c, written where the chunk stands. */
    method Receive(j: Job, round: seq<Chunk>, got: seq<nat>, c: nat, n: nat)
      requires Valid() && Holds(j) && CanReceive(View(), o, remote, c, n)
      requires round == CurrentRound(View(), o) && got == att.value.phase.got
      modifies this, table
      ensures Valid() && View() == old(DoReceive(View(), o, remote, c, n)) && old(run.steps) <= run.steps
    {
      ghost var before := View();
      var off := round[c].off + got[c];
      parts := parts[j.path := WriteAt(parts[j.path], off, remote.content(j.path, j.version)[off..off + n])];
      att := Entering(before, Fetching(before.att.value.phase.mark, Grown(got, c, n)));
      Took(Step.Receive(c, n), before);
    }

    method Progress(k: nat, mark: nat, now: int)
      requires Valid() && att.Some? && att.value.k == k && CanEndRound(View(), o)
      requires mark == RoundEnd(o, att.value.phase.mark, Total(View()))
      modifies this, table
      ensures Valid() && View() == old(DoEndRound(View(), o, now)) && old(run.steps) <= run.steps
    {
      ghost var before := View();
      table.JobProgress(k, mark, now);
      att := DoEndRound(before, o, now).att;
      Took(RoundDone(now), before);
    }

    /** The watermark of a fetch that failed, kept where it moved. */
    method KeepWatermark(k: nat, j: Job, mark: nat, now: int)
      requires Valid() && Holds(j) && att.value.k == k && FetchingNow(View()) && mark == att.value.phase.mark
      modifies this, table
      ensures Valid() && View() == old(DoStop(View(), now)) && old(run.steps) <= run.steps
    {
      ghost var before := View();
      if mark != j.bytesDone {
        table.JobProgress(k, mark, now);
      }
      att := Entering(before, Stopped);
      Took(StopFetch(now), before);
    }

    method MarkVerifying(k: nat, now: int)
      requires Valid() && att.Some? && att.value.k == k && CanVerify(View())
      modifies this, table
      ensures Valid() && View() == old(DoVerify(View(), now)) && old(run.steps) <= run.steps
    {
      ghost var before := View();
      table.SetJobState(k, Verifying, now);
      att := Entering(before, Checking);
      Took(Verify(now), before);
    }

    method TruncatePart(j: Job)
      requires Valid() && Holds(j) && CanTruncate(View()) && j.path in parts
      modifies this, table
      ensures Valid() && View() == old(DoTruncate(View())) && old(run.steps) <= run.steps
    {
      ghost var before := View();
      parts := parts[j.path := parts[j.path][..j.version.size]];
      att := Entering(before, Sized);
      Took(Truncate, before);
    }

    method MoveIntoPlace(j: Job)
      requires Valid() && Holds(j) && CanMove(View())
      modifies this, table
      ensures Valid() && View() == old(DoMove(View())) && old(run.steps) <= run.steps
    {
      ghost var before := View();
      dst, parts := dst[j.path := FileOnDisk(parts[j.path], j.version.mtime)], parts - {j.path};
      att := Entering(before, Moved);
      Took(Move, before);
    }

    method MarkDone(k: nat, now: int)
      requires Valid() && att.Some? && att.value.k == k && CanFinish(View())
      modifies this, table
      ensures Valid() && View() == old(DoFinish(View(), now)) && old(run.steps) <= run.steps
    {
      ghost var before := View();
      table.SetJobState(k, Done, now);
      att := None;
      Took(Finish(now), before);
    }

    method Release(k: nat, now: int)
      requires Valid() && att.Some? && att.value.k == k && CanSettle(View())
      modifies this, table
      ensures Valid() && View() == old(DoRelease(View(), now)) && old(run.steps) <= run.steps
    {
      ghost var before := View();
      table.ReleaseJob(k, now);
      att := None;
      Took(Step.Release(now), before);
    }

    method Fail(k: nat, now: int) returns (retrying: bool)
      requires Valid() && att.Some? && att.value.k == k && CanSettle(View())
      modifies this, table
      ensures Valid() && old(run.steps) <= run.steps
      ensures View() == old(DoFail(View(), o, JT.Backoff(table.rows[k].attempts, backoff), now))
      ensures retrying == (old(table.rows)[k].attempts < o.maxAttempts)
    {
      ghost var before := View();
      var found;
      retrying, found := table.FailJob(k, o.maxAttempts, backoff, now);
      ghost var wait := JT.Backoff(before.rows[k].attempts, backoff);
      acct := DoFail(before, o, wait, now).acct;
      att := None;
      Took(Step.Fail(wait, now), before);
    }

    method Requeue(now: int)
      requires Valid() && att.None?
      modifies this, table
      ensures NoneInFlight(table.rows)
      ensures Valid() && View() == old(DoRequeue(View(), now)) && old(run.steps) <= run.steps
    {
      ghost var before := View();
      table.RequeueRunning(now);
      Took(Step.Requeue(now), before);
    }

    method Claim(now: int) returns (k: nat, ok: bool)
      requires Valid() && att.None?
      modifies this, table
      ensures Valid() && old(run.steps) <= run.steps
      ensures ok ==> NextDue(old(table.rows), k, now) && View() == old(DoClaim(View(), k, now))
      ensures !ok ==> View() == old(View()) && forall j :: !Due(table.rows, j, now)
    {
      ghost var before := View();
      k, ok := table.ClaimJob(now);
      if ok {
        att := Some(Attempt(k, table.rows[k], Begun));
        Took(Step.Claim(k, now), before);
      }
    }

    ghost predicate Holds(j: Job)
      reads this
    {
      att.Some? && att.value.job == j
    }

    /** One round of parallel chunks. The streams deliver in any order and any of them may break. */
    method FetchRound(k: nat, j: Job, round: seq<Chunk>) returns (ok: bool)
      requires Valid() && Holds(j) && att.value.k == k && FetchingNow(View()) && round == CurrentRound(View(), o)
      requires att.value.phase == FreshRound(o, att.value.phase.mark, j.version.size)
      modifies this, table
      ensures Valid() && Holds(j) && att.value.k == k && FetchingNow(View()) && old(run.steps) <= run.steps
      ensures att.value.phase.mark == old(att.value.phase.mark) && table.rows == old(table.rows) && files == old(files)
      ensures ok ==> forall i | 0 <= i < |round| :: |att.value.phase.got| == |round| && att.value.phase.got[i] == round[i].len
    {
      var got: seq<nat> := seq(|round|, _ => 0);
      ghost var mark := att.value.phase.mark;
      RoundBounds(o, mark, j.version.size);
      ok := false;
      while exists i :: 0 <= i < |round| && got[i] < round[i].len
        invariant Valid() && Holds(j) && att.value.k == k && old(run.steps) <= run.steps
        invariant att.value.phase == Fetching(mark, got) && table.rows == old(table.rows) && files == old(files)
        invariant FetchingNow(View()) && |got| == |round| && round == CurrentRound(View(), o)
        invariant forall i | 0 <= i < |round| :: got[i] <= round[i].len
        decreases Remaining(round, got)
      {
        if * {
          return;   // a stream broke or came up short
        }
        var c :| 0 <= c < |round| && got[c] < round[c].len;
        var n :| 1 <= n <= round[c].len - got[c];
        RemainingNonNegative(round, got);
        RemainingFalls(round, got, c, n);
        RemainingNonNegative(round, Grown(got, c, n));
        Receive(j, round, got, c, n);
        got := Grown(got, c, n);
      }
      ok := true;
    }

    /** A whole round: plan it, fetch it, store the watermark at its end. */
    method NextRound(k: nat, j: Job, mark: nat) returns (mark': nat, ok: bool)
      requires Valid() && Holds(j) && att.value.k == k && FetchingNow(View()) && mark < j.version.size
      requires att.value.phase == FreshRound(o, mark, j.version.size)
      modifies this, table
      ensures Valid() && Holds(j) && att.value.k == k && FetchingNow(View()) && old(run.steps) <= run.steps
      ensures OnlyRow(old(table.rows), table.rows, k) && mark <= mark' <= j.version.size && files == old(files)
      ensures att.value.phase.mark == mark'
      ensures ok ==> mark' == RoundEnd(o, mark, j.version.size) && mark < mark' && att.value.phase == FreshRound(o, mark', j.version.size)
      ensures !ok ==> mark' == mark
    {
      var round := PlanRound(o, mark, j.version.size);
      RoundBounds(o, mark, j.version.size);
      ok := FetchRound(k, j, round);
      mark' := mark;
      if ok {
        RoundEndsAtLast(o, mark, j.version.size);
        var last := round[|round| - 1];
        mark' := last.off + last.len;
        var now := *;
        Progress(k, mark', now);
      }
    }

    /** Fetch [from, size) in rounds; mark is how far the file is known good. */
    method Download(k: nat, j: Job, from: nat) returns (mark: nat, ok: bool)
      requires Valid() && Holds(j) && att.value.k == k && k in table.rows && att.value.phase == Opened(from)
      modifies this, table
      ensures Valid() && Holds(j) && att.value.k == k && FetchingNow(View()) && att.value.phase.mark == mark
      ensures old(run.steps) <= run.steps && OnlyRow(old(table.rows), table.rows, k) && files == old(files)
      ensures ok ==> mark == j.version.size
    {
      Begin();
      mark, ok := from, true;
      while ok && mark < j.version.size
        invariant Valid() && Holds(j) && att.value.k == k && FetchingNow(View()) && old(run.steps) <= run.steps
        invariant att.value.phase.mark == mark <= j.version.size
        invariant ok ==> att.value.phase == FreshRound(o, mark, j.version.size)
        invariant OnlyRow(old(table.rows), table.rows, k) && files == old(files)
        decreases ok, j.version.size - mark
      {
        if * {
          ok := false;   // interrupted
        } else {
          mark, ok := NextRound(k, j, mark);
        }
      }
    }

    /** How an attempt on row k ends: done with the publisher's bytes in place and on record, or left to be settled. */
    ghost predicate Ended(k: nat, j: Job, ok: bool, rows: Rows, was: map<Path, FileRow>)
      reads this, table
    {
      && OnlyRow(rows, table.rows, k) && k in rows
      && (ok ==> att.None? && table.rows[k].state.Done?
                 && j.path in dst && dst[j.path].bytes == remote.content(j.path, j.version)
                 && files == was[j.path := FileRow(j.version.size, j.version.mtime)])
      && (!ok ==> att.Some? && att.value.k == k && CanSettle(View()) && !table.rows[k].state.Pending?)
    }

    /** Local truth, then the finished row: the last two writes of an adoption and of a transfer alike. */
    method RecordAndFinish(k: nat, j: Job) returns (ok: bool)
      requires Valid() && Holds(j) && att.value.k == k && (CanAdopt(View(), o) || CanRecord(View())) && k in table.rows
      modifies this, table
      ensures Valid() && old(run.steps) <= run.steps && Ended(k, j, ok, old(table.rows), old(files))
      ensures dst == old(dst) && parts == old(parts)
    {
      ok := false;
      if * { return; }
      RecordFile(j);
      if * { return; }
      var now := *;
      MarkDone(k, now);
      ok := true;
    }

    /** The complete partial file, cut to size, stamped and renamed into place. */
    method CheckAndMove(k: nat, j: Job) returns (ok: bool)
      requires Valid() && Holds(j) && att.value.k == k && CanVerify(View())
      modifies this, table
      ensures Valid() && Holds(j) && att.value.k == k && k in table.rows && old(run.steps) <= run.steps
      ensures OnlyRow(old(table.rows), table.rows, k) && files == old(files)
      ensures ok ==> CanRecord(View()) && j.path in dst && dst[j.path] == FileOnDisk(remote.content(j.path, j.version), j.version.mtime)
      ensures !ok ==> CanSettle(View()) && !table.rows[k].state.Pending?
    {
      ok := false;
      var now := *;
      if * { return; }
      MarkVerifying(k, now);
      if * { return; }
      TruncatePart(j);
      if * { return; }
      MoveIntoPlace(j);
      ok := true;
    }

    /** Everything up to the last byte; a fetch that failed keeps its watermark. */
    method FetchAll(k: nat, j: Job) returns (ok: bool)
      requires Valid() && Holds(j) && att.value.k == k && CanOpen(View(), o) && k in table.rows
      modifies this, table
      ensures Valid() && Holds(j) && att.value.k == k && k in table.rows && old(run.steps) <= run.steps
      ensures OnlyRow(old(table.rows), table.rows, k) && files == old(files)
      ensures ok ==> CanVerify(View())
      ensures !ok ==> CanSettle(View()) && !table.rows[k].state.Pending?
    {
      ok := false;
      if * { return; }   // the directories or the partial file cannot be made
      var from := OpenPart(j);
      if * { return; }   // no room left
      ok := FetchFrom(k, j, from);
    }

    method FetchFrom(k: nat, j: Job, from: nat) returns (ok: bool)
      requires Valid() && Holds(j) && att.value.k == k && k in table.rows && att.value.phase == Opened(from)
      modifies this, table
      ensures Valid() && Holds(j) && att.value.k == k && k in table.rows && old(run.steps) <= run.steps
      ensures OnlyRow(old(table.rows), table.rows, k) && files == old(files)
      ensures ok ==> CanVerify(View())
      ensures !ok ==> CanSettle(View()) && !table.rows[k].state.Pending?
    {
      var mark;
      mark, ok := Download(k, j, from);
      if !ok {
        var now := *;
        StoppedMaySettle(View(), now, o, remote);
        KeepWatermark(k, j, mark, now);
      }
    }

    /** Transfer one file. moved is false when the destination already was the wanted version. */
    method RunJob(k: nat, j: Job) returns (moved: bool, ok: bool)
      requires Valid() && att == Some(Attempt(k, j, Begun)) && k in table.rows
      modifies this, table
      ensures Valid() && old(run.steps) <= run.steps && Ended(k, j, ok, old(table.rows), old(files))
      ensures if AlreadyThere(old(dst), j.path, j.version, o.tolerance) then !moved && dst == old(dst) && parts == old(parts)
              else moved == ok && (ok ==> j.path in dst && dst[j.path].mtime == j.version.mtime)
    {
      moved := false;
      if j.path in dst && Matches(dst[j.path], j.version, o.tolerance) {
        ok := RecordAndFinish(k, j);
      } else {
        ok := Transfer(k, j);
        moved := ok;
      }
    }

    method Transfer(k: nat, j: Job) returns (ok: bool)
      requires Valid() && Holds(j) && att.value.k == k && CanOpen(View(), o) && k in table.rows
      modifies this, table
      ensures Valid() && old(run.steps) <= run.steps && Ended(k, j, ok, old(table.rows), old(files))
      ensures ok ==> dst[j.path].mtime == j.version.mtime
    {
      ok := FetchAll(k, j);
      if ok { ok := CheckAndMove(k, j); }
      if ok { ok := RecordAndFinish(k, j); }
    }

    /** Run a claimed job and settle it: an interruption or a full volume gives the attempt back. */
    method RunAndSettle(k: nat, now: int) returns (out: Outcome)
      requires Valid() && k in table.rows && att == Some(Attempt(k, table.rows[k], Begun)) && 1 <= table.rows[k].attempts
      modifies this, table
      ensures Valid() && att.None? && old(run.steps) <= run.steps
      ensures Settled(old(table.rows), table.rows, k, out, o.maxAttempts)
      ensures out.Transferred? || out.InPlace? ==>
                (out.InPlace? <==> AlreadyThere(old(dst), old(table.rows)[k].path, old(table.rows)[k].version, o.tolerance))
    {
      var moved, done := RunJob(k, table.rows[k]);
      if done {
        out := if moved then Transferred else InPlace;
      } else {
        out := Settle(k, now);
      }
    }

    /** A job that did not end done: handed back, to be tried again, or given up. */
    method Settle(k: nat, now: int) returns (out: Outcome)
      requires Valid() && att.Some? && att.value.k == k && k in table.rows && CanSettle(View()) && 1 <= table.rows[k].attempts
      modifies this, table
      ensures Valid() && att.None? && old(run.steps) <= run.steps && !out.Transferred? && !out.InPlace?
      ensures Settled(old(table.rows), table.rows, k, out, o.maxAttempts)
    {
      if * {
        Release(k, now);
        var why := *;
        out := if why then Interrupted else NoSpace;
      } else {
        var retrying := Fail(k, now);
        out := if retrying then Retrying else GaveUp;
      }
    }

    /** Claim the next runnable job, run it and settle it; None when nothing is runnable. */
    method RunNext(now: int, ghost was: Rows, ghost t: Tally) returns (out: Option<Outcome>)
      requires Valid() && att.None? && Counted(was, table.rows, t)
      modifies this, table
      ensures Valid() && att.None? && old(run.steps) <= run.steps
      ensures old(NoneInFlight(table.rows)) ==> NoneInFlight(table.rows)
      ensures out.None? ==> table.rows == old(table.rows) && forall k :: !Due(table.rows, k, now)
      ensures out.Some? ==> Counted(was, table.rows, Tallied(t, out.value))
      ensures out.Some? && !out.value.Interrupted? && !out.value.NoSpace? ==>
                Budget(table.rows, o.maxAttempts) < Budget(old(table.rows), o.maxAttempts)
    {
      ghost var before := table.rows;
      var k, ok := Claim(now);
      if ok {
        var got := RunAndSettle(k, now);
        ClaimSettled(before, table.rows, k, now, got, o.maxAttempts, was, t);
        out := Some(got);
      } else {
        out := None;
      }
    }

    /** One turn of the queue: run the next job, or wait for one, or end the run. */
    method Turn(tally: Tally, start: int, ghost was: Rows) returns (tally': Tally, now: int, over: bool)
      requires Valid() && att.None? && 0 <= start && Counted(was, table.rows, tally) && NoneInFlight(table.rows) && GoesOn(tally)
      modifies this, table
      ensures Valid() && att.None? && old(run.steps) <= run.steps && start <= now && Counted(was, table.rows, tally')
      ensures NoneInFlight(table.rows) && if over then StopsAtFive(tally') else GoesOn(tally')
      ensures over && tally'.ending.Drained? ==> NothingDue(table.rows, now)
      ensures !over ==> || Budget(table.rows, o.maxAttempts) < Budget(old(table.rows), o.maxAttempts)
                        || (table.rows == old(table.rows) && NothingDue(table.rows, start) && exists k :: Due(table.rows, k, now))
    {
      now :| start <= now;
      var out := RunNext(now, was, tally);
      if out.Some? {
        tally' := Tallied(tally, out.value);
        over := Ends(out.value, tally');
        EndingIsNamed(tally, out.value);
      } else {
        NotDueEarlier(table.rows, start, now);
        tally', now, over := Rest(tally, now, was);
      }
    }

    /** Nothing was runnable: wait for the next retry, or end the run. */
    method Rest(tally: Tally, start: int, ghost was: Rows) returns (tally': Tally, now: int, over: bool)
      requires 0 <= start && Counted(was, table.rows, tally) && GoesOn(tally) && forall k :: !Due(table.rows, k, start)
      ensures start <= now && Counted(was, table.rows, tally') && GoesOn(tally')
      ensures over && tally'.ending.Drained? ==> NothingDue(table.rows, now)
      ensures !over ==> exists k :: Due(table.rows, k, now)
    {
      var later :| start <= later;   // the clock is read again
      var wake := AwaitRetry(table, start, later);
      over := wake.None?;
      tally' := if over then tally.(ending := Drained) else tally;
      now := if over then start else wake.value;
    }

    /** Run the queue until nothing is runnable. It ends: every claim spends budget and every wait ends in a claim. */
    method Sync(start: int) returns (tally: Tally, now: int)
      requires Valid() && att.None? && 0 <= start
      modifies this, table
      ensures Valid() && att.None? && old(run.steps) <= run.steps
      ensures Counted(old(table.rows), table.rows, tally)
      ensures tally.ending.Drained? ==> NothingDue(table.rows, now)
      ensures NoneInFlight(table.rows) && StopsAtFive(tally)
    {
      now := start;
      RequeueKeepsSettled(table.rows, now);
      Requeue(now);
      tally := NOTHING_DONE;
      if * {
        return;   // the queue does not fit on the volume
      }
      var over := false;
      while !over
        invariant Valid() && att.None? && old(run.steps) <= run.steps && 0 <= now
        invariant Counted(old(table.rows), table.rows, tally) && NoneInFlight(table.rows)
        invariant if over then StopsAtFive(tally) else GoesOn(tally)
        invariant over && tally.ending.Drained? ==> NothingDue(table.rows, now)
        decreases !over, Budget(table.rows, o.maxAttempts), if exists k :: Due(table.rows, k, now) then 0 else 1
      {
        if * {
          tally, over := tally.(ending := Cancelled), true;
        } else {
          tally, now, over := Turn(tally, now, old(table.rows));
        }
      }
    }
  }

  /** A file of this size is there, of a time no further off than the tolerance, either way. */
  predicate AlreadyThere(dst: map<Path, FileOnDisk>, p: Path, v: Version, tolerance: nat) {
    p in dst && |dst[p].bytes| == v.size && dst[p].mtime - v.mtime <= tolerance && v.mtime - dst[p].mtime <= tolerance
  }

  const NOTHING_DONE: Tally := Tally(0, 0, 0, 0, 0, OutOfSpace)

  ghost predicate NothingDue(rows: Rows, now: int) {
    forall k | k in rows && rows[k].state.Pending? :: now < rows[k].nextAttempt
  }

  lemma NotDueEarlier(rows: Rows, start: int, now: int)
    requires start <= now && forall k :: !Due(rows, k, now)
    ensures NothingDue(rows, start) && NothingDue(rows, now)
  {
    forall k | k in rows && rows[k].state.Pending? ensures now < rows[k].nextAttempt {
      assert !Due(rows, k, now);
    }
  }

  /** Nothing is runnable now: wait for the next backing-off row, unless it is too far off. */
  method AwaitRetry(table: JT.JobTable, now: int, later: int) returns (wake: Option<int>)
    requires 0 <= now <= later && forall k :: !Due(table.rows, k, now)
    ensures wake.Some? <==> exists k | k in table.rows && table.rows[k].state == Pending ::
                              && later < table.rows[k].nextAttempt <= later + 2 * 60 * 1000
                              && forall j | j in table.rows && table.rows[j].state == Pending && 0 < table.rows[j].nextAttempt ::
                                   table.rows[k].nextAttempt <= table.rows[j].nextAttempt
    ensures wake.Some? ==> now <= wake.value && exists k :: Due(table.rows, k, wake.value)
    ensures NothingDue(table.rows, now)
  {
    forall k | k in table.rows && table.rows[k].state.Pending? ensures now < table.rows[k].nextAttempt {
      assert !Due(table.rows, k, now);
    }
    var next := table.NextAttempt();
    if next.Never? || next.at <= later || later + MAX_RETRY_WAIT < next.at {
      return None;
    }
    ghost var due :| due in table.rows && table.rows[due].state.Pending? && table.rows[due].nextAttempt == next.at;
    var woken :| next.at <= woken;
    assert Due(table.rows, due, woken);
    return Some(woken);
  }

  const MAX_RETRY_WAIT: int := 120_000
  const MAX_CONSECUTIVE_FAILURES: int := 5

  datatype Ending = Drained | Cancelled | OutOfSpace | TooManyFailures
  
  /** What a run did so far, and why it ended. */
  datatype Tally = Tally(files: nat, inPlace: nat, failed: nat, retrying: nat, consecutive: nat, ending: Ending)

  ghost function InState(rows: Rows, state: JobState): set<nat> {
    set k | k in rows && rows[k].state == state
  }

  lemma RequeueKeepsSettled(rows: Rows, now: int)
    ensures InState(Requeued(rows, now), Done) == InState(rows, Done)
    ensures InState(Requeued(rows, now), Failed) == InState(rows, Failed)
  {}

  /** How one attempt at a claimed row ended. */
  datatype Outcome = Transferred | InPlace | Interrupted | NoSpace | Retrying | GaveUp

  ghost predicate Settled(rows: Rows, rows': Rows, k: nat, out: Outcome, maxAttempts: nat) {
    && k in rows && rows'.Keys == rows.Keys
    && (forall j | j in rows && j != k :: rows'[j] == rows[j])
    && match out
       case Transferred => rows'[k].state.Done?
       case InPlace => rows'[k].state.Done?
       case Interrupted => rows'[k].state.Pending? && rows'[k].attempts + 1 == rows[k].attempts
       case NoSpace => rows'[k].state.Pending? && rows'[k].attempts + 1 == rows[k].attempts
       case Retrying => rows'[k].state.Pending? && rows'[k].attempts == rows[k].attempts < maxAttempts
       case GaveUp => rows'[k].state.Failed? && maxAttempts <= rows'[k].attempts == rows[k].attempts
  }

  function Tallied(t: Tally, out: Outcome): Tally {
    match out
    case Transferred => t.(files := t.files + 1, consecutive := 0)
    case InPlace => t.(inPlace := t.inPlace + 1, consecutive := 0)
    case Interrupted => t.(ending := Cancelled)
    case NoSpace => t.(ending := OutOfSpace)
    case Retrying =>
      var c := t.consecutive + 1;
      t.(retrying := t.retrying + 1, consecutive := c, ending := if MAX_CONSECUTIVE_FAILURES <= c then TooManyFailures else t.ending)
    case GaveUp =>
      var c := t.consecutive + 1;
      t.(failed := t.failed + 1, consecutive := c, ending := if MAX_CONSECUTIVE_FAILURES <= c then TooManyFailures else t.ending)
  }

  /** Whether a run stops after this attempt. */
  predicate Ends(out: Outcome, t: Tally) { out.Interrupted? || out.NoSpace? || MAX_CONSECUTIVE_FAILURES <= t.consecutive }

  /** Fewer than five failures in a row so far. */
  predicate GoesOn(t: Tally) { t.consecutive < 5 && !t.ending.TooManyFailures? }

  /** It stopped for failing exactly when five attempts failed in a row. */
  predicate StopsAtFive(t: Tally) { t.consecutive <= 5 && (t.ending.TooManyFailures? <==> t.consecutive == 5) }

  lemma EndingIsNamed(t: Tally, out: Outcome)
    requires GoesOn(t)
    ensures var t' := Tallied(t, out);
            if Ends(out, t') then !t'.ending.Drained? && StopsAtFive(t') else !out.Interrupted? && !out.NoSpace? && GoesOn(t')
  {}

  /** The tally counts the rows that reached done and the rows that were given up. */
  ghost predicate Counted(rows: Rows, rows': Rows, t: Tally) {
    && |InState(rows', Done)| == |InState(rows, Done)| + t.files + t.inPlace
    && |InState(rows', Failed)| == |InState(rows, Failed)| + t.failed
    && t.consecutive <= t.failed + t.retrying
    && (t.ending.TooManyFailures? ==> 5 <= t.failed + t.retrying)
  }

  lemma InStateAfter(rows: Rows, rows': Rows, k: nat, state: JobState)
    requires k in rows && rows[k].state != state && rows'.Keys == rows.Keys
    requires forall j | j in rows && j != k :: rows'[j] == rows[j]
    ensures |InState(rows', state)| == |InState(rows, state)| + (if rows'[k].state == state then 1 else 0)
  {
    OneMore(InState(rows, state), InState(rows', state), k);
  }

  lemma OneMore(a: set<nat>, b: set<nat>, k: nat)
    requires k !in a && forall j | j != k :: j in a <==> j in b
    ensures |b| == |a| + (if k in b then 1 else 0)
  {
    assert b - {k} == a;
  }

  /** One claim and its settlement: the tally follows the row, and unless the run ends here budget was spent. */
  lemma ClaimSettled(rows: Rows, rows': Rows, k: nat, now: int, out: Outcome, maxAttempts: nat, was: Rows, t: Tally)
    requires Due(rows, k, now) && Settled(Claimed(rows, k, now), rows', k, out, maxAttempts) && Counted(was, rows, t)
    ensures Counted(was, rows', Tallied(t, out))
    ensures !out.Interrupted? && !out.NoSpace? ==> Budget(rows', maxAttempts) < Budget(rows, maxAttempts)
    ensures out.Interrupted? || out.NoSpace? ==> rows'[k].attempts == rows[k].attempts
    ensures NoneInFlight(rows) ==> NoneInFlight(rows')
  {
    InStateAfter(rows, rows', k, Done);
    InStateAfter(rows, rows', k, Failed);
    if !out.Interrupted? && !out.NoSpace? {
      SettledClaimSpendsBudget(rows, rows', k, maxAttempts);
    }
  }
}
