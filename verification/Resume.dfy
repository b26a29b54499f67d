/** Crash-safe resume: what every step of the transfer machine keeps, and what that means for whole runs. */
module Resume {
  import opened Base
  import opened Jobs
  import opened Machine

  // ---------------------------------------------------------------- the invariant

  /** The watermark of a row is in range and the partial file is the publisher's below it. */
  ghost predicate Sound(s: Sys, j: Job, pub: Publisher) {
    && 0 <= j.bytesDone <= j.version.size
    && Agrees(PartOf(s, j.path), j.bytesDone, pub.content(j.path, j.version))
  }

  /** What each chunk has received so far is in the file. */
  ghost predicate Received(part: Bytes, round: seq<Chunk>, got: seq<nat>, c: Bytes) {
    && |got| == |round|
    && (forall i | 0 <= i < |round| :: got[i] <= round[i].len)
    && (forall i, x: nat | Arrived(round, got, i, x) :: x < |part| && x < |c| && part[x] == c[x])
  }

  predicate Arrived(round: seq<Chunk>, got: seq<nat>, i: int, x: nat) {
    0 <= i < |round| && i < |got| && round[i].off <= x < round[i].off + got[i]
  }

  /** The file is good up to the mark, and above it where chunks have arrived. */
  ghost predicate Filling(part: Bytes, mark: nat, round: seq<Chunk>, got: seq<nat>, c: Bytes) {
    mark <= |part| && Agrees(part, mark, c) && Received(part, round, got, c)
  }

  ghost predicate PhaseInv(s: Sys, a: Attempt, row: Job, o: Options, pub: Publisher)
    requires o.Filled()
  {
    var p, v := a.job.path, a.job.version;
    var part, c := PartOf(s, p), pub.content(p, v);
    match a.phase
    case Begun => Sound(s, row, pub) && row.bytesDone == a.job.bytesDone
    case Opened(from) =>
      && p in s.parts && Sound(s, row, pub) && row.bytesDone == a.job.bytesDone
      && from <= |part| && from <= row.bytesDone
    case Fetching(mark, got) =>
      && p in s.parts && mark <= row.bytesDone <= v.size
      && (row.bytesDone == mark || row.bytesDone == a.job.bytesDone)
      && Filling(part, mark, RoundAt(o, mark, v.size), got, c)
    case Stopped => Sound(s, row, pub)
    case Checking => p in s.parts && Sound(s, row, pub) && row.bytesDone == v.size <= |part|
    case Sized => p in s.parts && Sound(s, row, pub) && part == c
    case Moved => p !in s.parts && Sound(s, row, pub) && p in s.dst && s.dst[p] == FileOnDisk(c, v.mtime)
    case Recorded => Sound(s, row, pub) && p in s.dst && s.dst[p].bytes == c
  }

  ghost predicate AttemptInv(s: Sys, o: Options, pub: Publisher)
    requires o.Filled()
  {
    s.att.Some? ==>
      var a := s.att.value;
      && a.k in s.rows
      && s.rows[a.k].path == a.job.path && s.rows[a.k].version == a.job.version
      && (s.rows[a.k].state.Running? || s.rows[a.k].state.Verifying?)
      && PhaseInv(s, a, s.rows[a.k], o, pub)
  }

  /** Every row nobody is working on may be resumed. */
  ghost predicate RowsSound(s: Sys, pub: Publisher) {
    forall k | k in s.rows && Live(s.rows[k]) && !InFlight(s, k) :: Sound(s, s.rows[k], pub)
  }

  /** Every unfinished row asks for a version the publisher had. */
  ghost predicate RowsHad(rows: Rows, pub: Publisher) {
    forall k | k in rows && Live(rows[k]) :: pub.had(rows[k].path, rows[k].version)
  }

  ghost predicate DestinationsIdentified(s: Sys, o: Options, pub: Publisher) {
    forall p | p in s.dst :: Identified(s.dst[p], p, pub, o)
  }

  ghost predicate Inv(s: Sys, o: Options, pub: Publisher) {
    && o.Filled() && Identifies(pub, o)
    && OneLivePerPath(s.rows)
    && RowsHad(s.rows, pub) && RowsSound(s, pub)
    && AttemptInv(s, o, pub)
    && DestinationsIdentified(s, o, pub)
  }

  /** A round of a single chunk into a file that reaches exactly as far as it has come: nothing can be missing below. */
  ghost predicate Streaming(s: Sys, o: Options)
    requires o.Filled()
  {
    && FetchingNow(s) && |s.att.value.phase.got| == 1 && |CurrentRound(s, o)| == 1
    && |PartOf(s, s.att.value.job.path)| == s.att.value.phase.mark + s.att.value.phase.got[0]
  }

  /** A fetch whose stored watermark is not ahead of what it has, or that writes one stream: a process may die here. */
  ghost predicate SafeToDie(s: Sys, o: Options)
    requires o.Filled()
  {
    FetchingNow(s) ==> s.rows[s.att.value.k].bytesDone <= s.att.value.phase.mark || Streaming(s, o)
  }

  // ---------------------------------------------------------------- every step keeps it

  lemma EnqueueKeepsRows(s: Sys, k: nat, p: Path, op: Op, v: Version, now: int, pub: Publisher)
    requires s.att.None? && OneLivePerPath(s.rows) && RowsSound(s, pub) && RowsHad(s.rows, pub)
    requires Target(s.rows, p, k) && pub.had(p, v)
    ensures RowsSound(s.(rows := Enqueued(s.rows, k, p, op, v, now)), pub) && RowsHad(Enqueued(s.rows, k, p, op, v, now), pub)
  {
    var s' := s.(rows := Enqueued(s.rows, k, p, op, v, now));
    EnqueueLeavesOneOpenRow(s.rows, k, p, op, v, now);
    assert k in s.rows ==> Live(s.rows[k]) && Sound(s, s.rows[k], pub);
    forall j | j in s'.rows && Live(s'.rows[j]) ensures Sound(s', s'.rows[j], pub) && pub.had(s'.rows[j].path, s'.rows[j].version) {
      if j != k { assert Sound(s, s.rows[j], pub); }
    }
  }

  lemma EnqueueKeeps(s: Sys, k: nat, p: Path, op: Op, v: Version, now: int, o: Options, pub: Publisher)
    requires Inv(s, o, pub) && CanEnqueue(s, k, p) && pub.had(p, v)
    ensures Inv(DoEnqueue(s, k, p, op, v, now), o, pub)
  {
    var rows := Enqueued(s.rows, k, p, op, v, now);
    EnqueueLeavesOneOpenRow(s.rows, k, p, op, v, now);
    EnqueueKeepsRows(s, k, p, op, v, now, pub);
    assert RowsSound(s.(rows := rows), pub) ==> RowsSound(DoEnqueue(s, k, p, op, v, now), pub);
  }

  lemma ClaimKeeps(s: Sys, k: nat, now: int, o: Options, pub: Publisher)
    requires Inv(s, o, pub) && CanClaim(s, k, now)
    ensures Inv(DoClaim(s, k, now), o, pub)
  {
    var s' := DoClaim(s, k, now);
    forall j | j in s'.rows && Live(s'.rows[j]) && !InFlight(s', j) ensures Sound(s', s'.rows[j], pub) {
      assert Sound(s, s.rows[j], pub);
    }
    assert Sound(s, s.rows[k], pub);
  }

  lemma DropFailedKeeps(s: Sys, since: int, o: Options, pub: Publisher)
    requires Inv(s, o, pub) && s.att.None?
    ensures Inv(DoDropFailed(s, since), o, pub)
  {
    var s' := DoDropFailed(s, since);
    forall j | j in s'.rows && Live(s'.rows[j]) && !InFlight(s', j) ensures Sound(s', s'.rows[j], pub) {
      assert Sound(s, s.rows[j], pub);
    }
  }

  lemma RequeueKeeps(s: Sys, now: int, o: Options, pub: Publisher)
    requires Inv(s, o, pub) && s.att.None?
    ensures Inv(DoRequeue(s, now), o, pub)
  {
    var s' := DoRequeue(s, now);
    forall j | j in s'.rows && Live(s'.rows[j]) && !InFlight(s', j) ensures Sound(s', s'.rows[j], pub) {
      assert Sound(s, s.rows[j], pub);
    }
  }

  lemma ShortenKeeps(s: Sys, p: Path, n: nat, o: Options, pub: Publisher)
    requires Inv(s, o, pub) && Untouched(s, p) && n < |PartOf(s, p)|
    ensures Inv(DoShorten(s, p, n), o, pub)
  {
    var s' := DoShorten(s, p, n);
    forall j | j in s'.rows && Live(s'.rows[j]) && !InFlight(s', j) ensures Sound(s', s'.rows[j], pub) {
      assert Sound(s, s.rows[j], pub);
    }
  }

  lemma LoseKeeps(s: Sys, p: Path, o: Options, pub: Publisher)
    requires Inv(s, o, pub) && Untouched(s, p)
    ensures Inv(DoLose(s, p), o, pub)
  {
    var s' := DoLose(s, p);
    forall j | j in s'.rows && Live(s'.rows[j]) && !InFlight(s', j) ensures Sound(s', s'.rows[j], pub) {
      assert Sound(s, s.rows[j], pub);
    }
  }

  lemma OutsideKeeps(s: Sys, p: Path, f: Option<FileOnDisk>, o: Options, pub: Publisher)
    requires Inv(s, o, pub) && Untouched(s, p)
    requires f.Some? ==> Identified(f.value, p, pub, o)
    ensures Inv(DoOutside(s, p, f), o, pub)
  {
    var s' := DoOutside(s, p, f);
    forall j | j in s'.rows && Live(s'.rows[j]) && !InFlight(s', j) ensures Sound(s', s'.rows[j], pub) {
      assert Sound(s, s.rows[j], pub);
    }
  }

  /** A step of the attempt touches one row and one path; the other rows keep what they had. */
  lemma OthersKeep(s: Sys, s': Sys, k: nat, o: Options, pub: Publisher)
    requires Inv(s, o, pub) && InFlight(s, k)
    requires s'.rows.Keys == s.rows.Keys && s'.rows[k].path == s.rows[k].path
    requires forall j | j in s.rows && j != k :: s'.rows[j] == s.rows[j]
    requires forall p | p != s.rows[k].path :: PartOf(s', p) == PartOf(s, p)
    ensures OneLivePerPath(s'.rows)
    ensures forall j | j in s'.rows && j != k && Live(s'.rows[j]) :: Sound(s', s'.rows[j], pub)
  {
    forall j | j in s'.rows && j != k && Live(s'.rows[j]) ensures Sound(s', s'.rows[j], pub) {
      assert Sound(s, s.rows[j], pub);
    }
  }

  lemma AdoptKeeps(s: Sys, o: Options, pub: Publisher)
    requires Inv(s, o, pub) && CanAdopt(s, o)
    ensures Inv(DoRecord(s), o, pub)
  {
    var s' := DoRecord(s);
    OthersKeep(s, s', s.att.value.k, o, pub);
    assert Identified(s.dst[s.att.value.job.path], s.att.value.job.path, pub, o);
  }

  lemma OpenKeeps(s: Sys, o: Options, pub: Publisher)
    requires Inv(s, o, pub) && CanOpen(s, o)
    ensures Inv(DoOpen(s), o, pub)
  {
    var s' := DoOpen(s);
    OthersKeep(s, s', s.att.value.k, o, pub);
  }

  lemma BeginKeeps(s: Sys, o: Options, pub: Publisher)
    requires Inv(s, o, pub) && CanBegin(s)
    ensures Inv(DoBegin(s, o), o, pub)
  {
    var s' := DoBegin(s, o);
    OthersKeep(s, s', s.att.value.k, o, pub);
  }

  /** A complete round extends the good prefix to its end. */
  lemma RoundFills(part: Bytes, mark: nat, total: nat, got: seq<nat>, o: Options, c: Bytes)
    requires o.Filled() && mark < total == |c| && mark <= |part|
    requires Agrees(part, mark, c)
    requires var round := RoundAt(o, mark, total);
             Received(part, round, got, c) && forall i | 0 <= i < |round| :: got[i] == round[i].len
    ensures var end := RoundEnd(o, mark, total); mark < end <= total && end <= |part| && Agrees(part, end, c)
  {
    var end := RoundEnd(o, mark, total);
    var round := RoundAt(o, mark, total);
    RoundBounds(o, mark, total);
    forall x: nat | mark <= x < end ensures x < |part| && part[x] == c[x] {
      var i := TilesCover(round, mark, end, x);
      assert Arrived(round, got, i, x);
    }
    var last: nat := end - 1;
    var i := TilesCover(round, mark, end, last);
    assert Arrived(round, got, i, last);
  }

  lemma EndRoundKeeps(s: Sys, now: int, o: Options, pub: Publisher)
    requires Inv(s, o, pub) && o.Filled() && CanEndRound(s, o)
    ensures Inv(DoEndRound(s, o, now), o, pub)
  {
    var s' := DoEndRound(s, o, now);
    OthersKeep(s, s', s.att.value.k, o, pub);
    var a := s.att.value;
    RoundFills(PartOf(s, a.job.path), a.phase.mark, Total(s), a.phase.got, o, Source(s, pub));
  }

  lemma AboveMark(o: Options, mark: nat, total: nat, i: nat)
    requires o.Filled() && i < |RoundAt(o, mark, total)|
    ensures mark <= RoundAt(o, mark, total)[i].off
  {
    if mark <= total { RoundBounds(o, mark, total); }
  }

  lemma GrownArrived(round: seq<Chunk>, got: seq<nat>, i: nat, n: nat, j: int, x: nat)
    requires i < |round| && i < |got| && Arrived(round, Grown(got, i, n), j, x)
    ensures Arrived(round, got, j, x) || round[i].off + got[i] <= x < round[i].off + got[i] + n
  {}

  /** Receiving part of one chunk leaves the prefix and the other chunks as they were. */
  lemma ReceiveFits(part: Bytes, mark: nat, round: seq<Chunk>, got: seq<nat>, i: nat, n: nat, c: Bytes)
    requires Filling(part, mark, round, got, c)
    requires i < |round| && mark <= round[i].off && got[i] + n <= round[i].len && round[i].off + round[i].len <= |c|
    ensures var off := round[i].off + got[i];
            var part' := WriteAt(part, off, c[off..off + n]);
            Filling(part', mark, round, Grown(got, i, n), c)
  {
    var off := round[i].off + got[i];
    var part' := WriteAt(part, off, c[off..off + n]);
    WriteAtBytes(part, off, c[off..off + n]);
    forall j, x: nat | Arrived(round, Grown(got, i, n), j, x) ensures x < |part'| && x < |c| && part'[x] == c[x] {
      GrownArrived(round, got, i, n, j, x);
    }
  }

  lemma ReceiveKeepsAttempt(s: Sys, c: nat, n: nat, o: Options, pub: Publisher)
    requires o.Filled() && AttemptInv(s, o, pub) && CanReceive(s, o, pub, c, n)
    ensures AttemptInv(DoReceive(s, o, pub, c, n), o, pub)
  {
    var a, s' := s.att.value, DoReceive(s, o, pub, c, n);
    var mark, got, part := a.phase.mark, a.phase.got, s.parts[a.job.path];
    var off := CurrentRound(s, o)[c].off + got[c];
    AboveMark(o, mark, Total(s), c);
    ReceiveFits(part, mark, CurrentRound(s, o), got, c, n, Source(s, pub));
    assert s'.att.value.phase == Fetching(mark, Grown(got, c, n)) && s'.rows == s.rows;
    assert PartOf(s', a.job.path) == WriteAt(part, off, Source(s, pub)[off..off + n]);
  }

  lemma ReceiveKeeps(s: Sys, c: nat, n: nat, o: Options, pub: Publisher)
    requires Inv(s, o, pub) && o.Filled() && CanReceive(s, o, pub, c, n)
    ensures Inv(DoReceive(s, o, pub, c, n), o, pub)
  {
    var s' := DoReceive(s, o, pub, c, n);
    OthersKeep(s, s', s.att.value.k, o, pub);
    ReceiveKeepsAttempt(s, c, n, o, pub);
  }

  lemma StopKeeps(s: Sys, now: int, o: Options, pub: Publisher)
    requires Inv(s, o, pub) && FetchingNow(s)
    ensures Inv(DoStop(s, now), o, pub)
  {
    var s' := DoStop(s, now);
    OthersKeep(s, s', s.att.value.k, o, pub);
  }

  lemma VerifyKeeps(s: Sys, now: int, o: Options, pub: Publisher)
    requires Inv(s, o, pub) && CanVerify(s)
    ensures Inv(DoVerify(s, now), o, pub)
  {
    var s' := DoVerify(s, now);
    OthersKeep(s, s', s.att.value.k, o, pub);
  }

  lemma TruncateKeeps(s: Sys, o: Options, pub: Publisher)
    requires Inv(s, o, pub) && CanTruncate(s)
    ensures Inv(DoTruncate(s), o, pub)
  {
    var s' := DoTruncate(s);
    OthersKeep(s, s', s.att.value.k, o, pub);
    assert s'.parts[s.att.value.job.path] == Source(s, pub);
  }

  lemma MoveKeeps(s: Sys, o: Options, pub: Publisher)
    requires Inv(s, o, pub) && CanMove(s)
    ensures Inv(DoMove(s), o, pub)
  {
    var s' := DoMove(s);
    OthersKeep(s, s', s.att.value.k, o, pub);
    var p, v := s.att.value.job.path, s.att.value.job.version;
    forall w | pub.had(p, w) && Matches(s'.dst[p], w, o.tolerance) ensures s'.dst[p].bytes == pub.content(p, w) {
      assert pub.content(p, v) == pub.content(p, w);
    }
  }

  lemma RecordKeeps(s: Sys, o: Options, pub: Publisher)
    requires Inv(s, o, pub) && CanRecord(s)
    ensures Inv(DoRecord(s), o, pub)
  {
    var s' := DoRecord(s);
    OthersKeep(s, s', s.att.value.k, o, pub);
  }

  lemma FinishKeeps(s: Sys, now: int, o: Options, pub: Publisher)
    requires Inv(s, o, pub) && CanFinish(s)
    ensures Inv(DoFinish(s, now), o, pub)
  {
    var s' := DoFinish(s, now);
    OthersKeep(s, s', s.att.value.k, o, pub);
  }

  lemma FailKeeps(s: Sys, wait: int, now: int, o: Options, pub: Publisher)
    requires Inv(s, o, pub) && CanSettle(s)
    ensures Inv(DoFail(s, o, wait, now), o, pub)
  {
    var s' := DoFail(s, o, wait, now);
    OthersKeep(s, s', s.att.value.k, o, pub);
    assert Sound(s, s.rows[s.att.value.k], pub);
  }

  lemma ReleaseKeeps(s: Sys, now: int, o: Options, pub: Publisher)
    requires Inv(s, o, pub) && CanSettle(s)
    ensures Inv(DoRelease(s, now), o, pub)
  {
    var s' := DoRelease(s, now);
    OthersKeep(s, s', s.att.value.k, o, pub);
    assert Sound(s, s.rows[s.att.value.k], pub);
  }

  lemma StreamIsSound(s: Sys, o: Options, pub: Publisher)
    requires Inv(s, o, pub) && o.Filled() && Streaming(s, o)
    ensures Sound(s, s.rows[s.att.value.k], pub)
  {
    var a := s.att.value;
    var round, part, c := CurrentRound(s, o), PartOf(s, a.job.path), Source(s, pub);
    RoundBounds(o, a.phase.mark, Total(s));
    forall x: nat | x < |part| && x < |c| ensures part[x] == c[x] {
      if a.phase.mark <= x { assert Arrived(round, a.phase.got, 0, x); }
    }
  }

  lemma DieKeeps(s: Sys, o: Options, pub: Publisher)
    requires Inv(s, o, pub) && o.Filled() && s.att.Some? && SafeToDie(s, o)
    ensures Inv(DoDie(s), o, pub)
  {
    var s' := DoDie(s);
    OthersKeep(s, s', s.att.value.k, o, pub);
    if FetchingNow(s) && s.att.value.phase.mark < s.rows[s.att.value.k].bytesDone { StreamIsSound(s, o, pub); }
    assert Sound(s, s.rows[s.att.value.k], pub);
  }

  lemma IdleStepKeeps(s: Sys, st: Step, o: Options, pub: Publisher)
    requires o.Filled() && Inv(s, o, pub) && Enabled(s, st, o, pub)
    requires Idles(st)
    ensures Inv(Apply(s, st, o, pub), o, pub)
  {
    match st
    case Enqueue(k, p, op, v, now) => EnqueueKeeps(s, k, p, op, v, now, o, pub);
    case DropFailed(since) => DropFailedKeeps(s, since, o, pub);
    case Requeue(now) => RequeueKeeps(s, now, o, pub);
    case Claim(k, now) => ClaimKeeps(s, k, now, o, pub);
    case Shorten(p, n) => ShortenKeeps(s, p, n, o, pub);
    case Lose(p) => LoseKeeps(s, p, o, pub);
    case Outside(p, f) => OutsideKeeps(s, p, f, o, pub);
  }

  /** A step that plans, as opposed to one that transfers. */
  predicate Plans(st: Step) { st.Enqueue? || st.DropFailed? }

  predicate Idles(st: Step) { st.Enqueue? || st.DropFailed? || st.Requeue? || st.Claim? || st.Shorten? || st.Lose? || st.Outside? }
  predicate Fetches(st: Step) { st.OpenPart? || st.BeginFetch? || st.Receive? || st.RoundDone? || st.StopFetch? }
  predicate Lands(st: Step) { st.Adopt? || st.Verify? || st.Truncate? || st.Move? || st.Record? || st.Finish? }
  predicate Settles(st: Step) { st.Fail? || st.Release? || st.Die? }

  lemma FetchStepKeeps(s: Sys, st: Step, o: Options, pub: Publisher)
    requires o.Filled() && Inv(s, o, pub) && Enabled(s, st, o, pub) && Fetches(st)
    ensures Inv(Apply(s, st, o, pub), o, pub)
  {
    match st
    case OpenPart => OpenKeeps(s, o, pub);
    case BeginFetch => BeginKeeps(s, o, pub);
    case Receive(c, n) => ReceiveKeeps(s, c, n, o, pub);
    case RoundDone(now) => EndRoundKeeps(s, now, o, pub);
    case StopFetch(now) => StopKeeps(s, now, o, pub);
  }

  lemma LandStepKeeps(s: Sys, st: Step, o: Options, pub: Publisher)
    requires o.Filled() && Inv(s, o, pub) && Enabled(s, st, o, pub) && Lands(st)
    ensures Inv(Apply(s, st, o, pub), o, pub)
  {
    match st
    case Adopt => AdoptKeeps(s, o, pub);
    case Verify(now) => VerifyKeeps(s, now, o, pub);
    case Truncate => TruncateKeeps(s, o, pub);
    case Move => MoveKeeps(s, o, pub);
    case Record => RecordKeeps(s, o, pub);
    case Finish(now) => FinishKeeps(s, now, o, pub);
  }

  lemma SettleStepKeeps(s: Sys, st: Step, o: Options, pub: Publisher)
    requires o.Filled() && Inv(s, o, pub) && Enabled(s, st, o, pub) && Settles(st)
    requires st.Die? ==> SafeToDie(s, o)
    ensures Inv(Apply(s, st, o, pub), o, pub)
  {
    match st
    case Fail(wait, now) => FailKeeps(s, wait, now, o, pub);
    case Release(now) => ReleaseKeeps(s, now, o, pub);
    case Die => DieKeeps(s, o, pub);
  }

  /** Every enabled step keeps the invariant, except a death that would leave the stored watermark
      ahead of the bytes: HoleUnderWatermark shows that one does not. */
  lemma StepKeeps(s: Sys, st: Step, o: Options, pub: Publisher)
    requires o.Filled() && Inv(s, o, pub) && Enabled(s, st, o, pub)
    requires st.Die? ==> SafeToDie(s, o)
    ensures Inv(Apply(s, st, o, pub), o, pub)
  {
    if Idles(st) {
      IdleStepKeeps(s, st, o, pub);
    } else if Fetches(st) {
      FetchStepKeeps(s, st, o, pub);
    } else if Lands(st) {
      LandStepKeeps(s, st, o, pub);
    } else {
      SettleStepKeeps(s, st, o, pub);
    }
  }

  /** Why a new version loses the watermark: for any tolerance there are two versions of one size, further apart in time,
      and a queue on which every row is resumable, but would not be if the row took the new version and kept its watermark. */
  lemma VersionChangeResets(o: Options, p: Path) returns (pub: Publisher, s: Sys, w: Version)
    requires o.Filled()
    ensures Inv(s, o, pub) && CanEnqueue(s, 1, p) && pub.had(p, w) && 1 in s.rows
    ensures s.rows[1].path == p && s.rows[1].version.size == w.size && s.rows[1].bytesDone == w.size
    ensures !Sound(s, s.rows[1].(version := w), pub)
    ensures Sound(s, Enqueued(s.rows, 1, p, Replace, w, 0)[1], pub)
  {
    var v := Version(1, 0);
    w := Version(1, o.tolerance + 1);
    pub := Publisher((q, u) => u == v || u == w, (q, u) => if u == v then [1] else [2]);
    var part: Bytes := [1];
    s := Sys(map[1 := Job(p, Add, v, 1, Pending, 0, 0, 0)], map[p := part], map[], map[], None, map[]);
    assert OpenFor(s.rows, p, 1);
    assert PartOf(s, p)[0] != pub.content(p, w)[0];
  }

  // ---------------------------------------------------------------- whole runs

  /** A run: the states and the step between each two. */
  datatype Run = Run(states: seq<Sys>, steps: seq<Step>)

  ghost predicate IsRun(r: Run, o: Options, pub: Publisher)
    requires o.Filled()
  {
    && |r.states| == |r.steps| + 1
    && forall i | 0 <= i < |r.steps| ::
         Enabled(r.states[i], r.steps[i], o, pub) && r.states[i + 1] == Apply(r.states[i], r.steps[i], o, pub)
  }

  /** An empty queue. Partial files of any content may lie around. */
  ghost predicate Initial(s: Sys, o: Options, pub: Publisher) {
    s.rows == map[] && s.att.None? && DestinationsIdentified(s, o, pub)
  }

  /** A download may be cut off anywhere when its partial file reaches the stored watermark, or when its first round is a
      single stream: the condition of SurvivesExactly. */
  ghost predicate MayOpen(s: Sys, o: Options)
    requires o.Filled() && s.att.Some?
  {
    var j := s.att.value.job;
    var part := PartOf(s, j.path);
    j.bytesDone <= |part| || |RoundAt(o, ResumeFrom(part, j), j.version.size)| == 1
  }

  /** Every download of the run starts so. */
  ghost predicate Watched(r: Run, o: Options)
    requires o.Filled() && |r.states| == |r.steps| + 1
  {
    forall i | 0 <= i < |r.steps| && r.steps[i].OpenPart? && r.states[i].att.Some? :: MayOpen(r.states[i], o)
  }

  predicate Unplanned(r: Run) { forall i | 0 <= i < |r.steps| :: !Plans(r.steps[i]) }

  predicate Deathless(r: Run) {
    forall i | 0 <= i < |r.steps| :: !r.steps[i].Die?
  }

  /** Where every download finds its watermark covered, a fetch never has it ahead of its bytes. */
  lemma WatchedStep(s: Sys, st: Step, o: Options, pub: Publisher)
    requires o.Filled() && Inv(s, o, pub) && Enabled(s, st, o, pub) && AheadInv(s)
    requires st.OpenPart? ==> s.att.value.job.bytesDone <= |PartOf(s, s.att.value.job.path)|
    ensures AheadInv(Apply(s, st, o, pub))
  {
  }

  ghost predicate AheadInv(s: Sys) {
    s.att.Some? && s.att.value.k in s.rows ==>
      var a := s.att.value;
      && (a.phase.Opened? ==> s.rows[a.k].bytesDone <= a.phase.from)
      && (a.phase.Fetching? ==> s.rows[a.k].bytesDone <= a.phase.mark)
  }

  /** In a watched run a fetch never has its stored watermark ahead of its bytes, unless it writes one stream. */
  ghost predicate ReadyInv(s: Sys, o: Options)
    requires o.Filled()
  {
    && (s.att.Some? && s.att.value.k in s.rows && s.att.value.phase.Opened? ==>
          var a := s.att.value;
          || s.rows[a.k].bytesDone <= a.phase.from
          || (|RoundAt(o, a.phase.from, a.job.version.size)| == 1 && |PartOf(s, a.job.path)| == a.phase.from))
    && SafeToDie(s, o)
  }

  lemma OpenReady(s: Sys, o: Options, pub: Publisher)
    requires o.Filled() && Inv(s, o, pub) && CanOpen(s, o) && MayOpen(s, o)
    ensures ReadyInv(DoOpen(s), o)
  {}

  lemma BeginReady(s: Sys, o: Options)
    requires o.Filled() && CanBegin(s) && s.att.value.k in s.rows && ReadyInv(s, o)
    ensures ReadyInv(DoBegin(s, o), o)
  {}

  lemma ReceiveReady(s: Sys, c: nat, n: nat, o: Options, pub: Publisher)
    requires o.Filled() && Inv(s, o, pub) && CanReceive(s, o, pub, c, n) && ReadyInv(s, o)
    ensures ReadyInv(DoReceive(s, o, pub, c, n), o)
  {
    var a := s.att.value;
    if Streaming(s, o) {
      RoundBounds(o, a.phase.mark, Total(s));
      var off := CurrentRound(s, o)[c].off + a.phase.got[c];
      WriteAtBytes(s.parts[a.job.path], off, Source(s, pub)[off..off + n]);
    }
  }

  lemma FetchStepReady(s: Sys, st: Step, o: Options, pub: Publisher)
    requires o.Filled() && Inv(s, o, pub) && Enabled(s, st, o, pub) && ReadyInv(s, o) && Fetches(st)
    requires st.OpenPart? ==> MayOpen(s, o)
    ensures ReadyInv(Apply(s, st, o, pub), o)
  {
    match st
    case OpenPart => OpenReady(s, o, pub);
    case BeginFetch => BeginReady(s, o);
    case Receive(c, n) => ReceiveReady(s, c, n, o, pub);
    case RoundDone(_) =>
    case StopFetch(_) =>
  }

  lemma OtherStepReady(s: Sys, st: Step, o: Options, pub: Publisher)
    requires o.Filled() && Inv(s, o, pub) && Enabled(s, st, o, pub) && ReadyInv(s, o) && !Fetches(st)
    ensures ReadyInv(Apply(s, st, o, pub), o)
  {}

  lemma ReadyStep(s: Sys, st: Step, o: Options, pub: Publisher)
    requires o.Filled() && Inv(s, o, pub) && Enabled(s, st, o, pub) && ReadyInv(s, o)
    requires st.OpenPart? ==> MayOpen(s, o)
    ensures ReadyInv(Apply(s, st, o, pub), o)
  {
    if Fetches(st) { FetchStepReady(s, st, o, pub); } else { OtherStepReady(s, st, o, pub); }
  }

  lemma {:induction false} RunKeeps(r: Run, o: Options, pub: Publisher, n: nat)
    requires o.Filled() && Identifies(pub, o) && IsRun(r, o, pub) && Initial(r.states[0], o, pub)
    requires Watched(r, o) || Deathless(r)
    requires n <= |r.steps|
    ensures Inv(r.states[n], o, pub) && (Watched(r, o) ==> ReadyInv(r.states[n], o))
  {
    if n > 0 {
      RunKeeps(r, o, pub, n - 1);
      if Watched(r, o) { ReadyStep(r.states[n - 1], r.steps[n - 1], o, pub); }
      StepKeeps(r.states[n - 1], r.steps[n - 1], o, pub);
    }
  }

  /** The job in flight ends done, and its destination is the publisher's exact bytes under the publisher's mtime row. */
  ghost predicate LandsExactly(s: Sys, s': Sys, pub: Publisher)
    requires s.att.Some?
  {
    var a := s.att.value;
    && a.k in s'.rows && s'.rows[a.k].state.Done? && s'.rows[a.k].version == a.job.version
    && a.job.path in s'.dst && s'.dst[a.job.path].bytes == pub.content(a.job.path, a.job.version)
  }

  /** Crash-safe resume. Over every run in which each download starts with a partial file at least as long as the
      stored watermark or with a round of one stream - processes may die anywhere - and over every run in which no process dies mid-attempt -
      partial files may be cut or removed from outside at any other time - every unfinished row stays resumable
      and every job that reaches done leaves the publisher's exact bytes. */
  lemma CrashSafeResume(r: Run, o: Options, pub: Publisher)
    requires o.Filled() && Identifies(pub, o) && IsRun(r, o, pub) && Initial(r.states[0], o, pub)
    requires Watched(r, o) || Deathless(r)
    ensures forall i | 0 <= i < |r.states| :: OneLivePerPath(r.states[i].rows) && RowsSound(r.states[i], pub)
    ensures forall i | 0 <= i < |r.steps| && r.steps[i].Finish? ::
              r.states[i].att.Some? && LandsExactly(r.states[i], r.states[i + 1], pub)
  {
    forall i | 0 <= i < |r.states| ensures OneLivePerPath(r.states[i].rows) && RowsSound(r.states[i], pub) {
      RunKeeps(r, o, pub, i);
    }
    forall i | 0 <= i < |r.steps| && r.steps[i].Finish?
      ensures r.states[i].att.Some? && LandsExactly(r.states[i], r.states[i + 1], pub)
    {
      RunKeeps(r, o, pub, i);
    }
  }

  // ---------------------------------------------------------------- runs nobody disturbs

  /** The watermark is covered by the partial file, or the destination already is the wanted version. */
  ghost predicate Reached(s: Sys, o: Options) {
    forall k | k in s.rows && Live(s.rows[k]) ::
      || s.rows[k].bytesDone <= |PartOf(s, s.rows[k].path)|
      || OnDisk(s, o, s.rows[k].path, s.rows[k].version)
  }

  /** While the partial file is in hand it is the file that covers the watermark. */
  ghost predicate InHand(s: Sys) {
    s.att.Some? && s.att.value.k in s.rows ==>
      var a := s.att.value;
      (a.phase.Opened? || a.phase.Fetching? || a.phase.Stopped? || a.phase.Checking? || a.phase.Sized?) ==>
        s.rows[a.k].bytesDone <= |PartOf(s, a.job.path)|
  }

  predicate Disturbs(st: Step) { st.Shorten? || st.Lose? || st.Outside? }

  lemma IdleStepReaches(s: Sys, st: Step, o: Options, pub: Publisher)
    requires Inv(s, o, pub) && o.Filled() && Enabled(s, st, o, pub) && Reached(s, o)
    requires st.Enqueue? || st.DropFailed? || st.Requeue? || st.Claim?
    ensures Reached(Apply(s, st, o, pub), o) && InHand(Apply(s, st, o, pub))
  {
    if st.Enqueue? { EnqueueReaches(s, st.k, st.path, st.op, st.v, st.now, o); }
  }

  lemma EnqueueReaches(s: Sys, k: nat, p: Path, op: Op, v: Version, now: int, o: Options)
    requires OneLivePerPath(s.rows) && CanEnqueue(s, k, p) && Reached(s, o)
    ensures Reached(DoEnqueue(s, k, p, op, v, now), o)
  {
    EnqueueLeavesOneOpenRow(s.rows, k, p, op, v, now);
  }

  lemma OthersReach(s: Sys, s': Sys, o: Options, pub: Publisher)
    requires Inv(s, o, pub) && Reached(s, o) && s.att.Some?
    requires var a := s.att.value;
             && s'.rows.Keys == s.rows.Keys && s'.rows[a.k].path == s.rows[a.k].path
             && (forall j | j in s.rows && j != a.k :: s'.rows[j] == s.rows[j])
             && (forall p | p != a.job.path :: PartOf(s', p) == PartOf(s, p))
             && (forall p | p != a.job.path :: p in s'.dst <==> p in s.dst)
             && (forall p | p != a.job.path && p in s.dst :: s'.dst[p] == s.dst[p])
    requires Live(s'.rows[s.att.value.k]) ==>
               || s'.rows[s.att.value.k].bytesDone <= |PartOf(s', s.att.value.job.path)|
               || OnDisk(s', o, s.att.value.job.path, s'.rows[s.att.value.k].version)
    ensures Reached(s', o)
  {}

  lemma ReceiveReaches(s: Sys, c: nat, n: nat, o: Options, pub: Publisher)
    requires Inv(s, o, pub) && o.Filled() && CanReceive(s, o, pub, c, n) && Reached(s, o) && InHand(s)
    ensures Reached(DoReceive(s, o, pub, c, n), o) && InHand(DoReceive(s, o, pub, c, n))
  {
    var a := s.att.value;
    var off := CurrentRound(s, o)[c].off + a.phase.got[c];
    WriteAtBytes(s.parts[a.job.path], off, Source(s, pub)[off..off + n]);
    OthersReach(s, DoReceive(s, o, pub, c, n), o, pub);
  }

  lemma EndRoundReaches(s: Sys, now: int, o: Options, pub: Publisher)
    requires Inv(s, o, pub) && o.Filled() && CanEndRound(s, o) && Reached(s, o)
    ensures Reached(DoEndRound(s, o, now), o) && InHand(DoEndRound(s, o, now))
  {
    var a := s.att.value;
    RoundFills(PartOf(s, a.job.path), a.phase.mark, Total(s), a.phase.got, o, Source(s, pub));
    OthersReach(s, DoEndRound(s, o, now), o, pub);
  }

  lemma OpenReaches(s: Sys, o: Options, pub: Publisher)
    requires Inv(s, o, pub) && CanOpen(s, o) && Reached(s, o)
    ensures Reached(DoOpen(s), o) && InHand(DoOpen(s))
    ensures s.att.value.job.bytesDone <= |PartOf(s, s.att.value.job.path)|
  {
    OthersReach(s, DoOpen(s), o, pub);
  }

  lemma LandingStepReaches(s: Sys, st: Step, o: Options, pub: Publisher)
    requires Inv(s, o, pub) && o.Filled() && Enabled(s, st, o, pub) && Reached(s, o) && InHand(s)
    requires st.Verify? || st.Truncate? || st.Move?
    ensures Reached(Apply(s, st, o, pub), o) && InHand(Apply(s, st, o, pub))
  {
    OthersReach(s, Apply(s, st, o, pub), o, pub);
  }

  lemma LandedStepReaches(s: Sys, st: Step, o: Options, pub: Publisher)
    requires Inv(s, o, pub) && o.Filled() && Enabled(s, st, o, pub) && Reached(s, o) && InHand(s)
    requires st.Adopt? || st.Record? || st.Finish?
    ensures Reached(Apply(s, st, o, pub), o) && InHand(Apply(s, st, o, pub))
  {
    OthersReach(s, Apply(s, st, o, pub), o, pub);
  }

  lemma TurningStepReaches(s: Sys, st: Step, o: Options, pub: Publisher)
    requires Inv(s, o, pub) && o.Filled() && Enabled(s, st, o, pub) && Reached(s, o) && InHand(s) && (st.BeginFetch? || st.StopFetch?)
    ensures Reached(Apply(s, st, o, pub), o) && InHand(Apply(s, st, o, pub))
  {
    OthersReach(s, Apply(s, st, o, pub), o, pub);
  }

  lemma SettlingStepReaches(s: Sys, st: Step, o: Options, pub: Publisher)
    requires Inv(s, o, pub) && o.Filled() && Enabled(s, st, o, pub) && Reached(s, o) && InHand(s) && AheadInv(s) && Settles(st)
    ensures Reached(Apply(s, st, o, pub), o) && InHand(Apply(s, st, o, pub))
  {
    OthersReach(s, Apply(s, st, o, pub), o, pub);
  }

  lemma StepReaches(s: Sys, st: Step, o: Options, pub: Publisher)
    requires Inv(s, o, pub) && o.Filled() && Enabled(s, st, o, pub) && Reached(s, o) && InHand(s) && AheadInv(s)
    requires !Disturbs(st)
    ensures Reached(Apply(s, st, o, pub), o) && InHand(Apply(s, st, o, pub))
    ensures st.OpenPart? ==> s.att.value.job.bytesDone <= |PartOf(s, s.att.value.job.path)|
  {
    if st.Enqueue? || st.DropFailed? || st.Requeue? || st.Claim? {
      IdleStepReaches(s, st, o, pub);
    } else if st.OpenPart? {
      OpenReaches(s, o, pub);
    } else if st.Receive? {
      ReceiveReaches(s, st.c, st.n, o, pub);
    } else if st.RoundDone? {
      EndRoundReaches(s, st.now, o, pub);
    } else if st.BeginFetch? || st.StopFetch? {
      TurningStepReaches(s, st, o, pub);
    } else if Settles(st) {
      SettlingStepReaches(s, st, o, pub);
    } else if st.Verify? || st.Truncate? || st.Move? {
      LandingStepReaches(s, st, o, pub);
    } else {
      LandedStepReaches(s, st, o, pub);
    }
  }

  lemma {:induction false} UndisturbedRunKeeps(r: Run, o: Options, pub: Publisher, n: nat)
    requires o.Filled() && Identifies(pub, o) && IsRun(r, o, pub) && Initial(r.states[0], o, pub)
    requires forall i | 0 <= i < |r.steps| :: !Disturbs(r.steps[i])
    requires n <= |r.steps|
    ensures Inv(r.states[n], o, pub) && AheadInv(r.states[n]) && Reached(r.states[n], o) && InHand(r.states[n])
  {
    if n > 0 {
      UndisturbedRunKeeps(r, o, pub, n - 1);
      StepReaches(r.states[n - 1], r.steps[n - 1], o, pub);
      WatchedStep(r.states[n - 1], r.steps[n - 1], o, pub);
      StepKeeps(r.states[n - 1], r.steps[n - 1], o, pub);
    }
  }

  /** With nobody else's hands on the files, deaths anywhere included: at every moment, for every unfinished row
      nobody works on, the first bytes_done bytes of the partial file are the publisher's, or the destination
      already is that version; and every job that reaches done leaves the publisher's exact bytes. */
  lemma UndisturbedResume(r: Run, o: Options, pub: Publisher)
    requires o.Filled() && Identifies(pub, o) && IsRun(r, o, pub) && Initial(r.states[0], o, pub)
    requires forall i | 0 <= i < |r.steps| :: !Disturbs(r.steps[i])
    ensures forall i, k | 0 <= i < |r.states| && k in r.states[i].rows && Live(r.states[i].rows[k]) && !InFlight(r.states[i], k) ::
              PrefixOrLanded(r.states[i], r.states[i].rows[k], pub)
    ensures forall i | 0 <= i < |r.steps| && r.steps[i].Finish? ::
              r.states[i].att.Some? && LandsExactly(r.states[i], r.states[i + 1], pub)
  {
    forall i, k | 0 <= i < |r.states| && k in r.states[i].rows && Live(r.states[i].rows[k]) && !InFlight(r.states[i], k)
      ensures PrefixOrLanded(r.states[i], r.states[i].rows[k], pub)
    {
      var s := r.states[i];
      var j := s.rows[k];
      UndisturbedRunKeeps(r, o, pub, i);
      assert Sound(s, j, pub);
      if OnDisk(s, o, j.path, j.version) {
        assert Identified(s.dst[j.path], j.path, pub, o);
      } else {
        assert PartOf(s, j.path)[..j.bytesDone] == pub.content(j.path, j.version)[..j.bytesDone];
      }
    }
    forall i | 0 <= i < |r.steps| && r.steps[i].Finish?
      ensures r.states[i].att.Some? && LandsExactly(r.states[i], r.states[i + 1], pub)
    {
      UndisturbedRunKeeps(r, o, pub, i);
    }
  }

  ghost predicate PrefixOrLanded(s: Sys, j: Job, pub: Publisher) {
    var part, c := PartOf(s, j.path), pub.content(j.path, j.version);
    || (0 <= j.bytesDone <= |part| && j.bytesDone <= |c| && part[..j.bytesDone] == c[..j.bytesDone])
    || (j.path in s.dst && s.dst[j.path].bytes == c)
  }

  // ---------------------------------------------------------------- the death that is not safe

  /** Receive steps on the bytes alone: chunk w.0 gets w.1 more bytes. */
  ghost predicate Writable(round: seq<Chunk>, got: seq<nat>, writes: seq<(nat, nat)>)
    decreases |writes|
  {
    writes == [] ||
      (var w := writes[0];
       w.0 < |round| && w.0 < |got| && got[w.0] + w.1 <= round[w.0].len && Writable(round, Grown(got, w.0, w.1), writes[1..]))
  }

  ghost function Fetched(part: Bytes, round: seq<Chunk>, got: seq<nat>, writes: seq<(nat, nat)>, c: Bytes): Bytes
    requires Writable(round, got, writes)
    requires forall i | 0 <= i < |round| :: round[i].off + round[i].len <= |c|
    decreases |writes|
  {
    if writes == [] then part
    else
      var w := writes[0];
      var off := round[w.0].off + got[w.0];
      Fetched(WriteAt(part, off, c[off..off + w.1]), round, Grown(got, w.0, w.1), writes[1..], c)
  }

  function NothingYet(round: seq<Chunk>): seq<nat> { seq(|round|, _ => 0) }

  /** A download that starts with len good bytes and a stored watermark of b may die anywhere in this round from mark. */
  ghost predicate Survives(round: seq<Chunk>, mark: nat, b: nat, len: nat, total: nat)
    requires forall i | 0 <= i < |round| :: round[i].off + round[i].len <= total
  {
    forall c: Bytes, part: Bytes, writes: seq<(nat, nat)> |
      |c| == total && |part| == len && Agrees(part, b, c) && Writable(round, NothingYet(round), writes) ::
      Agrees(Fetched(Cut(part, mark), round, NothingYet(round), writes, c), b, c)
  }

  lemma WriteAbove(part: Bytes, mark: nat, off: nat, data: Bytes, c: Bytes)
    requires Agrees(part, mark, c) && mark <= |part| && mark <= off
    ensures mark <= |WriteAt(part, off, data)| && Agrees(WriteAt(part, off, data), mark, c)
  {
    WriteAtBytes(part, off, data);
  }

  lemma {:induction false} FetchedAboveMark(part: Bytes, mark: nat, round: seq<Chunk>, got: seq<nat>, writes: seq<(nat, nat)>, c: Bytes)
    requires Writable(round, got, writes) && Agrees(part, mark, c) && mark <= |part|
    requires forall i | 0 <= i < |round| :: mark <= round[i].off && round[i].off + round[i].len <= |c|
    ensures Agrees(Fetched(part, round, got, writes, c), mark, c)
    decreases |writes|
  {
    if writes != [] {
      var w := writes[0];
      var off := round[w.0].off + got[w.0];
      WriteAbove(part, mark, off, c[off..off + w.1], c);
      FetchedAboveMark(WriteAt(part, off, c[off..off + w.1]), mark, round, Grown(got, w.0, w.1), writes[1..], c);
    }
  }

  lemma {:induction false} FetchedInOrder(part: Bytes, ch: Chunk, got: nat, writes: seq<(nat, nat)>, c: Bytes)
    requires Writable([ch], [got], writes) && ch.off + ch.len <= |c|
    requires |part| == ch.off + got && Agrees(part, |part|, c)
    ensures forall b: nat :: Agrees(Fetched(part, [ch], [got], writes, c), b, c)
    decreases |writes|
  {
    if writes != [] {
      var w := writes[0];
      var off := ch.off + got;
      WriteAtBytes(part, off, c[off..off + w.1]);
      assert Grown([got], 0, w.1) == [got + w.1];
      FetchedInOrder(WriteAt(part, off, c[off..off + w.1]), ch, got + w.1, writes[1..], c);
    }
  }

  /** Where a download of a job with watermark b resumes on a partial file of len bytes. */
  function Resumes(b: nat, len: nat): nat { if b <= len then b else len }

  /** Exactly when a death in the first round is harmless: the partial file reaches the stored watermark,
      or the round is a single stream, which cannot leave a hole. */
  lemma SurvivesExactly(o: Options, b: nat, len: nat, total: nat)
    requires o.Filled() && b <= total
    ensures var round := RoundAt(o, Resumes(b, len), total);
            && (forall i | 0 <= i < |round| :: round[i].off + round[i].len <= total)
            && (Survives(round, Resumes(b, len), b, len, total) <==> (b <= len || |round| == 1))
  {
    var from := Resumes(b, len);
    var round := RoundAt(o, from, total);
    RoundBounds(o, from, total);
    if b <= len || |round| == 1 {
      HarmlessRound(round, from, b, len, total);
    } else {
      TilesAt(round, from, RoundEnd(o, from, total), 0);
      var c, part := HoleBytes(round, b, len, total);
    }
  }

  lemma HarmlessRound(round: seq<Chunk>, mark: nat, b: nat, len: nat, total: nat)
    requires forall i | 0 <= i < |round| :: mark <= round[i].off && round[i].off + round[i].len <= total
    requires mark == Resumes(b, len) && (b <= len || (|round| == 1 && round[0].off == mark))
    ensures Survives(round, mark, b, len, total)
  {
    forall c: Bytes, part: Bytes, writes: seq<(nat, nat)> |
      |c| == total && |part| == len && Agrees(part, b, c) && Writable(round, NothingYet(round), writes)
      ensures Agrees(Fetched(Cut(part, mark), round, NothingYet(round), writes, c), b, c)
    {
      if b <= len {
        FetchedAboveMark(Cut(part, mark), mark, round, NothingYet(round), writes, c);
      } else {
        assert Cut(part, mark) == part && round == [round[0]] && NothingYet(round) == [0];
        FetchedInOrder(part, round[0], 0, writes, c);
      }
    }
  }

  lemma FetchedOne(part: Bytes, round: seq<Chunk>, got: seq<nat>, i: nat, n: nat, c: Bytes)
    requires i < |round| && i < |got| && got[i] + n <= round[i].len
    requires forall j | 0 <= j < |round| :: round[j].off + round[j].len <= |c|
    ensures Writable(round, got, [(i, n)])
    ensures var off := round[i].off + got[i]; Fetched(part, round, got, [(i, n)], c) == WriteAt(part, off, c[off..off + n])
  {
    assert [(i, n)][1..] == [];
    assert Writable(round, Grown(got, i, n), []);
  }

  /** A stretch of ones, cut short, and the second chunk's first byte: the byte where it was cut reads zero. */
  lemma HoleBytes(round: seq<Chunk>, b: nat, len: nat, total: nat) returns (c: Bytes, part: Bytes)
    requires len < b <= total && 2 <= |round| && len < round[1].off && 1 <= round[1].len
    requires forall j | 0 <= j < |round| :: round[j].off + round[j].len <= total
    ensures |c| == total && |part| == len && Agrees(part, b, c)
    ensures Writable(round, NothingYet(round), [(1, 1)])
    ensures !Agrees(Fetched(Cut(part, len), round, NothingYet(round), [(1, 1)], c), b, c)
  {
    c, part := seq(total, _ => 1), seq(len, _ => 1);
    var off := round[1].off;
    FetchedOne(Cut(part, len), round, NothingYet(round), 1, 1, c);
    WriteAtBytes(Cut(part, len), off, c[off..off + 1]);
    assert WriteAt(Cut(part, len), off, c[off..off + 1])[len] == 0 && c[len] == 1;
  }

  /** The same in the machine: a fetch that resumed below the stored watermark, a second chunk that arrives before
      the first, a death - and the row that is left vouches for a byte nobody ever wrote. */
  lemma HoleUnderWatermark(s: Sys, o: Options, pub: Publisher)
    requires o.Filled() && Inv(s, o, pub) && FetchingNow(s) && !SafeToDie(s, o)
    requires var a := s.att.value;
             && a.phase.mark == |PartOf(s, a.job.path)| && a.phase == FreshRound(o, a.phase.mark, Total(s))
             && 2 <= |CurrentRound(s, o)| && Source(s, pub)[a.phase.mark] != 0
    ensures CanReceive(s, o, pub, 1, 1)
    ensures var s' := DoDie(DoReceive(s, o, pub, 1, 1));
            && s'.att.None? && Live(s'.rows[s.att.value.k]) && !Sound(s', s'.rows[s.att.value.k], pub)
  {
    var a := s.att.value;
    var round := CurrentRound(s, o);
    RoundBounds(o, a.phase.mark, Total(s));
    TilesAt(round, a.phase.mark, RoundEnd(o, a.phase.mark, Total(s)), 0);
    var off := round[1].off;
    WriteAtBytes(PartOf(s, a.job.path), off, Source(s, pub)[off..off + 1]);
    var s' := DoDie(DoReceive(s, o, pub, 1, 1));
    assert PartOf(s', a.job.path)[a.phase.mark] == 0;
  }
}
