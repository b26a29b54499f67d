/** The transfer of one pair as a machine over its persisted effects (engine/transfer.go over store/jobs.go).
    Every step is one write that survives the process - a row, a stretch of a partial file, a rename -
    so a process may die between any two of them. */
module Machine {
  import opened Base
  import opened Jobs


  /** The publisher over time: which versions of a file he had, and what each of them holds. */
  datatype Publisher = Publisher(had: (Path, Version) -> bool, content: (Path, Version) -> Bytes)

  /** The engine's settings with their defaults filled in (engine/engine.go). */
  datatype Options = Options(chunks: nat, chunkSize: nat, maxAttempts: nat, tolerance: nat) {
    predicate Filled() { 1 <= chunks && 1 <= chunkSize && 1 <= maxAttempts }
  }

  // ---------------------------------------------------------------- rounds of chunks

  datatype Chunk = Chunk(off: nat, len: nat)

  /** The ranged requests of one round starting at the watermark. */
  function Round(mark: nat, total: nat, chunks: nat, size: nat): seq<Chunk>
    requires 1 <= size
    decreases chunks
  {
    if chunks == 0 || total <= mark then []
    else
      [Chunk(mark, if total - mark < size then total - mark else size)] + Round(mark + size, total, chunks - 1, size)
  }

  function RoundAt(o: Options, mark: nat, total: nat): seq<Chunk>
    requires o.Filled()
  {
    Round(mark, total, o.chunks, o.chunkSize)
  }

  /** The bytes so many whole chunks hold; ReachIs says it is their product. */
  function Reach(chunks: nat, size: nat): nat { if chunks == 0 then 0 else size + Reach(chunks - 1, size) }

  lemma {:induction false} ReachIs(chunks: nat, size: nat)
    ensures Reach(chunks, size) == chunks * size
  {
    if chunks != 0 {
      ReachIs(chunks - 1, size);
      assert chunks * size == (chunks - 1) * size + size;
    }
  }

  function EndOf(mark: nat, total: nat, reach: nat): nat { if total - mark <= reach then total else mark + reach }

  function RoundEnd(o: Options, mark: nat, total: nat): nat
    requires o.Filled()
  {
    EndOf(mark, total, Reach(o.chunks, o.chunkSize))
  }

  predicate Tiles(round: seq<Chunk>, from: nat, to: nat) {
    if round == [] then from == to
    else round[0].off == from && 1 <= round[0].len && Tiles(round[1..], from + round[0].len, to)
  }

  /** A round covers [mark, end) without a gap and without overlap. */
  lemma {:induction false} RoundTiles(mark: nat, total: nat, chunks: nat, size: nat)
    requires 1 <= size && mark <= total
    ensures Tiles(Round(mark, total, chunks, size), mark, EndOf(mark, total, Reach(chunks, size)))
    decreases chunks
  {
    var round := Round(mark, total, chunks, size);
    if chunks != 0 && mark < total {
      assert round[1..] == Round(mark + size, total, chunks - 1, size);
      if mark + size <= total {
        RoundTiles(mark + size, total, chunks - 1, size);
      } else {
        assert round[1..] == [];
      }
    }
  }

  lemma {:induction false} TilesAt(round: seq<Chunk>, from: nat, to: nat, i: nat)
    requires Tiles(round, from, to) && i < |round|
    ensures from <= round[i].off && 1 <= round[i].len && round[i].off + round[i].len <= to
    ensures forall j | i < j < |round| :: round[i].off + round[i].len <= round[j].off
    decreases |round|
  {
    if i == 0 {
      forall j | 0 < j < |round| ensures round[0].off + round[0].len <= round[j].off {
        TilesAt(round[1..], from + round[0].len, to, j - 1);
      }
      TilesEnd(round, from, to);
    } else {
      TilesAt(round[1..], from + round[0].len, to, i - 1);
      assert round[i] == round[1..][i - 1];
      forall j | i < j < |round| ensures round[i].off + round[i].len <= round[j].off {
        assert round[j] == round[1..][j - 1];
      }
    }
  }

  lemma {:induction false} TilesEnd(round: seq<Chunk>, from: nat, to: nat)
    requires Tiles(round, from, to)
    ensures from <= to && (round != [] ==> from + round[0].len <= to)
    decreases |round|
  {
    if round != [] { TilesEnd(round[1..], from + round[0].len, to); }
  }

  /** Every offset of a tiled stretch belongs to one of its chunks. */
  lemma {:induction false} TilesCover(round: seq<Chunk>, from: nat, to: nat, x: nat) returns (i: nat)
    requires Tiles(round, from, to) && from <= x < to
    ensures i < |round| && round[i].off <= x < round[i].off + round[i].len
    decreases |round|
  {
    if x < from + round[0].len {
      i := 0;
    } else {
      i := TilesCover(round[1..], from + round[0].len, to, x);
      i := i + 1;
    }
  }

  /** At most so many chunks, each as long as a chunk may be but for the last. */
  lemma {:induction false} RoundCuts(mark: nat, total: nat, chunks: nat, size: nat)
    requires 1 <= size
    ensures var round := Round(mark, total, chunks, size);
            && |round| <= chunks && (forall i | 0 <= i < |round| :: round[i].len <= size)
            && (forall i | 0 <= i < |round| - 1 :: round[i].len == size)
    decreases chunks
  {
    if chunks != 0 && mark < total {
      var rest := Round(mark + size, total, chunks - 1, size);
      RoundCuts(mark + size, total, chunks - 1, size);
      assert total <= mark + size ==> rest == [];
    }
  }

  /** Chunk by chunk the round reaches as far as its number of whole chunks, or the end of the file. */
  lemma RoundReaches(o: Options, mark: nat, total: nat)
    requires o.Filled() && mark <= total
    ensures RoundEnd(o, mark, total) == if mark + o.chunks * o.chunkSize < total then mark + o.chunks * o.chunkSize else total
  {
    ReachIs(o.chunks, o.chunkSize);
  }

  lemma RoundBounds(o: Options, mark: nat, total: nat)
    requires o.Filled() && mark <= total
    ensures var round, end := RoundAt(o, mark, total), RoundEnd(o, mark, total);
            && Tiles(round, mark, end) && end <= total
            && (mark < total ==> mark < end && round != [])
            && (forall i | 0 <= i < |round| ::
                  mark <= round[i].off && 1 <= round[i].len && round[i].off + round[i].len <= end)
  {
    var round, end := RoundAt(o, mark, total), RoundEnd(o, mark, total);
    assert 1 <= Reach(o.chunks, o.chunkSize);
    RoundTiles(mark, total, o.chunks, o.chunkSize);
    forall i: nat | i < |round| ensures mark <= round[i].off && 1 <= round[i].len && round[i].off + round[i].len <= end {
      TilesAt(round, mark, end, i);
    }
  }

  // ---------------------------------------------------------------- partial files

  function Zeros(n: nat): Bytes { seq(n, _ => 0) }

  /** A write at an offset; past the end it leaves a hole that reads as zeros. */
  function WriteAt(part: Bytes, off: nat, data: Bytes): Bytes {
    if data == [] then part
    else if |part| < off then part + Zeros(off - |part|) + data
    else if |part| <= off + |data| then part[..off] + data
    else part[..off] + data + part[off + |data|..]
  }

  lemma WriteAtBytes(part: Bytes, off: nat, data: Bytes)
    ensures var out := WriteAt(part, off, data);
            && |out| == (if data == [] || off + |data| <= |part| then |part| else off + |data|)
            && (forall x | off <= x < off + |data| :: out[x] == data[x - off])
            && (forall x | 0 <= x < |part| && (x < off || off + |data| <= x) :: out[x] == part[x])
            && (forall x | |part| <= x < off && x < |out| :: out[x] == 0)
  {}

  /** Whatever the file holds below n is the publisher's. */
  ghost predicate Agrees(part: Bytes, n: int, c: Bytes) {
    forall x | 0 <= x < n && x < |part| && x < |c| :: part[x] == c[x]
  }

  // ---------------------------------------------------------------- the state

  datatype Phase =
    | Begun                                    // claimed, nothing touched yet
    | Opened(from: nat)                        // the partial file is open and cut to where it resumes
    | Fetching(mark: nat, got: seq<nat>)       // a round from mark; got bytes of each chunk
    | Stopped                                  // the fetch failed and the watermark is written back
    | Checking                                 // row is verifying
    | Sized                                    // cut to the exact size and flushed
    | Moved                                    // renamed into place
    | Recorded                                 // local truth written

  /** The one transfer in flight: the row and how it read when it was claimed. */
  datatype Attempt = Attempt(k: nat, job: Job, phase: Phase)

  /** What happened to a row since it was queued or revived. */
  datatype Account = Account(failures: nat, deaths: nat)

  datatype Sys = Sys(
    rows: Rows,
    parts: map<Path, Bytes>,
    dst: map<Path, FileOnDisk>,
    files: map<Path, FileRow>,
    att: Option<Attempt>,
    acct: map<nat, Account>)

  function PartOf(s: Sys, p: Path): Bytes { if p in s.parts then s.parts[p] else [] }

  predicate Within(a: int, b: int, tolerance: nat) { a - b <= tolerance && b - a <= tolerance }

  predicate Matches(f: FileOnDisk, v: Version, tolerance: nat) {
    |f.bytes| == v.size && Within(f.mtime, v.mtime, tolerance)
  }

  predicate OnDisk(s: Sys, o: Options, p: Path, v: Version) {
    p in s.dst && Matches(s.dst[p], v, o.tolerance)
  }

  /** Where a claimed job carries on: never past what the partial file reaches. */
  function ResumeFrom(part: Bytes, j: Job): nat {
    var from := if j.bytesDone > |part| then |part| else j.bytesDone;
    if from > j.version.size || from < 0 then 0 else from
  }

  function Cut(part: Bytes, from: nat): Bytes { if from == 0 then [] else part }

  predicate InFlight(s: Sys, k: nat) { s.att.Some? && s.att.value.k == k }

  // ---------------------------------------------------------------- the steps

  datatype Step =
    | Enqueue(k: nat, path: Path, op: Op, v: Version, now: int)
    | DropFailed(since: int)
    | Requeue(now: int)
    | Claim(k: nat, now: int)
    | Adopt
    | OpenPart
    | BeginFetch
    | Receive(c: nat, n: nat)
    | RoundDone(now: int)
    | StopFetch(now: int)
    | Verify(now: int)
    | Truncate
    | Move
    | Record
    | Finish(now: int)
    | Fail(wait: int, now: int)
    | Release(now: int)
    | Die
    | Shorten(path: Path, n: nat)   // a partial file cut from outside
    | Lose(path: Path)              // or removed
    | Outside(path: Path, file: Option<FileOnDisk>)

  /** The hypothesis on the publisher: of the versions he had, sizes are true, and size plus mtime within the tolerance
      identify content. Two of one size and further apart in time may differ. */
  ghost predicate Identifies(pub: Publisher, o: Options) {
    && (forall p: Path, v: Version | pub.had(p, v) :: |pub.content(p, v)| == v.size)
    && (forall p: Path, v: Version, w: Version |
          pub.had(p, v) && pub.had(p, w) && v.size == w.size && Within(v.mtime, w.mtime, o.tolerance) ::
          pub.content(p, v) == pub.content(p, w))
  }

  /** The same of a file that lies at a destination: it is any version of his that it matches. */
  ghost predicate Identified(f: FileOnDisk, p: Path, pub: Publisher, o: Options) {
    forall v | pub.had(p, v) && Matches(f, v, o.tolerance) :: f.bytes == pub.content(p, v)
  }

  // Each step is a guard and an effect.

  function Entering(s: Sys, ph: Phase): Option<Attempt>
    requires s.att.Some?
  {
    Some(s.att.value.(phase := ph))
  }

  // Between two attempts; one run at a time is the runner's doing (app/runner.go).

  ghost predicate CanEnqueue(s: Sys, k: nat, p: Path) { s.att.None? && Target(s.rows, p, k) }

  function DoEnqueue(s: Sys, k: nat, p: Path, op: Op, v: Version, now: int): Sys {
    s.(rows := Enqueued(s.rows, k, p, op, v, now),
       acct := if k in s.rows && !s.rows[k].state.Failed? then s.acct else s.acct[k := Account(0, 0)])
  }

  function DoDropFailed(s: Sys, since: int): Sys { s.(rows := DroppedFailed(s.rows, since)) }

  function DoRequeue(s: Sys, now: int): Sys { s.(rows := Requeued(s.rows, now)) }

  predicate CanClaim(s: Sys, k: nat, now: int) { s.att.None? && NextDue(s.rows, k, now) }

  function DoClaim(s: Sys, k: nat, now: int): Sys
    requires k in s.rows
  {
    var rows := Claimed(s.rows, k, now);
    s.(rows := rows, att := Some(Attempt(k, rows[k], Begun)))
  }

  // Inside an attempt.

  predicate CanAdopt(s: Sys, o: Options) {
    s.att.Some? && s.att.value.phase.Begun? && OnDisk(s, o, s.att.value.job.path, s.att.value.job.version)
  }

  /** Local truth: the size and the publisher's mtime. */
  function DoRecord(s: Sys): Sys
    requires s.att.Some?
  {
    var j := s.att.value.job;
    s.(files := s.files[j.path := FileRow(j.version.size, j.version.mtime)], att := Entering(s, Recorded))
  }

  predicate CanOpen(s: Sys, o: Options) {
    s.att.Some? && s.att.value.phase.Begun? && !OnDisk(s, o, s.att.value.job.path, s.att.value.job.version)
  }

  function DoOpen(s: Sys): Sys
    requires s.att.Some?
  {
    var p := s.att.value.job.path;
    var from := ResumeFrom(PartOf(s, p), s.att.value.job);
    s.(parts := s.parts[p := Cut(PartOf(s, p), from)], att := Entering(s, Opened(from)))
  }

  function FreshRound(o: Options, mark: nat, total: nat): Phase
    requires o.Filled()
  {
    Fetching(mark, seq(|RoundAt(o, mark, total)|, _ => 0))
  }

  predicate CanBegin(s: Sys) { s.att.Some? && s.att.value.phase.Opened? }

  function DoBegin(s: Sys, o: Options): Sys
    requires o.Filled() && CanBegin(s)
  {
    s.(att := Entering(s, FreshRound(o, s.att.value.phase.from, s.att.value.job.version.size)))
  }

  predicate FetchingNow(s: Sys) {
    s.att.Some? && s.att.value.phase.Fetching? && s.att.value.k in s.rows
  }

  function Total(s: Sys): nat
    requires s.att.Some?
  {
    s.att.value.job.version.size
  }

  function Source(s: Sys, pub: Publisher): Bytes
    requires s.att.Some?
  {
    pub.content(s.att.value.job.path, s.att.value.job.version)
  }

  function CurrentRound(s: Sys, o: Options): seq<Chunk>
    requires o.Filled() && FetchingNow(s)
  {
    RoundAt(o, s.att.value.phase.mark, Total(s))
  }

  /** Chunk c may receive n more bytes. The publisher's file is the job's version while it is fetched. */
  predicate CanReceive(s: Sys, o: Options, pub: Publisher, c: nat, n: nat)
    requires o.Filled()
  {
    && FetchingNow(s) && s.att.value.job.path in s.parts
    && var round, got := CurrentRound(s, o), s.att.value.phase.got;
    c < |round| && c < |got| && got[c] + n <= round[c].len && round[c].off + round[c].len <= |Source(s, pub)|
  }

  function Grown(got: seq<nat>, c: nat, n: nat): seq<nat>
    requires c < |got|
  {
    got[c := got[c] + n]
  }

  function DoReceive(s: Sys, o: Options, pub: Publisher, c: nat, n: nat): Sys
    requires o.Filled() && CanReceive(s, o, pub, c, n)
  {
    var a := s.att.value;
    var off := CurrentRound(s, o)[c].off + a.phase.got[c];
    s.(parts := s.parts[a.job.path := WriteAt(s.parts[a.job.path], off, Source(s, pub)[off..off + n])],
       att := Entering(s, Fetching(a.phase.mark, Grown(a.phase.got, c, n))))
  }

  predicate CanEndRound(s: Sys, o: Options)
    requires o.Filled()
  {
    && FetchingNow(s) && s.att.value.phase.mark < Total(s)
    && var round, got := CurrentRound(s, o), s.att.value.phase.got;
    |got| == |round| && forall i | 0 <= i < |round| :: got[i] == round[i].len
  }

  /** The watermark advances over a whole round. */
  function DoEndRound(s: Sys, o: Options, now: int): Sys
    requires o.Filled() && CanEndRound(s, o)
  {
    var mark := RoundEnd(o, s.att.value.phase.mark, Total(s));
    s.(rows := Progressed(s.rows, s.att.value.k, mark, now), att := Entering(s, FreshRound(o, mark, Total(s))))
  }

  /** A fetch that failed writes its watermark back where it differs from the one it was claimed with. */
  function DoStop(s: Sys, now: int): Sys
    requires FetchingNow(s)
  {
    var a := s.att.value;
    s.(rows := if a.phase.mark == a.job.bytesDone then s.rows else Progressed(s.rows, a.k, a.phase.mark, now),
       att := Entering(s, Stopped))
  }

  predicate CanVerify(s: Sys) { FetchingNow(s) && s.att.value.phase.mark == Total(s) }

  function DoVerify(s: Sys, now: int): Sys
    requires CanVerify(s)
  {
    s.(rows := WithState(s.rows, s.att.value.k, Verifying, now), att := Entering(s, Checking))
  }

  predicate CanTruncate(s: Sys) {
    s.att.Some? && s.att.value.phase.Checking? && Total(s) <= |PartOf(s, s.att.value.job.path)|
  }

  function DoTruncate(s: Sys): Sys
    requires CanTruncate(s)
  {
    var p := s.att.value.job.path;
    s.(parts := s.parts[p := PartOf(s, p)[..Total(s)]], att := Entering(s, Sized))
  }

  predicate CanMove(s: Sys) { s.att.Some? && s.att.value.phase.Sized? && s.att.value.job.path in s.parts }

  /** The publisher's mtime is stamped first, then the rename. */
  function DoMove(s: Sys): Sys
    requires CanMove(s)
  {
    var j := s.att.value.job;
    s.(dst := s.dst[j.path := FileOnDisk(s.parts[j.path], j.version.mtime)], parts := s.parts - {j.path},
       att := Entering(s, Moved))
  }

  predicate CanRecord(s: Sys) { s.att.Some? && s.att.value.phase.Moved? }

  predicate CanFinish(s: Sys) { s.att.Some? && s.att.value.phase.Recorded? && s.att.value.k in s.rows }

  function DoFinish(s: Sys, now: int): Sys
    requires CanFinish(s)
  {
    s.(rows := WithState(s.rows, s.att.value.k, Done, now), att := None)
  }

  /** An attempt that did not succeed is settled here; a fetch that stopped short writes its watermark first. */
  predicate CanSettle(s: Sys) {
    && s.att.Some? && s.att.value.k in s.rows
    && (s.att.value.phase.Fetching? ==> s.att.value.phase.mark == Total(s))
  }

  function DoFail(s: Sys, o: Options, wait: int, now: int): Sys
    requires CanSettle(s)
  {
    var k := s.att.value.k;
    s.(rows := FailedAttempt(s.rows, k, o.maxAttempts, wait, now), att := None,
       acct := if k in s.acct then s.acct[k := s.acct[k].(failures := s.acct[k].failures + 1)] else s.acct)
  }

  function DoRelease(s: Sys, now: int): Sys
    requires CanSettle(s)
  {
    s.(rows := Released(s.rows, s.att.value.k, now), att := None)
  }

  /** The process goes; everything persisted stays. */
  function DoDie(s: Sys): Sys
    requires s.att.Some?
  {
    var k := s.att.value.k;
    s.(att := None,
       acct := if k in s.acct then s.acct[k := s.acct[k].(deaths := s.acct[k].deaths + 1)] else s.acct)
  }

  // From outside: not under the hands of the attempt in flight.

  predicate Untouched(s: Sys, p: Path) { s.att.Some? ==> s.att.value.job.path != p }

  function DoShorten(s: Sys, p: Path, n: nat): Sys
    requires n < |PartOf(s, p)|
  {
    s.(parts := s.parts[p := s.parts[p][..n]])
  }

  function DoLose(s: Sys, p: Path): Sys { s.(parts := s.parts - {p}) }

  function DoOutside(s: Sys, p: Path, f: Option<FileOnDisk>): Sys {
    s.(dst := if f.Some? then s.dst[p := f.value] else s.dst - {p})
  }

  // ---------------------------------------------------------------- one step, any of them

  ghost predicate Enabled(s: Sys, st: Step, o: Options, pub: Publisher)
    requires o.Filled()
  {
    match st
    case Enqueue(k, p, _, v, _) => CanEnqueue(s, k, p) && pub.had(p, v)
    case DropFailed(_) => s.att.None?
    case Requeue(_) => s.att.None?
    case Claim(k, now) => CanClaim(s, k, now)
    case Adopt => CanAdopt(s, o)
    case OpenPart => CanOpen(s, o)
    case BeginFetch => CanBegin(s)
    case Receive(c, n) => CanReceive(s, o, pub, c, n)
    case RoundDone(_) => CanEndRound(s, o)
    case StopFetch(_) => FetchingNow(s)
    case Verify(_) => CanVerify(s)
    case Truncate => CanTruncate(s)
    case Move => CanMove(s)
    case Record => CanRecord(s)
    case Finish(_) => CanFinish(s)
    case Fail(_, _) => CanSettle(s)
    case Release(_) => CanSettle(s)
    case Die => s.att.Some?
    case Shorten(p, n) => Untouched(s, p) && n < |PartOf(s, p)|
    case Lose(p) => Untouched(s, p)
    case Outside(p, f) => Untouched(s, p) && (f.Some? ==> Identified(f.value, p, pub, o))
  }

  ghost function Apply(s: Sys, st: Step, o: Options, pub: Publisher): Sys
    requires o.Filled() && Enabled(s, st, o, pub)
  {
    match st
    case Enqueue(k, p, op, v, now) => DoEnqueue(s, k, p, op, v, now)
    case DropFailed(since) => DoDropFailed(s, since)
    case Requeue(now) => DoRequeue(s, now)
    case Claim(k, now) => DoClaim(s, k, now)
    case Adopt => DoRecord(s)
    case OpenPart => DoOpen(s)
    case BeginFetch => DoBegin(s, o)
    case Receive(c, n) => DoReceive(s, o, pub, c, n)
    case RoundDone(now) => DoEndRound(s, o, now)
    case StopFetch(now) => DoStop(s, now)
    case Verify(now) => DoVerify(s, now)
    case Truncate => DoTruncate(s)
    case Move => DoMove(s)
    case Record => DoRecord(s)
    case Finish(now) => DoFinish(s, now)
    case Fail(wait, now) => DoFail(s, o, wait, now)
    case Release(now) => DoRelease(s, now)
    case Die => DoDie(s)
    case Shorten(p, n) => DoShorten(s, p, n)
    case Lose(p) => DoLose(s, p)
    case Outside(p, f) => DoOutside(s, p, f)
  }
}
