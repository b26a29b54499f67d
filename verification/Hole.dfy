/** The one gap in crash-safe resume, end to end (engine/transfer.go): a run from an empty queue in which a partial file
    is removed, a process dies in a round of two streams, and the next process finishes the file with a byte that
    nobody ever wrote. */
module Hole {
  import opened Base
  import opened Jobs
  import opened Machine
  import opened Resume

  /** Two streams of one byte each. */
  predicate TwoStreams(o: Options) { o.Filled() && o.chunks == 2 && o.chunkSize == 1 }

  lemma Rounds(o: Options)
    requires TwoStreams(o)
    ensures RoundAt(o, 0, 3) == [Chunk(0, 1), Chunk(1, 1)] && RoundEnd(o, 0, 3) == 2
    ensures RoundAt(o, 2, 3) == [Chunk(2, 1)] && RoundEnd(o, 2, 3) == 3
    ensures RoundAt(o, 3, 3) == []
  {
    assert Round(0, 3, 2, 1) == [Chunk(0, 1)] + Round(1, 3, 1, 1);
    assert Round(1, 3, 1, 1) == [Chunk(1, 1)] + Round(2, 3, 0, 1);
    assert Round(2, 3, 2, 1) == [Chunk(2, 1)] + Round(3, 3, 1, 1);
  }

  function Last(r: Run): Sys
    requires r.states != []
  {
    r.states[|r.states| - 1]
  }

  lemma Extend(r: Run, o: Options, pub: Publisher, st: Step) returns (r': Run)
    requires o.Filled() && IsRun(r, o, pub) && Enabled(Last(r), st, o, pub)
    ensures IsRun(r', o, pub) && r'.states == r.states + [Apply(Last(r), st, o, pub)] && r'.steps == r.steps + [st]
    ensures r'.states[0] == r.states[0]
  {
    r' := Run(r.states + [Apply(Last(r), st, o, pub)], r.steps + [st]);
  }

  /** One row, for one file of three bytes; b is its watermark. */
  ghost predicate OneRow(s: Sys, p: Path, v: Version, state: JobState, b: int) {
    && s.rows.Keys == {1} && v.size == 3
    && var j := s.rows[1];
    j.path == p && j.version == v && j.state == state && j.bytesDone == b && j.nextAttempt == 0
  }

  /** Nobody at work on it. */
  ghost predicate Waiting(r: Run, o: Options, pub: Publisher, p: Path, v: Version, b: int, parts: map<Path, Bytes>) {
    && o.Filled() && IsRun(r, o, pub) && Initial(r.states[0], o, pub)
    && OneRow(Last(r), p, v, Pending, b) && Last(r).att.None? && Last(r).parts == parts && Last(r).dst == map[]
  }

  /** An attempt claimed at watermark jb, in this phase. */
  ghost predicate Working(r: Run, o: Options, pub: Publisher, p: Path, v: Version, state: JobState, b: int, jb: int, parts: map<Path, Bytes>, ph: Phase) {
    && o.Filled() && IsRun(r, o, pub) && Initial(r.states[0], o, pub)
    && OneRow(Last(r), p, v, state, b) && Last(r).parts == parts && Last(r).dst == map[]
    && Last(r).att.Some? && Last(r).att.value.k == 1 && Last(r).att.value.phase == ph
    && var j := Last(r).att.value.job; j.path == p && j.version == v && j.bytesDone == jb
  }

  lemma Queue(o: Options, pub: Publisher, p: Path, v: Version) returns (r: Run)
    requires o.Filled() && v.size == 3 && pub.had(p, v)
    ensures Waiting(r, o, pub, p, v, 0, map[])
  {
    r := Run([Sys(map[], map[], map[], map[], None, map[])], []);
    assert Target(map[], p, 1);
    r := Extend(r, o, pub, Enqueue(1, p, Add, v, 0));
  }

  lemma TakeUp(r: Run, o: Options, pub: Publisher, p: Path, v: Version, b: int, parts: map<Path, Bytes>) returns (r': Run)
    requires Waiting(r, o, pub, p, v, b, parts)
    ensures Working(r', o, pub, p, v, Running, b, b, parts, Begun)
  {
    assert NextDue(Last(r).rows, 1, 0);
    r' := Extend(r, o, pub, Claim(1, 0));
  }

  lemma Open(r: Run, o: Options, pub: Publisher, p: Path, v: Version, b: nat, parts: map<Path, Bytes>, part: Bytes) returns (r': Run)
    requires Working(r, o, pub, p, v, Running, b, b, parts, Begun) && part == (if p in parts then parts[p] else [])
    requires b <= 3 && (b <= |part| || part == [])
    ensures var from := if part == [] then 0 else b;
            Working(r', o, pub, p, v, Running, b, b, parts[p := if from == 0 then [] else part], Opened(from))
  {
    r' := Extend(r, o, pub, OpenPart);
  }

  lemma Start(r: Run, o: Options, pub: Publisher, p: Path, v: Version, b: int, parts: map<Path, Bytes>, from: nat) returns (r': Run)
    requires TwoStreams(o) && (from == 0 || from == 2) && Working(r, o, pub, p, v, Running, b, b, parts, Opened(from))
    ensures Working(r', o, pub, p, v, Running, b, b, parts, Fetching(from, if from == 0 then [0, 0] else [0]))
  {
    Rounds(o);
    r' := Extend(r, o, pub, BeginFetch);
    assert Last(r').att.value.phase.got == if from == 0 then [0, 0] else [0];
  }

  lemma ByteArrives(s: Sys, o: Options, pub: Publisher, p: Path, part: Bytes, mark: nat, got: seq<nat>, i: nat)
    requires TwoStreams(o) && FetchingNow(s) && s.att.value.job.path == p && s.att.value.job.version.size == 3 == |Source(s, pub)|
    requires s.att.value.phase == Fetching(mark, got) && s.parts == map[p := part]
    requires ((mark == 0 && |got| == 2) || (mark == 2 && |got| == 1)) && i < |got| && got[i] == 0
    ensures CanReceive(s, o, pub, i, 1)
    ensures DoReceive(s, o, pub, i, 1)
            == s.(parts := map[p := WriteAt(part, mark + i, [Source(s, pub)[mark + i]])], att := Entering(s, Fetching(mark, got[i := 1])))
  {
    Rounds(o);
    assert Source(s, pub)[mark + i..mark + i + 1] == [Source(s, pub)[mark + i]];
    assert forall b: Bytes :: map[p := part][p := b] == map[p := b];
  }

  /** One byte of chunk i of the round from mark. */
  lemma Get(r: Run, o: Options, pub: Publisher, p: Path, v: Version, b: int, jb: int, part: Bytes, mark: nat, got: seq<nat>, i: nat) returns (r': Run)
    requires TwoStreams(o) && Identifies(pub, o) && pub.had(p, v) && Working(r, o, pub, p, v, Running, b, jb, map[p := part], Fetching(mark, got))
    requires (mark == 0 && |got| == 2) || (mark == 2 && |got| == 1)
    requires i < |got| && got[i] == 0
    ensures Working(r', o, pub, p, v, Running, b, jb, map[p := WriteAt(part, mark + i, [pub.content(p, v)[mark + i]])], Fetching(mark, got[i := 1]))
  {
    ByteArrives(Last(r), o, pub, p, part, mark, got, i);
    r' := Extend(r, o, pub, Receive(i, 1));
  }

  /** The round is full and its end is the new watermark. */
  lemma Complete(r: Run, o: Options, pub: Publisher, p: Path, v: Version, b: int, jb: int, parts: map<Path, Bytes>, mark: nat, got: seq<nat>) returns (r': Run)
    requires TwoStreams(o) && Working(r, o, pub, p, v, Running, b, jb, parts, Fetching(mark, got))
    requires (mark == 0 && got == [1, 1]) || (mark == 2 && got == [1])
    ensures var end := if mark == 0 then 2 else 3;
            Working(r', o, pub, p, v, Running, end, jb, parts, Fetching(end, if end == 2 then [0] else []))
  {
    Rounds(o);
    r' := Extend(r, o, pub, RoundDone(0));
  }

  /** The attempt is interrupted and handed back with its watermark. */
  lemma HandBack(r: Run, o: Options, pub: Publisher, p: Path, v: Version, mark: nat, jb: int, parts: map<Path, Bytes>, got: seq<nat>) returns (r': Run)
    requires Working(r, o, pub, p, v, Running, mark, jb, parts, Fetching(mark, got))
    ensures Waiting(r', o, pub, p, v, mark, parts)
  {
    r' := Extend(r, o, pub, StopFetch(0));
    r' := Extend(r', o, pub, Release(0));
  }

  lemma LosePart(r: Run, o: Options, pub: Publisher, p: Path, v: Version, b: int, part: Bytes) returns (r': Run)
    requires Waiting(r, o, pub, p, v, b, map[p := part])
    ensures Waiting(r', o, pub, p, v, b, map[])
  {
    r' := Extend(r, o, pub, Lose(p));
  }

  /** The process dies, and the next one puts its job back. */
  lemma DieThere(r: Run, o: Options, pub: Publisher, p: Path, v: Version, b: int, jb: int, parts: map<Path, Bytes>, ph: Phase) returns (r': Run)
    requires Working(r, o, pub, p, v, Running, b, jb, parts, ph)
    ensures Waiting(r', o, pub, p, v, b, parts)
  {
    r' := Extend(r, o, pub, Die);
    r' := Extend(r', o, pub, Requeue(0));
  }

  /** A partial file of the full length is put in place, whatever it holds. */
  lemma Land(r: Run, o: Options, pub: Publisher, p: Path, v: Version, jb: int, part: Bytes) returns (r': Run)
    requires |part| == 3 && Working(r, o, pub, p, v, Running, 3, jb, map[p := part], Fetching(3, []))
    ensures IsRun(r', o, pub) && Initial(r'.states[0], o, pub) && OneRow(Last(r'), p, v, Verifying, 3)
    ensures Last(r').dst == map[p := FileOnDisk(part, v.mtime)] && Last(r').att.Some?
    ensures var a := Last(r').att.value; a.k == 1 && a.phase == Moved && a.job.path == p && a.job.version == v
  {
    r' := Extend(r, o, pub, Verify(0));
    r' := Extend(r', o, pub, Truncate);
    assert part[..3] == part;
    r' := Extend(r', o, pub, Move);
  }

  lemma Close(r: Run, o: Options, pub: Publisher, p: Path, v: Version, part: Bytes) returns (r': Run)
    requires o.Filled() && IsRun(r, o, pub) && Initial(r.states[0], o, pub) && OneRow(Last(r), p, v, Verifying, 3)
    requires Last(r).dst == map[p := FileOnDisk(part, v.mtime)] && Last(r).att.Some? && part != pub.content(p, v)
    requires var a := Last(r).att.value; a.k == 1 && a.phase == Moved && a.job.path == p && a.job.version == v
    ensures IsRun(r', o, pub) && Initial(r'.states[0], o, pub) && EndsWrong(r', p, v, part, pub)
  {
    r' := Extend(r, o, pub, Record);
    r' := Extend(r', o, pub, Finish(0));
  }

  /** The last step finishes the job, and the file in place holds these bytes, which are not the publisher's. */
  ghost predicate EndsWrong(r: Run, p: Path, v: Version, part: Bytes, pub: Publisher) {
    && r.steps != [] && |r.states| == |r.steps| + 1 && r.steps[|r.steps| - 1].Finish?
    && var s, s' := r.states[|r.steps| - 1], r.states[|r.steps|];
    && s.att.Some? && s.att.value.job.path == p && s.att.value.job.version == v
    && 1 in s'.rows && s'.rows[1].state.Done?
    && p in s'.dst && s'.dst[p].bytes == part && !LandsExactly(s, s', pub)
  }

  lemma FirstOpened(o: Options, pub: Publisher, p: Path, v: Version) returns (r: Run)
    requires TwoStreams(o) && v.size == 3 && pub.had(p, v)
    ensures Working(r, o, pub, p, v, Running, 0, 0, map[p := []], Fetching(0, [0, 0]))
  {
    r := Queue(o, pub, p, v);
    r := TakeUp(r, o, pub, p, v, 0, map[]);
    r := Open(r, o, pub, p, v, 0, map[], []);
    r := Start(r, o, pub, p, v, 0, map[p := []], 0);
  }

  /** The first attempt: one round of two streams, then an interruption. */
  lemma FirstAttempt(o: Options, pub: Publisher, p: Path, v: Version) returns (r: Run)
    requires TwoStreams(o) && Identifies(pub, o) && pub.had(p, v) && v.size == 3
    ensures var c := pub.content(p, v); Waiting(r, o, pub, p, v, 2, map[p := [c[0], c[1]]])
  {
    var c := pub.content(p, v);
    r := FirstOpened(o, pub, p, v);
    r := Get(r, o, pub, p, v, 0, 0, [], 0, [0, 0], 0);
    assert WriteAt([], 0, [c[0]]) == [c[0]] && [0, 0][0 := 1] == [1, 0];
    r := Get(r, o, pub, p, v, 0, 0, [c[0]], 0, [1, 0], 1);
    assert WriteAt([c[0]], 1, [c[1]]) == [c[0], c[1]] && [1, 0][1 := 1] == [1, 1];
    r := Complete(r, o, pub, p, v, 0, 0, map[p := [c[0], c[1]]], 0, [1, 1]);
    r := HandBack(r, o, pub, p, v, 2, 0, map[p := [c[0], c[1]]], [0]);
  }

  /** The second: the partial file is gone, the second stream arrives before the first, and the process dies. */
  lemma SecondAttempt(r: Run, o: Options, pub: Publisher, p: Path, v: Version) returns (r': Run)
    requires TwoStreams(o) && Identifies(pub, o) && pub.had(p, v) && v.size == 3
    requires var c := pub.content(p, v); Waiting(r, o, pub, p, v, 2, map[p := [c[0], c[1]]])
    ensures var c := pub.content(p, v); Waiting(r', o, pub, p, v, 2, map[p := [0, c[1]]])
  {
    var c := pub.content(p, v);
    r' := LosePart(r, o, pub, p, v, 2, [c[0], c[1]]);
    r' := TakeUp(r', o, pub, p, v, 2, map[]);
    r' := Open(r', o, pub, p, v, 2, map[], []);
    r' := Start(r', o, pub, p, v, 2, map[p := []], 0);
    r' := Get(r', o, pub, p, v, 2, 2, [], 0, [0, 0], 1);
    WriteAtBytes([], 1, [c[1]]);
    assert WriteAt([], 1, [c[1]]) == [0, c[1]];
    r' := DieThere(r', o, pub, p, v, 2, 2, map[p := [0, c[1]]], Fetching(0, [0, 0][1 := 1]));
  }

  /** The third resumes past the hole and finishes. */
  lemma ThirdAttempt(r: Run, o: Options, pub: Publisher, p: Path, v: Version) returns (r': Run)
    requires TwoStreams(o) && Identifies(pub, o) && pub.had(p, v) && v.size == 3 && pub.content(p, v)[0] != 0
    requires Waiting(r, o, pub, p, v, 2, map[p := [0, pub.content(p, v)[1]]])
    ensures var c := pub.content(p, v); IsRun(r', o, pub) && Initial(r'.states[0], o, pub) && EndsWrong(r', p, v, [0, c[1], c[2]], pub)
  {
    var c := pub.content(p, v);
    var part := [0, c[1]];
    r' := TakeUp(r, o, pub, p, v, 2, map[p := part]);
    r' := Open(r', o, pub, p, v, 2, map[p := part], part);
    assert map[p := part][p := part] == map[p := part];
    r' := Start(r', o, pub, p, v, 2, map[p := part], 2);
    r' := LastByte(r', o, pub, p, v, part);
    assert part + [c[2]] == [0, c[1], c[2]];
    r' := Land(r', o, pub, p, v, 2, [0, c[1], c[2]]);
    assert [0, c[1], c[2]][0] != c[0];
    r' := Close(r', o, pub, p, v, [0, c[1], c[2]]);
  }

  lemma LastByte(r: Run, o: Options, pub: Publisher, p: Path, v: Version, part: Bytes) returns (r': Run)
    requires TwoStreams(o) && Identifies(pub, o) && pub.had(p, v) && |part| == 2 && v.size == 3
    requires Working(r, o, pub, p, v, Running, 2, 2, map[p := part], Fetching(2, [0]))
    ensures Working(r', o, pub, p, v, Running, 3, 2, map[p := part + [pub.content(p, v)[2]]], Fetching(3, []))
  {
    var last := [pub.content(p, v)[2]];
    r' := Get(r, o, pub, p, v, 2, 2, part, 2, [0], 0);
    assert WriteAt(part, 2, last) == part + last && [0][0 := 1] == [1];
    r' := Complete(r', o, pub, p, v, 2, 2, map[p := part + last], 2, [1]);
  }

  /** For every file of three bytes that does not begin with a zero: a run from an empty queue that ends done, on record as
      the publisher's version, with a zero where his first byte should be. */
  lemma CorruptedFile(o: Options, pub: Publisher, p: Path, v: Version) returns (r: Run)
    requires TwoStreams(o) && Identifies(pub, o) && pub.had(p, v) && v.size == 3 && pub.content(p, v)[0] != 0
    ensures IsRun(r, o, pub) && Initial(r.states[0], o, pub)
    ensures EndsWrong(r, p, v, [0, pub.content(p, v)[1], pub.content(p, v)[2]], pub)
  {
    r := FirstAttempt(o, pub, p, v);
    r := SecondAttempt(r, o, pub, p, v);
    r := ThirdAttempt(r, o, pub, p, v);
  }
}
