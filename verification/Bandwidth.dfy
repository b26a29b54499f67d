/** The bandwidth series at three resolutions and the rollup between them (store/bandwidth.go, app/bandwidth.go).
    Times are milliseconds since the epoch; buckets are cut in UTC. */
module Bandwidth {
  import opened Sums

  datatype Span = Minute | Hour | Day
  datatype Side = In | Out

  datatype Sample = Sample(bytesIn: int, bytesOut: int) {
    function Of(side: Side): int { if side.In? then bytesIn else bytesOut }
    function Plus(that: Sample): Sample { Sample(bytesIn + that.bytesIn, bytesOut + that.bytesOut) }
  }

  datatype Key = Key(span: Span, ts: int)

  type Rows = map<Key, Sample>

  function Width(span: Span): (w: int)
    ensures 0 < w
  {
    match span
    case Minute => 60_000
    case Hour => 3_600_000
    case Day => 86_400_000
  }

  /** The start of the bucket a moment falls in. */
  function Truncate(span: Span, t: int): int { t - t % Width(span) }

  lemma MinuteRest(x: int, q: int, r: int)
    requires x == 60_000 * q + r && 0 <= r < 60_000
    ensures x % 60_000 == r
  {}

  lemma HourRest(x: int, q: int, r: int)
    requires x == 3_600_000 * q + r && 0 <= r < 3_600_000
    ensures x % 3_600_000 == r
  {}

  lemma DayRest(x: int, q: int, r: int)
    requires x == 86_400_000 * q + r && 0 <= r < 86_400_000
    ensures x % 86_400_000 == r
  {}

  lemma MinuteInDay(t: int)
    ensures Truncate(Minute, Truncate(Minute, t)) == Truncate(Minute, t)
    ensures Truncate(Day, Truncate(Minute, t)) == Truncate(Day, t)
  {
    var q, r := t / 86_400_000, t % 86_400_000;
    var m, s := r / 60_000, r % 60_000;
    MinuteRest(t, 1_440 * q + m, s);
    MinuteRest(t - s, 1_440 * q + m, 0);
    DayRest(t - s, q, 60_000 * m);
  }

  lemma HourInDay(t: int)
    ensures Truncate(Hour, Truncate(Hour, t)) == Truncate(Hour, t)
    ensures Truncate(Day, Truncate(Hour, t)) == Truncate(Day, t)
  {
    var q, r := t / 86_400_000, t % 86_400_000;
    var m, s := r / 3_600_000, r % 3_600_000;
    HourRest(t, 24 * q + m, s);
    HourRest(t - s, 24 * q + m, 0);
    DayRest(t - s, q, 3_600_000 * m);
  }

  lemma DayInDay(t: int)
    ensures Truncate(Day, Truncate(Day, t)) == Truncate(Day, t)
  {
    DayRest(t - t % 86_400_000, t / 86_400_000, 0);
  }

  /** A bucket starts at or before its moments, less than a width ago, and lies within one day. */
  lemma TruncateIs(span: Span, t: int)
    ensures Truncate(span, t) <= t < Truncate(span, t) + Width(span)
    ensures Truncate(span, Truncate(span, t)) == Truncate(span, t)
    ensures Truncate(Day, Truncate(span, t)) == Truncate(Day, t)
  {
    match span
    case Minute => MinuteInDay(t);
    case Hour => HourInDay(t);
    case Day => DayInDay(t);
  }

  /** In seconds, minutes and hours: where the buckets of a moment start. */
  lemma BucketStarts(t: int)
    ensures var minute := 60 * 1000; Truncate(Minute, t) % minute == 0 && Truncate(Minute, t) <= t < Truncate(Minute, t) + minute
    ensures var hour := 60 * 60 * 1000; Truncate(Hour, t) % hour == 0 && Truncate(Hour, t) <= t < Truncate(Hour, t) + hour
    ensures var day := 24 * 60 * 60 * 1000; Truncate(Day, t) % day == 0 && Truncate(Day, t) <= t < Truncate(Day, t) + day
  {
    MinuteRest(t - t % 60_000, t / 60_000, 0);
    HourRest(t - t % 3_600_000, t / 3_600_000, 0);
    DayRest(t - t % 86_400_000, t / 86_400_000, 0);
  }

  // ---------------------------------------------------------------- the series

  function Added(rows: Rows, k: Key, s: Sample): Rows { rows[k := if k in rows then rows[k].Plus(s) else s] }

  /** A sample goes to its minute; nothing is written for nothing. */
  function Sampled(rows: Rows, t: int, s: Sample): Rows {
    if s == Sample(0, 0) then rows else Added(rows, Key(Minute, Truncate(Minute, t)), s)
  }

  predicate Old(k: Key, from: Span, before: int) { k.span == from && k.ts < before }

  /** The rows that fold into one bucket, and what they come to. */
  function Folding(rows: Rows, from: Span, to: Span, before: int, b: int, side: Side): map<Key, int> {
    map k | k in rows && Old(k, from, before) && Truncate(to, k.ts) == b :: rows[k].Of(side)
  }

  ghost function Bucket(rows: Rows, from: Span, to: Span, before: int, b: int): Sample {
    Sample(Sum(Folding(rows, from, to, before, b, In)), Sum(Folding(rows, from, to, before, b, Out)))
  }

  /** The old rows of one resolution folded into another: each bucket gains what its rows come to, they go, and nothing
      else changes. */
  ghost predicate RolledUp(rows: Rows, from: Span, to: Span, before: int, rows': Rows) {
    && RightKeys(rows, from, to, before, rows')
    && forall k | k in rows' :: rows'[k] == Folded(rows, from, to, before, k)
  }

  ghost predicate RightKeys(rows: Rows, from: Span, to: Span, before: int, rows': Rows) {
    forall k :: k in rows' <==> (k in rows && !Old(k, from, before)) || IsTarget(rows, from, to, before, k)
  }

  /** A bucket that some old row folds into. */
  ghost predicate IsTarget(rows: Rows, from: Span, to: Span, before: int, k: Key) {
    k.span == to && exists o :: o in rows && Old(o, from, before) && Truncate(to, o.ts) == k.ts
  }

  ghost function Folded(rows: Rows, from: Span, to: Span, before: int, k: Key): Sample {
    (if k in rows then rows[k] else Sample(0, 0)).Plus(if k.span == to then Bucket(rows, from, to, before, k.ts) else Sample(0, 0))
  }

  // ---------------------------------------------------------------- conservation

  ghost function OfDay(rows: Rows, d: int, side: Side): map<Key, int> {
    map k | k in rows && Truncate(Day, k.ts) == d :: rows[k].Of(side)
  }

  /** The bytes of one UTC day, over all three resolutions. */
  ghost function DayTotal(rows: Rows, d: int, side: Side): int { Sum(OfDay(rows, d, side)) }

  lemma AddedTotal(rows: Rows, k: Key, s: Sample, d: int, side: Side)
    ensures DayTotal(Added(rows, k, s), d, side) == DayTotal(rows, d, side) + (if Truncate(Day, k.ts) == d then s.Of(side) else 0)
  {
    var m := OfDay(rows, d, side);
    var v := (if k in rows then rows[k].Of(side) else 0) + s.Of(side);
    if Truncate(Day, k.ts) == d {
      assert OfDay(Added(rows, k, s), d, side) == m[k := v];
      SumUpdate(m, k, v);
    } else {
      assert OfDay(Added(rows, k, s), d, side) == m;
    }
  }

  lemma RemovedTotal(rows: Rows, k: Key, d: int, side: Side)
    requires k in rows
    ensures DayTotal(rows - {k}, d, side) == DayTotal(rows, d, side) - (if Truncate(Day, k.ts) == d then rows[k].Of(side) else 0)
  {
    var m := OfDay(rows, d, side);
    if Truncate(Day, k.ts) == d {
      assert OfDay(rows - {k}, d, side) == m - {k};
      SumRemove(m, k);
    } else {
      assert OfDay(rows - {k}, d, side) == m;
    }
  }

  /** A sample counts for the day it was taken on. */
  lemma SampleCounts(rows: Rows, t: int, s: Sample, d: int, side: Side)
    ensures DayTotal(Sampled(rows, t, s), d, side) == DayTotal(rows, d, side) + (if Truncate(Day, t) == d then s.Of(side) else 0)
  {
    TruncateIs(Minute, t);
    if s != Sample(0, 0) { AddedTotal(rows, Key(Minute, Truncate(Minute, t)), s, d, side); }
  }

  /** One old row moved into its bucket. */
  function MovedOne(rows: Rows, k: Key, to: Span): Rows
    requires k in rows
  {
    Added(rows - {k}, Key(to, Truncate(to, k.ts)), rows[k])
  }

  lemma MoveConserves(rows: Rows, k: Key, to: Span, d: int, side: Side)
    requires k in rows
    ensures DayTotal(MovedOne(rows, k, to), d, side) == DayTotal(rows, d, side)
  {
    TruncateIs(to, k.ts);
    RemovedTotal(rows, k, d, side);
    AddedTotal(rows - {k}, Key(to, Truncate(to, k.ts)), rows[k], d, side);
  }

  /** Rolling up is moving one old row and rolling up the rest. */
  lemma FoldingMoved(rows: Rows, k: Key, from: Span, to: Span, before: int, b: int, side: Side)
    requires k in rows && Old(k, from, before) && from != to
    ensures Sum(Folding(rows, from, to, before, b, side))
         == Sum(Folding(MovedOne(rows, k, to), from, to, before, b, side)) + (if Truncate(to, k.ts) == b then rows[k].Of(side) else 0)
  {
    var m := Folding(rows, from, to, before, b, side);
    if Truncate(to, k.ts) == b {
      SumRemove(m, k);
      assert Folding(MovedOne(rows, k, to), from, to, before, b, side) == m - {k};
    } else {
      assert Folding(MovedOne(rows, k, to), from, to, before, b, side) == m;
    }
  }

  lemma BucketMoved(rows: Rows, k: Key, from: Span, to: Span, before: int, b: int)
    requires k in rows && Old(k, from, before) && from != to
    ensures Bucket(rows, from, to, before, b)
         == Bucket(MovedOne(rows, k, to), from, to, before, b).Plus(if Truncate(to, k.ts) == b then rows[k] else Sample(0, 0))
  {
    FoldingMoved(rows, k, from, to, before, b, In);
    FoldingMoved(rows, k, from, to, before, b, Out);
  }

  lemma MovedIs(rows: Rows, k: Key, to: Span)
    requires k in rows && k.span != to
    ensures var moved, target := MovedOne(rows, k, to), Key(to, Truncate(to, k.ts));
            && (forall j :: j in moved <==> (j in rows && j != k) || j == target)
            && (forall j | j in rows && j != k && j != target :: moved[j] == rows[j])
            && moved[target] == if target in rows then rows[target].Plus(rows[k]) else rows[k]
  {}

  lemma KeysMoved(rows: Rows, k: Key, from: Span, to: Span, before: int, rows': Rows)
    requires k in rows && Old(k, from, before) && from != to && RightKeys(rows, from, to, before, rows')
    ensures RightKeys(MovedOne(rows, k, to), from, to, before, rows')
  {
    var moved, target := MovedOne(rows, k, to), Key(to, Truncate(to, k.ts));
    MovedIs(rows, k, to);
    forall j ensures j in rows' <==> (j in moved && !Old(j, from, before)) || IsTarget(moved, from, to, before, j) {
      if IsTarget(rows, from, to, before, j) {
        var o :| o in rows && Old(o, from, before) && Truncate(to, o.ts) == j.ts;
        if o != k { assert o in moved; }
      }
      if IsTarget(moved, from, to, before, j) {
        var o :| o in moved && Old(o, from, before) && Truncate(to, o.ts) == j.ts;
        assert o in rows;
      }
      if j == target { assert IsTarget(rows, from, to, before, j); }
    }
  }

  lemma FoldedMoved(rows: Rows, k: Key, from: Span, to: Span, before: int, j: Key)
    requires k in rows && Old(k, from, before) && from != to && j != k
    ensures Folded(MovedOne(rows, k, to), from, to, before, j) == Folded(rows, from, to, before, j)
  {
    MovedIs(rows, k, to);
    if j.span == to { BucketMoved(rows, k, from, to, before, j.ts); }
  }

  lemma RolledUpMoved(rows: Rows, k: Key, from: Span, to: Span, before: int, rows': Rows)
    requires k in rows && Old(k, from, before) && from != to && RolledUp(rows, from, to, before, rows')
    ensures RolledUp(MovedOne(rows, k, to), from, to, before, rows')
  {
    KeysMoved(rows, k, from, to, before, rows');
    forall j | j in rows' ensures rows'[j] == Folded(MovedOne(rows, k, to), from, to, before, j) {
      assert j != k;
      FoldedMoved(rows, k, from, to, before, j);
    }
  }

  lemma FewerOld(rows: Rows, k: Key, from: Span, to: Span, before: int)
    requires k in rows && Old(k, from, before) && from != to
    ensures OldRows(MovedOne(rows, k, to), from, before) == OldRows(rows, from, before) - {k}
  {
    MovedIs(rows, k, to);
  }

  lemma NothingOld(rows: Rows, from: Span, to: Span, before: int, rows': Rows)
    requires RolledUp(rows, from, to, before, rows') && forall k | k in rows :: !Old(k, from, before)
    ensures rows' == rows
  {
    forall b, side ensures Sum(Folding(rows, from, to, before, b, side)) == 0 {
      assert Folding(rows, from, to, before, b, side) == map[];
    }
    forall k | k in rows' ensures k in rows && rows'[k] == rows[k] { assert rows'[k] == Folded(rows, from, to, before, k); }
  }

  ghost function OldRows(rows: Rows, from: Span, before: int): set<Key> { set k | k in rows && Old(k, from, before) }

  /** A rollup moves bytes between resolutions and never between days: each day's total stays. */
  lemma {:induction false} RollupConserves(rows: Rows, from: Span, to: Span, before: int, rows': Rows, d: int, side: Side)
    requires from != to && RolledUp(rows, from, to, before, rows')
    ensures DayTotal(rows', d, side) == DayTotal(rows, d, side)
    decreases |OldRows(rows, from, before)|
  {
    if k :| k in rows && Old(k, from, before) {
      var moved := MovedOne(rows, k, to);
      FewerOld(rows, k, from, to, before);
      RolledUpMoved(rows, k, from, to, before, rows');
      MoveConserves(rows, k, to, d, side);
      RollupConserves(moved, from, to, before, rows', d, side);
    } else {
      NothingOld(rows, from, to, before, rows');
    }
  }

  lemma NoneLeft(rows: Rows, from: Span, to: Span, before: int, rows': Rows)
    requires from != to && RightKeys(rows, from, to, before, rows')
    ensures forall k | k in rows' :: !Old(k, from, before)
  {}

  /** Repeating a rollup with the same cut-off changes nothing. */
  lemma RollupIsIdempotent(rows: Rows, from: Span, to: Span, before: int, rows': Rows, rows'': Rows)
    requires from != to && RolledUp(rows, from, to, before, rows') && RolledUp(rows', from, to, before, rows'')
    ensures rows'' == rows'
  {
    NoneLeft(rows, from, to, before, rows');
    NothingOld(rows', from, to, before, rows'');
  }

  // ---------------------------------------------------------------- over any run

  datatype Step = Sampling(t: int, s: Sample) | Rollup(from: Span, to: Span, before: int)

  ghost predicate Follows(rows: Rows, st: Step, rows': Rows) {
    match st
    case Sampling(t, s) => rows' == Sampled(rows, t, s)
    case Rollup(from, to, before) => from != to && RolledUp(rows, from, to, before, rows')
  }

  /** What the samples of a run came to on one day. */
  ghost function SampledOn(steps: seq<Step>, d: int, side: Side): int {
    if steps == [] then 0
    else
      var last := steps[|steps| - 1];
      SampledOn(steps[..|steps| - 1], d, side) + (if last.Sampling? && Truncate(Day, last.t) == d then last.s.Of(side) else 0)
  }

  /** Under any sequence of samples and rollups, the bytes in and out of each UTC day over the three resolutions are
      what was added for that day. */
  lemma {:induction false} BytesAreConserved(states: seq<Rows>, steps: seq<Step>, d: int, side: Side)
    requires |states| == |steps| + 1 && states[0] == map[]
    requires forall i | 0 <= i < |steps| :: Follows(states[i], steps[i], states[i + 1])
    ensures DayTotal(states[|steps|], d, side) == SampledOn(steps, d, side)
    decreases |steps|
  {
    if steps == [] {
      assert OfDay(states[0], d, side) == map[];
    } else {
      var n := |steps| - 1;
      BytesAreConserved(states[..n + 1], steps[..n], d, side);
      OneStepConserves(states[n], steps[n], states[n + 1], d, side);
    }
  }

  lemma OneStepConserves(rows: Rows, st: Step, rows': Rows, d: int, side: Side)
    requires Follows(rows, st, rows')
    ensures DayTotal(rows', d, side)
         == DayTotal(rows, d, side) + (if st.Sampling? && Truncate(Day, st.t) == d then st.s.Of(side) else 0)
  {
    match st
    case Sampling(t, s) => SampleCounts(rows, t, s, d, side);
    case Rollup(from, to, before) => RollupConserves(rows, from, to, before, rows', d, side);
  }
}
