/** The bandwidth table as the store writes it (store/bandwidth.go). */
module BandwidthTable {
  import opened Sums
  import opened Bandwidth

  lemma FoldingGrows(part: Rows, k: Key, s: Sample, from: Span, to: Span, before: int, b: int, side: Side)
    requires k !in part && Old(k, from, before)
    ensures Sum(Folding(part[k := s], from, to, before, b, side))
         == Sum(Folding(part, from, to, before, b, side)) + (if Truncate(to, k.ts) == b then s.Of(side) else 0)
  {
    var m := Folding(part, from, to, before, b, side);
    if Truncate(to, k.ts) == b {
      SumUpdate(m, k, s.Of(side));
      assert Folding(part[k := s], from, to, before, b, side) == m[k := s.Of(side)];
    } else {
      assert Folding(part[k := s], from, to, before, b, side) == m;
    }
  }

  lemma BucketGrows(part: Rows, k: Key, s: Sample, from: Span, to: Span, before: int, b: int)
    requires k !in part && Old(k, from, before)
    ensures Bucket(part[k := s], from, to, before, b)
         == Bucket(part, from, to, before, b).Plus(if Truncate(to, k.ts) == b then s else Sample(0, 0))
  {
    FoldingGrows(part, k, s, from, to, before, b, In);
    FoldingGrows(part, k, s, from, to, before, b, Out);
  }

  /** The buckets of these rows, and what each comes to. */
  ghost predicate AreBuckets(buckets: map<int, Sample>, part: Rows, from: Span, to: Span, before: int) {
    && (forall b :: b in buckets <==> IsTarget(part, from, to, before, Key(to, b)))
    && (forall b | b in buckets :: buckets[b] == Bucket(part, from, to, before, b))
  }

  lemma NoTarget(part: Rows, from: Span, to: Span, before: int, b: int)
    requires !IsTarget(part, from, to, before, Key(to, b))
    ensures Bucket(part, from, to, before, b) == Sample(0, 0)
  {
    forall side ensures Folding(part, from, to, before, b, side) == map[] {
      forall k | k in Folding(part, from, to, before, b, side) ensures IsTarget(part, from, to, before, Key(to, b)) {}
    }
  }

  function Get(buckets: map<int, Sample>, b: int): Sample { if b in buckets then buckets[b] else Sample(0, 0) }

  lemma TargetGrows(part: Rows, k: Key, s: Sample, from: Span, to: Span, before: int, b: int)
    requires k !in part && Old(k, from, before)
    ensures IsTarget(part[k := s], from, to, before, Key(to, b)) <==> IsTarget(part, from, to, before, Key(to, b)) || b == Truncate(to, k.ts)
  {
    var part' := part[k := s];
    if IsTarget(part, from, to, before, Key(to, b)) {
      var o :| o in part && Old(o, from, before) && Truncate(to, o.ts) == b;
      assert o in part';
    }
    if b == Truncate(to, k.ts) { assert k in part'; }
  }

  lemma BucketsGrow(buckets: map<int, Sample>, part: Rows, k: Key, s: Sample, from: Span, to: Span, before: int)
    requires AreBuckets(buckets, part, from, to, before) && k !in part && Old(k, from, before)
    ensures var b := Truncate(to, k.ts); AreBuckets(buckets[b := Get(buckets, b).Plus(s)], part[k := s], from, to, before)
  {
    var t := Truncate(to, k.ts);
    var buckets' := buckets[t := Get(buckets, t).Plus(s)];
    forall b ensures b in buckets' <==> IsTarget(part[k := s], from, to, before, Key(to, b)) {
      TargetGrows(part, k, s, from, to, before, b);
    }
    forall b | b in buckets' ensures buckets'[b] == Bucket(part[k := s], from, to, before, b) {
      BucketGrows(part, k, s, from, to, before, b);
      if b !in buckets { NoTarget(part, from, to, before, b); }
    }
  }

  /** Only the old rows matter to the buckets. */
  lemma BucketsOfAll(buckets: map<int, Sample>, part: Rows, rows: Rows, from: Span, to: Span, before: int)
    requires AreBuckets(buckets, part, from, to, before)
    requires forall k | Old(k, from, before) :: (k in part <==> k in rows) && (k in rows ==> part[k] == rows[k])
    ensures AreBuckets(buckets, rows, from, to, before)
  {
    forall b, side ensures Folding(part, from, to, before, b, side) == Folding(rows, from, to, before, b, side) {}
    forall b ensures IsTarget(part, from, to, before, Key(to, b)) <==> IsTarget(rows, from, to, before, Key(to, b)) {
      if o :| o in part && Old(o, from, before) && Truncate(to, o.ts) == b { assert o in rows; }
      if o :| o in rows && Old(o, from, before) && Truncate(to, o.ts) == b { assert o in part; }
    }
  }

  /** The old rows, bucket by bucket. */
  method Gather(rows: Rows, from: Span, to: Span, before: int) returns (buckets: map<int, Sample>, folded: nat)
    ensures AreBuckets(buckets, rows, from, to, before) && folded == |OldRows(rows, from, before)|
  {
    buckets, folded := map[], 0;
    var left := set k | k in rows && Old(k, from, before);
    ghost var all, part: Rows := left, map[];
    assert all == OldRows(rows, from, before);
    while left != {}
      invariant left <= all && folded == |all| - |left| && AreBuckets(buckets, part, from, to, before)
      invariant forall k :: k in part <==> k in all && k !in left
      invariant forall k | k in part :: part[k] == rows[k]
      decreases left
    {
      var k :| k in left;
      left := left - {k};
      var b := Truncate(to, k.ts);
      BucketsGrow(buckets, part, k, rows[k], from, to, before);
      buckets := buckets[b := Get(buckets, b).Plus(rows[k])];
      part := part[k := rows[k]];
      folded := folded + 1;
    }
    BucketsOfAll(buckets, part, rows, from, to, before);
  }

  /** Which rows a rollup leaves, and which of them as they were. */
  lemma RolledUpLeaves(rows: Rows, from: Span, to: Span, before: int, rows': Rows)
    requires from != to && RolledUp(rows, from, to, before, rows')
    ensures forall k | k in rows' && k.span == from :: before <= k.ts && k in rows && rows'[k] == rows[k]
    ensures forall k | k in rows && k.span == from && before <= k.ts :: k in rows'
    ensures forall k | k in rows && k.span != from :: k in rows' && (k.span != to ==> rows'[k] == rows[k])
  {
    forall k | k in rows' && k.span != to ensures k in rows && rows'[k] == rows[k] && !Old(k, from, before) {
      assert !IsTarget(rows, from, to, before, k);
      assert rows'[k] == Folded(rows, from, to, before, k);
    }
  }

  class Series {
    var rows: Rows

    constructor ()
      ensures rows == map[]
    {
      rows := map[];
    }

    /** Adds to the minute, so that two samples in one minute accumulate. */
    method AddBandwidth(t: int, bytesIn: int, bytesOut: int)
      modifies this
      ensures rows == Sampled(old(rows), t, Sample(bytesIn, bytesOut))
      ensures bytesIn == 0 && bytesOut == 0 ==> rows == old(rows)
      ensures bytesIn != 0 || bytesOut != 0 ==>
                var k := Key(Minute, t - t % (60 * 1000));
                && rows.Keys == old(rows.Keys) + {k} && (forall j | j in old(rows) && j != k :: rows[j] == old(rows)[j])
                && rows[k].bytesIn == (if k in old(rows) then old(rows)[k].bytesIn else 0) + bytesIn
                && rows[k].bytesOut == (if k in old(rows) then old(rows)[k].bytesOut else 0) + bytesOut
    {
      if bytesIn == 0 && bytesOut == 0 {
        return;
      }
      var k := Key(Minute, Truncate(Minute, t));
      var was := if k in rows then rows[k] else Sample(0, 0);
      rows := rows[k := Sample(was.bytesIn + bytesIn, was.bytesOut + bytesOut)];
    }

    /** Adds each bucket to its row. */
    method Upsert(to: Span, buckets: map<int, Sample>)
      modifies this
      ensures forall k :: k in rows <==> k in old(rows) || (k.span == to && k.ts in buckets)
      ensures forall k | k in rows ::
                rows[k] == (if k in old(rows) then old(rows)[k] else Sample(0, 0)).Plus(if k.span == to then Get(buckets, k.ts) else Sample(0, 0))
    {
      var left := set b | b in buckets :: Key(to, b);
      ghost var was := rows;
      while left != {}
        invariant forall k | k in left :: k.span == to && k.ts in buckets
        invariant forall k :: k in rows <==> k in was || (k.span == to && k.ts in buckets && k !in left)
        invariant forall k | k in rows ::
                    rows[k] == (if k in was then was[k] else Sample(0, 0)).Plus(if k.span == to && k !in left then Get(buckets, k.ts) else Sample(0, 0))
        decreases left
      {
        var k :| k in left;
        left := left - {k};
        rows := rows[k := if k in rows then rows[k].Plus(buckets[k.ts]) else buckets[k.ts]];
      }
    }

    /** Fold every row of one resolution older than a moment into another; a span cannot be folded into itself. */
    method RollupBandwidth(from: Span, to: Span, before: int) returns (folded: nat, ok: bool)
      modifies this
      ensures ok <==> from != to
      ensures !ok ==> rows == old(rows)
      ensures ok ==> RolledUp(old(rows), from, to, before, rows) && folded == |OldRows(old(rows), from, before)|
      ensures ok ==> forall k | k in rows && k.span == from :: before <= k.ts && k in old(rows) && rows[k] == old(rows)[k]
      ensures ok ==> forall k | k in old(rows) && k.span == from && before <= k.ts :: k in rows
      ensures ok ==> forall k | k in old(rows) && k.span != from :: k in rows && (k.span != to ==> rows[k] == old(rows)[k])
    {
      folded, ok := 0, from != to;
      if !ok {
        return;
      }
      var buckets;
      buckets, folded := Gather(rows, from, to, before);
      ghost var was := rows;
      Upsert(to, buckets);
      rows := map k | k in rows && !Old(k, from, before) :: rows[k];
      forall k | k in rows ensures rows[k] == Folded(was, from, to, before, k) {
        if k.span == to && k.ts !in buckets { NoTarget(was, from, to, before, k.ts); }
      }
      RolledUpLeaves(was, from, to, before, rows);
    }
  }
}
