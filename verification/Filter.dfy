/** What a pair covers (engine/filter.go). A path is its list of segments; the root is the empty list. */
module Filter {
  import T = Text

  type Segment = string
  type Rel = seq<Segment>

  /** One glob segment against one name, a malformed pattern matching nothing. */
  type SegMatch = (Segment, Segment) -> bool

  const STARS: Segment := "**"

  // ---------------------------------------------------------------- the meaning of a glob

  /** cuts[i]..cuts[i+1] is the stretch of the name that pattern segment i stands for. */
  ghost predicate Splits(seg: SegMatch, pattern: Rel, name: Rel, cuts: seq<nat>) {
    && |cuts| == |pattern| + 1 && cuts[0] == 0 && cuts[|pattern|] == |name|
    && (forall i | 0 <= i < |pattern| :: Stretch(seg, pattern[i], name, cuts[i], cuts[i + 1]))
  }

  ghost predicate Stretch(seg: SegMatch, p: Segment, name: Rel, from: nat, to: nat) {
    if p == STARS then from <= to else to == from + 1 && from < |name| && seg(p, name[from])
  }

  /** A pattern matches when its segments can be laid end to end over the name:
      "**" over any number of segments, every other one over exactly one. */
  ghost predicate Glob(seg: SegMatch, pattern: Rel, name: Rel) {
    exists cuts :: Splits(seg, pattern, name, cuts)
  }

  lemma GlobNil(seg: SegMatch, name: Rel)
    ensures Glob(seg, [], name) <==> name == []
  {
    if name == [] { assert Splits(seg, [], [], [0]); }
  }

  lemma SplitsMonotone(seg: SegMatch, pattern: Rel, name: Rel, cuts: seq<nat>, i: nat, j: nat)
    requires Splits(seg, pattern, name, cuts) && i <= j <= |pattern|
    ensures cuts[i] <= cuts[j]
    decreases j - i
  {
    if i < j {
      assert Stretch(seg, pattern[i], name, cuts[i], cuts[i + 1]);
      SplitsMonotone(seg, pattern, name, cuts, i + 1, j);
    }
  }

  /** The first segment stands for the first n segments of the name. */
  lemma SplitsTail(seg: SegMatch, pattern: Rel, name: Rel, cuts: seq<nat>)
    requires pattern != [] && Splits(seg, pattern, name, cuts)
    ensures cuts[1] <= |name| && Stretch(seg, pattern[0], name, 0, cuts[1]) && Glob(seg, pattern[1..], name[cuts[1]..])
  {
    SplitsMonotone(seg, pattern, name, cuts, 1, |pattern|);
    assert Stretch(seg, pattern[0], name, cuts[0], cuts[1]);
    var n := cuts[1];
    forall j: nat | 1 <= j <= |pattern| ensures n <= cuts[j] { SplitsMonotone(seg, pattern, name, cuts, 1, j); }
    var rest := seq(|pattern|, i requires 0 <= i < |pattern| => (cuts[i + 1] - n) as nat);
    forall i | 0 <= i < |pattern| - 1
      ensures Stretch(seg, pattern[1..][i], name[n..], rest[i], rest[i + 1])
    {
      assert Stretch(seg, pattern[i + 1], name, cuts[i + 1], cuts[i + 2]);
    }
    assert Splits(seg, pattern[1..], name[n..], rest);
  }

  lemma SplitsCons(seg: SegMatch, pattern: Rel, name: Rel, n: nat)
    requires pattern != [] && n <= |name| && Stretch(seg, pattern[0], name, 0, n) && Glob(seg, pattern[1..], name[n..])
    ensures Glob(seg, pattern, name)
  {
    var rest :| Splits(seg, pattern[1..], name[n..], rest);
    var cuts: seq<nat> := [0] + seq(|pattern|, i requires 0 <= i < |pattern| => rest[i] + n);
    forall i | 0 <= i < |pattern| ensures Stretch(seg, pattern[i], name, cuts[i], cuts[i + 1]) {
      if i > 0 { assert Stretch(seg, pattern[1..][i - 1], name[n..], rest[i - 1], rest[i]); }
    }
    assert Splits(seg, pattern, name, cuts);
  }

  /** The recursive reading of a glob, one segment at a time. */
  lemma GlobCons(seg: SegMatch, pattern: Rel, name: Rel)
    requires pattern != []
    ensures Glob(seg, pattern, name) <==>
              exists n | 0 <= n <= |name| :: Stretch(seg, pattern[0], name, 0, n) && Glob(seg, pattern[1..], name[n..])
  {
    if Glob(seg, pattern, name) {
      var cuts :| Splits(seg, pattern, name, cuts);
      SplitsTail(seg, pattern, name, cuts);
    }
    if n: nat :| n <= |name| && Stretch(seg, pattern[0], name, 0, n) && Glob(seg, pattern[1..], name[n..]) {
      SplitsCons(seg, pattern, name, n);
    }
  }

  lemma GlobOne(seg: SegMatch, pattern: Rel, name: Rel)
    requires pattern != [] && pattern[0] != STARS
    ensures Glob(seg, pattern, name) <==> name != [] && seg(pattern[0], name[0]) && Glob(seg, pattern[1..], name[1..])
  {
    GlobCons(seg, pattern, name);
    if name != [] && seg(pattern[0], name[0]) && Glob(seg, pattern[1..], name[1..]) {
      assert Stretch(seg, pattern[0], name, 0, 1);
    }
  }

  lemma GlobTrailingStars(seg: SegMatch, name: Rel)
    ensures Glob(seg, [STARS], name)
  {
    assert Splits(seg, [STARS], name, [0, |name|]);
  }

  /** The matcher of the source: consume plain segments in a loop, try every split point at a "**". */
  method MatchSegments(seg: SegMatch, pattern0: Rel, name0: Rel) returns (b: bool)
    ensures b <==> Glob(seg, pattern0, name0)
    decreases |pattern0|
  {
    var pattern, name := pattern0, name0;
    while pattern != []
      invariant |pattern| <= |pattern0|
      invariant Glob(seg, pattern0, name0) <==> Glob(seg, pattern, name)
      decreases |pattern|
    {
      if pattern[0] == STARS {
        if |pattern| == 1 {
          assert pattern == [STARS];
          GlobTrailingStars(seg, name);
          return true;
        }
        GlobCons(seg, pattern, name);
        var i := 0;
        while i <= |name|
          invariant 0 <= i <= |name| + 1
          invariant forall k | 0 <= k < i :: !Glob(seg, pattern[1..], name[k..])
        {
          var m := MatchSegments(seg, pattern[1..], name[i..]);
          if m {
            assert Stretch(seg, pattern[0], name, 0, i);
            return true;
          }
          i := i + 1;
        }
        return false;
      }
      GlobOne(seg, pattern, name);
      if name == [] || !seg(pattern[0], name[0]) {
        return false;
      }
      pattern, name := pattern[1..], name[1..];
    }
    GlobNil(seg, name);
    b := name == [];
  }

  // ---------------------------------------------------------------- paths and the directories above them

  /** The empty pattern and the empty path match nothing. */
  ghost predicate MatchPath(seg: SegMatch, pattern: Rel, name: Rel) {
    pattern != [""] && name != [] && Glob(seg, pattern, name)
  }

  /** The path or a directory above it. */
  ghost predicate Covers(seg: SegMatch, pattern: Rel, rel: Rel) {
    exists n | 1 <= n <= |rel| :: MatchPath(seg, pattern, rel[..n])
  }

  ghost predicate Selected(seg: SegMatch, patterns: seq<Rel>, rel: Rel) {
    exists i | 0 <= i < |patterns| :: Covers(seg, patterns[i], rel)
  }

  method MatchesAny(seg: SegMatch, patterns: seq<Rel>, rel: Rel) returns (b: bool)
    ensures b <==> Selected(seg, patterns, rel)
  {
    for i := 0 to |patterns|
      invariant forall k | 0 <= k < i :: !Covers(seg, patterns[k], rel)
    {
      var n := |rel|;
      while 0 < n
        invariant 0 <= n <= |rel|
        invariant forall m | n < m <= |rel| :: !MatchPath(seg, patterns[i], rel[..m])
      {
        var m := MatchSegments(seg, patterns[i], rel[..n]);
        if m && patterns[i] != [""] {
          assert MatchPath(seg, patterns[i], rel[..n]);
          return true;
        }
        n := n - 1;
      }
    }
    return false;
  }

  /** What a pattern followed by "**" matches starts with something the pattern matches. */
  lemma {:induction false} GlobStem(seg: SegMatch, pattern: Rel, name: Rel) returns (n: nat)
    requires Glob(seg, pattern + [STARS], name)
    ensures n <= |name| && Glob(seg, pattern, name[..n])
    decreases |pattern|
  {
    if pattern == [] {
      n := 0;
      GlobNil(seg, name[..0]);
    } else {
      var longer := pattern + [STARS];
      assert longer[1..] == pattern[1..] + [STARS];
      var cuts :| Splits(seg, longer, name, cuts);
      SplitsTail(seg, longer, name, cuts);
      var k := cuts[1];
      var m := GlobStem(seg, pattern[1..], name[k..]);
      n := k + m;
      assert name[..n][k..] == name[k..][..m];
      SplitsCons(seg, pattern, name[..n], k);
    }
  }

  /** What a pattern matches, it also matches with "**" after it and anything more below. */
  lemma {:induction false} GlobBelow(seg: SegMatch, pattern: Rel, name: Rel, n: nat)
    requires n <= |name| && Glob(seg, pattern, name[..n])
    ensures Glob(seg, pattern + [STARS], name)
    decreases |pattern|
  {
    var longer := pattern + [STARS];
    if pattern == [] {
      assert longer == [STARS];
      GlobTrailingStars(seg, name);
    } else {
      assert longer[1..] == pattern[1..] + [STARS];
      var cuts :| Splits(seg, pattern, name[..n], cuts);
      SplitsTail(seg, pattern, name[..n], cuts);
      var k := cuts[1];
      assert name[..n][k..] == name[k..][..n - k];
      GlobBelow(seg, pattern[1..], name[k..], n - k);
      SplitsCons(seg, longer, name, k);
    }
  }

  /** A pattern that matches the empty list is all "**", and then it matches every list. */
  lemma {:induction false} GlobOfNothing(seg: SegMatch, pattern: Rel, name: Rel)
    requires pattern != [] && Glob(seg, pattern, [])
    ensures Glob(seg, pattern, name)
    decreases |pattern|
  {
    GlobCons(seg, pattern, []);
    var none: Rel := [];
    var n :| 0 <= n <= |none| && Stretch(seg, pattern[0], none, 0, n) && Glob(seg, pattern[1..], none[n..]);
    assert none[n..] == [];
    assert pattern[0] == STARS;
    if |pattern| == 1 {
      assert pattern == [STARS];
      GlobTrailingStars(seg, name);
    } else {
      GlobOfNothing(seg, pattern[1..], name);
      GlobCons(seg, pattern, name);
      assert Stretch(seg, pattern[0], name, 0, 0) && name[0..] == name;
    }
  }

  /** A pattern and the same pattern followed by two stars select the same paths. */
  lemma SubtreeSuffix(seg: SegMatch, pattern: Rel, rel: Rel)
    requires pattern != [] && pattern != [""]
    ensures Covers(seg, pattern + [STARS], rel) <==> Covers(seg, pattern, rel)
  {
    assert pattern + [STARS] != [""];
    if Covers(seg, pattern, rel) {
      var n :| 1 <= n <= |rel| && MatchPath(seg, pattern, rel[..n]);
      assert rel[..n][..n] == rel[..n];
      GlobBelow(seg, pattern, rel[..n], n);
      assert MatchPath(seg, pattern + [STARS], rel[..n]);
    }
    if Covers(seg, pattern + [STARS], rel) {
      var n :| 1 <= n <= |rel| && MatchPath(seg, pattern + [STARS], rel[..n]);
      var m := GlobStem(seg, pattern, rel[..n]);
      assert rel[..n][..m] == rel[..m];
      if m == 0 {
        GlobOfNothing(seg, pattern, rel[..n]);
        assert MatchPath(seg, pattern, rel[..n]);
      } else {
        assert MatchPath(seg, pattern, rel[..m]);
      }
    }
  }

  // ---------------------------------------------------------------- the filter of a pair

  const USER_DATA_DB := "ClipCornUserData.db"
  const HISTORY_DB := "ClipCornHistory.db"
  const LOCK_SUFFIX := ".~lock"
  const INCOMING_SUFFIX := ".incoming"

  /** The hard exclusions of a jcc pair, by the last segment of the path. */
  predicate RefusedName(base: Segment) {
    || base == USER_DATA_DB || base == HISTORY_DB
    || T.HasSuffix(base, LOCK_SUFFIX)
    || T.HasSuffix(base, "-journal") || T.HasSuffix(base, "-wal") || T.HasSuffix(base, "-shm")
    || ("." <= base && T.HasSuffix(base, INCOMING_SUFFIX))
  }

  /** Spelled out: the two databases of one's own, locks, what a database leaves beside itself, and databases on their way in. */
  lemma RefusedExactly(base: Segment)
    ensures RefusedName(base) <==>
              || base == "ClipCornUserData.db" || base == "ClipCornHistory.db"
              || (exists stem: Segment :: base == stem + ".~lock" || base == stem + "-journal" || base == stem + "-wal" || base == stem + "-shm")
              || base == ".incoming" || exists stem: Segment :: base == "." + stem + ".incoming"
  {
    EndsWith(base, ".~lock");
    EndsWith(base, "-journal");
    EndsWith(base, "-wal");
    EndsWith(base, "-shm");
    EndsWith(base, ".incoming");
    if stem: Segment :| base == "." + stem + ".incoming" {
      assert base == ("." + stem) + ".incoming";
      assert "." <= base;
    }
    if "." <= base && T.HasSuffix(base, ".incoming") && base != ".incoming" {
      var n := |base| - |".incoming"|;
      assert base == base[..n] + ".incoming" && base[..n] == "." + base[1..n];
    }
  }

  lemma EndsWith(base: Segment, suffix: Segment)
    ensures T.HasSuffix(base, suffix) <==> exists stem: Segment :: base == stem + suffix
  {
    if T.HasSuffix(base, suffix) { assert base == base[..|base| - |suffix|] + suffix; }
  }

  datatype Filter = Filter(includes: seq<Rel>, excludes: seq<Rel>, jcc: bool) {
    predicate Refused(rel: Rel) { jcc && rel != [] && RefusedName(rel[|rel| - 1]) }

    /** Whether a file belongs to the pair. */
    ghost predicate Allows(seg: SegMatch, rel: Rel) {
      !Refused(rel) && !Selected(seg, excludes, rel) && (includes == [] || Selected(seg, includes, rel))
    }

    /** Whether the walk descends into a directory: only the refusals and the excludes apply. */
    ghost predicate AllowsDir(seg: SegMatch, rel: Rel) {
      rel == [] || (!Refused(rel) && !Selected(seg, excludes, rel))
    }
  }

  method Allows(f: Filter, seg: SegMatch, rel: Rel) returns (b: bool)
    ensures b <==> f.Allows(seg, rel)
    ensures b <==> && !(f.jcc && rel != [] && RefusedName(rel[|rel| - 1]))
                   && (forall i | 0 <= i < |f.excludes| :: !Covers(seg, f.excludes[i], rel))
                   && (f.includes == [] || exists i | 0 <= i < |f.includes| :: Covers(seg, f.includes[i], rel))
  {
    if f.Refused(rel) {
      return false;
    }
    var excluded := MatchesAny(seg, f.excludes, rel);
    if excluded {
      return false;
    }
    if f.includes == [] {
      return true;
    }
    b := MatchesAny(seg, f.includes, rel);
  }

  method AllowsDir(f: Filter, seg: SegMatch, rel: Rel) returns (b: bool)
    ensures b <==> f.AllowsDir(seg, rel)
    ensures b <==> rel == [] || (!(f.jcc && RefusedName(rel[|rel| - 1])) && forall i | 0 <= i < |f.excludes| :: !Covers(seg, f.excludes[i], rel))
  {
    if rel == [] {
      return true;
    }
    var excluded := MatchesAny(seg, f.excludes, rel);
    b := !f.Refused(rel) && !excluded;
  }

  lemma CoversBelow(seg: SegMatch, pattern: Rel, rel: Rel, n: nat)
    requires n <= |rel| && Covers(seg, pattern, rel[..n])
    ensures Covers(seg, pattern, rel)
  {
    var m :| 1 <= m <= n && MatchPath(seg, pattern, rel[..n][..m]);
    assert rel[..n][..m] == rel[..m];
  }

  /** The directories above an allowed file are descended into, except those whose own name is refused. */
  lemma PruningIsExact(f: Filter, seg: SegMatch, rel: Rel, n: nat)
    requires f.Allows(seg, rel) && n <= |rel|
    ensures f.AllowsDir(seg, rel[..n]) <==> n == 0 || !f.Refused(rel[..n])
  {
    forall i | 0 <= i < |f.excludes| && Covers(seg, f.excludes[i], rel[..n])
      ensures Covers(seg, f.excludes[i], rel)
    {
      CoversBelow(seg, f.excludes[i], rel, n);
    }
  }

  /** A jcc pair's refusals are by name alone, so there a refused directory hides files that are not refused. */
  lemma RefusalsPruneMore(seg: SegMatch)
    ensures var f := Filter([], [], true);
            f.Allows(seg, ["x-wal", "cover.png"]) && !f.AllowsDir(seg, ["x-wal"])
  {}
}
