/** The canonical text of a grid, and that parsing undoes it (schedule/schedule.go). */
module SchedulePrint {
  import opened Text
  import opened Sizes
  import opened Schedule

  // ---------------------------------------------------------------- the rules a grid is printed as

  function Row(g: Grid, d: nat): (row: seq<int>)
    requires d < DAYS
    ensures |row| == HOURS
  {
    g[Weekday(d) * HOURS..Weekday(d) * HOURS + HOURS]
  }

  /** The places where a mask is set, in order. */
  function Picks(mask: seq<bool>): seq<nat> {
    if mask == [] then []
    else
      var n := |mask| - 1;
      Picks(mask[..n]) + (if mask[n] then [n] else [])
  }

  /** The days from day i on that read like it. */
  function SameDays(g: Grid, i: nat): seq<nat>
    requires i < DAYS
  {
    Picks(seq(DAYS, j requires 0 <= j < DAYS => i <= j && Row(g, j) == Row(g, i)))
  }

  /** The hours at which a day has this limit. */
  function HoursWith(row: seq<int>, limit: int): seq<nat> {
    Picks(seq(|row|, k requires 0 <= k < |row| => row[k] == limit))
  }

  /** One rule per distinct limit in the first n hours, in the order the day first reaches it. */
  function RowRules(row: seq<int>, days: seq<nat>, n: nat): seq<Rule>
    requires n <= |row|
  {
    if n == 0 then []
    else
      var last := row[n - 1];
      RowRules(row, days, n - 1) + (if last in row[..n - 1] then [] else [Rule(days, HoursWith(row, last), last)])
  }

  predicate FirstOfKind(g: Grid, i: nat)
    requires i < DAYS
  {
    forall j | 0 <= j < i :: Row(g, j) != Row(g, i)
  }

  /** The rules of the first n days: each group where its first day comes up. */
  function GridRules(g: Grid, n: nat): seq<Rule>
    requires n <= DAYS
  {
    Joined(Groups(g), n)
  }

  function Groups(g: Grid): seq<seq<Rule>> { seq(DAYS, i requires 0 <= i < DAYS => GroupRules(g, i)) }

  function Joined(groups: seq<seq<Rule>>, n: nat): seq<Rule>
    requires n <= |groups|
  {
    if n == 0 then [] else Joined(groups, n - 1) + groups[n - 1]
  }

  function GroupRules(g: Grid, i: nat): seq<Rule>
    requires i < DAYS
  {
    if FirstOfKind(g, i) then RowRules(Row(g, i), SameDays(g, i), |Row(g, i)|) else []
  }

  // ---------------------------------------------------------------- their text

  /** How many of the first entries are consecutive. */
  function RunLength(xs: seq<nat>): (n: nat)
    requires xs != []
    ensures 1 <= n <= |xs| && forall k | 0 <= k < n :: xs[k] == xs[0] + k
  {
    if 1 < |xs| && xs[1] == xs[0] + 1 then
      var n := RunLength(xs[1..]);
      assert forall k | 1 <= k < n + 1 :: xs[k] == xs[1..][k - 1];
      n + 1
    else 1
  }

  datatype Span = Span(first: nat, last: nat)

  function Runs(xs: seq<nat>): seq<Span> {
    if xs == [] then [] else [Span(xs[0], xs[RunLength(xs) - 1])] + Runs(xs[RunLength(xs)..])
  }

  lemma RunsHead(xs: seq<nat>, n: nat)
    requires xs != [] && n == RunLength(xs)
    ensures Runs(xs) == [Span(xs[0], xs[n - 1])] + Runs(xs[n..])
  {}

  function DayText(s: Span): string
    requires s.first < DAYS && s.last < DAYS
  {
    if s.first == s.last then DAY_NAMES[s.first] else DAY_NAMES[s.first] + "-" + DAY_NAMES[s.last]
  }

  function HourText(s: Span): string {
    if s.first == s.last then FormatNat(s.first) else FormatNat(s.first) + "-" + FormatNat(s.last + 1)
  }

  predicate SpansBelow(spans: seq<Span>, n: nat) {
    forall i | 0 <= i < |spans| :: spans[i].first <= spans[i].last < n
  }

  function DayTexts(spans: seq<Span>): (ts: seq<string>)
    requires SpansBelow(spans, DAYS)
    ensures |ts| == |spans|
  {
    if spans == [] then [] else [DayText(spans[0])] + DayTexts(spans[1..])
  }

  function HourTexts(spans: seq<Span>): (ts: seq<string>)
    ensures |ts| == |spans|
  {
    if spans == [] then [] else [HourText(spans[0])] + HourTexts(spans[1..])
  }

  lemma {:induction false} RunsBelow(xs: seq<nat>, n: nat)
    requires InRange(xs, n)
    ensures SpansBelow(Runs(xs), n)
    decreases |xs|
  {
    if xs != [] {
      RunsBelow(xs[RunLength(xs)..], n);
    }
  }

  function RenderDays(days: seq<nat>): string
    requires InRange(days, DAYS)
  {
    RunsBelow(days, DAYS);
    if |days| == DAYS then "*" else Join(DayTexts(Runs(days)), ",")
  }

  function RenderHours(hours: seq<nat>): string {
    if |hours| == HOURS then "*" else Join(HourTexts(Runs(hours)), ",")
  }

  function RenderCap(c: int): string {
    if c == CLOSED then "off" else if c == UNLIMITED then "full" else SizeText(c)
  }

  function RenderRule(r: Rule): string
    requires WellFormed(r)
  {
    RenderDays(r.days) + " " + RenderHours(r.hours) + " = " + RenderCap(r.limit)
  }

  function RenderRules(rules: seq<Rule>): (ts: seq<string>)
    requires AllWellFormed(rules)
    ensures |ts| == |rules|
  {
    seq(|rules|, k requires 0 <= k < |rules| => RenderRule(rules[k]))
  }

  // ---------------------------------------------------------------- the printed rules are the grid

  predicate Increasing(xs: seq<nat>) { forall i, j | 0 <= i < j < |xs| :: xs[i] < xs[j] }

  lemma {:induction false} PicksAre(mask: seq<bool>)
    ensures var xs := Picks(mask);
            Increasing(xs) && InRange(xs, |mask|) && forall k: nat :: k in xs <==> k < |mask| && mask[k]
  {
    if mask != [] {
      var n := |mask| - 1;
      PicksAre(mask[..n]);
      PickLast(Picks(mask[..n]), n, mask[n]);
      forall k: nat | k < n ensures mask[..n][k] == mask[k] {}
    }
  }

  lemma PickLast(xs: seq<nat>, n: nat, last: bool)
    requires Increasing(xs) && InRange(xs, n)
    ensures var xs' := xs + (if last then [n] else []);
            Increasing(xs') && InRange(xs', n + 1) && forall k: nat :: k in xs' <==> k in xs || (last && k == n)
  {}

  /** Days that read alike, and the hours at which they have this limit. */
  ghost predicate TrueRule(g: Grid, r: Rule) {
    && WellFormed(r) && Increasing(r.days) && Increasing(r.hours) && r.days != [] && r.hours != []
    && forall d, h | d in r.days && h in r.hours :: g[CellIndex(d, h)] == r.limit
  }

  ghost predicate Shows(rules: seq<Rule>, d: nat, h: nat) {
    exists k | 0 <= k < |rules| :: d in rules[k].days && h in rules[k].hours
  }

  lemma RowCell(g: Grid, d: nat, h: nat)
    requires d < DAYS && h < HOURS
    ensures Row(g, d)[h] == g[CellIndex(d, h)]
  {}

  lemma SameDaysAre(g: Grid, i: nat)
    requires i < DAYS
    ensures var ds := SameDays(g, i);
            Increasing(ds) && InRange(ds, DAYS) && forall d: nat :: d in ds <==> i <= d < DAYS && Row(g, d) == Row(g, i)
  {
    PicksAre(seq(DAYS, j requires 0 <= j < DAYS => i <= j && Row(g, j) == Row(g, i)));
  }

  lemma HoursWithAre(row: seq<int>, limit: int)
    ensures var hs := HoursWith(row, limit);
            Increasing(hs) && InRange(hs, |row|) && forall h: nat :: h in hs <==> h < |row| && row[h] == limit
  {
    PicksAre(seq(|row|, k requires 0 <= k < |row| => row[k] == limit));
  }

  lemma OneRowRule(g: Grid, i: nat, h: nat)
    requires i < DAYS && h < HOURS
    ensures TrueRule(g, Rule(SameDays(g, i), HoursWith(Row(g, i), Row(g, i)[h]), Row(g, i)[h]))
  {
    var row := Row(g, i);
    var days, hours := SameDays(g, i), HoursWith(row, row[h]);
    SameDaysAre(g, i);
    HoursWithAre(row, row[h]);
    assert i in days && h in hours;
    forall d, k | d in days && k in hours ensures g[CellIndex(d, k)] == row[h] {
      RowCell(g, d, k);
    }
  }

  ghost predicate AllTrue(g: Grid, rules: seq<Rule>) { forall k | 0 <= k < |rules| :: TrueRule(g, rules[k]) }

  lemma {:induction false} RowRulesTrue(g: Grid, i: nat, n: nat)
    requires i < DAYS && n <= HOURS
    ensures AllTrue(g, RowRules(Row(g, i), SameDays(g, i), n))
  {
    if 0 < n {
      RowRulesTrue(g, i, n - 1);
      OneRowRule(g, i, n - 1);
    }
  }

  lemma {:induction false} JoinedTrue(g: Grid, groups: seq<seq<Rule>>, n: nat)
    requires n <= |groups| && forall i | 0 <= i < n :: AllTrue(g, groups[i])
    ensures AllTrue(g, Joined(groups, n))
  {
    if 0 < n {
      JoinedTrue(g, groups, n - 1);
      BothTrue(g, Joined(groups, n - 1), groups[n - 1]);
    }
  }

  lemma GridRulesTrue(g: Grid, n: nat)
    requires n <= DAYS
    ensures AllTrue(g, GridRules(g, n)) && AllWellFormed(GridRules(g, n))
  {
    forall i | 0 <= i < n ensures AllTrue(g, Groups(g)[i]) { GroupRulesTrue(g, i); }
    JoinedTrue(g, Groups(g), n);
  }

  lemma GroupRulesTrue(g: Grid, i: nat)
    requires i < DAYS
    ensures AllTrue(g, GroupRules(g, i))
  {
    RowRulesTrue(g, i, |Row(g, i)|);
  }

  lemma BothTrue(g: Grid, front: seq<Rule>, back: seq<Rule>)
    requires AllTrue(g, front) && AllTrue(g, back)
    ensures AllTrue(g, front + back) && AllWellFormed(front + back)
  {}

  lemma ShowsIn(front: seq<Rule>, back: seq<Rule>, d: nat, h: nat)
    requires Shows(front, d, h) || Shows(back, d, h)
    ensures Shows(front + back, d, h)
  {
    if k :| 0 <= k < |front| && d in front[k].days && h in front[k].hours {
      assert (front + back)[k] == front[k];
    } else {
      var k :| 0 <= k < |back| && d in back[k].days && h in back[k].hours;
      assert (front + back)[|front| + k] == back[k];
    }
  }

  /** A limit reached within the first n hours has its rule, and that rule shows every hour with the limit. */
  lemma {:induction false} RowRulesShow(row: seq<int>, days: seq<nat>, n: nat, d: nat, m: nat)
    requires n <= |row| && d in days && m < |row| && row[m] in row[..n]
    ensures Shows(RowRules(row, days, n), d, m)
  {
    var front := RowRules(row, days, n - 1);
    var back := if row[n - 1] in row[..n - 1] then [] else [Rule(days, HoursWith(row, row[n - 1]), row[n - 1])];
    if row[m] in row[..n - 1] {
      RowRulesShow(row, days, n - 1, d, m);
    } else {
      assert row[..n] == row[..n - 1] + [row[n - 1]];
      HoursWithAre(row, row[n - 1]);
      assert d in back[0].days && m in back[0].hours;
    }
    ShowsIn(front, back, d, m);
  }

  lemma GroupRulesShow(g: Grid, first: nat, d: nat, h: nat)
    requires first <= d < DAYS && h < HOURS && FirstOfKind(g, first) && Row(g, d) == Row(g, first)
    ensures Shows(GroupRules(g, first), d, h)
  {
    var row := Row(g, first);
    SameDaysAre(g, first);
    assert row[..|row|] == row;
    RowRulesShow(row, SameDays(g, first), |row|, d, h);
  }

  /** What a group shows, the whole shows. */
  lemma {:induction false} JoinedShows(groups: seq<seq<Rule>>, n: nat, i: nat, d: nat, h: nat)
    requires i < n <= |groups| && Shows(groups[i], d, h)
    ensures Shows(Joined(groups, n), d, h)
  {
    if i < n - 1 { JoinedShows(groups, n - 1, i, d, h); }
    ShowsIn(Joined(groups, n - 1), groups[n - 1], d, h);
  }

  /** The group of day d is printed where its first day comes up. */
  lemma GridRulesShow(g: Grid, n: nat, first: nat, d: nat, h: nat)
    requires first < n <= DAYS && first <= d < DAYS && h < HOURS && FirstOfKind(g, first) && Row(g, d) == Row(g, first)
    ensures Shows(GridRules(g, n), d, h)
  {
    GroupRulesShow(g, first, d, h);
    JoinedShows(Groups(g), n, first, d, h);
  }

  lemma {:induction false} FirstOfItsKind(g: Grid, d: nat, n: nat) returns (first: nat)
    requires n <= d < DAYS && forall j | 0 <= j < n :: Row(g, j) != Row(g, d)
    ensures first <= d && Row(g, first) == Row(g, d) && FirstOfKind(g, first)
    decreases d - n
  {
    if n == d || Row(g, n) == Row(g, d) {
      first := n;
    } else {
      first := FirstOfItsKind(g, d, n + 1);
    }
  }

  lemma WeekdayOnto(w: nat) returns (d: nat)
    requires w < DAYS
    ensures d < DAYS && Weekday(d) == w && forall e: nat | e < DAYS && Weekday(e) == w :: e == d
  {
    d := (w + 6) % DAYS;
  }

  /** The printed rules, applied in order, give the grid back: they never contradict it and they leave nothing out. */
  lemma PrintedRulesAreTheGrid(g: Grid, n: nat)
    requires n == DAYS
    ensures Fill(GridRules(g, n)) == g
  {
    var rules := GridRules(g, n);
    GridRulesTrue(g, n);
    forall i: nat | i < CELLS ensures Fill(rules)[i] == g[i] {
      var d := WeekdayOnto(i / HOURS);
      var h := i % HOURS;
      assert CellIndex(d, h) == i;
      var first := FirstOfItsKind(g, d, 0);
      GridRulesShow(g, n, first, d, h);
      FillShown(g, rules, d, h);
    }
  }

  lemma {:induction false} FillShown(g: Grid, rules: seq<Rule>, d: nat, h: nat)
    requires d < DAYS && h < HOURS && Shows(rules, d, h) && AllTrue(g, rules)
    ensures Fill(rules)[CellIndex(d, h)] == g[CellIndex(d, h)]
    decreases |rules|
  {
    var i := CellIndex(d, h);
    var last, front := rules[|rules| - 1], rules[..|rules| - 1];
    CoversCell(last, d, h);
    if !(d in last.days && h in last.hours) {
      var k :| 0 <= k < |rules| && d in rules[k].days && h in rules[k].hours;
      assert front[k] == rules[k];
      FillShown(g, front, d, h);
    }
  }

  lemma CoversCell(r: Rule, d: nat, h: nat)
    requires d < DAYS && h < HOURS && WellFormed(r)
    ensures Covers(r, CellIndex(d, h)) <==> d in r.days && h in r.hours
  {
    HourInDay(Weekday(d), h);
    var e := WeekdayOnto(Weekday(d));
    if d in r.days {
      var k :| 0 <= k < |r.days| && r.days[k] == d;
      assert Weekday(r.days[k]) == CellIndex(d, h) / HOURS;
    }
  }
}
