/** The printer as it is written: loops over days and hours (schedule/schedule.go). */
module ScheduleString {
  import opened Text
  import opened Sizes
  import opened Schedule
  import opened SchedulePrint
  import opened ScheduleRoundTrip

  lemma {:induction false} PicksSnoc(mask: seq<bool>, n: nat)
    requires n < |mask|
    ensures Picks(mask[..n + 1]) == Picks(mask[..n]) + (if mask[n] then [n] else [])
  {
    assert mask[..n + 1][..n] == mask[..n];
  }

  /** The hours at which a day has this limit. */
  method HoursAt(row: seq<int>, limit: int) returns (hours: seq<nat>)
    ensures hours == HoursWith(row, limit)
  {
    ghost var mask := seq(|row|, k requires 0 <= k < |row| => row[k] == limit);
    hours := [];
    for k := 0 to |row|
      invariant hours == Picks(mask[..k])
    {
      PicksSnoc(mask, k);
      if row[k] == limit {
        hours := hours + [k];
      }
    }
    assert mask[..|row|] == mask;
  }

  lemma RunExtends(xs: seq<nat>, i: nat, j: nat)
    requires i <= j && j + 1 < |xs| && xs[j + 1] == xs[j] + 1
    ensures RunLength(xs[j..]) == 1 + RunLength(xs[j + 1..])
  {
    assert xs[j..][1..] == xs[j + 1..];
  }

  lemma RunsStep(xs: seq<nat>, i: nat, j: nat)
    requires i <= j < |xs| && RunLength(xs[i..]) == j - i + 1
    ensures Runs(xs[i..]) == [Span(xs[i], xs[j])] + Runs(xs[j + 1..])
  {
    var n := j - i + 1;
    RunsHead(xs[i..], n);
    assert xs[i..][n..] == xs[j + 1..];
  }

  /** Where the run starting at i ends. */
  method RunEnd(xs: seq<nat>, i: nat) returns (j: nat)
    requires i < |xs|
    ensures i <= j < |xs| && RunLength(xs[i..]) == j - i + 1
  {
    j := i;
    while j + 1 < |xs| && xs[j + 1] == xs[j] + 1
      invariant i <= j < |xs| && RunLength(xs[i..]) == j - i + RunLength(xs[j..])
      decreases |xs| - j
    {
      RunExtends(xs, i, j);
      j := j + 1;
    }
  }

  lemma OneMore(spans: seq<Span>, s: Span, rest: seq<Span>)
    ensures spans + ([s] + rest) == spans + [s] + rest
  {}

  /** Runs of consecutive entries, found with two indices. */
  method FindRuns(xs: seq<nat>) returns (spans: seq<Span>)
    ensures spans == Runs(xs)
  {
    spans := [];
    var i := 0;
    assert xs[0..] == xs;
    while i < |xs|
      invariant 0 <= i <= |xs| && Runs(xs) == spans + Runs(xs[i..])
      decreases |xs| - i
    {
      var j := RunEnd(xs, i);
      RunsStep(xs, i, j);
      OneMore(spans, Span(xs[i], xs[j]), Runs(xs[j + 1..]));
      spans := spans + [Span(xs[i], xs[j])];
      i := j + 1;
    }
  }

  lemma DayTextsStep(spans: seq<Span>, k: nat)
    requires SpansBelow(spans, DAYS) && k < |spans|
    ensures DayTexts(spans[k..]) == [DayText(spans[k])] + DayTexts(spans[k + 1..])
  {
    assert spans[k..][1..] == spans[k + 1..];
  }

  lemma HourTextsStep(spans: seq<Span>, k: nat)
    requires k < |spans|
    ensures HourTexts(spans[k..]) == [HourText(spans[k])] + HourTexts(spans[k + 1..])
  {
    assert spans[k..][1..] == spans[k + 1..];
  }

  method DayParts(spans: seq<Span>) returns (parts: seq<string>)
    requires SpansBelow(spans, DAYS)
    ensures parts == DayTexts(spans)
  {
    parts := [];
    assert spans[0..] == spans;
    for k := 0 to |spans|
      invariant parts + DayTexts(spans[k..]) == DayTexts(spans)
    {
      DayTextsStep(spans, k);
      parts := parts + [DayText(spans[k])];
    }
  }

  method HourParts(spans: seq<Span>) returns (parts: seq<string>)
    ensures parts == HourTexts(spans)
  {
    parts := [];
    assert spans[0..] == spans;
    for k := 0 to |spans|
      invariant parts + HourTexts(spans[k..]) == HourTexts(spans)
    {
      HourTextsStep(spans, k);
      parts := parts + [HourText(spans[k])];
    }
  }

  method DaysText(days: seq<nat>) returns (t: string)
    requires InRange(days, DAYS)
    ensures t == RenderDays(days)
  {
    if |days| == DAYS {
      return "*";
    }
    var spans := FindRuns(days);
    RunsBelow(days, DAYS);
    var parts := DayParts(spans);
    t := Join(parts, ",");
  }

  method HoursText(hours: seq<nat>) returns (t: string)
    ensures t == RenderHours(hours)
  {
    if |hours| == HOURS {
      return "*";
    }
    var spans := FindRuns(hours);
    var parts := HourParts(spans);
    t := Join(parts, ",");
  }

  method CapText(c: int) returns (t: string)
    ensures t == RenderCap(c)
  {
    if c == CLOSED {
      t := "off";
    } else if c == UNLIMITED {
      t := "full";
    } else {
      t := Size(c);
    }
  }

  lemma RenderAppend(rules: seq<Rule>, r: Rule)
    requires AllWellFormed(rules) && WellFormed(r)
    ensures AllWellFormed(rules + [r]) && RenderRules(rules + [r]) == RenderRules(rules) + [RenderRule(r)]
  {}

  method RuleText(days: seq<nat>, hours: seq<nat>, limit: int) returns (t: string)
    requires WellFormed(Rule(days, hours, limit))
    ensures t == RenderRule(Rule(days, hours, limit))
  {
    var d := DaysText(days);
    var h := HoursText(hours);
    var c := CapText(limit);
    t := d + " " + h + " = " + c;
  }

  lemma RowRulesStep(row: seq<int>, days: seq<nat>, h: nat)
    requires h < |row|
    ensures RowRules(row, days, h + 1)
         == RowRules(row, days, h) + (if row[h] in row[..h] then [] else [Rule(days, HoursWith(row, row[h]), row[h])])
  {}

  /** The limits met in the first h hours. */
  ghost predicate Met(seen: seq<int>, row: seq<int>, h: nat)
    requires h <= |row|
  {
    forall c :: c in seen <==> c in row[..h]
  }

  lemma MeetNext(seen: seq<int>, row: seq<int>, h: nat)
    requires h < |row| && Met(seen, row, h)
    ensures Met(if row[h] in seen then seen else seen + [row[h]], row, h + 1)
    ensures row[h] in seen <==> row[h] in row[..h]
  {
    assert row[..h + 1] == row[..h] + [row[h]];
    forall c ensures c in row[..h + 1] <==> c in row[..h] || c == row[h] {}
  }

  /** One more rule shown, in the order the day first reaches its limit. */
  lemma ShowRule(before: seq<Rule>, row: seq<int>, days: seq<nat>, h: nat, shown: seq<Rule>)
    requires |row| == HOURS && h < |row| && InRange(days, DAYS) && AllWellFormed(shown) && shown == before + RowRules(row, days, h)
    requires row[h] !in row[..h]
    ensures var r := Rule(days, HoursWith(row, row[h]), row[h]);
            && WellFormed(r) && AllWellFormed(shown + [r]) && shown + [r] == before + RowRules(row, days, h + 1)
            && RenderRules(shown + [r]) == RenderRules(shown) + [RenderRule(r)]
  {
    RowRulesStep(row, days, h);
    HoursWithAre(row, row[h]);
    RenderAppend(shown, Rule(days, HoursWith(row, row[h]), row[h]));
  }

  /** The rules of one group of days, one per distinct limit, appended to what is printed already. */
  method RowText(row: seq<int>, days: seq<nat>, ghost before: seq<Rule>, out0: seq<string>) returns (out: seq<string>)
    requires |row| == HOURS && InRange(days, DAYS) && AllWellFormed(before) && out0 == RenderRules(before)
    ensures AllWellFormed(before + RowRules(row, days, |row|)) && out == RenderRules(before + RowRules(row, days, |row|))
  {
    out := out0;
    var seen: seq<int> := [];
    ghost var shown := before;
    for h := 0 to |row|
      invariant Met(seen, row, h) && shown == before + RowRules(row, days, h)
      invariant AllWellFormed(shown) && out == RenderRules(shown)
    {
      MeetNext(seen, row, h);
      if row[h] in seen {
        RowRulesStep(row, days, h);
        continue;
      }
      ShowRule(before, row, days, h, shown);
      seen := seen + [row[h]];
      var hours := HoursAt(row, row[h]);
      var t := RuleText(days, hours, row[h]);
      out, shown := out + [t], shown + [Rule(days, hours, row[h])];
    }
  }

  /** An earlier day than day i reads like day j. */
  ghost predicate Seen(byDay: seq<seq<int>>, i: nat, j: nat)
    requires i <= |byDay| && j < |byDay|
  {
    exists e: nat | e < i :: byDay[e] == byDay[j]
  }

  lemma SeenNext(byDay: seq<seq<int>>, i: nat, j: nat)
    requires i < |byDay| && j < |byDay|
    ensures Seen(byDay, i + 1, j) <==> Seen(byDay, i, j) || byDay[i] == byDay[j]
  {}

  ghost function GroupMask(byDay: seq<seq<int>>, i: nat): (mask: seq<bool>)
    requires i < |byDay|
    ensures |mask| == |byDay|
  {
    seq(|byDay|, j requires 0 <= j < |byDay| => i <= j && byDay[j] == byDay[i])
  }

  /** Day i and the later days that read like it; they are done with it. */
  method GroupOf(byDay: seq<seq<int>>, i: nat, done: array<bool>) returns (group: seq<nat>)
    requires i < |byDay| == done.Length && !Seen(byDay, i, i)
    requires forall j: nat | i <= j < |byDay| :: done[j] <==> Seen(byDay, i, j)
    modifies done
    ensures group == Picks(GroupMask(byDay, i))
    ensures forall j: nat | i < j < |byDay| :: done[j] <==> Seen(byDay, i + 1, j)
  {
    ghost var mask := GroupMask(byDay, i);
    NoneBefore(mask, i);
    PicksSnoc(mask, i);
    group := [i];
    for j := i + 1 to |byDay|
      invariant group == Picks(mask[..j])
      invariant forall k: nat | i < k < j :: done[k] <==> Seen(byDay, i + 1, k)
      invariant forall k: nat | j <= k < |byDay| :: done[k] <==> Seen(byDay, i, k)
    {
      PicksSnoc(mask, j);
      SeenNext(byDay, i, j);
      if !done[j] && byDay[j] == byDay[i] {
        group := group + [j];
        done[j] := true;
      }
    }
    assert mask[..|byDay|] == mask;
  }

  lemma {:induction false} NoneBefore(mask: seq<bool>, n: nat)
    requires n <= |mask| && forall k | 0 <= k < n :: !mask[k]
    ensures Picks(mask[..n]) == []
  {
    if 0 < n {
      NoneBefore(mask, n - 1);
      PicksSnoc(mask, n - 1);
    }
  }

  /** The grid day by day, in reading order. */
  method ByDay(g: Grid, days: nat) returns (byDay: seq<seq<int>>)
    requires days == DAYS
    ensures |byDay| == days && forall d: nat | d < days :: byDay[d] == Row(g, d)
  {
    byDay := [];
    for d := 0 to days
      invariant |byDay| == d && forall e: nat | e < d :: byDay[e] == Row(g, e)
    {
      byDay := byDay + [Row(g, d)];
    }
  }

  lemma SameGroup(g: Grid, byDay: seq<seq<int>>, i: nat)
    requires |byDay| == DAYS && i < |byDay| && forall d: nat | d < DAYS :: byDay[d] == Row(g, d)
    ensures Picks(GroupMask(byDay, i)) == SameDays(g, i)
    ensures FirstOfKind(g, i) <==> !Seen(byDay, i, i)
  {
    var mask := seq(DAYS, j requires 0 <= j < DAYS => i <= j && Row(g, j) == Row(g, i));
    assert GroupMask(byDay, i) == mask;
  }

  lemma StaySeen(byDay: seq<seq<int>>, i: nat)
    requires i < |byDay| && Seen(byDay, i, i)
    ensures forall j: nat | i < j < |byDay| :: Seen(byDay, i + 1, j) <==> Seen(byDay, i, j)
  {
    var e: nat :| e < i && byDay[e] == byDay[i];
    forall j: nat | i < j < |byDay| ensures Seen(byDay, i + 1, j) <==> Seen(byDay, i, j) {
      SeenNext(byDay, i, j);
      assert byDay[i] == byDay[j] ==> byDay[e] == byDay[j];
    }
  }

  lemma GridRulesStep(g: Grid, i: nat)
    requires i < DAYS
    ensures GridRules(g, i + 1) == GridRules(g, i) + (if FirstOfKind(g, i) then RowRules(Row(g, i), SameDays(g, i), |Row(g, i)|) else [])
  {
    assert Groups(g)[i] == GroupRules(g, i);
  }

  /** What one more day adds, in terms of the days read so far. */
  lemma DayRules(g: Grid, byDay: seq<seq<int>>, i: nat)
    requires |byDay| == DAYS && i < |byDay| && forall d: nat | d < DAYS :: byDay[d] == Row(g, d)
    ensures var row, group := byDay[i], Picks(GroupMask(byDay, i));
            && |row| == HOURS && InRange(group, DAYS)
            && GridRules(g, i + 1) == if Seen(byDay, i, i) then GridRules(g, i) else GridRules(g, i) + RowRules(row, group, |row|)
  {
    SameGroup(g, byDay, i);
    SameDaysAre(g, i);
    GridRulesStep(g, i);
  }

  /** The rules of every group, where its first day comes up. */
  method RuleTexts(g: Grid, byDay: seq<seq<int>>) returns (out: seq<string>)
    requires |byDay| == DAYS && forall d: nat | d < |byDay| :: byDay[d] == Row(g, d)
    ensures AllWellFormed(GridRules(g, |byDay|)) && out == RenderRules(GridRules(g, |byDay|))
  {
    out := [];
    var done := new bool[|byDay|](_ => false);
    ghost var shown: seq<Rule> := [];
    for i := 0 to |byDay|
      invariant shown == GridRules(g, i) && AllWellFormed(shown) && out == RenderRules(shown)
      invariant forall j: nat | i <= j < |byDay| :: done[j] <==> Seen(byDay, i, j)
    {
      DayRules(g, byDay, i);
      if done[i] {
        StaySeen(byDay, i);
      } else {
        var group := GroupOf(byDay, i, done);
        out := RowText(byDay[i], group, shown, out);
        shown := shown + RowRules(byDay[i], group, |byDay[i]|);
      }
    }
  }

  /** The grid in its canonical form. */
  method String(g: Grid) returns (s: string)
    ensures s == Print(g)
  {
    var byDay := ByDay(g, DAYS);
    var out := RuleTexts(g, byDay);
    s := Join(out, "; ");
  }
}
