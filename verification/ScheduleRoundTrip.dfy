/** Parsing the printed form of a grid returns the grid (schedule/schedule.go, format/format.go). */
module ScheduleRoundTrip {
  import opened Text
  import opened Sizes
  import opened Schedule
  import opened SchedulePrint

  // ---------------------------------------------------------------- characters

  /** The characters the parts of a rule are printed with: none of them ends a word, a part or a rule. */
  predicate PlainChar(c: char) {
    IsDigit(c) || 'a' <= c <= 'z' || 'A' <= c <= 'Z' || c == '-' || c == '*'
  }

  predicate Plain(s: string) { forall i | 0 <= i < |s| :: PlainChar(s[i]) }

  predicate PlainList(s: string) { forall i | 0 <= i < |s| :: PlainChar(s[i]) || s[i] == ',' }

  lemma PlainNames()
    ensures forall d: nat | d < DAYS :: |DAY_NAMES[d]| == 3 && Plain(DAY_NAMES[d]) && '-' !in DAY_NAMES[d]
    ensures forall d: nat | d < DAYS :: 'a' <= DAY_NAMES[d][0] <= 'z'
  {}

  lemma TrimmedPlain(s: string)
    requires PlainList(s)
    ensures Trimmed(s) && TrimSpace(s) == s
  {
    TrimPadded(s);
  }

  lemma {:induction false} JoinPlain(parts: seq<string>)
    requires forall i | 0 <= i < |parts| :: Plain(parts[i]) && parts[i] != []
    ensures PlainList(Join(parts, ",")) && (parts != [] ==> Join(parts, ",") != [] && Join(parts, ",")[0] == parts[0][0])
  {
    if 1 < |parts| { JoinPlain(parts[1..]); }
  }

  // ---------------------------------------------------------------- runs

  function Interval(a: nat, b: nat): seq<nat>
    requires a <= b
  {
    seq(b - a + 1, i requires 0 <= i => a + i)
  }

  predicate Ordered(spans: seq<Span>) { forall i | 0 <= i < |spans| :: spans[i].first <= spans[i].last }

  function Expand(spans: seq<Span>): seq<nat>
    requires Ordered(spans)
  {
    if spans == [] then [] else Interval(spans[0].first, spans[0].last) + Expand(spans[1..])
  }

  lemma ExpandCons(s: Span, rest: seq<Span>)
    requires s.first <= s.last && Ordered(rest)
    ensures Ordered([s] + rest) && Expand([s] + rest) == Interval(s.first, s.last) + Expand(rest)
  {
    assert ([s] + rest)[1..] == rest;
  }

  lemma RunIsInterval(xs: seq<nat>)
    requires xs != []
    ensures var n := RunLength(xs); xs[0] <= xs[n - 1] && xs[..n] == Interval(xs[0], xs[n - 1])
  {
    var n := RunLength(xs);
    assert xs[n - 1] == xs[0] + (n - 1);
    assert |Interval(xs[0], xs[n - 1])| == n;
    forall k | 0 <= k < n ensures xs[..n][k] == Interval(xs[0], xs[n - 1])[k] {}
  }

  lemma FirstRun(xs: seq<nat>) returns (n: nat, head: Span)
    requires xs != []
    ensures 1 <= n <= |xs| && head.first <= head.last && xs[..n] == Interval(head.first, head.last)
    ensures Runs(xs) == [head] + Runs(xs[n..])
  {
    n := RunLength(xs);
    head := Span(xs[0], xs[n - 1]);
    RunIsInterval(xs);
    RunsHead(xs, n);
  }

  lemma {:induction false} RunsExpand(xs: seq<nat>)
    ensures Ordered(Runs(xs)) && Expand(Runs(xs)) == xs
    decreases |xs|
  {
    if xs != [] {
      var n, head := FirstRun(xs);
      RunsExpand(xs[n..]);
      ExpandStep(xs, n, head, Runs(xs[n..]));
    }
  }

  lemma ExpandStep(xs: seq<nat>, n: nat, head: Span, rest: seq<Span>)
    requires n <= |xs| && head.first <= head.last && xs[..n] == Interval(head.first, head.last)
    requires Ordered(rest) && Expand(rest) == xs[n..]
    ensures Ordered([head] + rest) && Expand([head] + rest) == xs
  {
    ExpandCons(head, rest);
    assert xs == xs[..n] + xs[n..];
  }

  // ---------------------------------------------------------------- days

  lemma ReadDay(d: nat)
    requires d < DAYS
    ensures ParseDay(DAY_NAMES[d]) == Ok(d)
  {
    PlainNames();
    TrimmedPlain(DAY_NAMES[d]);
    assert ToLower(DAY_NAMES[d]) == DAY_NAMES[d];
    FindNamed(d, 0);
  }

  lemma {:induction false} FindNamed(d: nat, i: nat)
    requires i <= d < DAYS
    ensures FindDay(DAY_NAMES[d], i) == Ok(d)
    decreases d - i
  {
    if i < d {
      assert DAY_NAMES[i] != DAY_NAMES[d];
      FindNamed(d, i + 1);
    }
  }

  lemma {:induction false} StraightRange(a: nat, b: nat)
    requires a <= b < DAYS
    ensures DayRange(a, b) == Interval(a, b)
    decreases b - a
  {
    if a < b {
      StraightRange(a + 1, b);
      assert Interval(a, b) == [a] + Interval(a + 1, b);
    }
  }

  lemma PlainPair(a: string, b: string)
    requires Plain(a) && Plain(b)
    ensures Plain(a + "-" + b)
  {}

  lemma ReadOneDay(d: nat)
    requires d < DAYS
    ensures DayPart(DAY_NAMES[d]) == Ok([d])
  {
    PlainNames();
    var a := DAY_NAMES[d];
    TrimmedPlain(a);
    CutNowhere(a, '-');
    ReadDay(d);
  }

  lemma ReadDaySpan(d: nat, e: nat)
    requires d < DAYS && e < DAYS
    ensures DayPart(DAY_NAMES[d] + "-" + DAY_NAMES[e]) == Ok(DayRange(d, e))
  {
    PlainNames();
    var a, b := DAY_NAMES[d], DAY_NAMES[e];
    PlainPair(a, b);
    TrimmedPlain(a + "-" + b);
    CutAt(a, '-', b);
    ReadDay(d);
    ReadDay(e);
  }

  lemma ReadDayText(s: Span)
    requires s.first <= s.last < DAYS
    ensures Plain(DayText(s)) && DayText(s) != [] && DayText(s)[0] != '*'
    ensures DayPart(DayText(s)) == Ok(Interval(s.first, s.last))
  {
    PlainNames();
    StraightRange(s.first, s.last);
    if s.first == s.last {
      ReadOneDay(s.first);
    } else {
      PlainPair(DAY_NAMES[s.first], DAY_NAMES[s.last]);
      ReadDaySpan(s.first, s.last);
    }
  }

  lemma {:induction false} PlainDayTexts(spans: seq<Span>)
    requires SpansBelow(spans, DAYS)
    ensures forall i | 0 <= i < |spans| :: var t := DayTexts(spans)[i]; Plain(t) && t != [] && t[0] != '*'
  {
    if spans != [] {
      ReadDayText(spans[0]);
      PlainDayTexts(spans[1..]);
      var ts, rest := DayTexts(spans), DayTexts(spans[1..]);
      assert forall i | 0 < i < |ts| :: ts[i] == rest[i - 1];
    }
  }

  lemma {:induction false} ReadDayTexts(spans: seq<Span>)
    requires SpansBelow(spans, DAYS)
    ensures DayParts(DayTexts(spans)) == Ok(Expand(spans))
  {
    if spans != [] {
      ReadDayText(spans[0]);
      ReadDayTexts(spans[1..]);
      assert DayTexts(spans)[1..] == DayTexts(spans[1..]);
    }
  }

  lemma {:induction false} FullHouse(xs: seq<nat>, n: nat)
    requires Increasing(xs) && InRange(xs, n) && |xs| == n
    ensures forall k | 0 <= k < n :: xs[k] == k
  {
    if n > 0 {
      assert Increasing(xs[..n - 1]);
      var front := xs[..n - 1];
      forall k | 0 <= k < |front| ensures front[k] < n - 1 { assert xs[k] < xs[n - 1]; }
      FullHouse(front, n - 1);
      if n > 1 { assert xs[n - 2] == n - 2; }
    }
  }

  lemma DaysRoundTrip(days: seq<nat>)
    requires Increasing(days) && InRange(days, DAYS) && days != []
    ensures DaysOf(RenderDays(days)) == Ok(days) && PlainList(RenderDays(days)) && RenderDays(days) != []
  {
    if |days| == DAYS {
      FullHouse(days, DAYS);
      assert days == WHOLE_WEEK;
    } else {
      var spans := Runs(days);
      RunsBelow(days, DAYS);
      RunsExpand(days);
      ReadDayTexts(spans);
      PlainDayTexts(spans);
      JoinPlain(DayTexts(spans));
      NoCommas(DayTexts(spans));
      SplitJoin(DayTexts(spans), ',');
    }
  }

  lemma NoCommas(parts: seq<string>)
    requires forall i | 0 <= i < |parts| :: Plain(parts[i])
    ensures forall i | 0 <= i < |parts| :: ',' !in parts[i]
  {}

  // ---------------------------------------------------------------- hours

  lemma DigitsArePlain(n: nat)
    ensures Plain(FormatNat(n)) && FormatNat(n) != [] && ':' !in FormatNat(n) && '-' !in FormatNat(n) && FormatNat(n)[0] != '*'
  {
    var s := FormatNat(n);
    assert forall i | 0 <= i < |s| :: IsDigit(s[i]);
  }

  lemma ReadHour(h: nat, max: nat)
    requires h <= max <= HOURS
    ensures HourOf(FormatNat(h), max) == Ok(h)
  {
    DigitsArePlain(h);
    TrimmedPlain(FormatNat(h));
    CutNowhere(FormatNat(h), ':');
    IntRoundTrip(h);
  }

  lemma ReadOneHour(h: nat)
    requires h < HOURS
    ensures HourPart(FormatNat(h)) == Ok([h])
  {
    DigitsArePlain(h);
    TrimmedPlain(FormatNat(h));
    CutNowhere(FormatNat(h), '-');
    ReadHour(h, HOURS - 1);
  }

  lemma ReadHourSpan(h: nat, e: nat)
    requires h < HOURS && e <= HOURS && h != e
    ensures HourPart(FormatNat(h) + "-" + FormatNat(e)) == Ok(HourRange(h, e))
  {
    var a, b := FormatNat(h), FormatNat(e);
    DigitsArePlain(h);
    DigitsArePlain(e);
    PlainPair(a, b);
    TrimmedPlain(a + "-" + b);
    CutAt(a, '-', b);
    ReadHour(h, HOURS - 1);
    ReadHour(e, HOURS);
  }

  lemma StraightHours(h: nat, e: nat)
    requires h < e <= HOURS
    ensures HourRange(h, e) == Interval(h, e - 1)
  {
    assert HourSpan(h, e) == e - h;
  }

  lemma ReadHourText(s: Span)
    requires s.first <= s.last < HOURS
    ensures Plain(HourText(s)) && HourText(s) != [] && HourText(s)[0] != '*'
    ensures HourPart(HourText(s)) == Ok(Interval(s.first, s.last))
  {
    DigitsArePlain(s.first);
    DigitsArePlain(s.last + 1);
    if s.first == s.last {
      ReadOneHour(s.first);
      assert Interval(s.first, s.last) == [s.first];
    } else {
      PlainPair(FormatNat(s.first), FormatNat(s.last + 1));
      ReadHourSpan(s.first, s.last + 1);
      StraightHours(s.first, s.last + 1);
    }
  }

  lemma {:induction false} PlainHourTexts(spans: seq<Span>)
    requires SpansBelow(spans, HOURS)
    ensures forall i | 0 <= i < |spans| :: var t := HourTexts(spans)[i]; Plain(t) && t != [] && t[0] != '*'
  {
    if spans != [] {
      ReadHourText(spans[0]);
      PlainHourTexts(spans[1..]);
      var ts, rest := HourTexts(spans), HourTexts(spans[1..]);
      assert forall i | 0 < i < |ts| :: ts[i] == rest[i - 1];
    }
  }

  lemma {:induction false} ReadHourTexts(spans: seq<Span>)
    requires SpansBelow(spans, HOURS)
    ensures HourParts(HourTexts(spans)) == Ok(Expand(spans))
  {
    if spans != [] {
      ReadHourText(spans[0]);
      ReadHourTexts(spans[1..]);
      assert HourTexts(spans)[1..] == HourTexts(spans[1..]);
    }
  }

  lemma ReadWholeDay()
    ensures HoursOf("*") == Ok(HourRange(0, HOURS))
  {
    FormatSmall();
    assert FormatNat(0) + "-" + FormatNat(24) == "0-24";
    ReadHourSpan(0, HOURS);
    SplitJoin(["0-24"], ',');
    OnePart("0-24");
  }

  lemma OnePart(part: string)
    ensures HourParts([part]) == HourPart(part)
  {
    assert [part][1..] == [];
    var r := HourPart(part);
    if r.Ok? { assert r.value + [] == r.value; }
  }

  lemma FormatSmall()
    ensures FormatNat(0) == "0" && FormatNat(24) == "24"
  {}

  lemma HoursRoundTrip(hours: seq<nat>)
    requires Increasing(hours) && InRange(hours, HOURS) && hours != []
    ensures HoursOf(RenderHours(hours)) == Ok(hours) && PlainList(RenderHours(hours)) && RenderHours(hours) != []
  {
    if |hours| == HOURS {
      FullHouse(hours, HOURS);
      ReadWholeDay();
      StraightHours(0, HOURS);
      assert hours == Interval(0, HOURS - 1);
    } else {
      var spans := Runs(hours);
      RunsBelow(hours, HOURS);
      RunsExpand(hours);
      ReadHourTexts(spans);
      PlainHourTexts(spans);
      JoinPlain(HourTexts(spans));
      NoCommas(HourTexts(spans));
      SplitJoin(HourTexts(spans), ',');
    }
  }

  // ---------------------------------------------------------------- limits

  predicate IsCell(c: int) { MIN_INT64 <= c <= MAX_INT64 }

  lemma LowerPlain(t: string)
    requires Plain(t)
    ensures Plain(ToLower(t)) && ToLower(" " + t) == " " + ToLower(t)
  {}

  /** A plain word that does not end in an s comes through untouched but for its case. */
  lemma CapWord(t: string)
    requires Plain(t) && t != [] && Lower(t[|t| - 1]) != 's'
    ensures var low := ToLower(t);
            CapOf(" " + t, true) == if MeansClosed(low) then Ok(CLOSED) else if MeansOpen(low) then Ok(UNLIMITED) else ParseSize(low)
  {
    var low := ToLower(t);
    LowerPlain(t);
    assert Trimmed(low);
    TrimPadded(low);
    assert low[|low| - 1] != 's';
    assert !HasSuffix(low, "/s") && !HasSuffix(low, "ps");
  }

  lemma SizeIsPlain(n: int)
    requires n != 0
    ensures var t := SizeText(n);
            && Plain(t) && t != [] && Lower(t[|t| - 1]) != 's' && (IsDigit(t[0]) || t[0] == '-')
            && (0 < n ==> t[0] != '0')
  {
    var s := Scale(n, 0);
    ScaleExact(n, 0);
    FormatIntEnds(s.out);
    if 0 < n { NoLeadingZero(s.out); }
    var d, u := FormatInt(s.out), UNITS[s.unit];
    assert SizeText(n) == d + u;
    assert Plain(d) && Plain(u);
  }

  lemma NotAWord(low: string)
    requires low != [] && (IsDigit(low[0]) || low[0] == '-') && low[0] != '0'
    ensures !MeansClosed(low) && !MeansOpen(low)
  {}

  lemma WordMeans(t: string)
    requires t == "off" || t == "full"
    ensures Plain(t) && Lower(t[|t| - 1]) != 's'
    ensures MeansClosed(t) <==> t == "off"
    ensures MeansOpen(t) <==> t == "full"
  {}

  lemma CapOff(t: string)
    requires t == "off"
    ensures CapOf(" " + t, true) == Ok(CLOSED) && Plain(t)
  {
    assert ToLower(t) == t;
    WordMeans(t);
    CapWord(t);
  }

  lemma CapFull(t: string)
    requires t == "full"
    ensures CapOf(" " + t, true) == Ok(UNLIMITED) && Plain(t)
  {
    assert ToLower(t) == t;
    WordMeans(t);
    CapWord(t);
  }

  lemma CapSize(c: int)
    requires IsCell(c) && c != 0
    ensures CapOf(" " + SizeText(c), true) == if 0 < c then Ok(c) else Err
  {
    var t := SizeText(c);
    SizeIsPlain(c);
    CapWord(t);
    assert ToLower(t)[0] == t[0];
    NotAWord(ToLower(t));
    SizeRoundTrip(c);
  }

  /** Every limit reads back as it was printed, except that no negative one but the closed one reads at all. */
  lemma CapRoundTrip(c: int)
    requires IsCell(c)
    ensures Plain(RenderCap(c)) && RenderCap(c) != []
    ensures CapOf(" " + RenderCap(c), true) == if CLOSED <= c then Ok(c) else Err
  {
    var t := RenderCap(c);
    if c == CLOSED {
      CapOff(t);
    } else if c == UNLIMITED {
      CapFull(t);
    } else {
      SizeIsPlain(c);
      CapSize(c);
    }
  }

  // ---------------------------------------------------------------- rules

  lemma FieldAndSpace(a: string, rest: string)
    requires PlainList(a) && a != []
    ensures FieldsBy(a + " " + rest, IsSpace) == [a] + FieldsBy(rest, IsSpace)
  {
    assert a + " " + rest == a + ([' '] + rest);
    FieldFirst(a, [' '] + rest, IsSpace);
    FieldSkip(' ', rest, IsSpace);
  }

  lemma LastField(b: string)
    requires PlainList(b) && b != []
    ensures FieldsBy(b + " ", IsSpace) == [b]
  {
    var none: string := [];
    assert b + " " == b + " " + none;
    FieldAndSpace(b, none);
    assert FieldsBy(none, IsSpace) == [];
  }

  lemma TwoFields(a: string, b: string)
    requires PlainList(a) && PlainList(b) && a != [] && b != []
    ensures FieldsBy(a + " " + b + " ", IsSpace) == [a, b]
  {
    var tail := b + " ";
    assert a + " " + b + " " == a + " " + tail;
    FieldAndSpace(a, tail);
    LastField(b);
  }

  ghost predicate Printable(r: Rule) {
    && WellFormed(r) && Increasing(r.days) && Increasing(r.hours) && r.days != [] && r.hours != [] && IsCell(r.limit)
  }

  lemma RuleParts(a: string, b: string, c: string)
    requires PlainList(a) && PlainList(b) && a != [] && b != []
    ensures var t := a + " " + b + " = " + c;
            Cut(t, '=') == Halves(a + " " + b + " ", " " + c, true) && FieldsBy(Cut(t, '=').before, IsSpace) == [a, b]
  {
    var lhs := a + " " + b + " ";
    assert a + " " + b + " = " + c == lhs + ['='] + (" " + c);
    assert '=' !in lhs;
    CutAt(lhs, '=', " " + c);
    TwoFields(a, b);
  }

  lemma RuleTextIsLine(a: string, b: string, c: string)
    requires PlainList(a) && PlainList(b) && a != [] && b != [] && Plain(c) && c != []
    ensures RuleLine(a + " " + b + " = " + c)
  {
    var t := a + " " + b + " = " + c;
    assert t[0] == a[0] && t[|t| - 1] == c[|c| - 1];
  }

  lemma RuleRoundTrip(r: Rule)
    requires Printable(r)
    ensures RuleOf(RenderRule(r), true) == if CLOSED <= r.limit then Ok(r) else Err
    ensures RuleLine(RenderRule(r))
  {
    var a, b, c := RenderDays(r.days), RenderHours(r.hours), RenderCap(r.limit);
    DaysRoundTrip(r.days);
    HoursRoundTrip(r.hours);
    CapRoundTrip(r.limit);
    RuleParts(a, b, c);
    RuleTextIsLine(a, b, c);
  }

  /** A line that is taken for one rule and nothing else. */
  predicate RuleLine(t: string) {
    && t != [] && Trimmed(t) && t[0] != '#' && forall i | 0 <= i < |t| :: !IsRuleEnd(t[i])
  }

  lemma {:induction false} LinesRoundTrip(ts: seq<string>, pad: string)
    requires (pad == "" || pad == " ") && forall i | 0 <= i < |ts| :: RuleLine(ts[i])
    requires ts != []
    ensures RuleTexts(FieldsBy(pad + Join(ts, "; "), IsRuleEnd)) == ts
    decreases |ts|
  {
    if |ts| == 1 {
      LastLine(ts[0], pad);
      assert [ts[0]] == ts;
    } else {
      var more := Join(ts[1..], "; ");
      LinesRoundTrip(ts[1..], " ");
      FirstLine(ts[0], pad, more);
      assert pad + Join(ts, "; ") == pad + (ts[0] + "; " + more);
      assert ts == [ts[0]] + ts[1..];
    }
  }

  lemma PaddedLine(t: string, pad: string)
    requires (pad == "" || pad == " ") && RuleLine(t)
    ensures TrimSpace(pad + t) == t && pad + t != [] && forall i | 0 <= i < |pad + t| :: !IsRuleEnd((pad + t)[i])
  {
    TrimPadded(t);
    assert "" + t == t;
  }

  lemma LastLine(t: string, pad: string)
    requires (pad == "" || pad == " ") && RuleLine(t)
    ensures RuleTexts(FieldsBy(pad + t, IsRuleEnd)) == [t]
  {
    PaddedLine(t, pad);
    FieldFirst(pad + t, "", IsRuleEnd);
    assert pad + t + "" == pad + t;
    assert FieldsBy("", IsRuleEnd) == [];
    OneLine(pad + t, [], t);
  }

  lemma FirstLine(t: string, pad: string, more: string)
    requires (pad == "" || pad == " ") && RuleLine(t)
    ensures RuleTexts(FieldsBy(pad + (t + "; " + more), IsRuleEnd)) == [t] + RuleTexts(FieldsBy(" " + more, IsRuleEnd))
  {
    var line, rest := pad + t, " " + more;
    PaddedLine(t, pad);
    assert pad + (t + "; " + more) == line + ([';'] + rest);
    LineThenRest(line, rest);
    OneLine(line, FieldsBy(rest, IsRuleEnd), t);
  }

  lemma LineThenRest(line: string, rest: string)
    requires line != [] && forall i | 0 <= i < |line| :: !IsRuleEnd(line[i])
    ensures FieldsBy(line + ([';'] + rest), IsRuleEnd) == [line] + FieldsBy(rest, IsRuleEnd)
  {
    FieldFirst(line, [';'] + rest, IsRuleEnd);
    FieldSkip(';', rest, IsRuleEnd);
  }

  lemma OneLine(line: string, rest: seq<string>, t: string)
    requires TrimSpace(line) == t && RuleLine(t)
    ensures RuleTexts([line] + rest) == [t] + RuleTexts(rest)
  {
    assert ([line] + rest)[1..] == rest;
  }

  predicate NoneBelow(rules: seq<Rule>) { forall k | 0 <= k < |rules| :: CLOSED <= rules[k].limit }

  /** What the printed rules read back as, one by one. */
  function ReadBack(rules: seq<Rule>): seq<Parsed<Rule>> {
    seq(|rules|, k requires 0 <= k < |rules| => if CLOSED <= rules[k].limit then Ok(rules[k]) else Err)
  }

  lemma CollectReadBack(rules: seq<Rule>)
    ensures Collect(ReadBack(rules)) == if NoneBelow(rules) then Ok(rules) else Err
  {
    var ps := ReadBack(rules);
    var r := Collect(ps);
    if r.Ok? {
      assert forall k | 0 <= k < |rules| :: ps[k] == Ok(r.value[k]);
      assert r.value == rules;
    } else {
      var i :| 0 <= i < |ps| && ps[i].Err?;
    }
  }

  lemma ReadBackAt(rules: seq<Rule>, k: nat)
    requires AllWellFormed(rules) && k < |rules| && Printable(rules[k])
    ensures ReadAll(RenderRules(rules), true)[k] == ReadBack(rules)[k]
  {
    RenderedAt(rules, k);
    RuleRoundTrip(rules[k]);
  }

  lemma SameReadings(a: seq<Parsed<Rule>>, b: seq<Parsed<Rule>>)
    requires |a| == |b| && forall k | 0 <= k < |a| :: a[k] == b[k]
    ensures a == b
  {}

  lemma RulesRoundTrip(rules: seq<Rule>)
    requires AllWellFormed(rules) && forall k | 0 <= k < |rules| :: Printable(rules[k])
    ensures RulesOf(RenderRules(rules), true) == if NoneBelow(rules) then Ok(rules) else Err
  {
    var all := ReadAll(RenderRules(rules), true);
    forall k | 0 <= k < |rules| ensures all[k] == ReadBack(rules)[k] {
      ReadBackAt(rules, k);
    }
    SameReadings(all, ReadBack(rules));
    CollectReadBack(rules);
  }

  lemma RenderedAt(rules: seq<Rule>, k: nat)
    requires AllWellFormed(rules) && k < |rules|
    ensures RenderRules(rules)[k] == RenderRule(rules[k])
  {}

  // ---------------------------------------------------------------- the grid

  /** The canonical text of a grid. */
  function Print(g: Grid): string {
    GridRulesTrue(g, DAYS);
    Join(RenderRules(GridRules(g, DAYS)), "; ")
  }

  predicate Cells(g: Grid) { forall i | 0 <= i < CELLS :: IsCell(g[i]) }

  lemma PrintableRules(g: Grid, n: nat)
    requires Cells(g) && n <= DAYS
    ensures AllWellFormed(GridRules(g, n)) && forall k | 0 <= k < |GridRules(g, n)| :: Printable(GridRules(g, n)[k])
  {
    GridRulesTrue(g, n);
    var rules := GridRules(g, n);
    forall k | 0 <= k < |rules| ensures Printable(rules[k]) {
      RuleHasItsLimit(g, rules[k]);
    }
  }

  lemma RuleHasItsLimit(g: Grid, r: Rule)
    requires TrueRule(g, r)
    ensures exists i | 0 <= i < CELLS :: g[i] == r.limit
  {
    assert r.days[0] in r.days && r.hours[0] in r.hours;
    assert g[CellIndex(r.days[0], r.hours[0])] == r.limit;
  }

  lemma ReadPrinted(g: Grid, n: nat)
    requires Cells(g) && n == DAYS
    ensures var rules := GridRules(g, n);
            ParseSpec(Print(g), true) == if NoneBelow(rules) then Ok(g) else Err
  {
    var rules := GridRules(g, n);
    PrintableRules(g, n);
    var ts := RenderRules(rules);
    forall i | 0 <= i < |ts| ensures RuleLine(ts[i]) {
      RenderedAt(rules, i);
      RuleRoundTrip(rules[i]);
    }
    var k := CellHasItsRule(g, n, 0);
    LinesRoundTrip(ts, "");
    assert "" + Join(ts, "; ") == Print(g);
    RulesRoundTrip(rules);
    PrintedRulesAreTheGrid(g, n);
  }

  /** Some rule carries the limit of each cell. */
  lemma CellHasItsRule(g: Grid, n: nat, i: nat) returns (k: nat)
    requires n == DAYS && i < CELLS
    ensures k < |GridRules(g, n)| && GridRules(g, n)[k].limit == g[i]
  {
    GridRulesTrue(g, n);
    var d := WeekdayOnto(i / HOURS);
    var first := FirstOfItsKind(g, d, 0);
    GridRulesShow(g, n, first, d, i % HOURS);
    k :| 0 <= k < |GridRules(g, n)| && d in GridRules(g, n)[k].days && i % HOURS in GridRules(g, n)[k].hours;
    assert CellIndex(d, i % HOURS) == i;
  }

  /** The round trip, exactly: parsing the printed form of a grid of 64-bit cells returns the grid if and only if
      every cell is closed, unlimited or a positive rate. */
  lemma ScheduleRoundTrip(g: Grid)
    requires Cells(g)
    ensures ParseSpec(Print(g), true) == Ok(g) <==> forall i | 0 <= i < CELLS :: CLOSED <= g[i]
    ensures (exists i | 0 <= i < CELLS :: g[i] < CLOSED) ==> ParseSpec(Print(g), true) == Err
  {
    var n := DAYS;
    ReadPrinted(g, n);
    GridRulesTrue(g, n);
    var rules := GridRules(g, n);
    if i: nat :| i < CELLS && g[i] < CLOSED {
      var k := CellHasItsRule(g, n, i);
    } else {
      forall k | 0 <= k < |rules| ensures CLOSED <= rules[k].limit { RuleHasItsLimit(g, rules[k]); }
    }
  }

  /** Two such grids print alike exactly when they are equal. */
  lemma PrintIsCanonical(g: Grid, h: Grid)
    requires Cells(g) && Cells(h) && forall i | 0 <= i < CELLS :: CLOSED <= g[i] && CLOSED <= h[i]
    ensures Print(g) == Print(h) <==> g == h
  {
    ScheduleRoundTrip(g);
    ScheduleRoundTrip(h);
  }

  lemma CapNumber(n: int, unit: nat, u: string)
    requires 0 < n <= MAX_INT64 && 0 < unit <= 4 && u == UNITS[unit]
    ensures CapOf(" " + (FormatInt(n) + u), true) == Ok(Wrap64(n * Mult(unit)))
  {
    var t := FormatInt(n) + u;
    var low := FormatInt(n) + ToLower(u);
    FormatIntEnds(n);
    NoLeadingZero(n);
    assert Plain(u) && |u| == 3 && u[2] == 'B';
    LowerOfSum(FormatInt(n), u);
    assert Plain(t) && t[|t| - 1] == 'B';
    CapWord(t);
    assert low[0] == FormatInt(n)[0];
    NotAWord(low);
    ParseScaled(n, unit, ToLower(u));
  }

  lemma WrapsExactly(x: int)
    requires 0 < x
    ensures Wrap64(x) == x <==> x <= MAX_INT64
  {}

  /** A positive rate in some unit is always accepted, and read as the limit it says if and only if that fits 64 bits;
      what it is read as prints as something that reads back if and only if it is not below closed. */
  lemma CapReadsExactly(n: int, unit: nat, u: string)
    requires 0 < n <= MAX_INT64 && 0 < unit <= 4 && u == UNITS[unit]
    ensures var c := CapOf(" " + (FormatInt(n) + u), true);
            && c == Ok(Wrap64(n * Mult(unit)))
            && (c == Ok(n * Mult(unit)) <==> n * Mult(unit) <= MAX_INT64)
            && (CapOf(" " + RenderCap(c.value), true) == c <==> CLOSED <= c.value)
  {
    CapNumber(n, unit, u);
    Product(n, Mult(unit));
    WrapsExactly(n * Mult(unit));
    CapRoundTrip(Wrap64(n * Mult(unit)));
  }

  lemma Product(n: int, m: int)
    requires 0 < n && 0 < m
    ensures 0 < n * m
  {}

  lemma TebiBytes(unit: nat)
    requires unit == 4
    ensures Mult(unit) == 1_099_511_627_776
  {
    assert Mult(unit - 3) == 1024 && Mult(unit - 2) == 1_048_576 && Mult(unit - 1) == 1_073_741_824;
  }

  lemma WrapsTwice(n: int, m: int)
    requires m == 1_099_511_627_776 && (n == 8_388_608 || n == 16_777_216)
    ensures Wrap64(n * m) == if n == 8_388_608 then MIN_INT64 else UNLIMITED
  {}

  /** Two rates that overflow: one is read as a cell that no printed form reads back to, twice that as unlimited. */
  lemma OverflowIsAccepted(n: int, unit: nat, u: string)
    requires unit == 4 && u == UNITS[unit] && (n == 8_388_608 || n == 16_777_216)
    ensures CapOf(" " + (FormatInt(n) + u), true) == Ok(if n == 8_388_608 then MIN_INT64 else UNLIMITED)
  {
    TebiBytes(unit);
    WrapsTwice(n, Mult(unit));
    CapNumber(n, unit, u);
  }
}
