/** What a schedule text means, in its own words: days by name, hours of the day, limits (schedule/schedule.go), and the
    windows the scheduler takes from it (app/scheduler.go). */
module ScheduleMeaning {
  import opened Text
  import opened Sizes
  import opened Schedule
  import opened SchedulePrint
  import opened ScheduleRoundTrip

  // ---------------------------------------------------------------- ranges and words

  /** A range of days, on a line that starts with Monday. */
  lemma DayRangeIs(start: nat, end: nat, d: nat)
    requires start < 7 && end < 7 && d < 7
    ensures d in DayRange(start, end) <==> if start <= end then start <= d <= end else start <= d || d <= end
  {
    DayRangeHolds(start, end, d);
  }

  /** A range of hours, on the clock; the end is not part of it. */
  lemma HourRangeIs(start: nat, end: nat, h: nat)
    requires start < 24 && end <= 24 && h < 24 && start != end
    ensures h in HourRange(start, end) <==> if start < end then start <= h < end else start <= h || h < end
  {
    HourRangeHolds(start, end, h);
    assert HourSpan(start, end) == if start < end then end - start else end - start + 24;
  }

  /** The word of a limit: what is left without case, blanks and a rate's ending. */
  function WordOf(spec: string): string { TrimSpace(TrimSuffix(TrimSuffix(TrimSpace(ToLower(spec)), "/s"), "ps")) }

  /** What the words mean: closed, no limit, or nothing at all. A schedule that only opens and closes takes no other. */
  lemma CapWords(spec: string, allowCaps: bool, word: string)
    requires word == WordOf(spec)
    ensures word == "off" || word == "closed" || word == "no" || word == "false" || word == "0" ==> CapOf(spec, allowCaps) == Ok(-1)
    ensures word == "full" || word == "on" || word == "yes" || word == "true" || word == "unlimited" || word == "max" ==>
              CapOf(spec, allowCaps) == Ok(0)
    ensures word == "" ==> CapOf(spec, allowCaps) == Err
  {
    if word == "full" || word == "on" || word == "yes" || word == "true" || word == "unlimited" || word == "max" {
      OpenIsNotClosed(word);
    }
  }

  lemma OpenIsNotClosed(word: string)
    requires word == "full" || word == "on" || word == "yes" || word == "true" || word == "unlimited" || word == "max"
    ensures !MeansClosed(word) && word != ""
  {}

  /** A schedule that only opens and closes takes no rate. */
  lemma GateTakesNoRate(text: string)
    ensures CapOf(text, false).Ok? ==> CapOf(text, false).value == -1 || CapOf(text, false).value == 0
    ensures RuleOf(text, false).Ok? ==> RuleOf(text, false).value.limit == -1 || RuleOf(text, false).value.limit == 0
  {}

  /** Anything past a colon is not looked at. */
  lemma MinutesDoNotMatter(h: nat, minutes: string, max: nat)
    requires Plain(minutes) && h <= MAX_INT64
    ensures HourOf(FormatNat(h) + ":" + minutes, max) == if h <= max then Ok(h) else Err
  {
    var a := FormatNat(h);
    DigitsArePlain(h);
    var s := a + ":" + minutes;
    assert s == a + [':'] + minutes;
    assert s[0] == a[0] && s[|s| - 1] == if minutes == [] then ':' else minutes[|minutes| - 1];
    TrimPadded(s);
    CutAt(a, ':', minutes);
    IntRoundTrip(h);
  }

  /** A day may be written out, in capitals or not: three letters decide. */
  lemma LongNames(name: string, d: nat)
    requires Plain(name) && 3 <= |name| && d < 7 && ToLower(name)[..3] == Name(d)
    ensures ParseDay(name) == Ok(d)
  {
    TrimmedPlain(name);
    FindNamed(d, 0);
    assert DAY_NAMES[d] == Name(d);
    assert ToLower(name)[..3] == Lowered(name) by { if |name| == 3 { assert ToLower(name)[..3] == ToLower(name); } }
  }

  lemma {:induction false} TrimRightKeeps(s: string)
    requires s != [] && !IsSpace(s[0])
    ensures TrimRight(s) != [] && TrimRight(s)[0] == s[0]
    decreases |s|
  {
    if IsSpace(s[|s| - 1]) { TrimRightKeeps(s[..|s| - 1]); }
  }

  lemma CommentLine(line: string, rest: seq<string>)
    requires line != [] && line[0] == '#'
    ensures RuleTexts([line] + rest) == RuleTexts(rest)
  {
    TrimRightKeeps(line);
    assert TrimLeft(line) == line && !IsRuleText(TrimSpace(line));
    assert ([line] + rest)[1..] == rest;
  }

  lemma LineBreaks(line: string, s: string)
    requires line != [] && forall i | 0 <= i < |line| :: !IsRuleEnd(line[i])
    ensures FieldsBy(line + (['\n'] + s), IsRuleEnd) == [line] + FieldsBy(s, IsRuleEnd)
  {
    FieldFirst(line, ['\n'] + s, IsRuleEnd);
    FieldSkip('\n', s, IsRuleEnd);
  }

  /** A comment on a line of its own makes no difference. */
  lemma CommentsDoNotMatter(comment: string, s: string, allowCaps: bool)
    requires '\n' !in comment && ';' !in comment
    ensures ParseSpec("#" + comment + "\n" + s, allowCaps) == ParseSpec(s, allowCaps)
  {
    var line := "#" + comment;
    var text := line + (['\n'] + s);
    assert line + "\n" + s == text;
    LineBreaks(line, s);
    CommentLine(line, FieldsBy(s, IsRuleEnd));
    SameRules(text, s, allowCaps);
  }

  lemma SameRules(a: string, b: string, allowCaps: bool)
    requires SplitRules(a) == SplitRules(b)
    ensures ParseSpec(a, allowCaps) == ParseSpec(b, allowCaps)
  {}

  /** Nothing at all is open all week without a limit. */
  lemma EmptyIsOpen(s: string, allowCaps: bool, t: int)
    requires s == ""
    ensures var r := ParseSpec(s, allowCaps); r.Ok? && CellAt(r.value, t) == 0
  {
    assert SplitRules(s) == [];
    NoRules(allowCaps);
    ParsedMeans(s, allowCaps, [], t, 0);
  }

  lemma NoRules(allowCaps: bool)
    ensures RulesOf([], allowCaps) == Ok([])
  {
    CollectsAll(ReadAll([], allowCaps), []);
  }

  // ---------------------------------------------------------------- a text and what it says

  /** From one day to another, from one hour to another, and the limit there. */
  datatype Wish = Wish(from: nat, to: nat, start: nat, end: nat, limit: int) {
    predicate Sound() { from < 7 && to < 7 && start < 24 && end <= 24 && start != end && -1 <= limit <= MAX_INT64 }

    /** In force at an hour of a day, days counted from Monday. */
    predicate Holds(d: nat, h: nat) {
      && (if from <= to then from <= d <= to else from <= d || d <= to)
      && (if start < end then start <= h < end else start <= h || h < end)
    }
  }

  function Name(d: nat): string
    requires d < 7
  {
    ["mon", "tue", "wed", "thu", "fri", "sat", "sun"][d]
  }

  function LimitText(c: int): string { if c == -1 then "off" else if c == 0 then "full" else SizeText(c) }

  function WishText(w: Wish): string
    requires w.Sound()
  {
    Name(w.from) + "-" + Name(w.to) + " " + (FormatNat(w.start) + "-" + FormatNat(w.end)) + " = " + LimitText(w.limit)
  }

  lemma WishDays(w: Wish)
    requires w.Sound()
    ensures var t := Name(w.from) + "-" + Name(w.to); DaysOf(t) == Ok(DayRange(w.from, w.to)) && PlainList(t) && t != []
  {
    var a, b := DAY_NAMES[w.from], DAY_NAMES[w.to];
    assert a == Name(w.from) && b == Name(w.to);
    PlainNames();
    PlainPair(a, b);
    var t := a + "-" + b;
    ReadDaySpan(w.from, w.to);
    OnePiece(t);
    OneDayPart(t);
    assert t[0] == a[0];
  }

  lemma OneDayPart(part: string)
    ensures DayParts([part]) == DayPart(part)
  {
    assert [part][1..] == [];
    var r := DayPart(part);
    if r.Ok? { assert r.value + [] == r.value; }
  }

  lemma OnePiece(t: string)
    requires Plain(t)
    ensures Split(t, ',') == [t]
  {
    SplitJoin([t], ',');
  }

  lemma WishHours(w: Wish)
    requires w.Sound()
    ensures var t := FormatNat(w.start) + "-" + FormatNat(w.end); HoursOf(t) == Ok(HourRange(w.start, w.end)) && PlainList(t) && t != []
  {
    var a, b := FormatNat(w.start), FormatNat(w.end);
    DigitsArePlain(w.start);
    DigitsArePlain(w.end);
    PlainPair(a, b);
    var t := a + "-" + b;
    ReadHourSpan(w.start, w.end);
    OnePiece(t);
    OnePart(t);
    assert t[0] == a[0];
  }

  lemma RuleFrom(a: string, b: string, c: string, r: Rule)
    requires PlainList(a) && PlainList(b) && a != [] && b != [] && Plain(c) && c != []
    requires DaysOf(a) == Ok(r.days) && HoursOf(b) == Ok(r.hours) && CapOf(" " + c, true) == Ok(r.limit)
    ensures var t := a + " " + b + " = " + c; RuleOf(t, true) == Ok(r) && RuleLine(t)
  {
    RuleParts(a, b, c);
    RuleTextIsLine(a, b, c);
  }

  lemma WishIsRule(w: Wish)
    requires w.Sound()
    ensures RuleOf(WishText(w), true) == Ok(Rule(DayRange(w.from, w.to), HourRange(w.start, w.end), w.limit)) && RuleLine(WishText(w))
  {
    var a, b, c := Name(w.from) + "-" + Name(w.to), FormatNat(w.start) + "-" + FormatNat(w.end), LimitText(w.limit);
    WishDays(w);
    WishHours(w);
    assert c == RenderCap(w.limit);
    CapRoundTrip(w.limit);
    RuleFrom(a, b, c, Rule(DayRange(w.from, w.to), HourRange(w.start, w.end), w.limit));
  }

  /** The day of an hour since a Sunday's midnight, counted from Monday. */
  function Place(t: int): nat { (t / 24 + 6) % 7 }

  lemma PlaceHasName(t: int, d: nat)
    requires d < 7
    ensures Place(t) < 7 && (DAY_NAMES[d] == DayOf(t) <==> d == Place(t))
  {
    NameOfWeekday(d, (t / 24) % 7);
    var w := (t / 24) % 7;
    assert (t / 24 + 6) % 7 == (w + 6) % 7;
  }

  predicate HoldsAt(w: Wish, t: int) { w.Holds(Place(t), t % 24) }

  lemma WishSays(w: Wish, t: int)
    requires w.Sound()
    ensures var r := Rule(DayRange(w.from, w.to), HourRange(w.start, w.end), w.limit);
            WellFormed(r) && (SaysAt(r, t) <==> HoldsAt(w, t))
  {
    var r := Rule(DayRange(w.from, w.to), HourRange(w.start, w.end), w.limit);
    forall d: nat | d < 7 ensures DAY_NAMES[d] == DayOf(t) <==> d == Place(t) { PlaceHasName(t, d); }
    PlaceHasName(t, 0);
    if Place(t) in r.days {
      var k :| 0 <= k < |r.days| && r.days[k] == Place(t);
      assert DAY_NAMES[r.days[k]] == DayOf(t);
    }
    DayRangeIs(w.from, w.to, Place(t));
    HourRangeIs(w.start, w.end, t % 24);
  }

  ghost predicate AllSound(ws: seq<Wish>) { forall i | 0 <= i < |ws| :: ws[i].Sound() }

  function WishTexts(ws: seq<Wish>): seq<string>
    requires forall i | 0 <= i < |ws| :: ws[i].Sound()
  {
    seq(|ws|, i requires 0 <= i < |ws| => WishText(ws[i]))
  }

  function RuleFor(w: Wish): Rule
    requires w.Sound()
  {
    Rule(DayRange(w.from, w.to), HourRange(w.start, w.end), w.limit)
  }

  ghost function WishRules(ws: seq<Wish>): (rules: seq<Rule>)
    requires AllSound(ws)
    ensures |rules| == |ws|
  {
    if ws == [] then [] else WishRules(ws[..|ws| - 1]) + [RuleFor(ws[|ws| - 1])]
  }

  lemma {:induction false} WishRuleAt(ws: seq<Wish>, i: nat)
    requires AllSound(ws) && i < |ws|
    ensures WishRules(ws)[i] == RuleFor(ws[i])
    decreases |ws|
  {
    if i < |ws| - 1 {
      WishRuleAt(ws[..|ws| - 1], i);
    }
  }

  lemma WishRuleMeans(ws: seq<Wish>, i: nat, t: int)
    requires AllSound(ws) && i < |ws|
    ensures var r := WishRules(ws)[i];
            && WellFormed(r) && r.limit == ws[i].limit && RuleOf(WishText(ws[i]), true) == Ok(r) && (SaysAt(r, t) <==> HoldsAt(ws[i], t))
  {
    WishRuleAt(ws, i);
    WishIsRule(ws[i]);
    WishSays(ws[i], t);
  }

  lemma WishesAreRules(ws: seq<Wish>)
    requires AllSound(ws)
    ensures AllWellFormed(WishRules(ws)) && RulesOf(WishTexts(ws), true) == Ok(WishRules(ws))
  {
    forall i: nat | i < |ws| ensures WellFormed(WishRules(ws)[i]) && ReadAll(WishTexts(ws), true)[i] == Ok(WishRules(ws)[i]) {
      WishRuleMeans(ws, i, 0);
    }
    CollectsAll(ReadAll(WishTexts(ws), true), WishRules(ws));
  }

  lemma LastWishSays(ws: seq<Wish>, rules: seq<Rule>, t: int, k: nat)
    requires AllSound(ws) && rules == WishRules(ws) && AllWellFormed(rules) && LastHolds(ws, t, k)
    ensures LastSays(rules, t, k) && (0 < k ==> rules[k - 1].limit == ws[k - 1].limit)
  {
    forall i: nat | i < |ws| ensures rules[i].limit == ws[i].limit && (SaysAt(rules[i], t) <==> HoldsAt(ws[i], t)) { WishRuleMeans(ws, i, t); }
  }

  lemma WishesAreLines(ws: seq<Wish>)
    requires AllSound(ws) && ws != []
    ensures SplitRules(Join(WishTexts(ws), "; ")) == WishTexts(ws)
  {
    var ts := WishTexts(ws);
    forall i | 0 <= i < |ts| ensures RuleLine(ts[i]) { WishIsRule(ws[i]); }
    LinesRoundTrip(ts, "");
    assert "" + Join(ts, "; ") == Join(ts, "; ");
  }

  lemma CollectsAll(ps: seq<Parsed<Rule>>, rules: seq<Rule>)
    requires |ps| == |rules| && forall i | 0 <= i < |ps| :: ps[i] == Ok(rules[i])
    ensures Collect(ps) == Ok(rules)
  {
    var r := Collect(ps);
    if r.Ok? { assert r.value == rules; }
  }

  /** Wish k - 1 is the last in force at this hour; none is at 0. */
  ghost predicate LastHolds(ws: seq<Wish>, t: int, k: nat) {
    && k <= |ws| && (k == 0 || HoldsAt(ws[k - 1], t))
    && forall j | k <= j < |ws| :: !HoldsAt(ws[j], t)
  }

  /** A text that asks for limits from day to day and from hour to hour gives, at every hour, what the last of its rules asks
      for that is in force there, around the week and around midnight, and no limit where none is. */
  lemma WishesMean(ws: seq<Wish>, t: int, k: nat)
    requires AllSound(ws) && ws != [] && LastHolds(ws, t, k)
    ensures var r := ParseSpec(Join(WishTexts(ws), "; "), true); r.Ok? && CellAt(r.value, t) == if k == 0 then 0 else ws[k - 1].limit
  {
    var text, rules := Join(WishTexts(ws), "; "), WishRules(ws);
    WishesAreLines(ws);
    WishesAreRules(ws);
    LastWishSays(ws, rules, t, k);
    ParsedMeans(text, true, rules, t, k);
  }

  // ---------------------------------------------------------------- the scheduler's windows

  lemma ClosedRule(all: string, off: string, rule: Rule)
    requires all == "*" && off == "off" && rule == Rule(WHOLE_WEEK, HourRange(0, HOURS), -1)
    ensures var t := all + " " + all + " = " + off; RuleOf(t, true) == Ok(rule) && RuleLine(t)
  {
    ReadWholeDay();
    CapOff(off);
    RuleFrom(all, all, off, rule);
  }

  lemma ClosedText(text: string, rule: Rule)
    requires text == "* * = off" && rule == Rule(WHOLE_WEEK, HourRange(0, HOURS), -1)
    ensures RulesOf(SplitRules(text), true) == Ok([rule]) && WellFormed(rule)
  {
    var all: string, off: string := "*", "off";
    ClosedRule(all, off, rule);
    var t := all + " " + all + " = " + off;
    OneText(t, rule);
    SameText(text, t);
  }

  lemma SameText(a: string, b: string)
    requires a == "* * = off" && b == "*" + " " + "*" + " = " + "off"
    ensures a == b
  {}

  lemma OneText(text: string, rule: Rule)
    requires RuleLine(text) && RuleOf(text, true) == Ok(rule)
    ensures RulesOf(SplitRules(text), true) == Ok([rule])
  {
    var pad: string := "";
    LastLine(text, pad);
    assert pad + text == text;
    OneRead(text, rule);
  }

  lemma OneRead(text: string, rule: Rule)
    requires RuleOf(text, true) == Ok(rule)
    ensures RulesOf([text], true) == Ok([rule])
  {
    CollectsAll(ReadAll([text], true), [rule]);
  }

  lemma WeekSaysAll(rule: Rule, t: int)
    requires rule == Rule(WHOLE_WEEK, HourRange(0, HOURS), -1)
    ensures WellFormed(rule) && SaysAt(rule, t)
  {
    PlaceHasName(t, 0);
    PlaceHasName(t, Place(t));
    assert rule.days[Place(t)] == Place(t);
    HourRangeIs(0, 24, t % 24);
  }

  lemma ClosedAllWeek(text: string, t: int)
    requires text == "* * = off"
    ensures var r := ParseSpec(text, true); r.Ok? && CellAt(r.value, t) == -1
  {
    var rule := Rule(WHOLE_WEEK, HourRange(0, HOURS), -1);
    ClosedText(text, rule);
    WeekSaysAll(rule, t);
    ParsedMeans(text, true, [rule], t, 1);
  }

  /** The transfer window of a setting: a text that does not parse closes it for the whole week. */
  method TransferWindow(text: string, now: int) returns (w: Window)
    ensures ParseSpec(text, true).Err? ==> !w.open
    ensures forall rules: seq<Rule>, k: nat | RulesOf(SplitRules(text), true) == Ok(rules) && AllWellFormed(rules) && LastSays(rules, now, k) ::
              var limit := if k == 0 then 0 else rules[k - 1].limit; (w.open <==> limit != -1) && w.limit == if 0 < limit then limit else 0
  {
    var r := Parse(text, true);
    if r.Err? {
      r := Parse("* * = off", true);
      ClosedAllWeek("* * = off", now);
    }
    w := At(r.value, now);
    forall rules: seq<Rule>, k: nat | RulesOf(SplitRules(text), true) == Ok(rules) && AllWellFormed(rules) && LastSays(rules, now, k)
      ensures var limit := if k == 0 then 0 else rules[k - 1].limit; (w.open <==> limit != -1) && w.limit == if 0 < limit then limit else 0
    {
      ParsedMeans(text, true, rules, now, k);
    }
  }
}
