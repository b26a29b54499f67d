/** The 7x24 grid and the rules it is written in (schedule/schedule.go). */
module Schedule {
  import opened Text
  import opened Sizes

  const DAYS := 7
  const HOURS := 24
  const CELLS := 168
  const CLOSED: int := -1
  const UNLIMITED: int := 0

  /** One limit per hour of the week, Sunday first. */
  type Grid = g: seq<int> | |g| == CELLS witness seq(CELLS, _ => 0)

  function AlwaysOpen(): Grid { seq(CELLS, _ => UNLIMITED) }

  /** Days are read Monday first; this is the weekday of a place in that order. */
  function Weekday(d: nat): nat { (d + 1) % DAYS }

  const DAY_NAMES: seq<string> := ["mon", "tue", "wed", "thu", "fri", "sat", "sun"]

  function CellIndex(d: nat, h: nat): (i: nat)
    requires d < DAYS && h < HOURS
    ensures i < CELLS
  {
    Weekday(d) * HOURS + h
  }

  /** Days in reading order, hours of the day, and the limit in force there. */
  datatype Rule = Rule(days: seq<nat>, hours: seq<nat>, limit: int)

  predicate InRange(xs: seq<nat>, n: nat) { forall i | 0 <= i < |xs| :: xs[i] < n }

  predicate WellFormed(r: Rule) { InRange(r.days, DAYS) && InRange(r.hours, HOURS) }

  predicate AllWellFormed(rules: seq<Rule>) { forall i | 0 <= i < |rules| :: WellFormed(rules[i]) }

  predicate Covers(r: Rule, i: nat) {
    (exists k | 0 <= k < |r.days| :: Weekday(r.days[k]) == i / HOURS) && i % HOURS in r.hours
  }

  function Applied(g: Grid, r: Rule): Grid {
    seq(CELLS, i requires 0 <= i < CELLS => if Covers(r, i) then r.limit else g[i])
  }

  /** The grid a list of rules gives: the first is the base, later ones go over it. */
  function Fill(rules: seq<Rule>): Grid {
    if rules == [] then AlwaysOpen() else Applied(Fill(rules[..|rules| - 1]), rules[|rules| - 1])
  }

  /** Each cell is the limit of the last rule that covers it, and open without limit where none does. */
  lemma {:induction false} LastRuleWins(rules: seq<Rule>, i: nat, k: nat)
    requires i < CELLS && k <= |rules| && forall j | k <= j < |rules| :: !Covers(rules[j], i)
    requires k == 0 || Covers(rules[k - 1], i)
    ensures Fill(rules)[i] == if k == 0 then UNLIMITED else rules[k - 1].limit
  {
    if rules != [] && k < |rules| {
      LastRuleWins(rules[..|rules| - 1], i, k);
    }
  }

  // ---------------------------------------------------------------- reading the parts of a rule

  function Lowered(name: string): string {
    var low := ToLower(TrimSpace(name));
    if 3 < |low| then low[..3] else low
  }

  function FindDay(name: string, i: nat): (r: Parsed<nat>)
    requires i <= DAYS
    ensures r.Ok? ==> i <= r.value < DAYS && DAY_NAMES[r.value] == name
    decreases DAYS - i
  {
    if i == DAYS then Err else if DAY_NAMES[i] == name then Ok(i) else FindDay(name, i + 1)
  }

  /** The place of a day in reading order. */
  function ParseDay(name: string): (r: Parsed<nat>)
    ensures r.Ok? ==> r.value < DAYS && DAY_NAMES[r.value] == Lowered(name)
  {
    FindDay(Lowered(name), 0)
  }

  /** How many steps it is from one place on a circle of n to another. */
  function Ahead(from: nat, to: nat, n: nat): int { if from <= to then to - from else to - from + n }

  /** From start to end, over the end of the week if it has to. */
  function DayRange(start: nat, end: nat): (r: seq<nat>)
    requires start < DAYS && end < DAYS
    ensures InRange(r, DAYS)
    decreases Ahead(start, end, DAYS)
  {
    if start == end then [start] else [start] + DayRange((start + 1) % DAYS, end)
  }

  /** A range, wrapped or not, holds exactly the days no further from its start than its end is. */
  lemma {:induction false} DayRangeHolds(start: nat, end: nat, d: nat)
    requires start < DAYS && end < DAYS && d < DAYS
    ensures d in DayRange(start, end) <==> Ahead(start, d, DAYS) <= Ahead(start, end, DAYS)
    decreases Ahead(start, end, DAYS)
  {
    if start != end {
      var next := (start + 1) % DAYS;
      assert next == if start == 6 then 0 else start + 1;
      DayRangeHolds(next, end, d);
      assert d in DayRange(start, end) <==> d == start || d in DayRange(next, end);
    }
  }

  function DayPart(part: string): (r: Parsed<seq<nat>>)
    ensures r.Ok? ==> InRange(r.value, DAYS)
  {
    var h := Cut(TrimSpace(part), '-');
    var start := ParseDay(h.before);
    if start.Err? then Err
    else if !h.found then Ok([start.value])
    else
      var end := ParseDay(h.after);
      if end.Err? then Err else Ok(DayRange(start.value, end.value))
  }

  /** The days of every part in turn; one bad part spoils them all. */
  function DayParts(parts: seq<string>): (r: Parsed<seq<nat>>)
    ensures r.Ok? ==> InRange(r.value, DAYS)
  {
    if parts == [] then Ok([])
    else
      var first, rest := DayPart(parts[0]), DayParts(parts[1..]);
      if first.Err? || rest.Err? then Err else Ok(first.value + rest.value)
  }

  const WHOLE_WEEK: seq<nat> := [0, 1, 2, 3, 4, 5, 6]

  function DaysOf(spec: string): (r: Parsed<seq<nat>>)
    ensures r.Ok? ==> InRange(r.value, DAYS)
  {
    if spec == "*" then Ok(WHOLE_WEEK) else DayParts(Split(spec, ','))
  }

  function HourOf(text: string, max: nat): (r: Parsed<nat>)
    ensures r.Ok? ==> r.value <= max
  {
    var s := TrimSpace(text);
    var h := Cut(s, ':');
    var n := ParseInt(if h.found then h.before else s);
    if n.Err? || n.value < 0 || max < n.value then Err else Ok(n.value)
  }

  /** The end is exclusive; an end at or before the start wraps over midnight, and 0-24 is the whole day. */
  function HourSpan(start: nat, end: nat): nat {
    var span := (end - start + HOURS) % HOURS;
    if span == 0 then HOURS else span
  }

  function HourRange(start: nat, end: nat): (r: seq<nat>)
    ensures InRange(r, HOURS)
  {
    seq(HourSpan(start, end), i requires 0 <= i < HourSpan(start, end) => (start + i) % HOURS)
  }

  lemma AheadLands(start: nat, h: nat)
    requires start < HOURS && h < HOURS
    ensures 0 <= Ahead(start, h, HOURS) < HOURS && (start + Ahead(start, h, HOURS)) % HOURS == h
  {}

  lemma AheadOfStep(start: nat, i: nat)
    requires start < HOURS && i < HOURS
    ensures Ahead(start, (start + i) % HOURS, HOURS) == i
  {
    assert (start + i) % HOURS == if start + i < HOURS then start + i else start + i - HOURS;
  }

  lemma HourRangeHolds(start: nat, end: nat, h: nat)
    requires start < HOURS && end <= HOURS && h < HOURS
    ensures h in HourRange(start, end) <==> Ahead(start, h, HOURS) < HourSpan(start, end)
  {
    var r, d := HourRange(start, end), Ahead(start, h, HOURS);
    AheadLands(start, h);
    if d < |r| { assert r[d] == h; }
    if h in r {
      var i :| 0 <= i < |r| && r[i] == h;
      AheadOfStep(start, i);
    }
  }

  function HourPart(part: string): (r: Parsed<seq<nat>>)
    ensures r.Ok? ==> InRange(r.value, HOURS)
  {
    var h := Cut(TrimSpace(part), '-');
    var start := HourOf(h.before, HOURS - 1);
    if start.Err? then Err
    else if !h.found then Ok([start.value])
    else
      var end := HourOf(h.after, HOURS);
      if end.Err? || start.value == end.value then Err else Ok(HourRange(start.value, end.value))
  }

  function HourParts(parts: seq<string>): (r: Parsed<seq<nat>>)
    ensures r.Ok? ==> InRange(r.value, HOURS)
  {
    if parts == [] then Ok([])
    else
      var first, rest := HourPart(parts[0]), HourParts(parts[1..]);
      if first.Err? || rest.Err? then Err else Ok(first.value + rest.value)
  }

  function HoursOf(spec: string): (r: Parsed<seq<nat>>)
    ensures r.Ok? ==> InRange(r.value, HOURS)
  {
    HourParts(Split(if spec == "*" then "0-24" else spec, ','))
  }

  predicate MeansClosed(w: string) { w == "off" || w == "closed" || w == "no" || w == "false" || w == "0" }

  predicate MeansOpen(w: string) { w == "full" || w == "on" || w == "yes" || w == "true" || w == "unlimited" || w == "max" }

  function CapOf(spec: string, allowCaps: bool): Parsed<int> {
    var s := TrimSuffix(TrimSuffix(TrimSpace(ToLower(spec)), "/s"), "ps");
    var word := TrimSpace(s);
    if word == "" then Err
    else if MeansClosed(word) then Ok(CLOSED)
    else if MeansOpen(word) then Ok(UNLIMITED)
    else
      var n := ParseSize(s);
      if n.Err? || !allowCaps then Err else n
  }

  function RuleOf(rule: string, allowCaps: bool): (r: Parsed<Rule>)
    ensures r.Ok? ==> WellFormed(r.value)
  {
    var h := Cut(rule, '=');
    var fields := FieldsBy(h.before, IsSpace);
    if !h.found || |fields| != 2 then Err
    else
      var days, hours, limit := DaysOf(fields[0]), HoursOf(fields[1]), CapOf(h.after, allowCaps);
      if days.Err? || hours.Err? || limit.Err? then Err else Ok(Rule(days.value, hours.value, limit.value))
  }

  predicate IsRuleEnd(c: char) { c == ';' || c == '\n' }

  predicate IsRuleText(part: string) { part != "" && part[0] != '#' }

  /** The pieces that are rules, trimmed: neither blank nor a comment. */
  function RuleTexts(parts: seq<string>): seq<string> {
    if parts == [] then []
    else (if IsRuleText(TrimSpace(parts[0])) then [TrimSpace(parts[0])] else []) + RuleTexts(parts[1..])
  }

  function SplitRules(s: string): seq<string> { RuleTexts(FieldsBy(s, IsRuleEnd)) }

  /** All or nothing. */
  function Collect(ps: seq<Parsed<Rule>>): (r: Parsed<seq<Rule>>)
    ensures r.Ok? ==> Collected(ps, r.value)
    ensures r.Err? ==> exists i | 0 <= i < |ps| :: ps[i].Err?
  {
    if ps == [] then Ok([])
    else
      var front, last := Collect(ps[..|ps| - 1]), ps[|ps| - 1];
      if front.Err? || last.Err? then Err else Ok(front.value + [last.value])
  }

  predicate Collected(ps: seq<Parsed<Rule>>, rules: seq<Rule>) {
    |rules| == |ps| && forall i | 0 <= i < |ps| :: ps[i] == Ok(rules[i])
  }

  function ReadAll(texts: seq<string>, allowCaps: bool): seq<Parsed<Rule>> {
    seq(|texts|, i requires 0 <= i < |texts| => RuleOf(texts[i], allowCaps))
  }

  function RulesOf(texts: seq<string>, allowCaps: bool): Parsed<seq<Rule>> { Collect(ReadAll(texts, allowCaps)) }

  /** A schedule text as a grid. */
  function ParseSpec(s: string, allowCaps: bool): Parsed<Grid> {
    var rules := RulesOf(SplitRules(s), allowCaps);
    if rules.Err? then Err else Ok(Fill(rules.value))
  }

  // ---------------------------------------------------------------- what the rules say, by the names of the days

  /** A rule speaks of this hour of the day that has this name. */
  predicate Says(r: Rule, name: string, h: nat)
    requires InRange(r.days, 7)
  {
    (exists k | 0 <= k < |r.days| :: DAY_NAMES[r.days[k]] == name) && h in r.hours
  }

  /** A rule speaks of an hour counted from a Sunday's midnight. */
  predicate SaysAt(r: Rule, t: int)
    requires InRange(r.days, 7)
  {
    Says(r, DayOf(t), t % 24)
  }

  /** The name of the day in which an hour lies that is counted from a Sunday's midnight. */
  function DayOf(t: int): string { ["sun", "mon", "tue", "wed", "thu", "fri", "sat"][(t / 24) % 7] }

  lemma NameOfWeekday(d: nat, w: nat)
    requires d < 7 && w < 7
    ensures Weekday(d) == w <==> DAY_NAMES[d] == ["sun", "mon", "tue", "wed", "thu", "fri", "sat"][w]
  {
    var names: seq<string> := ["sun", "mon", "tue", "wed", "thu", "fri", "sat"];
    assert DAY_NAMES[d] == names[(d + 1) % 7] by {
      assert d == 0 || d == 1 || d == 2 || d == 3 || d == 4 || d == 5 || d == 6;
    }
    assert names[(d + 1) % 7] == names[w] ==> (d + 1) % 7 == w by { NamesDiffer((d + 1) % 7, w); }
  }

  lemma NamesDiffer(v: nat, w: nat)
    requires v < 7 && w < 7
    ensures var names: seq<string> := ["sun", "mon", "tue", "wed", "thu", "fri", "sat"]; names[v] == names[w] ==> v == w
  {
    var names: seq<string> := ["sun", "mon", "tue", "wed", "thu", "fri", "sat"];
    if names[v] == names[w] {
      assert names[v][0] == names[w][0] && names[v][1] == names[w][1];
    }
  }

  lemma HourOfWeek(t: int)
    ensures 0 <= t % CELLS < CELLS && (t % CELLS) / HOURS == (t / 24) % 7 && (t % CELLS) % HOURS == t % 24
  {
    var q, i := t / 168, t % 168;
    assert t == 24 * (7 * q + i / 24) + i % 24;
    assert t / 24 == 7 * q + i / 24;
  }

  lemma CoversIsSays(r: Rule, t: int)
    requires WellFormed(r)
    ensures Covers(r, t % CELLS) <==> SaysAt(r, t)
  {
    HourOfWeek(t);
    forall k | 0 <= k < |r.days| ensures Weekday(r.days[k]) == (t / 24) % 7 <==> DAY_NAMES[r.days[k]] == DayOf(t) {
      NameOfWeekday(r.days[k], (t / 24) % 7);
    }
  }

  /** Rule k - 1 is the last to speak of this hour; none does at 0. */
  ghost predicate LastSays(rules: seq<Rule>, t: int, k: nat)
    requires AllWellFormed(rules)
  {
    && k <= |rules| && (k == 0 || SaysAt(rules[k - 1], t))
    && forall j | k <= j < |rules| :: !SaysAt(rules[j], t)
  }

  /** For every text that parses and every hour since some Sunday's midnight: what is read there is the limit of the last
      rule that speaks of that day by name and of that hour, and no limit where none does. */
  lemma ParsedMeans(s: string, allowCaps: bool, rules: seq<Rule>, t: int, k: nat)
    requires RulesOf(SplitRules(s), allowCaps) == Ok(rules) && AllWellFormed(rules) && LastSays(rules, t, k)
    ensures ParseSpec(s, allowCaps).Ok? && CellAt(ParseSpec(s, allowCaps).value, t) == if k == 0 then 0 else rules[k - 1].limit
  {
    HourOfWeek(t);
    forall j | 0 <= j < |rules| ensures Covers(rules[j], t % CELLS) <==> SaysAt(rules[j], t) {
      CoversIsSays(rules[j], t);
    }
    LastRuleWins(rules, t % CELLS, k);
  }

  // ---------------------------------------------------------------- parsing as it is done: loops over an array of cells

  /** Day after day from start until end has been reached. */
  method WalkDays(start: nat, end: nat) returns (out: seq<nat>)
    requires start < DAYS && end < DAYS
    ensures out == DayRange(start, end)
  {
    var i := start;
    out := [i];
    while i != end
      invariant 0 <= i < DAYS && DayRange(start, end) == out + DayRange(i, end)[1..]
      decreases Ahead(i, end, DAYS)
    {
      WalkStep(start, end, i, out);
      i := (i + 1) % DAYS;
      out := out + [i];
    }
  }

  lemma WalkStep(start: nat, end: nat, i: nat, out: seq<nat>)
    requires start < DAYS && end < DAYS && i < DAYS && i != end && DayRange(start, end) == out + DayRange(i, end)[1..]
    ensures var next := (i + 1) % DAYS;
            && DayRange(start, end) == (out + [next]) + DayRange(next, end)[1..]
            && Ahead(next, end, DAYS) < Ahead(i, end, DAYS)
  {
    DayRangeStep(i, end);
  }

  lemma DayRangeStep(i: nat, end: nat)
    requires i < DAYS && end < DAYS && i != end
    ensures var next := (i + 1) % DAYS;
            && DayRange(i, end)[1..] == [next] + DayRange(next, end)[1..]
            && Ahead(next, end, DAYS) == Ahead(i, end, DAYS) - 1
  {
    var next := (i + 1) % DAYS;
    assert next == if i == 6 then 0 else i + 1;
    assert DayRange(next, end)[0] == next;
    assert DayRange(i, end)[1..] == DayRange(next, end);
  }

  method ParseDays(spec: string) returns (r: Parsed<seq<nat>>)
    ensures r == DaysOf(spec)
  {
    if spec == "*" {
      return Ok(WHOLE_WEEK);
    }
    var out: seq<nat> := [];
    var parts := Split(spec, ',');
    assert parts[0..] == parts;
    ThenNothing(DayParts(parts));
    for k := 0 to |parts|
      invariant DayParts(parts) == Then(out, DayParts(parts[k..]))
    {
      assert parts[k..][0] == parts[k] && parts[k..][1..] == parts[k + 1..];
      var h := Cut(TrimSpace(parts[k]), '-');
      var start := ParseDay(h.before);
      if start.Err? {
        return Err;
      }
      if !h.found {
        ThenOne(out, [start.value], DayParts(parts[k + 1..]));
        out := out + [start.value];
        continue;
      }
      var end := ParseDay(h.after);
      if end.Err? {
        return Err;
      }
      var range := WalkDays(start.value, end.value);
      ThenOne(out, range, DayParts(parts[k + 1..]));
      out := out + range;
    }
    assert parts[|parts|..] == [];
    assert out + [] == out;
    r := Ok(out);
  }

  /** What is there already, and then whatever the rest gives. */
  function Then(front: seq<nat>, rest: Parsed<seq<nat>>): Parsed<seq<nat>> {
    if rest.Err? then Err else Ok(front + rest.value)
  }

  lemma ThenNothing(rest: Parsed<seq<nat>>)
    ensures Then([], rest) == rest
  {
    if rest.Ok? { assert [] + rest.value == rest.value; }
  }

  lemma ThenOne(front: seq<nat>, middle: seq<nat>, rest: Parsed<seq<nat>>)
    ensures Then(front, Then(middle, rest)) == Then(front + middle, rest)
  {
    if rest.Ok? { assert front + (middle + rest.value) == (front + middle) + rest.value; }
  }

  /** Hour after hour for the length of the span. */
  method WalkHours(start: nat, end: nat) returns (out: seq<nat>)
    ensures out == HourRange(start, end)
  {
    var span := (end - start + HOURS) % HOURS;
    if span == 0 {
      span := HOURS;
    }
    out := [];
    for i := 0 to span
      invariant out == HourRange(start, end)[..i]
    {
      out := out + [(start + i) % HOURS];
    }
  }

  method ParseHours(spec0: string) returns (r: Parsed<seq<nat>>)
    ensures r == HoursOf(spec0)
  {
    var spec := if spec0 == "*" then "0-24" else spec0;
    var out: seq<nat> := [];
    var parts := Split(spec, ',');
    assert parts[0..] == parts;
    ThenNothing(HourParts(parts));
    for k := 0 to |parts|
      invariant HourParts(parts) == Then(out, HourParts(parts[k..]))
    {
      assert parts[k..][0] == parts[k] && parts[k..][1..] == parts[k + 1..];
      var h := Cut(TrimSpace(parts[k]), '-');
      var start := HourOf(h.before, HOURS - 1);
      if start.Err? {
        return Err;
      }
      if !h.found {
        ThenOne(out, [start.value], HourParts(parts[k + 1..]));
        out := out + [start.value];
        continue;
      }
      var end := HourOf(h.after, HOURS);
      if end.Err? || start.value == end.value {
        return Err;
      }
      var range := WalkHours(start.value, end.value);
      ThenOne(out, range, HourParts(parts[k + 1..]));
      out := out + range;
    }
    assert parts[|parts|..] == [];
    assert out + [] == out;
    r := Ok(out);
  }

  /** Write one rule's limit into its cells. */
  method FillRule(cells: array<int>, r: Rule)
    requires cells.Length == CELLS && WellFormed(r)
    modifies cells
    ensures cells[..] == Applied(old(cells[..]), r)
    ensures forall i | 0 <= i < 168 :: cells[i] == if SaysAt(r, i) then r.limit else old(cells[i])
  {
    for k := 0 to |r.days|
      invariant forall i | 0 <= i < CELLS :: cells[i] == if Covers(Rule(r.days[..k], r.hours, r.limit), i) then r.limit else old(cells[i])
    {
      var base := Weekday(r.days[k]) * HOURS;
      ghost var before := cells[..];
      for m := 0 to |r.hours|
        invariant forall i | 0 <= i < CELLS :: cells[i] == if i / HOURS == Weekday(r.days[k]) && i % HOURS in r.hours[..m] then r.limit else before[i]
      {
        HourInDay(Weekday(r.days[k]), r.hours[m]);
        assert r.hours[..m + 1] == r.hours[..m] + [r.hours[m]];
        cells[base + r.hours[m]] := r.limit;
      }
      assert r.hours[..|r.hours|] == r.hours;
      assert r.days[..k + 1] == r.days[..k] + [r.days[k]];
      forall i | 0 <= i < CELLS
        ensures Covers(Rule(r.days[..k + 1], r.hours, r.limit), i) <==>
                Covers(Rule(r.days[..k], r.hours, r.limit), i) || (i / HOURS == Weekday(r.days[k]) && i % HOURS in r.hours)
      {
        CoversMore(r, k, i);
      }
    }
    assert r.days[..|r.days|] == r.days;
    forall i: nat | i < CELLS ensures Covers(r, i) <==> SaysAt(r, i) { CoversIsSays(r, i); }
  }

  lemma HourInDay(d: nat, h: nat)
    requires h < HOURS
    ensures (d * HOURS + h) / HOURS == d && (d * HOURS + h) % HOURS == h
    ensures forall i: nat | i / HOURS == d && i % HOURS == h :: i == d * HOURS + h
  {}

  lemma CoversMore(r: Rule, k: nat, i: nat)
    requires k < |r.days|
    ensures Covers(Rule(r.days[..k + 1], r.hours, r.limit), i) <==>
            Covers(Rule(r.days[..k], r.hours, r.limit), i) || (i / HOURS == Weekday(r.days[k]) && i % HOURS in r.hours)
  {
    var short, long := r.days[..k], r.days[..k + 1];
    if j :| 0 <= j < |short| && Weekday(short[j]) == i / HOURS { assert Weekday(long[j]) == i / HOURS; }
    assert long[k] == r.days[k];
  }

  lemma RuleTaken(texts: seq<string>, allowCaps: bool, k: nat, rules: seq<Rule>)
    requires k < |texts| && RulesOf(texts[..k], allowCaps) == Ok(rules) && RuleOf(texts[k], allowCaps).Ok?
    ensures var r := RuleOf(texts[k], allowCaps).value;
            RulesOf(texts[..k + 1], allowCaps) == Ok(rules + [r]) && Fill(rules + [r]) == Applied(Fill(rules), r)
  {
    RulesSnoc(texts, allowCaps, k);
    FillSnoc(rules, RuleOf(texts[k], allowCaps).value);
  }

  /** Rule after rule into the cells; a bad one refuses the text. */
  method FillRules(texts: seq<string>, allowCaps: bool, cells: array<int>) returns (ok: bool)
    requires cells.Length == CELLS && cells[..] == AlwaysOpen()
    modifies cells
    ensures ok <==> RulesOf(texts, allowCaps).Ok?
    ensures ok ==> cells[..] == Fill(RulesOf(texts, allowCaps).value)
  {
    ghost var rules: seq<Rule> := [];
    for k := 0 to |texts|
      invariant RulesOf(texts[..k], allowCaps) == Ok(rules) && cells[..] == Fill(rules)
    {
      var rule := RuleOf(texts[k], allowCaps);
      if rule.Err? {
        BadRule(texts, allowCaps, k);
        return false;
      }
      RuleTaken(texts, allowCaps, k, rules);
      FillRule(cells, rule.value);
      rules := rules + [rule.value];
    }
    assert texts[..|texts|] == texts;
    ok := true;
  }

  /** Parse: the rules in order over a grid that is open everywhere. */
  method Parse(s: string, allowCaps: bool) returns (r: Parsed<Grid>)
    ensures r == ParseSpec(s, allowCaps)
    ensures forall rules: seq<Rule>, t: int, k: nat | RulesOf(SplitRules(s), allowCaps) == Ok(rules) && AllWellFormed(rules) && LastSays(rules, t, k) ::
              r.Ok? && CellAt(r.value, t) == if k == 0 then 0 else rules[k - 1].limit
  {
    var cells := new int[CELLS](_ => UNLIMITED);
    assert cells[..] == AlwaysOpen();
    var ok := FillRules(SplitRules(s), allowCaps, cells);
    var g: Grid := cells[..];
    r := if ok then Ok(g) else Err;
    forall rules: seq<Rule>, t: int, k: nat | RulesOf(SplitRules(s), allowCaps) == Ok(rules) && AllWellFormed(rules) && LastSays(rules, t, k)
      ensures r.Ok? && CellAt(r.value, t) == if k == 0 then 0 else rules[k - 1].limit
    {
      ParsedMeans(s, allowCaps, rules, t, k);
    }
  }

  lemma RulesSnoc(texts: seq<string>, allowCaps: bool, k: nat)
    requires k < |texts|
    ensures var front, last := RulesOf(texts[..k], allowCaps), RuleOf(texts[k], allowCaps);
            RulesOf(texts[..k + 1], allowCaps) == if front.Err? || last.Err? then Err else Ok(front.value + [last.value])
  {
    var ps := ReadAll(texts[..k + 1], allowCaps);
    assert ps[..k] == ReadAll(texts[..k], allowCaps);
  }

  lemma FillSnoc(rules: seq<Rule>, r: Rule)
    ensures Fill(rules + [r]) == Applied(Fill(rules), r)
  {
    assert (rules + [r])[..|rules|] == rules;
  }

  lemma BadRule(texts: seq<string>, allowCaps: bool, k: nat)
    requires k < |texts| && RuleOf(texts[k], allowCaps).Err?
    ensures RulesOf(texts, allowCaps).Err?
  {
    assert ReadAll(texts, allowCaps)[k].Err?;
  }

  // ---------------------------------------------------------------- the grid over time, on a fixed-offset clock

  /** The cell of an hour counted from some Sunday midnight. */
  function CellAt(g: Grid, hour: int): int { g[hour % CELLS] }

  predicate Uniform(g: Grid) { forall i | 0 <= i < CELLS :: g[i] == g[0] }

  datatype Window = Window(open: bool, limit: int, until: int)

  lemma WeekSeesAll(g: Grid, hour: int, c: int)
    requires forall h | hour < h <= hour + CELLS :: CellAt(g, h) == c
    ensures forall i | 0 <= i < CELLS :: g[i] == c
  {
    forall i | 0 <= i < CELLS ensures g[i] == c {
      var j := (i - hour - 1) % CELLS + 1;
      assert (hour + j) % CELLS == i by { SameCell(i, hour); }
      assert CellAt(g, hour + j) == c;
    }
  }

  lemma SameCell(i: int, hour: int)
    requires 0 <= i < CELLS
    ensures (hour + ((i - hour - 1) % CELLS + 1)) % CELLS == i
  {}

  /** The answer now, and the first hour at which it changes. */
  method At(g: Grid, now: int) returns (w: Window)
    ensures w.open == (CellAt(g, now) != CLOSED)
    ensures w.limit == (if 0 < CellAt(g, now) then CellAt(g, now) else 0)
    ensures now < w.until && forall h | now <= h < w.until :: CellAt(g, h) == CellAt(g, now)
    ensures !Uniform(g) ==> CellAt(g, w.until) != CellAt(g, now)
    ensures Uniform(g) ==> w.until == now + 1 + CELLS
  {
    var cur := CellAt(g, now);
    var end := now + 1;
    var i := 0;
    while i < CELLS && CellAt(g, end) == cur
      invariant 0 <= i <= CELLS && end == now + 1 + i
      invariant forall h | now <= h < end :: CellAt(g, h) == cur
    {
      end, i := end + 1, i + 1;
    }
    if i == CELLS { WeekSeesAll(g, now, cur); }
    w := Window(cur != CLOSED, if 0 < cur then cur else 0, end);
  }

  /** The earliest hour from now on that is open; none exactly when the whole week is closed. */
  method NextOpen(g: Grid, now: int) returns (at: int, ok: bool)
    ensures ok ==> now <= at && CellAt(g, at) != CLOSED && forall h | now <= h < at :: CellAt(g, h) == CLOSED
    ensures ok <==> exists i | 0 <= i < CELLS :: g[i] != CLOSED
  {
    if CellAt(g, now) != CLOSED {
      return now, true;
    }
    at := now + 1;
    for i := 0 to CELLS
      invariant at == now + 1 + i
      invariant forall h | now <= h < at :: CellAt(g, h) == CLOSED
    {
      if CellAt(g, at) != CLOSED {
        return at, true;
      }
      at := at + 1;
    }
    WeekSeesAll(g, now, CLOSED);
    ok := false;
  }
}
