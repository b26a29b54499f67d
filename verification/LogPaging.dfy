/** Paging through the log ring with a cursor, across restarts (app/remote_api.go). */
module LogPaging {
  import opened Base
  import opened Text
  import opened Sizes
  import opened LogRing

  /** Which process a client last heard from, and the last line it was handed. */
  datatype Cursor = Cursor(boot: int, seqno: int)

  datatype Page = Page(lines: seq<Line>, cursor: Cursor, reset: bool)

  // ---------------------------------------------------------------- the cursor as text

  function CursorText(c: Cursor): string { FormatInt(c.boot) + "." + FormatInt(c.seqno) }

  function ParseCursor(s: string): Parsed<Cursor> {
    var h := Cut(s, '.');
    if !h.found then Err
    else
      var boot, seqno := ParseInt(h.before), ParseInt(h.after);
      if boot.Err? || seqno.Err? || seqno.value < 0 then Err else Ok(Cursor(boot.value, seqno.value))
  }

  /** A cursor that was handed out reads back as itself, with or without the space around it trimmed. */
  lemma CursorRoundTrip(c: Cursor)
    requires MIN_INT64 <= c.boot <= MAX_INT64 && 0 <= c.seqno <= MAX_INT64
    ensures ParseCursor(CursorText(c)) == Ok(c) && TrimSpace(CursorText(c)) == CursorText(c) && CursorText(c) != ""
  {
    var a, b := FormatInt(c.boot), FormatInt(c.seqno);
    FormatIntEnds(c.boot);
    FormatIntEnds(c.seqno);
    assert a + "." + b == a + ['.'] + b;
    CutAt(a, '.', b);
    IntRoundTrip(c.boot);
    IntRoundTrip(c.seqno);
    var t := CursorText(c);
    assert t[0] == a[0] && t[|t| - 1] == b[|b| - 1];
    TrimPadded(t);
  }

  // ---------------------------------------------------------------- one page

  /** The page a process with this history answers with. */
  function PageFor(history: seq<string>, boot: int, limit: nat, cursor: Option<Cursor>): Page {
    var newest, dropped := |history|, Dropped(history);
    if cursor.None? then
      Page(Stretch(history, if limit < newest - dropped then newest - limit else dropped, newest), Cursor(boot, newest), false)
    else
      var stale := cursor.value.boot != boot || cursor.value.seqno > newest;
      var after := if stale then 0 else cursor.value.seqno;
      var start := if after < dropped then dropped else after;
      var end := if start + limit < newest then start + limit else newest;
      var lines := if start <= end then Stretch(history, start, end) else [];
      Page(lines, Cursor(boot, if lines == [] then after else end), stale || after < dropped)
  }

  /** Without a cursor: the newest lines. */
  method FirstPage(log: Logger, boot: int, limit: nat) returns (page: Page)
    requires log.Valid()
    ensures page == PageFor(log.history, boot, limit, None)
  {
    var all, newest := log.Tail(0);
    if limit < |all| {
      all := all[|all| - limit..];
    }
    assert all == Stretch(log.history, newest - |all|, newest);
    page := Page(all, Cursor(boot, newest), false);
  }

  /** With one: the whole ring is read, and what the client has seen is stepped over. */
  method NextPage(log: Logger, boot: int, limit: nat, c: Cursor) returns (page: Page)
    requires log.Valid() && 1 <= limit && 0 <= c.seqno
    ensures page == PageFor(log.history, boot, limit, Some(c))
  {
    var all, newest := log.Tail(0);
    var after, reset := c.seqno, false;
    if c.boot != boot || after > newest {
      reset, after := true, 0;
    } else if |all| > 0 && after < all[0].seqno - 1 {
      reset := true;
    }
    var lines := Select(all, after, limit, log.history);
    if |lines| > 0 {
      after := lines[|lines| - 1].seqno;
    }
    page := Page(lines, Cursor(boot, after), reset);
  }

  /** The page size asked for: the default without one, capped from above, and refused unless it is a positive number. */
  function LimitOf(raw: string, def: nat, ceiling: nat): (r: Parsed<nat>)
    requires 1 <= def && 1 <= ceiling
    ensures r.Ok? ==> 1 <= r.value
  {
    var text := TrimSpace(raw);
    if text == "" then Ok(def)
    else
      var n := ParseInt(text);
      if n.Err? || n.value <= 0 then Err else if ceiling < n.value then Ok(ceiling) else Ok(n.value)
  }

  /** A number is taken as it was written up to the ceiling, as the ceiling above it, and not at all unless it is positive;
      nothing is the default, and what is no number is refused. */
  lemma LimitRoundTrip(n: int, raw: string, def: nat, ceiling: nat)
    requires 1 <= def && 1 <= ceiling && MIN_INT64 <= n <= MAX_INT64
    ensures 1 <= n <= ceiling ==> LimitOf(FormatInt(n), def, ceiling) == Ok(n)
    ensures ceiling < n ==> LimitOf(FormatInt(n), def, ceiling) == Ok(ceiling)
    ensures n <= 0 ==> LimitOf(FormatInt(n), def, ceiling) == Err
    ensures TrimSpace(raw) == "" ==> LimitOf(raw, def, ceiling) == Ok(def)
    ensures TrimSpace(raw) != "" && ParseInt(TrimSpace(raw)).Err? ==> LimitOf(raw, def, ceiling) == Err
  {
    FormatIntEnds(n);
    TrimPadded(FormatInt(n));
    IntRoundTrip(n);
  }

  const DEFAULT_LINES: nat := 200
  const MOST_LINES: nat := 2000

  /** The answer to a request for lines: an error for a limit that is no positive number or a cursor that is none, the newest
      lines without a cursor, and else the page behind it; 200 lines where no limit is given, and never more than 2000. */
  method HandleLogs(log: Logger, boot: int, limit: string, raw: string) returns (page: Option<Page>)
    requires log.Valid()
    ensures var n := LimitOf(limit, 200, 2000);
            if n.Err? then page == None
            else if TrimSpace(raw) == "" then page == Some(PageFor(log.history, boot, n.value, None))
            else var c := ParseCursor(TrimSpace(raw)); page == if c.Err? then None else Some(PageFor(log.history, boot, n.value, Some(c.value)))
    ensures page.Some? ==> |page.value.lines| <= 2000
    ensures TrimSpace(limit) == "" && page.Some? ==> |page.value.lines| <= 200
    ensures TrimSpace(limit) == "" && TrimSpace(raw) == "" ==>
              var held := |log.history| - Dropped(log.history); page.Some? && |page.value.lines| == if held < 200 then held else 200
  {
    var n := LimitOf(limit, DEFAULT_LINES, MOST_LINES);
    if n.Err? {
      return None;
    }
    var text := TrimSpace(raw);
    if text == "" {
      FirstPageIs(log.history, boot, n.value);
      var first := FirstPage(log, boot, n.value);
      return Some(first);
    }
    var c := ParseCursor(text);
    if c.Err? {
      return None;
    }
    PageContinues(log.history, boot, n.value, c.value);
    var next := NextPage(log, boot, n.value, c.value);
    page := Some(next);
  }

  /** The first lines numbered above after, a page of them at most. */
  method Select(all: seq<Line>, after: nat, limit: nat, ghost history: seq<string>) returns (lines: seq<Line>)
    requires all == Stretch(history, Dropped(history), |history|) && after <= |history|
    ensures var start := if after < Dropped(history) then Dropped(history) else after;
            lines == Stretch(history, start, if start + limit < |history| then start + limit else |history|)
  {
    ghost var start := if after < Dropped(history) then Dropped(history) else after;
    lines := [];
    for i := 0 to |all|
      invariant start <= |history|
      invariant Dropped(history) + i <= start ==> lines == []
      invariant start <= Dropped(history) + i ==> |lines| <= limit && start + |lines| == Dropped(history) + i && lines == Stretch(history, start, start + |lines|)
    {
      if all[i].seqno <= after {
        continue;
      }
      if |lines| == limit {
        break;
      }
      lines := lines + [all[i]];
    }
  }

  // ---------------------------------------------------------------- a client, over any run of writes, restarts and reads

  /** What a client holds since the last time it had to start over: the lines numbered from + 1 up to its cursor. */
  datatype Client = Client(cursor: Cursor, from: int, got: seq<Line>)

  /** Everything every process ever wrote, which of them is running, and the client. */
  datatype World = World(past: map<int, seq<string>>, boot: int, client: Option<Client>)

  datatype Step =
    | Write(text: string)
    | Restart(boot: int)     // processes start at different milliseconds
    | Read(limit: nat)
    | Forget                 // the client starts from scratch

  predicate Enabled(w: World, st: Step) {
    && w.boot in w.past
    && match st
       case Restart(boot) => boot !in w.past
       case Read(limit) => 1 <= limit
       case _ => true
  }

  function Asked(w: World, limit: nat): Page
    requires w.boot in w.past
  {
    PageFor(w.past[w.boot], w.boot, limit, if w.client.Some? then Some(w.client.value.cursor) else None)
  }

  /** A client starts over on a reset and appends otherwise. */
  function Received(client: Option<Client>, page: Page): Client {
    if client.None? || page.reset then Client(page.cursor, page.cursor.seqno - |page.lines|, page.lines)
    else Client(page.cursor, client.value.from, client.value.got + page.lines)
  }

  function Apply(w: World, st: Step): World
    requires Enabled(w, st)
  {
    match st
    case Write(text) => w.(past := w.past[w.boot := w.past[w.boot] + [text]])
    case Restart(boot) => w.(past := w.past[boot := []], boot := boot)
    case Read(limit) => w.(client := Some(Received(w.client, Asked(w, limit))))
    case Forget => w.(client := None)
  }

  /** Contiguous lines of one process, each once. */
  ghost predicate Contiguous(past: map<int, seq<string>>, c: Client) {
    && c.cursor.boot in past && 0 <= c.from <= c.cursor.seqno <= |past[c.cursor.boot]|
    && c.got == Stretch(past[c.cursor.boot], c.from, c.cursor.seqno)
  }

  ghost predicate Inv(w: World) {
    w.boot in w.past && (w.client.Some? ==> Contiguous(w.past, w.client.value))
  }

  lemma PageContinues(history: seq<string>, boot: int, limit: nat, c: Cursor)
    requires 1 <= limit && 0 <= c.seqno
    ensures var p := PageFor(history, boot, limit, Some(c));
            && p.cursor.boot == boot && 0 <= p.cursor.seqno - |p.lines| <= p.cursor.seqno <= |history|
            && p.lines == Stretch(history, p.cursor.seqno - |p.lines|, p.cursor.seqno)
            && (!p.reset ==> c.boot == boot && p.cursor.seqno - |p.lines| == c.seqno)
            && (p.reset ==> p.cursor.seqno - |p.lines| == Dropped(history))
            && |p.lines| <= limit && (|p.lines| < limit ==> p.cursor.seqno == |history|)
  {}

  lemma FirstPageIs(history: seq<string>, boot: int, limit: nat)
    ensures var p := PageFor(history, boot, limit, None);
            && p.cursor == Cursor(boot, |history|) && 0 <= |history| - |p.lines|
            && p.lines == Stretch(history, |history| - |p.lines|, |history|)
            && |p.lines| <= limit && (|p.lines| < limit ==> |p.lines| == |history| - Dropped(history))
  {}

  lemma Appended(history: seq<string>, a: nat, b: nat, c: nat)
    requires a <= b <= c <= |history|
    ensures Stretch(history, a, b) + Stretch(history, b, c) == Stretch(history, a, c)
  {}

  lemma ReadKeeps(w: World, limit: nat)
    requires Inv(w) && 1 <= limit
    ensures Inv(Apply(w, Read(limit)))
  {
    var h, page := w.past[w.boot], Asked(w, limit);
    if w.client.None? {
      FirstPageIs(h, w.boot, limit);
    } else {
      var c := w.client.value;
      PageContinues(h, w.boot, limit, c.cursor);
      if !page.reset { Appended(h, c.from, c.cursor.seqno, page.cursor.seqno); }
    }
  }

  lemma StepKeeps(w: World, st: Step)
    requires Enabled(w, st) && Inv(w)
    ensures Inv(Apply(w, st))
  {
    match st
    case Read(limit) => ReadKeeps(w, limit);
    case Write(text) =>
      if w.client.Some? && w.client.value.cursor.boot == w.boot {
        var c := w.client.value;
        assert Stretch(w.past[w.boot] + [text], c.from, c.cursor.seqno) == Stretch(w.past[w.boot], c.from, c.cursor.seqno);
      }
    case _ =>
  }

  datatype Run = Run(states: seq<World>, steps: seq<Step>)

  ghost predicate IsRun(r: Run) {
    && |r.states| == |r.steps| + 1 && r.states[0].boot in r.states[0].past && r.states[0].client.None?
    && forall i | 0 <= i < |r.steps| :: Enabled(r.states[i], r.steps[i]) && r.states[i + 1] == Apply(r.states[i], r.steps[i])
  }

  /** Under any interleaving, the pages a client received since it last started over make up a contiguous stretch of one
      process's history, without a gap or a repetition. */
  lemma {:induction false} PagesAreContiguous(r: Run, n: nat)
    requires IsRun(r) && n < |r.states|
    ensures Inv(r.states[n])
  {
    if 0 < n {
      PagesAreContiguous(r, n - 1);
      StepKeeps(r.states[n - 1], r.steps[n - 1]);
    }
  }

  /** A reset is raised exactly when the process changed or lines after the cursor are gone; and an empty page means the
      client has everything. */
  lemma ResetExactly(r: Run, i: nat)
    requires IsRun(r) && i < |r.steps| && r.steps[i].Read? && r.states[i].client.Some?
    ensures r.states[i].boot in r.states[i].past
    ensures var w, c := r.states[i], r.states[i].client.value.cursor;
            && (Asked(w, r.steps[i].limit).reset <==> c.boot != w.boot || c.seqno < Dropped(w.past[w.boot]))
            && (Asked(w, r.steps[i].limit).lines == [] ==> r.states[i + 1].client.value.cursor == Cursor(w.boot, |w.past[w.boot]|))
  {
    PagesAreContiguous(r, i);
    var w := r.states[i];
    PageContinues(w.past[w.boot], w.boot, r.steps[i].limit, w.client.value.cursor);
  }
}
