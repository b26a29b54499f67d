/** The gate's copy under the publisher's writes, exactly (engine/jcc.go). */
module GateTear {
  import opened Base
  import opened Jobs
  import opened Tear
  import opened Gate

  // ---------------------------------------------------------------- what a copy is made of

  /** One content more than there were writes, the last of them the current one while the copy runs; and as long as all of
      them have the reported size, what arrived is what the pieces and writes make of them. */
  ghost predicate Logged(w: World) {
    w.gate.Some? && 3 <= Rank(w.gate.value.stage) ==> LoggedCopy(w.log, w.incoming, w.gate.value.want.size) && Current(w)
  }

  ghost predicate LoggedCopy(log: Log, incoming: Option<FileOnDisk>, size: nat) {
    && incoming.Some? && |log.contents| == Writes(log.events) + 1
    && (Sized(log.contents, size) ==> Fits(log.events, log.contents, size) && incoming.value.bytes == Copy(log.events, log.contents, size))
  }

  ghost predicate Current(w: World)
    requires w.gate.Some? && |w.log.contents| == Writes(w.log.events) + 1
  {
    w.gate.value.stage == Copying ==> w.log.contents[Writes(w.log.events)] == BytesOf(w.there.db)
  }

  lemma LogPiece(log: Log, got: FileOnDisk, db: Bytes, size: nat, n: nat)
    requires LoggedCopy(log, Some(got), size) && log.contents[Writes(log.events)] == db && |got.bytes| + n <= |db|
    ensures LoggedCopy(log.(events := log.events + [Piece(n)]), Some(got.(bytes := Longer(got.bytes, db, n))), size)
    ensures Writes(log.events + [Piece(n)]) == Writes(log.events)
  {
    Snoc(log.events, Piece(n));
    if Sized(log.contents, size) { NextPiece(log.events, log.contents, size, n); }
  }

  lemma LogWrite(log: Log, incoming: Option<FileOnDisk>, c: Bytes, size: nat, t: nat)
    requires LoggedCopy(log, incoming, size)
    ensures LoggedCopy(Log(log.events + [Write], log.contents + [c], log.since + [t]), incoming, size)
    ensures Writes(log.events + [Write]) == Writes(log.events) + 1
  {
    Snoc(log.events, Write);
    if Sized(log.contents + [c], size) {
      assert c == (log.contents + [c])[|log.contents|];
      assert forall k | 0 <= k < |log.contents| :: log.contents[k] == (log.contents + [c])[k];
      NextWrite(log.events, log.contents, c, size);
    }
  }

  lemma LogBegins(c: Bytes, size: nat, t: nat)
    ensures LoggedCopy(Log([], [c], [t]), Some(FileOnDisk([], 0)), size)
  {
    if Sized([c], size) { assert Copy([], [c], size) == []; }
  }

  /** What a copy is made of goes on being that, through every step that neither begins one nor adds to it. */
  lemma LogStays(w: World, st: Step)
    requires Enabled(w, st) && Logged(w) && !st.BeginCopy? && !st.CopyPiece? && !(st.WriteThere? && At(w, Copying))
    ensures Logged(Apply(w, st))
  {
    if NextGate(w, st).Some? && 3 <= Rank(NextGate(w, st).value.stage) {
      StaysMidway(w, st);
    }
  }

  lemma StaysMidway(w: World, st: Step)
    requires Enabled(w, st) && !st.BeginCopy? && !st.CopyPiece? && !(st.WriteThere? && At(w, Copying))
    requires NextGate(w, st).Some? && 3 <= Rank(NextGate(w, st).value.stage)
    ensures w.gate.Some? && 3 <= Rank(w.gate.value.stage) && NextLog(w, st) == w.log
    ensures NextGate(w, st).value.want == w.gate.value.want
    ensures NextIncoming(w, st) == w.incoming || (w.incoming.Some? && NextIncoming(w, st) == Some(w.incoming.value.(mtime := w.gate.value.want.mtime)))
    ensures NextGate(w, st).value.stage == Copying ==> w.gate.value.stage == Copying && NextThere(w, st).db == w.there.db
  {}

  lemma LogStep(w: World, st: Step)
    requires Enabled(w, st) && Logged(w)
    ensures Logged(Apply(w, st))
  {
    if st.BeginCopy? {
      LogBegins(BytesOf(w.there.db), w.gate.value.want.size, w.now);
    } else if st.CopyPiece? {
      LogPiece(w.log, w.incoming.value, w.there.db.value.bytes, w.gate.value.want.size, st.n);
    } else if st.WriteThere? && At(w, Copying) {
      LogWrite(w.log, w.incoming, BytesOf(st.file), w.gate.value.want.size, w.now + 1);
    } else {
      LogStays(w, st);
    }
  }

  lemma {:induction false} LogIs(r: Run, n: nat)
    requires IsRun(r) && n < |r.states|
    ensures Logged(r.states[n])
  {
    if 0 < n {
      LogIs(r, n - 1);
      LogStep(r.states[n - 1], r.steps[n - 1]);
    }
  }

  /** Every content on record was the publisher's at its instant, during the copy. */
  ghost predicate Dated(r: Run, n: nat)
    requires n < |r.states|
  {
    var w := r.states[n];
    w.gate.Some? && 3 <= Rank(w.gate.value.stage) ==>
      var a := w.gate.value;
      DatedWithin(r, w.log, a.at.begun, if a.stage == Copying then n else a.at.ended)
  }

  ghost predicate DatedWithin(r: Run, log: Log, from: nat, to: nat) {
    && |log.since| == |log.contents| && to < |r.states|
    && forall k | 0 <= k < |log.since| :: from <= log.since[k] <= to && BytesOf(r.states[log.since[k]].there.db) == log.contents[k]
  }

  lemma DateWrite(r: Run, log: Log, from: nat, n: nat, c: Bytes)
    requires DatedWithin(r, log, from, n) && from <= n + 1 < |r.states| && BytesOf(r.states[n + 1].there.db) == c
    ensures DatedWithin(r, Log(log.events + [Write], log.contents + [c], log.since + [n + 1]), from, n + 1)
  {}

  lemma DateLonger(r: Run, log: Log, from: nat, n: nat, events: seq<Event>)
    requires DatedWithin(r, log, from, n) && n + 1 < |r.states|
    ensures DatedWithin(r, log.(events := events), from, n + 1)
  {}

  /** How one step moves an attempt through its copy: begun here, still copying, ended here or over. */
  lemma CopyStages(w: World, st: Step, a: Passage, a': Passage)
    requires Enabled(w, st) && w.gate == Some(a) && NextGate(w, st) == Some(a') && 3 <= Rank(a'.stage)
    ensures st.BeginCopy? ==> a'.stage == Copying && a'.at.begun == w.now
    ensures !st.BeginCopy? ==> 3 <= Rank(a.stage) && a'.at.begun == a.at.begun
    ensures !st.BeginCopy? && a'.stage != Copying ==> NextLog(w, st) == w.log && a'.at.ended == if a.stage == Copying then w.now else a.at.ended
    ensures !st.BeginCopy? && a'.stage == Copying ==> a.stage == Copying
  {}

  lemma DateStep(r: Run, n: nat, a: Passage, a': Passage)
    requires n < |r.steps| && |r.states| == |r.steps| + 1 && Dated(r, n) && r.states[n].gate == Some(a) && r.states[n].now == n && InOrder(a, n)
    requires Enabled(r.states[n], r.steps[n]) && r.states[n + 1] == Apply(r.states[n], r.steps[n]) && r.states[n + 1].gate == Some(a')
    ensures Dated(r, n + 1)
  {
    var w, st := r.states[n], r.steps[n];
    if 3 <= Rank(a'.stage) {
      CopyStages(w, st, a, a');
      if !st.BeginCopy? && a'.stage == Copying {
        if st.WriteThere? {
          DateWrite(r, w.log, a.at.begun, n, BytesOf(st.file));
        } else {
          DateLonger(r, w.log, a.at.begun, n, r.states[n + 1].log.events);
        }
      }
    }
  }

  lemma {:induction false} DatesAre(r: Run, n: nat)
    requires IsRun(r) && n < |r.states|
    ensures Dated(r, n)
  {
    if 0 < n && r.states[n].gate.Some? {
      DatesAre(r, n - 1);
      OrderIs(r, n - 1);
      InstantIsIndex(r, n - 1);
      if r.states[n - 1].gate.Some? {
        DateStep(r, n - 1, r.states[n - 1].gate.value, r.states[n].gate.value);
      } else {
        FreshPassage(r.states[n - 1], r.steps[n - 1]);
      }
    }
  }

  /** One half, for every run: when all the publisher's contents during the copy had the reported size and none of his
      writes came between two pieces, what is put in place is what he had at some instant of the copy. */
  lemma UntornReplacement(r: Run, i: nat) returns (t: nat)
    requires IsRun(r) && i < |r.steps| && r.steps[i].Replace?
    requires Sized(r.states[i].log.contents, r.states[i].gate.value.want.size) && !Torn(r.states[i].log.events)
    ensures r.states[i].gate.value.at.begun <= t <= r.states[i].gate.value.at.ended < i
    ensures r.states[i + 1].here.db.Some? && r.states[i + 1].here.db.value.bytes == BytesOf(r.states[t].there.db)
  {
    LogIs(r, i);
    DatesAre(r, i);
    OrderIs(r, i);
    ReplacementIsWhole(r, i);
    var log, size := r.states[i].log, r.states[i].gate.value.want.size;
    UntornIsWhole(log.events, log.contents, size);
    var k :| 0 <= k < |log.contents| && log.contents[k] == Copy(log.events, log.contents, size);
    t := log.since[k];
  }

  // ---------------------------------------------------------------- the other half: every torn order has a run

  function Plain(bytes: Bytes): Option<FileOnDisk> { Some(FileOnDisk(bytes, 0)) }

  ghost predicate Among(r: Run, contents: seq<Bytes>) { forall t: nat | t < |r.states| :: BytesOf(r.states[t].there.db) in contents }

  /** An unforced attempt at this stage, with nobody about and nothing here yet. */
  ghost predicate Midway(w: World, there: Bytes, stage: Stage, arrived: Option<FileOnDisk>, size: nat, ev: seq<Event>) {
    && w.there == Side(Plain(there), false) && w.here == Side(None, false) && w.incoming == arrived
    && At(w, stage) && !w.gate.value.force && w.gate.value.want == Version(size, 0) && w.log.events == ev
  }

  ghost predicate Playing(r: Run, contents: seq<Bytes>, there: Bytes, stage: Stage, arrived: Option<FileOnDisk>, size: nat, ev: seq<Event>) {
    IsRun(r) && Among(r, contents) && Midway(Last(r), there, stage, arrived, size, ev)
  }

  lemma FirstProbes(contents: seq<Bytes>, c: Bytes) returns (r: Run)
    requires c in contents
    ensures Playing(r, contents, c, Cleared, None, |c|, [])
  {
    r := Run([World(0, Side(Plain(c), false), Side(None, false), None, None, Log([], [], []))], []);
    r := Extend(r, Look(false, 0));
    r := Extend(r, ProbeThere);
    r := Extend(r, ProbeHere);
  }

  lemma StartCopy(r: Run, contents: seq<Bytes>, c: Bytes, size: nat) returns (r': Run)
    requires c in contents && Playing(r, contents, c, Cleared, None, size, [])
    ensures Playing(r', contents, c, Copying, Plain([]), size, [])
  {
    r' := Extend(r, BeginCopy);
  }

  lemma PlayPiece(r: Run, contents: seq<Bytes>, c: Bytes, got: Bytes, size: nat, ev: seq<Event>, n: nat) returns (r': Run)
    requires c in contents && Playing(r, contents, c, Copying, Plain(got), size, ev) && |got| + n <= |c|
    ensures Playing(r', contents, c, Copying, Plain(Longer(got, c, n)), size, ev + [Piece(n)])
  {
    r' := Extend(r, CopyPiece(n));
  }

  lemma PlayWrite(r: Run, contents: seq<Bytes>, c: Bytes, c': Bytes, got: Bytes, size: nat, ev: seq<Event>) returns (r': Run)
    requires c in contents && c' in contents && Playing(r, contents, c, Copying, Plain(got), size, ev)
    ensures Playing(r', contents, c', Copying, Plain(got), size, ev + [Write])
  {
    r' := Extend(r, OpenThere);
    r' := Extend(r', WriteThere(Plain(c')));
    r' := Extend(r', CloseThere);
  }

  /** Any order of pieces and writes, over any contents of one size, is a copy the gate may make. */
  lemma {:induction false} Play(ev: seq<Event>, contents: seq<Bytes>, size: nat) returns (r: Run)
    requires Fits(ev, contents, size)
    ensures Playing(r, contents, contents[Writes(ev)], Copying, Plain(Copy(ev, contents, size)), size, ev)
    decreases |ev|
  {
    if ev == [] {
      r := FirstProbes(contents, contents[0]);
      r := StartCopy(r, contents, contents[0], size);
    } else {
      var front, last := ev[..|ev| - 1], ev[|ev| - 1];
      FitsFront(ev, contents, size);
      assert ev == front + [last];
      r := Play(front, contents, size);
      r := PlayLast(r, front, last, contents, size);
    }
  }

  lemma PlayLast(r: Run, front: seq<Event>, last: Event, contents: seq<Bytes>, size: nat) returns (r': Run)
    requires Fits(front, contents, size) && Fits(front + [last], contents, size)
    requires Playing(r, contents, contents[Writes(front)], Copying, Plain(Copy(front, contents, size)), size, front)
    ensures Playing(r', contents, contents[Writes(front + [last])], Copying, Plain(Copy(front + [last], contents, size)), size, front + [last])
  {
    var c, got := contents[Writes(front)], Copy(front, contents, size);
    Snoc(front, last);
    if last.Write? {
      WriteBringsNothing(front, contents, size);
      r' := PlayWrite(r, contents, c, contents[Writes(front) + 1], got, size, front);
    } else {
      NextPiece(front, contents, size, last.n);
      r' := PlayPiece(r, contents, c, got, size, front, last.n);
    }
  }

  lemma LastProbes(r: Run, contents: seq<Bytes>, c: Bytes, got: Bytes, ev: seq<Event>) returns (r': Run)
    requires c in contents && Playing(r, contents, c, Copying, Plain(got), |got|, ev) && |c| == |got|
    ensures Playing(r', contents, c, ClearedAgain, Plain(got), |got|, ev)
  {
    r' := Extend(r, EndCopy);
    r' := Extend(r', ProbeThereAgain);
    r' := Extend(r', ProbeHereAgain);
  }

  lemma IntoPlace(r: Run, contents: seq<Bytes>, c: Bytes, got: Bytes, ev: seq<Event>) returns (r': Run)
    requires c in contents && Playing(r, contents, c, ClearedAgain, Plain(got), |got|, ev)
    ensures IsRun(r') && Among(r', contents) && r'.steps != [] && r'.steps[|r'.steps| - 1] == Step.Replace
    ensures Last(r').here.db == Plain(got) && !r'.states[|r'.steps| - 1].gate.value.force && r'.states[|r'.steps| - 1].log.events == ev
  {
    r' := Extend(r, Stamp);
    r' := Extend(r', BackUp);
    r' := Extend(r', Step.Replace);
  }

  /** The other half: for every order with a write between two pieces there are contents, and an unforced run of the gate
      in that order, that puts a database in place which the publisher never had. */
  lemma TornReplacement(ev: seq<Event>, size: nat) returns (r: Run)
    requires Torn(ev) && Taken(ev) == size
    ensures IsRun(r) && r.steps != [] && r.steps[|r.steps| - 1] == Step.Replace
    ensures !r.states[|r.steps| - 1].gate.value.force && r.states[|r.steps| - 1].log.events == ev
    ensures Last(r).here.db.Some? && forall t: nat | t < |r.states| :: BytesOf(r.states[t].there.db) != Last(r).here.db.value.bytes
  {
    var contents := TornIsNot(ev, size);
    var got := Copy(ev, contents, size);
    r := Play(ev, contents, size);
    r := LastProbes(r, contents, contents[Writes(ev)], got, ev);
    r := IntoPlace(r, contents, contents[Writes(ev)], got, ev);
  }

  /** The smallest of them: one session that begins and ends between two bytes of the copy. */
  lemma ContainedSessionTears() returns (r: Run)
    ensures IsRun(r) && r.steps != [] && r.steps[|r.steps| - 1] == Step.Replace && !r.states[|r.steps| - 1].gate.value.force
    ensures r.states[|r.steps| - 1].log.events == [Piece(1), Write, Piece(1)]
    ensures Last(r).here.db.Some? && forall t: nat | t < |r.states| :: BytesOf(r.states[t].there.db) != Last(r).here.db.value.bytes
  {
    var ev := [Piece(1), Write, Piece(1)];
    assert Filled(ev[0]) && ev[1].Write? && Filled(ev[2]);
    r := TornReplacement(ev, Taken(ev));
  }
}
