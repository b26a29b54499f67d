/** One pass of the gate as it is written (engine/jcc.go). Both jClipCorns may do anything between any two of its steps,
    and any step may fail; what happened is a run of the gate machine. */
module Gatekeeper {
  import opened Base
  import opened Gate
  import H = Histories

  datatype Outcome = Skipped | Deferred | Failed | Ready | Replaced

  /** What a pair of probes comes to. */
  datatype Answer = Clear | Held | Broken

  predicate OfOthers(st: Step) {
    st.OpenThere? || st.CloseThere? || st.WriteThere? || st.OpenHere? || st.CloseHere? || st.WriteHere?
  }

  /** How often the database was replaced. */
  ghost function Replacements(steps: seq<Step>): nat {
    if steps == [] then 0
    else Replacements(steps[..|steps| - 1]) + (if steps[|steps| - 1].Replace? then 1 else 0)
  }

  lemma OneMoreStep(steps: seq<Step>, st: Step)
    ensures Replacements(steps + [st]) == Replacements(steps) + (if st.Replace? then 1 else 0)
  {
    assert (steps + [st])[..|steps|] == steps;
  }

  ghost function Begins(): World -> bool { (w: World) => w.now == 0 && w.gate.None? }

  ghost function Takes(): (World, Step, World) -> bool { (w: World, st: Step, w': World) => Enabled(w, st) && w' == Apply(w, st) }

  ghost predicate Recorded(r: Run) { H.Recorded(r.states, r.steps, Begins(), Takes()) }

  /** What a gatekeeper records is a run, so everything that holds of every run holds of it. */
  lemma RecordedIsRun(r: Run)
    requires Recorded(r)
    ensures IsRun(r)
  {
    H.IsRun(r.states, r.steps, Begins(), Takes());
    forall i | 0 <= i < |r.steps| ensures Enabled(r.states[i], r.steps[i]) && r.states[i + 1] == Apply(r.states[i], r.steps[i]) {
      assert Takes()(r.states[i], r.steps[i], r.states[i + 1]);
    }
  }

  lemma RecordStep(r: Run, st: Step) returns (r': Run)
    requires Recorded(r) && Enabled(Last(r), st)
    ensures Recorded(r') && r'.steps == r.steps + [st] && r'.states == r.states + [Apply(Last(r), st)]
  {
    H.Longer(r.states, r.steps, st, Apply(Last(r), st), Begins(), Takes());
    r' := Run(r.states + [Apply(Last(r), st)], r.steps + [st]);
  }

  /** This step asks for the second lock of a pair, and one of the two is there. */
  ghost predicate Finds(w: World, st: Step) { AsksHere(st) && w.gate.Some? && (w.gate.value.held || w.here.lock) }

  /** How often a pair of probes found a lock. */
  ghost function Findings(states: seq<World>, steps: seq<Step>): nat
    decreases |steps|
  {
    if steps == [] || |states| != |steps| + 1 then 0
    else
      var n := |steps| - 1;
      Findings(states[..n + 1], steps[..n]) + (if Finds(states[n], steps[n]) then 1 else 0)
  }

  lemma OneMoreFinding(states: seq<World>, steps: seq<Step>, st: Step, w: World)
    requires |states| == |steps| + 1
    ensures Findings(states + [w], steps + [st]) == Findings(states, steps) + (if Finds(states[|steps|], st) then 1 else 0)
  {
    assert (states + [w])[..|states|] == states && (steps + [st])[..|steps|] == steps;
  }

  /** A lock existed at some instant from n on. */
  ghost predicate SawLock(r: Run, n: nat) {
    exists t: nat | n <= t < |r.states| :: r.states[t].there.lock || r.states[t].here.lock
  }

  predicate AsksThere(st: Step) { st.ProbeThere? || st.ProbeThereAgain? }
  predicate AsksHere(st: Step) { st.ProbeHere? || st.ProbeHereAgain? }

  /** From n on the publisher's lock was asked for and free, and after that the local one. */
  ghost predicate ProbedClear(r: Run, n: nat) {
    |r.states| == |r.steps| + 1 && exists t: nat, u: nat :: n <= t < u < |r.steps| && AsksThere(r.steps[t]) && AsksHere(r.steps[u])
                                                           && !r.states[t].there.lock && !r.states[u].here.lock
  }

  /** The last step replaced the database, in an attempt that was forced or not. */
  ghost predicate ReplacedBy(r: Run, force: bool) {
    && r.steps != [] && |r.states| == |r.steps| + 1
    && r.steps[|r.steps| - 1].Replace?
    && r.states[|r.steps| - 1].gate.Some? && r.states[|r.steps| - 1].gate.value.force == force
  }

  /** What the run theorems say of it: it was whole, and unless forced it had found everything clear. */
  ghost predicate Sound(r: Run, force: bool)
    requires ReplacedBy(r, force)
  {
    PutWhole(r, |r.steps| - 1) && (!force ==> FoundClear(r, |r.steps| - 1))
  }

  lemma ReplacedSoundly(r: Run, force: bool)
    requires Recorded(r) && ReplacedBy(r, force)
    ensures Sound(r, force)
  {
    RecordedIsRun(r);
    ReplacementIsWhole(r, |r.steps| - 1);
    if !force { UnforcedReplacement(r, |r.steps| - 1); }
  }

  class Gatekeeper {
    var w: World
    ghost var run: Run

    ghost predicate Valid()
      reads this
    {
      Recorded(run) && w == Last(run)
    }

    constructor (there: Side, here: Side)
      ensures Valid() && w == World(0, there, here, None, None, Log([], [], [])) && run.steps == []
    {
      w := World(0, there, here, None, None, Log([], [], []));
      run := Run([World(0, there, here, None, None, Log([], [], []))], []);
    }

    /** How often a pair of probes found a lock so far. */
    ghost function Found(): nat
      reads this
    {
      Findings(run.states, run.steps)
    }

    method Take(st: Step)
      requires Valid() && Enabled(w, st)
      modifies this
      ensures Valid() && w == Apply(old(w), st) && old(w) == run.states[|run.steps| - 1]
      ensures old(run.steps) < run.steps && run.steps[|run.steps| - 1] == st && old(run.states) < run.states
      ensures Replacements(run.steps) == old(Replacements(run.steps)) + (if st.Replace? then 1 else 0)
      ensures Found() == old(Found()) + (if Finds(old(w), st) then 1 else 0)
    {
      OneMoreStep(run.steps, st);
      OneMoreFinding(run.states, run.steps, st, Apply(w, st));
      ghost var longer := RecordStep(run, st);
      w, run := Apply(w, st), longer;
    }

    method Other()
      requires Valid()
      modifies this
      ensures Valid() && w.gate == old(w.gate) && w.incoming == old(w.incoming)
      ensures old(run.steps) <= run.steps && old(run.states) <= run.states
      ensures Replacements(run.steps) == old(Replacements(run.steps)) && Found() == old(Found())
    {
      var st: Step := *;
      if OfOthers(st) && Enabled(w, st) {
        Take(st);
      }
    }

    method Discard()
      requires Valid() && w.gate.Some?
      modifies this
      ensures Valid() && w.gate.None? && old(run.steps) < run.steps && old(run.states) < run.states
      ensures old(w) == run.states[|run.steps| - 1]
      ensures Replacements(run.steps) == old(Replacements(run.steps)) && Found() == old(Found())
    {
      Take(GiveUp(false));
    }

    /** Whatever the two jClipCorns do meanwhile. */
    method Others()
      requires Valid()
      modifies this
      ensures Valid() && w.gate == old(w.gate) && w.incoming == old(w.incoming)
      ensures old(run.steps) <= run.steps && old(run.states) <= run.states
      ensures Replacements(run.steps) == old(Replacements(run.steps)) && Found() == old(Found())
    {
      var more: nat := *;
      while 0 < more
        invariant Valid() && w.gate == old(w.gate) && w.incoming == old(w.incoming)
        invariant old(run.steps) <= run.steps && old(run.states) <= run.states
        invariant Replacements(run.steps) == old(Replacements(run.steps)) && Found() == old(Found())
      {
        Other();
        more := more - 1;
      }
    }

    /** One step of the gate; one that cannot be taken is an error, and what arrived is discarded. */
    method Try(st: Step) returns (ok: bool)
      requires Valid() && w.gate.Some? && !st.GiveUp?
      modifies this
      ensures Valid() && old(run.steps) < run.steps && old(run.states) < run.states && old(w) == run.states[|run.steps| - 1]
      ensures Replacements(run.steps) == old(Replacements(run.steps)) + (if ok && st.Replace? then 1 else 0)
      ensures Found() == old(Found()) + (if ok && Finds(old(w), st) then 1 else 0)
      ensures if ok then Enabled(old(w), st) && w == Apply(old(w), st) && run.steps[|run.steps| - 1] == st else w.gate.None?
    {
      ok := *;
      if ok && Enabled(w, st) {
        Take(st);
      } else {
        Discard();
        ok := false;
      }
    }

    /** The same, whatever happened since the last. */
    method Next(st: Step) returns (ok: bool)
      requires Valid() && w.gate.Some? && !OfOthers(st) && !st.GiveUp?
      modifies this
      ensures Valid() && old(run.steps) < run.steps && old(run.states) < run.states
      ensures Replacements(run.steps) == old(Replacements(run.steps)) + (if ok && st.Replace? then 1 else 0)
      ensures var before := run.states[|run.steps| - 1];
              && before.gate == old(w.gate) && before.incoming == old(w.incoming)
              && Found() == old(Found()) + (if ok && Finds(before, st) then 1 else 0)
              && (if ok then Enabled(before, st) && w == Apply(before, st) && run.steps[|run.steps| - 1] == st else w.gate.None?)
    {
      Others();
      ok := Try(st);
    }

    method AskPublisher(again: bool) returns (ok: bool)
      requires Valid() && At(w, if again then Copied else Looked)
      modifies this
      ensures Valid() && old(run.steps) < run.steps && Replacements(run.steps) == old(Replacements(run.steps)) && Found() == old(Found())
      ensures if ok then
                && At(w, if again then AskedAgain else AskedThere) && w.gate.value.force == old(w.gate.value.force)
                && AsksThere(run.steps[|run.steps| - 1]) && w.gate.value.held == run.states[|run.steps| - 1].there.lock
              else w.gate.None?
    {
      ok := Next(if again then ProbeThereAgain else ProbeThere);
    }

    method AskHere(again: bool) returns (ok: bool)
      requires Valid() && At(w, if again then AskedAgain else AskedThere)
      modifies this
      ensures Valid() && old(run.steps) < run.steps && old(run.states) < run.states && Replacements(run.steps) == old(Replacements(run.steps))
      ensures Found() == old(Found()) + (if ok && (old(w.gate.value.held) || run.states[|run.steps| - 1].here.lock) then 1 else 0)
      ensures ok ==> AsksHere(run.steps[|run.steps| - 1])
      ensures var found := old(w.gate.value.held) || run.states[|run.steps| - 1].here.lock;
              if ok && (old(w.gate.value.force) || !found)
              then At(w, if again then ClearedAgain else Cleared) && w.gate.value.force == old(w.gate.value.force)
              else w.gate.None?
    {
      ok := Next(if again then ProbeHereAgain else ProbeHere);
    }

    /** The two locks, the publisher's first. */
    method AskBoth(again: bool) returns (answer: Answer)
      requires Valid() && At(w, if again then Copied else Looked)
      modifies this
      ensures Valid() && old(run.steps) <= run.steps && Replacements(run.steps) == old(Replacements(run.steps))
      ensures !old(w.gate.value.force) ==> Found() == old(Found()) + (if answer == Held then 1 else 0)
      ensures answer == Clear ==> At(w, if again then ClearedAgain else Cleared) && w.gate.value.force == old(w.gate.value.force)
      ensures answer == Clear && !w.gate.value.force ==> ProbedClear(run, old(|run.steps|))
      ensures answer == Held ==> !old(w.gate.value.force) && SawLock(run, old(|run.steps|))
      ensures answer != Clear ==> w.gate.None?
    {
      var ok := AskPublisher(again);
      if !ok {
        return Broken;
      }
      ghost var t, held := |run.steps| - 1, w.gate.value.held;
      ok := AskHere(again);
      if !ok {
        return Broken;
      }
      answer := if w.gate.Some? then Clear else Held;
      assert AsksThere(run.steps[t]) && run.states[t].there.lock == held;
    }

    /** A step that asks nobody anything. */
    method Onward(st: Step, stage: Stage) returns (ok: bool)
      requires Valid() && w.gate.Some?
      requires st.BeginCopy? || st.CopyPiece? || st.Stamp? || st.BackUp?
      requires stage == if st.Stamp? then Stamped else if st.BackUp? then BackedUp else Copying
      modifies this
      ensures Valid() && old(run.steps) <= run.steps && Replacements(run.steps) == old(Replacements(run.steps)) && Found() == old(Found())
      ensures if ok then At(w, stage) && w.gate.value.force == old(w.gate.value.force) else w.gate.None?
    {
      ok := Next(st);
    }

    /** The whole file in one stream: pieces until the end, or an error on the way. */
    method Fetch() returns (ok: bool)
      requires Valid() && At(w, Cleared)
      modifies this
      ensures Valid() && old(run.steps) <= run.steps && Replacements(run.steps) == old(Replacements(run.steps)) && Found() == old(Found())
      ensures if ok then At(w, Copied) && FullSize(w) && w.gate.value.force == old(w.gate.value.force) else w.gate.None?
    {
      ok := Onward(BeginCopy, Copying);
      var pieces: nat := *;
      while ok && 0 < pieces
        invariant Valid() && old(run.steps) <= run.steps && Replacements(run.steps) == old(Replacements(run.steps)) && Found() == old(Found())
        invariant if ok then At(w, Copying) && w.gate.value.force == old(w.gate.value.force) else w.gate.None?
        decreases pieces
      {
        var n: nat := *;
        ok := Onward(CopyPiece(n), Copying);
        pieces := pieces - 1;
      }
      if ok {
        ok := Next(EndCopy);
        ok := ok && w.gate.Some?;
      }
    }

    /** Timestamp, backup and the rename; each may fail, which discards what arrived. */
    method PutInPlace() returns (ok: bool)
      requires Valid() && At(w, ClearedAgain)
      modifies this
      ensures Valid() && w.gate.None? && old(run.steps) <= run.steps
      ensures Replacements(run.steps) == old(Replacements(run.steps)) + (if ok then 1 else 0) && Found() == old(Found())
      ensures ok ==> ReplacedBy(run, old(w.gate.value.force))
    {
      ok := Onward(Stamp, Stamped);
      if ok {
        ok := Onward(BackUp, BackedUp);
      }
      if ok {
        ok := Next(Step.Replace);
      }
    }

    /** One pass. It replaces the database at most once and at its very last step, having come through both pairs of
        probes; when it defers, nobody forced it and a lock was there; otherwise it leaves the database alone. */
    method SyncDatabase(force: bool, tolerance: nat) returns (out: Outcome)
      requires Valid() && w.gate.None?
      modifies this
      ensures Valid() && w.gate.None? && old(run.steps) <= run.steps
      ensures Replacements(run.steps) == old(Replacements(run.steps)) + (if out == Replaced then 1 else 0)
      ensures out == Replaced ==> ReplacedBy(run, force) && Sound(run, force)
      ensures out == Deferred ==> !force && SawLock(run, old(|run.steps|))
      ensures !force ==> Found() == old(Found()) + (if out == Deferred then 1 else 0)
      ensures out != Ready && (out == Skipped <==> !Enabled(old(w), Look(force, tolerance)))
      ensures var there, here := old(w.there.db), old(w.here.db);
              out == Skipped <==> there.None? || (here.Some? && |here.value.bytes| == |there.value.bytes|
                                                  && here.value.mtime - there.value.mtime <= tolerance && there.value.mtime - here.value.mtime <= tolerance)
      ensures out == Skipped ==> w == old(w)
    {
      if !Enabled(w, Look(force, tolerance)) {
        return Skipped;
      }
      Take(Look(force, tolerance));
      out := CopyClear(force);
      if out == Ready {
        out := ReplaceClear(force);
      }
      if out == Replaced {
        ReplacedSoundly(run, force);
      }
    }

    /** The first probes and the copy; ready when a whole copy lies beside the database. */
    method CopyClear(force: bool) returns (out: Outcome)
      requires Valid() && At(w, Looked) && w.gate.value.force == force
      modifies this
      ensures Valid() && old(run.steps) <= run.steps && Replacements(run.steps) == old(Replacements(run.steps)) && out != Skipped && out != Replaced
      ensures !force ==> Found() == old(Found()) + (if out == Deferred then 1 else 0)
      ensures if out == Ready then At(w, Copied) && w.gate.value.force == force else w.gate.None?
      ensures out == Deferred ==> !force && SawLock(run, old(|run.steps|))
    {
      var answer := AskBoth(false);
      if answer != Clear {
        return if answer == Held then Deferred else Failed;
      }
      var ok := Fetch();
      out := if ok then Ready else Failed;
    }

    /** The second probes and the replacement. */
    method ReplaceClear(force: bool) returns (out: Outcome)
      requires Valid() && At(w, Copied) && w.gate.value.force == force
      modifies this
      ensures Valid() && w.gate.None? && old(run.steps) <= run.steps && out != Skipped && out != Ready
      ensures Replacements(run.steps) == old(Replacements(run.steps)) + (if out == Replaced then 1 else 0)
      ensures out == Replaced ==> ReplacedBy(run, force)
      ensures !force ==> Found() == old(Found()) + (if out == Deferred then 1 else 0)
      ensures out == Deferred ==> !force && SawLock(run, old(|run.steps|))
    {
      var answer := AskBoth(true);
      if answer != Clear {
        return if answer == Held then Deferred else Failed;
      }
      var ok := PutInPlace();
      out := if ok then Replaced else Failed;
    }
  }
}
