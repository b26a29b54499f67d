/** The updater and the supervisor as they are written (update/install.go, update/supervise.go, app/update.go). */
module Updater {
  import opened Base
  import opened Update
  import H = Histories

  ghost function Begins(): Dir -> bool { (d: Dir) => d == Dir(None, None, None, None, Idle) }

  ghost function Takes(srv: Server): (Dir, Step, Dir) -> bool { (d: Dir, st: Step, d': Dir) => Enabled(d, st, srv) && d' == Apply(d, st, srv) }

  ghost predicate Recorded(r: Run, srv: Server) { H.Recorded(r.states, r.steps, Begins(), Takes(srv)) }

  lemma RecordedIsRun(r: Run, srv: Server)
    requires Recorded(r, srv)
    ensures IsRun(r, srv)
  {
    H.IsRun(r.states, r.steps, Begins(), Takes(srv));
    forall i | 0 <= i < |r.steps| ensures Enabled(r.states[i], r.steps[i], srv) && r.states[i + 1] == Apply(r.states[i], r.steps[i], srv) {
      assert Takes(srv)(r.states[i], r.steps[i], r.states[i + 1]);
    }
  }

  /** Unforced installs on record rise, but for forced downgrades in between. */
  ghost predicate Rising(r: Run) {
    forall i: nat, j: nat | i < j && Records(r, i) && Records(r, j) && !Forced(r, j)
                            && (forall k: nat | i < k < j && Records(r, k) :: !Downgrades(r, k)) :: Time(r, i) < Time(r, j)
  }

  lemma RecordRises(r: Run, srv: Server)
    requires Recorded(r, srv)
    ensures Rising(r)
  {
    RecordedIsRun(r, srv);
    forall i: nat, j: nat | i < j && Records(r, i) && Records(r, j) && !Forced(r, j)
                            && (forall k: nat | i < k < j && Records(r, k) :: !Downgrades(r, k)) ensures Time(r, i) < Time(r, j) {
      UnforcedInstallsRise(r, srv, i, j);
    }
  }

  /** What the file system refuses during a rollback: to move the binaries, or to take the state file. */
  datatype Faults = Faults(move: bool, save: bool)

  class Manager {
    const srv: Server
    var bin: Option<Binary>
    var prev: Option<Binary>
    var incoming: Option<Binary>
    var state: Option<Record>
    ghost var work: Work
    ghost var run: Run

    ghost function View(): Dir
      reads this
    {
      Dir(bin, prev, incoming, state, work)
    }

    ghost predicate Valid()
      reads this
    {
      Recorded(run, srv) && run.states[|run.steps|] == View() && Inv(View(), srv)
    }

    constructor (srv: Server)
      ensures Valid() && View() == Dir(None, None, None, None, Idle) && this.srv == srv
    {
      this.srv := srv;
      bin, prev, incoming, state, work := None, None, None, None, Idle;
      run := Run([Dir(None, None, None, None, Idle)], []);
    }

    ghost method Took(st: Step, before: Dir)
      requires Recorded(run, srv) && run.states[|run.steps|] == before && Inv(before, srv)
      requires Enabled(before, st, srv) && View().(work := work) == Apply(before, st, srv).(work := work)
      modifies this`run, this`work
      ensures Valid() && View() == Apply(before, st, srv) && old(run.steps) < run.steps
    {
      StepKeeps(before, st, srv);
      work := Apply(before, st, srv).work;
      H.Longer(run.states, run.steps, st, View(), Begins(), Takes(srv));
      run := Run(run.states + [View()], run.steps + [st]);
    }

    /** Give up on the way; what was being fetched may be left lying. */
    ghost method GaveUp()
      requires Valid() && !work.Idle?
      modifies this`run, this`work
      ensures Valid() && work.Idle? && old(run.steps) < run.steps
    {
      Took(Stop(true), View());
    }

    /** The stream into a new file; it may end anywhere. */
    method DownloadTo(time: int, force: bool, build: int, want: int)
      requires Valid() && work.Idle? && (force || Admits(state, build, time)) && (want <= 0 || want == |srv.bytes(time)|)
      modifies this
      ensures Valid() && bin == old(bin) && prev == old(prev) && state == old(state) && old(run.steps) < run.steps
      ensures work == Fetching(time, force, want) && incoming.Some?
    {
      ghost var before := View();
      incoming := None;
      Took(Begin(time, force, build, want), before);
      var release := srv.bytes(time);
      var arrived: int := *;
      var n := if arrived < 0 then 0 else if |release| < arrived then |release| else arrived;
      before := View();
      incoming := Some(Binary(time, release[..n], 0 < want));
      Took(Download(n), before);
    }

    /** Fetch the release and check it: the size the server told if it told one, the magic, and that it runs. */
    method Fetch(time: int, force: bool, build: int, want: int) returns (ok: bool)
      requires Valid() && work.Idle? && (force || Admits(state, build, time)) && (want <= 0 || want == |srv.bytes(time)|)
      modifies this
      ensures Valid() && bin == old(bin) && prev == old(prev) && state == old(state) && old(run.steps) < run.steps
      ensures if ok then work == Update.Verified(time, force) && incoming.Some? && Good(incoming, srv) && incoming.value.time == time else work.Idle?
      ensures ok && 0 < want ==> incoming == Some(Binary(time, srv.bytes(time), true))
    {
      DownloadTo(time, force, build, want);
      ok := Check(incoming.value.bytes, want);
      if ok {
        Took(Verify, View());
      } else {
        ghost var before := View();
        incoming := None;
        Took(Stop(false), before);
      }
    }

    method Check(bytes: Bytes, want: int) returns (ok: bool)
      ensures ok <==> Accepts(bytes, want, srv)
      ensures ok <==> (0 < want ==> |bytes| == want) && srv.runs(bytes)
                      && 4 <= |bytes| && bytes[0] == 0x7f && bytes[1] == 'E' as Byte && bytes[2] == 'L' as Byte && bytes[3] == 'F' as Byte
    {
      if 0 < want && |bytes| != want {
        return false;
      }
      if |bytes| < |ELF| || bytes[..|ELF|] != ELF {
        return false;
      }
      ok := srv.runs(bytes);
    }

    /** Rotate: the current binary aside, the new one in its place, then the state file. An error may strike between
        any two, and none leaves half a binary where one is looked for. */
    method Install(time: int, force: bool, now: int) returns (ok: bool)
      requires Valid() && work == Update.Verified(time, force)
      modifies this
      ensures Valid() && work.Idle? && old(run.steps) < run.steps
      ensures ok ==> bin == old(incoming) && prev == old(bin) && state == Some(Record(Applied, time, now))
      ensures !ok ==> state == old(state) && (bin == old(bin) || bin == None || bin == old(incoming))
    {
      var fails: bool := *;
      if fails {
        GaveUp();
        return false;
      }
      ghost var before := View();
      bin, prev := None, bin;
      Took(KeepCurrent, before);
      fails := *;
      if fails {
        GaveUp();
        return false;
      }
      before := View();
      bin, incoming := incoming, None;
      Took(Step.Install, before);
      fails := *;
      if fails {
        GaveUp();
        return false;
      }
      before := View();
      state := Some(Record(Applied, time, now));
      Took(Save(now), before);
      ok := true;
    }

    /** Check again what the server has and install it if it is newer and was not rolled back, or if it is forced. */
    method ApplyUpdate(time: int, force: bool, build: int, want: int, now: int) returns (ok: bool)
      requires Valid() && work.Idle? && (want <= 0 || want == |srv.bytes(time)|)
      modifies this
      ensures old(run.steps) <= run.steps
      ensures Valid() && work.Idle?
      ensures ok ==> bin.Some? && bin.value.time == time && Good(bin, srv) && prev == old(bin) && state == Some(Record(Applied, time, now))
      ensures ok && 0 < want ==> bin.value.bytes == srv.bytes(time)
      ensures ok && !force ==> build < time && (old(state).Some? ==> old(state).value.time < time)
      ensures !ok ==> state == old(state)
      ensures Rising(run)
    {
      RecordRises(run, srv);
      var admitted := CheckUpdate(time, build);
      if !admitted && !force {
        return false;
      }
      ok := Fetch(time, force, build, want);
      if ok {
        ok := Install(time, force, now);
      }
      RecordRises(run, srv);
    }

    /** Newer than the baseline, and not one that was rolled back. */
    method CheckUpdate(time: int, build: int) returns (admitted: bool)
      ensures admitted <==> build < time && (state.Some? ==> state.value.time < time)
      ensures admitted == Admits(state, build, time)
    {
      AdmitsExactly(state, build, time);
      var newer := Baseline(state, build) < time;
      admitted := newer && !Blocked(state, time);
    }

    /** Put the previous binary back, or step off the managed one; fails when there is neither, when the files cannot be moved
        and when the outcome cannot be written down. */
    method Rollback(io: Faults) returns (ok: bool)
      requires Valid() && work.Idle?
      modifies this
      ensures old(run.steps) <= run.steps
      ensures Valid() && work.Idle?
      ensures ok <==> (old(prev).Some? || old(bin).Some?) && !io.move && !io.save
      ensures if (old(prev).Some? || old(bin).Some?) && !io.move then bin == old(prev) && prev == None else bin == old(bin) && prev == old(prev)
      ensures ok ==> state.Some? && state.value.kind == RolledBack && (old(state).Some? ==> state.value.time == old(state).value.time)
      ensures ok ==> state == Some(Undoing(old(state)))
      ensures !ok ==> state == old(state)
    {
      if io.move || (prev.None? && bin.None?) {
        return false;
      }
      ghost var before := View();
      bin, prev := prev, None;
      Took(Undo, before);
      if io.save {
        GaveUp();
        return false;
      }
      before := View();
      state := Some(Undoing(state));
      Took(SaveUndo, before);
      ok := true;
    }

    /** The update that was written down at this moment has run long enough; any other is left alone. */
    method ConfirmUpdate(at: int) returns (ok: bool)
      requires Valid()
      modifies this
      ensures old(run.steps) <= run.steps
      ensures Valid() && bin == old(bin) && prev == old(prev) && incoming == old(incoming) && work == old(work)
      ensures ok <==> old(state).Some? && old(state).value.kind == Applied && old(state).value.at == at
      ensures state == if ok then Some(old(state).value.(kind := Confirmed)) else old(state)
    {
      ok := state.Some? && state.value.kind == Applied && state.value.at == at;
      if ok {
        ghost var before := View();
        state := Some(state.value.(kind := Confirmed));
        Took(Confirm(at), before);
      }
    }
  }

  // ---------------------------------------------------------------- the supervisor

  const EXIT_RESTART := 90

  /** What a child did to the binary directory before it ended; it installed nothing. */
  datatype Deed = Nothing | ConfirmedItself(at: int) | RolledItselfBack(io: Faults)

  /** How a child ended: it never started, or it exited; stopped says whether the supervisor had been told to stop. */
  datatype Child = NoStart | Exited(code: int, stopped: bool, deed: Deed)

  /** The binary directory as the supervisor finds it when a child has ended. */
  datatype Found = Found(bin: Option<Binary>, prev: Option<Binary>, state: Option<Record>)

  /** It is rolled back for this child: the managed binary could not be started, or an update that had not proved itself
      exited non-zero, neither to be restarted nor because it was stopped; there is something to go back to, and the file
      system goes along. */
  predicate Recovers(c: Child, at: Found, io: Faults) {
    && (match c
        case NoStart => at.bin.Some?
        case Exited(code, stopped, _) => code != 0 && code != 90 && !stopped && at.state.Some? && at.state.value.kind == Applied)
    && (at.prev.Some? || at.bin.Some?) && !io.move && !io.save
  }

  /** How many rollbacks a directory has in it: a previous binary is worth one more than the current one. */
  function Left(bin: Option<Binary>, prev: Option<Binary>): nat {
    if prev.Some? then 2 else if bin.Some? then 1 else 0
  }

  /** It asked to be restarted. */
  predicate AsksAgain(c: Child) { c.Exited? && c.code == 90 && !c.stopped }

  ghost function Asked(children: seq<Child>): nat {
    if children == [] then 0
    else Asked(children[..|children| - 1]) + (if AsksAgain(children[|children| - 1]) then 1 else 0)
  }

  method Act(m: Manager, deed: Deed)
    requires m.Valid() && m.work.Idle?
    modifies m
    ensures old(m.run.steps) <= m.run.steps
    ensures m.Valid() && m.work.Idle? && Left(m.bin, m.prev) <= old(Left(m.bin, m.prev))
    ensures m.state.Some? && m.state.value.kind == Applied ==> m.state == old(m.state)
  {
    match deed
    case Nothing =>
    case ConfirmedItself(at) => var _ := m.ConfirmUpdate(at);
    case RolledItselfBack(io) => var _ := m.Rollback(io);
  }

  /** Whether the supervisor starts another child after this one, and whether it rolled back for it: exactly when it recovers
      or was asked to. What is started then is the binary that was put aside. */
  method After(m: Manager, child: Child, io: Faults) returns (again: bool, rolledBack: bool)
    requires m.Valid() && m.work.Idle?
    modifies m
    ensures old(m.run.steps) <= m.run.steps
    ensures m.Valid() && m.work.Idle?
    ensures rolledBack <==>
              && (if child.NoStart? then old(m.bin).Some?
                  else child.code != 0 && child.code != 90 && !child.stopped && old(m.state).Some? && old(m.state).value.kind == Applied)
              && (old(m.prev).Some? || old(m.bin).Some?) && !io.move && !io.save
    ensures again <==> rolledBack || (child.Exited? && child.code == 90 && !child.stopped)
    ensures rolledBack ==> m.bin == old(m.prev) && m.prev == None && m.state.Some? && m.state.value.kind == RolledBack
    ensures AsksAgain(child) ==> m.bin == old(m.bin) && m.prev == old(m.prev) && m.state == old(m.state)
    ensures Left(m.bin, m.prev) <= old(Left(m.bin, m.prev)) && (rolledBack ==> Left(m.bin, m.prev) < old(Left(m.bin, m.prev)))
    ensures !rolledBack ==> m.state == old(m.state)
  {
    again, rolledBack := false, false;
    match child
    case NoStart =>
      if m.bin.Some? {
        rolledBack := m.Rollback(io);
        again := rolledBack;
      }
    case Exited(code, stopped, _) =>
      if code == EXIT_RESTART && !stopped {
        again := true;
      } else if code != 0 && !stopped && m.state.Some? && m.state.value.kind == Applied {
        rolledBack := m.Rollback(io);
        again := rolledBack;
      }
  }

  /** A child is started on the managed binary, or on the image's, and ends. */
  method RunOnce(m: Manager, child: Child) returns (target: Option<Binary>)
    requires m.Valid() && m.work.Idle?
    modifies m
    ensures old(m.run.steps) <= m.run.steps && target == old(m.bin)
    ensures m.Valid() && m.work.Idle? && Left(m.bin, m.prev) <= old(Left(m.bin, m.prev))
    ensures m.state.Some? && m.state.value.kind == Applied ==> m.state == old(m.state)
    ensures child.NoStart? ==> m.bin == old(m.bin) && m.prev == old(m.prev) && m.state == old(m.state)
  {
    target := m.bin;
    if child.Exited? {
      Act(m, child.deed);
    }
  }

  /** What was run one after the other, on what, and what was found after each: the first ran the binary in place; another
      was started exactly after one that the supervisor recovered from, on what had been put aside, or that asked to be
      restarted, on what was there. */
  ghost predicate Told(children: seq<Child>, ios: seq<Faults>, ran: seq<Option<Binary>>, found: seq<Found>, first: Option<Binary>)
    requires |ran| == |found| <= |children| == |ios|
  {
    && (ran != [] ==> ran[0] == first)
    && forall i | 0 <= i < |ran| - 1 ::
         if Recovers(children[i], found[i], ios[i]) then ran[i + 1] == found[i].prev
         else AsksAgain(children[i]) && ran[i + 1] == found[i].bin
  }

  /** What is started next, if anything is. */
  ghost predicate Next(children: seq<Child>, ios: seq<Faults>, ran: seq<Option<Binary>>, found: seq<Found>, first: Option<Binary>, target: Option<Binary>)
    requires |ran| == |found| <= |children| == |ios|
  {
    if ran == [] then target == first
    else
      var i := |ran| - 1;
      if Recovers(children[i], found[i], ios[i]) then target == found[i].prev else AsksAgain(children[i]) && target == found[i].bin
  }

  /** The last one is neither recovered from nor restarted. */
  ghost predicate Over(children: seq<Child>, ios: seq<Faults>, found: seq<Found>)
    requires |found| <= |children| == |ios|
  {
    found != [] && var i := |found| - 1; !Recovers(children[i], found[i], ios[i]) && !AsksAgain(children[i])
  }

  lemma ToldOn(children: seq<Child>, ios: seq<Faults>, ran: seq<Option<Binary>>, found: seq<Found>, first: Option<Binary>, target: Option<Binary>, at: Found)
    requires |ran| == |found| < |children| == |ios| && Told(children, ios, ran, found, first)
    requires Next(children, ios, ran, found, first, target)
    ensures Told(children, ios, ran + [target], found + [at], first)
  {
    forall i | 0 <= i < |ran|
      ensures if Recovers(children[i], (found + [at])[i], ios[i]) then (ran + [target])[i + 1] == found[i].prev
              else AsksAgain(children[i]) && (ran + [target])[i + 1] == found[i].bin
    {
      if i < |ran| - 1 { assert (ran + [target])[i + 1] == ran[i + 1]; }
    }
  }

  /** One child more: it is started on what is in place, and what it leaves decides. */
  method StartOne(m: Manager, children: seq<Child>, ios: seq<Faults>, ran0: seq<Option<Binary>>, ghost found0: seq<Found>, ghost first: Option<Binary>)
    returns (ran: seq<Option<Binary>>, again: bool, rolledBack: bool, ghost found: seq<Found>)
    requires m.Valid() && m.work.Idle? && |ran0| == |found0| < |children| == |ios|
    requires Told(children, ios, ran0, found0, first) && Next(children, ios, ran0, found0, first, m.bin)
    modifies m
    ensures old(m.run.steps) <= m.run.steps
    ensures m.Valid() && m.work.Idle? && |ran| == |found| == |ran0| + 1 && Told(children, ios, ran, found, first)
    ensures if again then Next(children, ios, ran, found, first, m.bin) else Over(children, ios, found)
    ensures again ==> rolledBack || AsksAgain(children[|ran0|])
    ensures Left(m.bin, m.prev) + (if rolledBack then 1 else 0) <= old(Left(m.bin, m.prev))
    ensures m.state.Some? && m.state.value.kind == Applied ==> !rolledBack && m.state == old(m.state)
    ensures rolledBack && children[|ran0|].Exited? ==> old(m.state).Some? && old(m.state).value.kind == Applied
  {
    var n := |ran0|;
    var target := RunOnce(m, children[n]);
    ghost var at := Found(m.bin, m.prev, m.state);
    ToldOn(children, ios, ran0, found0, first, target, at);
    ran, found := ran0 + [target], found0 + [at];
    again, rolledBack := After(m, children[n], ios[n]);
  }

  lemma AskedOne(children: seq<Child>, n: nat)
    requires n < |children|
    ensures Asked(children[..n + 1]) == Asked(children[..n]) + (if AsksAgain(children[n]) then 1 else 0)
  {
    assert children[..n + 1][..n] == children[..n];
  }

  /** The supervisor over the children it starts, one after the other, until one ends that it neither recovers from nor
      restarts. With nothing installed meanwhile it rolls back at most twice, at most once of that for an exit, and it starts
      one child per rollback or request and one more. */
  method Supervise(m: Manager, children: seq<Child>, ios: seq<Faults>)
    returns (ran: seq<Option<Binary>>, rollbacks: nat, forExits: nat, ghost found: seq<Found>)
    requires m.Valid() && m.work.Idle? && |children| == |ios|
    modifies m
    ensures old(m.run.steps) <= m.run.steps
    ensures m.Valid() && m.work.Idle? && |ran| == |found| <= |children|
    ensures Told(children, ios, ran, found, old(m.bin))
    ensures |ran| < |children| ==> Over(children, ios, found)
    ensures rollbacks + Left(m.bin, m.prev) <= old(Left(m.bin, m.prev)) <= 2
    ensures Rising(m.run) && Good(m.bin, m.srv) && Good(m.prev, m.srv)
    ensures forExits <= 1
    ensures |ran| <= 1 + rollbacks + Asked(children[..|ran|])
  {
    ran, rollbacks, forExits, found := [], 0, 0, [];
    var again := true;
    while again && |ran| < |children|
      invariant m.Valid() && m.work.Idle? && |ran| == |found| <= |children| && old(m.run.steps) <= m.run.steps
      invariant Told(children, ios, ran, found, old(m.bin))
      invariant if again then Next(children, ios, ran, found, old(m.bin), m.bin) else Over(children, ios, found)
      invariant rollbacks + Left(m.bin, m.prev) <= old(Left(m.bin, m.prev))
      invariant forExits <= 1
      invariant forExits == 1 ==> !(m.state.Some? && m.state.value.kind == Applied)
      invariant |ran| <= (if again then 0 else 1) + rollbacks + Asked(children[..|ran|])
      decreases |children| - |ran|
    {
      var n, rolledBack := |ran|, false;
      AskedOne(children, n);
      ran, again, rolledBack, found := StartOne(m, children, ios, ran, found, old(m.bin));
      if rolledBack {
        rollbacks := rollbacks + 1;
        forExits := if children[n].Exited? then forExits + 1 else forExits;
      }
    }
    RecordRises(m.run, m.srv);
  }
}
