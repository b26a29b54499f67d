/** Deletions that wait for a person (store/deletions.go, engine/reap.go): the approval rows of one pair in id order,
    and the machine of deletion runs, decisions, walks and deaths around them. Runs are serialized (app/runner.go). */
module Approvals {

  datatype State = Pending | Approved | Used | Rejected

  datatype Approval = Approval(scan: nat, files: nat, state: State) {
    predicate Open() { state == Pending || state == Approved }
    predicate Decides(scan: nat, files: nat) { this.scan == scan && files <= this.files }
    predicate Covers(scan: nat, files: nat) { state == Approved && Decides(scan, files) }
    predicate Refuses(scan: nat, files: nat) { state == Rejected && Decides(scan, files) }
  }

  type Rows = seq<Approval>

  /** Only the newest row may be open. */
  predicate OneOpen(rows: Rows) { forall i | 0 <= i < |rows| - 1 :: !rows[i].Open() }

  predicate LastOpen(rows: Rows) { rows != [] && rows[|rows| - 1].Open() }

  /** A request raised, or the open one brought up to date; one that still covers the numbers stands. */
  function Requested(rows: Rows, scan: nat, files: nat): Rows {
    if !LastOpen(rows) then rows + [Approval(scan, files, Pending)]
    else if rows[|rows| - 1].Covers(scan, files) then rows
    else rows[|rows| - 1 := Approval(scan, files, Pending)]
  }

  function Decided(rows: Rows, yes: bool): Rows {
    seq(|rows|, i requires 0 <= i < |rows| =>
      if rows[i].state == Pending then rows[i].(state := if yes then Approved else Rejected) else rows[i])
  }

  function Spent(rows: Rows, id: nat): Rows {
    if id < |rows| && rows[id].state == Approved then rows[id := rows[id].(state := Used)] else rows
  }

  // ---------------------------------------------------------------- the table

  class ApprovalTable {
    var rows: Rows

    ghost predicate Valid()
      reads this
    {
      OneOpen(rows)
    }

    constructor ()
      ensures Valid() && rows == []
    {
      rows := [];
    }

    /** The pair's undecided or approved request. */
    method OpenApproval() returns (id: int)
      requires Valid()
      ensures LastOpen(rows) ==> id == |rows| - 1
      ensures !LastOpen(rows) ==> id == -1
    {
      for i := 0 to |rows|
        invariant forall j | 0 <= j < i :: !rows[j].Open()
      {
        if rows[i].Open() {
          return i;
        }
      }
      id := -1;
    }

    method RequestDeleteApproval(scan: nat, files: nat) returns (id: nat)
      requires Valid()
      modifies this
      ensures Valid() && rows == Requested(old(rows), scan, files)
      ensures id == |rows| - 1 && |old(rows)| <= |rows| && rows[..id] == old(rows)[..id]
      ensures var n := |old(rows)|;
              if 0 < n && old(rows)[n - 1].state == Approved && old(rows)[n - 1].scan == scan && files <= old(rows)[n - 1].files then rows == old(rows)
              else if 0 < n && (old(rows)[n - 1].state == Approved || old(rows)[n - 1].state == Pending) then
                id == n - 1 && rows[id] == Approval(scan, files, Pending)
              else id == n && rows[id] == Approval(scan, files, Pending)
    {
      var open := OpenApproval();
      if 0 <= open {
        id := open;
        if !rows[id].Covers(scan, files) {
          rows := rows[id := Approval(scan, files, Pending)];
        }
      } else {
        id := |rows|;
        rows := rows + [Approval(scan, files, Pending)];
      }
    }

    /** The answer to the open request; an error when nothing is waiting. */
    method DecideDeletion(yes: bool) returns (ok: bool)
      requires Valid()
      modifies this
      ensures Valid() && rows == Decided(old(rows), yes)
      ensures ok <==> old(rows) != [] && old(rows)[|old(rows)| - 1].state == Pending
      ensures !ok ==> rows == old(rows)
      ensures ok ==>
                var n, was := |old(rows)| - 1, old(rows)[|old(rows)| - 1];
                |rows| == |old(rows)| && rows[..n] == old(rows)[..n]
                && rows[n] == Approval(was.scan, was.files, if yes then Approved else Rejected)
    {
      var open := OpenApproval();
      ok := 0 <= open && rows[open].state == Pending;
      if ok {
        rows := rows[open := rows[open].(state := if yes then Approved else Rejected)];
      }
      assert rows == Decided(old(rows), yes);
    }

    method UseApproval(id: nat)
      requires Valid()
      modifies this
      ensures Valid() && rows == Spent(old(rows), id)
      ensures |rows| == |old(rows)| && forall k | 0 <= k < |rows| && k != id :: rows[k] == old(rows)[k]
      ensures id < |rows| ==>
                rows[id] == Approval(old(rows)[id].scan, old(rows)[id].files, if old(rows)[id].state == Approved then Used else old(rows)[id].state)
    {
      if id < |rows| && rows[id].state == Approved {
        rows := rows[id := rows[id].(state := Used)];
      }
    }
  }

  // ---------------------------------------------------------------- the guards

  /** The settings of a pair; either limit is off at zero. */
  datatype Limits = Limits(guarded: bool, guard: int, percent: int)

  predicate Trips(l: Limits, files: nat, local: nat) {
    || (0 < l.guard && l.guard < files)
    || (0 < l.percent && 0 < local && l.percent * local < files * 100)
  }

  /** The percentage is one of the files held here; and more files never trip less. */
  lemma TripsExactly(l: Limits, files: nat, local: nat)
    ensures local == 0 ==> (Trips(l, files, local) <==> 0 < l.guard && l.guard < files)
    ensures 0 < local ==> (Trips(l, files, local) <==>
              (0 < l.guard && l.guard < files) || (0 < l.percent && l.percent as real / 100.0 < files as real / local as real))
    ensures forall more: nat | files <= more && Trips(l, files, local) :: Trips(l, more, local)
  {}

  // ---------------------------------------------------------------- the machine

  /** Why a run may remove anything. */
  datatype Clearance = Unasked | Unguarded | WithinLimits | ByApproval(id: nat)

  /** A deletion run, under the limits it started with. */
  datatype Reaping = Reaping(scan: nat, files: nat, local: nat, limits: Limits, clear: Clearance, removed: nat) {
    predicate Tripped() { limits.guarded && Trips(limits, files, local) }
  }

  datatype Progress = Idle | Busy(reaping: Reaping)

  datatype World = World(rows: Rows, walk: nat, run: Progress)

  datatype Step =
    | Walk                              // a completed walk
    | Count(files: nat, local: nat, limits: Limits)   // a deletion run starts and counts what vanished
    | Pass                              // the guards let it through
    | Hold                              // or they do not
    | Remove                            // one file
    | Finish
    | Stop                              // an error, a cancellation or a death
    | Decide(yes: bool)                 // a person

  predicate Enabled(w: World, st: Step) {
    match st
    case Walk => w.run.Idle?
    case Count(files, _, _) => w.run.Idle? && 0 < files
    case Pass => w.run.Busy? && w.run.reaping.clear.Unasked? && !w.run.reaping.Tripped()
    case Hold => w.run.Busy? && w.run.reaping.clear.Unasked? && w.run.reaping.Tripped()
    case Remove => w.run.Busy? && !w.run.reaping.clear.Unasked?
    case Finish => w.run.Busy? && !w.run.reaping.clear.Unasked?
    case Stop => w.run.Busy?
    case Decide(_) => true
  }

  /** A tripped guard: the newest row may let the run go ahead, may have refused it, or is asked. */
  function Held(w: World): World
    requires w.run.Busy?
  {
    var r := w.run.reaping;
    var n := |w.rows|;
    if 0 < n && w.rows[n - 1].Covers(r.scan, r.files) then w.(run := Busy(r.(clear := ByApproval(n - 1))))
    else if 0 < n && w.rows[n - 1].Refuses(r.scan, r.files) then w.(run := Idle)
    else w.(rows := Requested(w.rows, r.scan, r.files), run := Idle)
  }

  function Apply(w: World, st: Step): World
    requires Enabled(w, st)
  {
    match st
    case Walk => w.(walk := w.walk + 1)
    case Count(files, local, limits) => w.(run := Busy(Reaping(w.walk, files, local, limits, Unasked, 0)))
    case Pass => w.(run := Busy(w.run.reaping.(clear := if w.run.reaping.limits.guarded then WithinLimits else Unguarded)))
    case Hold => Held(w)
    case Remove => w.(run := Busy(w.run.reaping.(removed := w.run.reaping.removed + 1)))
    case Finish =>
      w.(run := Idle, rows := if w.run.reaping.clear.ByApproval? then Spent(w.rows, w.run.reaping.clear.id) else w.rows)
    case Stop => w.(run := Idle)
    case Decide(yes) => w.(rows := Decided(w.rows, yes))
  }

  /** What every step keeps: the open row is the newest, and a run in hand works on the current walk with a clearance
      that still stands. */
  ghost predicate Inv(w: World) {
    && OneOpen(w.rows)
    && (w.run.Busy? ==> w.run.reaping.scan == w.walk && Stands(w.rows, w.run.reaping))
  }

  ghost predicate Stands(rows: Rows, r: Reaping) {
    match r.clear
    case Unasked => r.removed == 0
    case Unguarded => !r.limits.guarded
    case WithinLimits => !Trips(r.limits, r.files, r.local)
    case ByApproval(id) => id < |rows| && rows[id].Covers(r.scan, r.files)
  }

  lemma StepKeeps(w: World, st: Step)
    requires Enabled(w, st) && Inv(w)
    ensures Inv(Apply(w, st))
  {}

  datatype Run = Run(states: seq<World>, steps: seq<Step>)

  ghost predicate IsRun(r: Run) {
    && |r.states| == |r.steps| + 1 && r.states[0].rows == [] && r.states[0].run.Idle?
    && forall i | 0 <= i < |r.steps| ::
         Enabled(r.states[i], r.steps[i]) && r.states[i + 1] == Apply(r.states[i], r.steps[i])
  }

  lemma {:induction false} RunKeeps(r: Run, n: nat)
    requires IsRun(r) && n < |r.states|
    ensures Inv(r.states[n])
  {
    if 0 < n {
      RunKeeps(r, n - 1);
      StepKeeps(r.states[n - 1], r.steps[n - 1]);
    }
  }

  /** A run that removes a file is of an unguarded pair, or within both limits it started under, or holds an approval for
      exactly the current walk and at least as many files as it counted. */
  lemma RemovalIsCleared(r: Run, i: nat)
    requires IsRun(r) && i < |r.steps| && r.steps[i].Remove?
    ensures r.states[i].run.Busy?
    ensures var w, g := r.states[i], r.states[i].run.reaping;
            && g.scan == w.walk
            && (!g.Tripped()
                || (g.clear.ByApproval? && g.clear.id < |w.rows|
                    && w.rows[g.clear.id].state == Approved && w.rows[g.clear.id].scan == w.walk && g.files <= w.rows[g.clear.id].files))
  {
    RunKeeps(r, i);
  }

  // ---------------------------------------------------------------- who said so

  /** A person answers a pending row. */
  ghost predicate Answers(r: Run, i: nat, id: nat, yes: bool)
    requires i < |r.steps| && i < |r.states|
  {
    r.steps[i] == Decide(yes) && id < |r.states[i].rows| && r.states[i].rows[id].state == Pending
  }

  /** An approved row was said yes to while it was pending for the same walk and as many files, and nothing was said to it since. */
  ghost predicate SaidYes(r: Run, n: nat, id: nat, scan: nat, files: nat)
    requires n <= |r.steps| && |r.states| == |r.steps| + 1
  {
    exists j: nat :: j < n && Answers(r, j, id, true) && r.states[j].rows[id] == Approval(scan, files, Pending)
                     && forall k: nat | j < k < n :: !Answers(r, k, id, true) && !Answers(r, k, id, false)
  }

  lemma {:induction false} ApprovedIsAnswered(r: Run, n: nat, id: nat)
    requires IsRun(r) && n < |r.states| && id < |r.states[n].rows| && r.states[n].rows[id].state == Approved
    ensures SaidYes(r, n, id, r.states[n].rows[id].scan, r.states[n].rows[id].files)
  {
    if 0 < n {
      var m := n - 1;
      RunKeeps(r, m);
      var was := r.states[m].rows;
      ApprovedBefore(r.states[m], r.steps[m], id);
      var row := r.states[n].rows[id];
      if was[id].state == Approved {
        ApprovedIsAnswered(r, m, id);
        var j: nat :| j < m && Answers(r, j, id, true) && was[id] == row && r.states[j].rows[id] == Approval(row.scan, row.files, Pending)
                      && forall k: nat | j < k < m :: !Answers(r, k, id, true) && !Answers(r, k, id, false);
        assert forall k: nat | j < k < n :: !Answers(r, k, id, true) && !Answers(r, k, id, false);
      } else {
        assert Answers(r, m, id, true) && was[id] == Approval(row.scan, row.files, Pending);
      }
    }
  }

  /** A row is approved because it was, or because a person just said yes. */
  lemma ApprovedBefore(w: World, st: Step, id: nat)
    requires Enabled(w, st) && OneOpen(w.rows) && id < |Apply(w, st).rows| && Apply(w, st).rows[id].state == Approved
    ensures id < |w.rows|
    ensures var row := Apply(w, st).rows[id];
            w.rows[id] == row || (st == Decide(true) && w.rows[id] == Approval(row.scan, row.files, Pending))
  {}

  /** A removal that rests on an approval rests on a yes to that very row while it was pending for this walk and at least as
      many files as the run counted, and on no no since. */
  lemma RemovalWasApproved(r: Run, i: nat)
    requires IsRun(r) && i < |r.steps| && r.steps[i].Remove? && r.states[i].run.Busy? && r.states[i].run.reaping.clear.ByApproval?
    ensures var w, g := r.states[i], r.states[i].run.reaping;
            && g.clear.id < |w.rows| && g.files <= w.rows[g.clear.id].files
            && SaidYes(r, i, g.clear.id, w.walk, w.rows[g.clear.id].files)
  {
    RunKeeps(r, i);
    ApprovedIsAnswered(r, i, r.states[i].run.reaping.clear.id);
  }

  /** At most one request is open, and it is the newest; a row whose walk or count changes is pending again. */
  lemma OpenRequests(r: Run, i: nat)
    requires IsRun(r) && i < |r.steps|
    ensures var rows, rows' := r.states[i].rows, r.states[i + 1].rows;
            && OneOpen(rows) && OneOpen(rows') && |rows| <= |rows'|
            && forall k | 0 <= k < |rows| && (rows'[k].scan != rows[k].scan || rows'[k].files != rows[k].files) :: rows'[k].state == Pending
  {
    RunKeeps(r, i);
    RunKeeps(r, i + 1);
  }

  lemma {:induction false} StaysUsed(r: Run, m: nat, n: nat, id: nat)
    requires IsRun(r) && m <= n < |r.states| && id < |r.states[m].rows| && r.states[m].rows[id].state == Used
    ensures id < |r.states[n].rows| && r.states[n].rows[id] == r.states[m].rows[id]
    decreases n
  {
    if m < n {
      StaysUsed(r, m, n - 1, id);
      assert r.states[n] == Apply(r.states[n - 1], r.steps[n - 1]);
    }
  }

  ghost predicate SpendsAt(r: Run, i: nat, id: nat)
    requires i < |r.steps| && i < |r.states|
  {
    r.steps[i].Finish? && r.states[i].run.Busy? && r.states[i].run.reaping.clear == ByApproval(id)
  }

  /** Each approval is spent by at most one finished run. */
  lemma SpentOnce(r: Run, i: nat, j: nat, id: nat)
    requires IsRun(r) && i < |r.steps| && j < |r.steps| && SpendsAt(r, i, id) && SpendsAt(r, j, id)
    ensures i == j
  {
    if i < j {
      NotSpentTwice(r, i, j, id);
    } else if j < i {
      NotSpentTwice(r, j, i, id);
    }
  }

  lemma NotSpentTwice(r: Run, i: nat, j: nat, id: nat)
    requires IsRun(r) && i < j < |r.steps| && SpendsAt(r, i, id)
    ensures !SpendsAt(r, j, id)
  {
    RunKeeps(r, i);
    assert r.states[i + 1] == Apply(r.states[i], r.steps[i]);
    StaysUsed(r, i + 1, j, id);
    RunKeeps(r, j);
  }

  // ---------------------------------------------------------------- making a run

  function Last(r: Run): World
    requires r.states != []
  {
    r.states[|r.states| - 1]
  }

  /** A history continues another. */
  ghost predicate Goes(r: Run, r': Run) { r.steps <= r'.steps && r.states <= r'.states }

  lemma Extend(r: Run, st: Step) returns (r': Run)
    requires IsRun(r) && Enabled(Last(r), st)
    ensures IsRun(r') && Goes(r, r') && r'.steps == r.steps + [st] && r'.states == r.states + [Apply(Last(r), st)]
  {
    r' := Run(r.states + [Apply(Last(r), st)], r.steps + [st]);
  }

  /** From step n on removals are those of runs under these limits, and none goes beyond the number of files its run
      counted. */
  ghost predicate Bounded(r: Run, n: nat, l: Limits) {
    forall i: nat | n <= i < |r.steps| && i < |r.states| && r.steps[i].Remove? ::
      r.states[i].run.Busy? && r.states[i].run.reaping.limits == l && r.states[i].run.reaping.removed < r.states[i].run.reaping.files
  }

  /** As many removals as there were files to visit, which are no more than were counted. */
  lemma {:induction false} ExtendRemovals(r: Run, n: nat, from: nat) returns (r': Run)
    requires IsRun(r) && Last(r).run.Busy? && Bounded(r, from, Last(r).run.reaping.limits) && !Last(r).run.reaping.clear.Unasked?
    requires Last(r).run.reaping.removed + n <= Last(r).run.reaping.files
    ensures IsRun(r') && Goes(r, r') && Bounded(r', from, Last(r).run.reaping.limits)
    ensures Last(r') == Last(r).(run := Busy(Last(r).run.reaping.(removed := Last(r).run.reaping.removed + n)))
    decreases n
  {
    if n == 0 {
      r' := r;
    } else {
      r' := Extend(r, Remove);
      r' := ExtendRemovals(r', n - 1, from);
    }
  }
}
