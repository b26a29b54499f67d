/** Self-update: the binary directory and its state file as a machine over their persisted effects
    (update/install.go, app/update.go). A release is known by the server's timestamp. One install or rollback is
    under way at a time, and the process may die between any two of its renames. */
module Update {
  import opened Base

  /** The update server: the bytes of each release, and which binaries run here and say their version. */
  datatype Server = Server(bytes: int -> Bytes, runs: Bytes -> bool)

  /** A downloaded binary of one release; promised says whether the server had told its size. */
  datatype Binary = Binary(time: int, bytes: Bytes, promised: bool)

  const ELF: Bytes := [0x7f, 0x45, 0x4c, 0x46]

  /** The checks that need no size: the magic, and that it runs. */
  predicate Plausible(bytes: Bytes, srv: Server) { ELF <= bytes && srv.runs(bytes) }

  /** Verify and the smoke test; a size that is not positive was not told. */
  predicate Accepts(bytes: Bytes, want: int, srv: Server) { (want <= 0 || |bytes| == want) && Plausible(bytes, srv) }

  /** Every download that is accepted is the whole release if and only if the server told the size or no shorter part of
      the release passes for a binary. */
  lemma AcceptsOnlyWhole(c: Bytes, want: int, srv: Server)
    requires want <= 0 || want == |c|
    ensures (forall n | 0 <= n <= |c| && Accepts(c[..n], want, srv) :: c[..n] == c) <==>
              0 < want || forall n | 0 <= n < |c| :: !Plausible(c[..n], srv)
  {
    if want <= 0 && exists n | 0 <= n < |c| :: Plausible(c[..n], srv) {
      var n :| 0 <= n < |c| && Plausible(c[..n], srv);
      assert Accepts(c[..n], want, srv) && |c[..n]| < |c|;
    }
    forall n | 0 <= n <= |c| && n == |c| ensures c[..n] == c {}
  }

  datatype Kind = Applied | Confirmed | RolledBack

  /** The state file: how the last recorded install stands, its release, and when it was written. */
  datatype Record = Record(kind: Kind, time: int, at: int)

  /** How far an install or a rollback got. */
  datatype Work =
    | Idle
    | Fetching(time: int, force: bool, want: int)
    | Verified(time: int, force: bool)
    | MovedAside(time: int, force: bool)
    | Placed(time: int, force: bool)
    | Undone                              // files moved back, not yet written down

  datatype Dir = Dir(bin: Option<Binary>, prev: Option<Binary>, incoming: Option<Binary>, state: Option<Record>, work: Work)

  datatype Step =
    | Begin(time: int, force: bool, build: int, want: int)
    | Download(n: nat)     // as many bytes as arrived
    | Verify
    | KeepCurrent
    | Install
    | Save(at: int)
    | Undo
    | SaveUndo
    | Confirm(at: int)     // by the process that was told of the install written then
    | Stop(kept: bool)     // an error or a death

  // ---------------------------------------------------------------- what a check admits

  /** The timestamp a release has to beat. */
  function Baseline(state: Option<Record>, build: int): int {
    if state.None? || state.value.kind == RolledBack || state.value.time <= build then build else state.value.time
  }

  /** Rolled back, and nothing newer has come since. */
  predicate Blocked(state: Option<Record>, time: int) {
    state.Some? && state.value.kind == RolledBack && time <= state.value.time
  }

  /** An unattended install goes ahead. */
  predicate Admits(state: Option<Record>, build: int, time: int) {
    Baseline(state, build) < time && !Blocked(state, time)
  }

  /** Whatever became of the last install, a release is admitted exactly when it is newer than the running build and
      newer than the release on record. */
  lemma AdmitsExactly(state: Option<Record>, build: int, time: int)
    ensures Admits(state, build, time) <==> build < time && (state.Some? ==> state.value.time < time)
  {}

  // ---------------------------------------------------------------- the machine

  predicate Applying(w: Work) { w.Fetching? || w.Verified? || w.MovedAside? || w.Placed? }

  predicate Enabled(d: Dir, st: Step, srv: Server) {
    match st
    case Begin(time, force, build, want) =>
      d.work.Idle? && (force || Admits(d.state, build, time)) && (want <= 0 || want == |srv.bytes(time)|)
    case Download(n) => d.work.Fetching? && d.incoming.None? && n <= |srv.bytes(d.work.time)|
    case Verify => d.work.Fetching? && d.incoming.Some? && Accepts(d.incoming.value.bytes, d.work.want, srv)
    case KeepCurrent => d.work.Verified?
    case Install => d.work.MovedAside? && d.incoming.Some?
    case Save(_) => d.work.Placed?
    case Undo => d.work.Idle? && (d.prev.Some? || d.bin.Some?)
    case SaveUndo => d.work.Undone?
    case Confirm(at) => d.state.Some? && d.state.value.kind == Applied && d.state.value.at == at
    case Stop(_) => !d.work.Idle?
  }

  /** A rollback keeps what is on record of the install. */
  function Undoing(state: Option<Record>): Record {
    if state.Some? then state.value.(kind := RolledBack) else Record(RolledBack, 0, 0)
  }

  function Apply(d: Dir, st: Step, srv: Server): Dir
    requires Enabled(d, st, srv)
  {
    match st
    case Begin(time, force, _, want) => d.(incoming := None, work := Fetching(time, force, want))
    case Download(n) => d.(incoming := Some(Binary(d.work.time, srv.bytes(d.work.time)[..n], 0 < d.work.want)))
    case Verify => d.(work := Work.Verified(d.work.time, d.work.force))
    case KeepCurrent =>
      d.(prev := d.bin, bin := None, work := MovedAside(d.work.time, d.work.force))
    case Install => d.(bin := d.incoming, incoming := None, work := Placed(d.work.time, d.work.force))
    case Save(at) => d.(state := Some(Record(Applied, d.work.time, at)), work := Idle)
    case Undo => d.(bin := d.prev, prev := None, work := Undone)
    case SaveUndo => d.(state := Some(Undoing(d.state)), work := Idle)
    case Confirm(_) => d.(state := Some(d.state.value.(kind := Confirmed)))
    case Stop(kept) => d.(incoming := if kept then d.incoming else None, work := Idle)
  }

  datatype Run = Run(states: seq<Dir>, steps: seq<Step>)

  /** A fresh directory: nothing installed, the image's binary runs. */
  ghost predicate IsRun(r: Run, srv: Server) {
    && |r.states| == |r.steps| + 1 && r.states[0] == Dir(None, None, None, None, Idle)
    && forall i | 0 <= i < |r.steps| :: Enabled(r.states[i], r.steps[i], srv) && r.states[i + 1] == Apply(r.states[i], r.steps[i], srv)
  }

  // ---------------------------------------------------------------- what is started

  /** A verified part of its release, and all of it where the server had told the size. */
  ghost predicate Good(b: Option<Binary>, srv: Server) {
    b.Some? ==>
      && b.value.bytes <= srv.bytes(b.value.time) && Plausible(b.value.bytes, srv)
      && (b.value.promised ==> b.value.bytes == srv.bytes(b.value.time))
  }

  ghost predicate Inv(d: Dir, srv: Server) {
    && Good(d.bin, srv) && Good(d.prev, srv)
    && (d.work.Fetching? ==> d.work.want <= 0 || d.work.want == |srv.bytes(d.work.time)|)
    && (d.work.Fetching? && d.incoming.Some? ==>
          d.incoming.value.bytes <= srv.bytes(d.work.time) && d.incoming.value.time == d.work.time && d.incoming.value.promised == (0 < d.work.want))
    && (d.work.Verified? || d.work.MovedAside? ==> d.incoming.Some? && Good(d.incoming, srv) && d.incoming.value.time == d.work.time)
    && (Applying(d.work) && !d.work.force && d.state.Some? ==> d.state.value.time < d.work.time)
  }

  lemma StepKeeps(d: Dir, st: Step, srv: Server)
    requires Enabled(d, st, srv) && Inv(d, srv)
    ensures Inv(Apply(d, st, srv), srv)
  {
    if st.Begin? { AdmitsExactly(d.state, st.build, st.time); }
  }

  lemma {:induction false} RunKeeps(r: Run, srv: Server, n: nat)
    requires IsRun(r, srv) && n < |r.states|
    ensures Inv(r.states[n], srv)
  {
    if 0 < n {
      RunKeeps(r, srv, n - 1);
      StepKeeps(r.states[n - 1], r.steps[n - 1], srv);
    }
  }

  /** After a stop at any point, what a supervisor would start, and what it would go back to, is a verified binary - the
      whole release wherever the server told its size - or the image's. */
  lemma StartTargetIsWhole(r: Run, srv: Server, n: nat)
    requires IsRun(r, srv) && n < |r.states|
    ensures Good(r.states[n].bin, srv) && Good(r.states[n].prev, srv)
  {
    RunKeeps(r, srv, n);
  }

  // ---------------------------------------------------------------- no reinstall loop

  ghost predicate Records(r: Run, i: nat) { i < |r.steps| && i < |r.states| && r.steps[i].Save? && r.states[i].work.Placed? }

  /** The release an install records. */
  ghost function Time(r: Run, i: nat): int
    requires Records(r, i)
  {
    r.states[i].work.time
  }

  ghost predicate Forced(r: Run, i: nat)
    requires Records(r, i)
  {
    r.states[i].work.force
  }

  /** A forced install of a release older than the one on record. */
  ghost predicate Downgrades(r: Run, i: nat)
    requires Records(r, i)
  {
    Forced(r, i) && r.states[i].state.Some? && Time(r, i) < r.states[i].state.value.time
  }

  /** From some recorded install on, with no forced downgrade since, the record never falls below it. */
  lemma {:induction false} RecordHolds(r: Run, srv: Server, i: nat, n: nat)
    requires IsRun(r, srv) && Records(r, i) && i < n < |r.states|
    requires forall k | i < k < n && Records(r, k) :: !Downgrades(r, k)
    ensures r.states[n].state.Some? && Time(r, i) <= r.states[n].state.value.time
    decreases n
  {
    var st := r.steps[n - 1];
    assert r.states[n] == Apply(r.states[n - 1], st, srv);
    if i + 1 < n {
      RecordHolds(r, srv, i, n - 1);
      RunKeeps(r, srv, n - 1);
      if st.Save? { assert Records(r, n - 1); }
    }
  }

  /** Over every run without a forced downgrade the releases recorded by unforced installs strictly increase. */
  lemma UnforcedInstallsRise(r: Run, srv: Server, i: nat, j: nat)
    requires IsRun(r, srv) && Records(r, i) && Records(r, j) && i < j && !Forced(r, j)
    requires forall k | i < k < j && Records(r, k) :: !Downgrades(r, k)
    ensures Time(r, i) < Time(r, j)
  {
    RecordHolds(r, srv, i, j);
    RunKeeps(r, srv, j);
  }

  /** A release that was installed and recorded - rolled back or not - is let in again unattended exactly when the record
      has since fallen below it, which takes a forced downgrade. */
  lemma ReinstalledExactly(r: Run, srv: Server, i: nat, n: nat, build: int)
    requires IsRun(r, srv) && Records(r, i) && i < n < |r.states| && build < Time(r, i)
    ensures r.states[n].state.Some?
    ensures Admits(r.states[n].state, build, Time(r, i)) <==> r.states[n].state.value.time < Time(r, i)
    ensures Admits(r.states[n].state, build, Time(r, i)) ==> exists k :: i < k < n && Records(r, k) && Downgrades(r, k)
  {
    StateStays(r, srv, i + 1, n);
    AdmitsExactly(r.states[n].state, build, Time(r, i));
    if forall k | i < k < n && Records(r, k) :: !Downgrades(r, k) {
      RecordHolds(r, srv, i, n);
    }
  }

  lemma {:induction false} StateStays(r: Run, srv: Server, m: nat, n: nat)
    requires IsRun(r, srv) && m <= n < |r.states| && r.states[m].state.Some?
    ensures r.states[n].state.Some?
    decreases n
  {
    if m < n {
      StateStays(r, srv, m, n - 1);
      assert r.states[n] == Apply(r.states[n - 1], r.steps[n - 1], srv);
    }
  }

  // ---------------------------------------------------------------- confirmation

  /** The install on record while it is unproven: the last one that was recorded. */
  lemma {:induction false} AppliedIsLast(r: Run, srv: Server, n: nat) returns (i: nat)
    requires IsRun(r, srv) && n < |r.states| && r.states[n].state.Some? && r.states[n].state.value.kind == Applied
    ensures i < n && Records(r, i) && r.steps[i].at == r.states[n].state.value.at
    ensures forall k: nat | i < k < n :: !Records(r, k)
  {
    var st := r.steps[n - 1];
    assert r.states[n] == Apply(r.states[n - 1], st, srv);
    if st.Save? {
      i := n - 1;
    } else {
      i := AppliedIsLast(r, srv, n - 1);
    }
  }

  /** A confirmation signs off on the install it was told of and on no other: that one was recorded last. */
  lemma ConfirmsItsOwn(r: Run, srv: Server, j: nat) returns (i: nat)
    requires IsRun(r, srv) && j < |r.steps| && r.steps[j].Confirm?
    ensures i < j && Records(r, i) && r.steps[i].at == r.steps[j].at && forall k: nat | i < k < j :: !Records(r, k)
  {
    i := AppliedIsLast(r, srv, j);
  }

  // ---------------------------------------------------------------- where it does not hold

  function Last(r: Run): Dir
    requires r.states != []
  {
    r.states[|r.states| - 1]
  }

  lemma Extend(r: Run, srv: Server, st: Step) returns (r': Run)
    requires IsRun(r, srv) && Enabled(Last(r), st, srv)
    ensures IsRun(r', srv) && r'.steps == r.steps + [st] && r'.states == r.states + [Apply(Last(r), st, srv)]
  {
    r' := Run(r.states + [Apply(Last(r), st, srv)], r.steps + [st]);
  }

  /** Everything of an install but writing it down. */
  lemma PutInPlace(r: Run, srv: Server, time: int, force: bool, build: int) returns (r': Run)
    requires IsRun(r, srv) && Last(r).work.Idle? && (force || Admits(Last(r).state, build, time)) && Plausible(srv.bytes(time), srv)
    ensures IsRun(r', srv) && r'.steps == r.steps + [Begin(time, force, build, |srv.bytes(time)|), Download(|srv.bytes(time)|), Verify, KeepCurrent, Install]
    ensures r.states < r'.states
    ensures Last(r') == Dir(Some(Binary(time, srv.bytes(time), true)), Last(r).bin, None, Last(r).state, Placed(time, force))
  {
    r' := Extend(r, srv, Begin(time, force, build, |srv.bytes(time)|));
    r' := Extend(r', srv, Download(|srv.bytes(time)|));
    assert srv.bytes(time)[..|srv.bytes(time)|] == srv.bytes(time);
    r' := Extend(r', srv, Verify);
    r' := Extend(r', srv, KeepCurrent);
    r' := Extend(r', srv, Install);
  }

  /** Two releases, the newer one rolled back, the older one forced in: then the newer one is let in again unattended. */
  lemma DowngradeReopens(srv: Server, build: int, older: int, newer: int) returns (r: Run, i: nat)
    requires build < older < newer && Plausible(srv.bytes(older), srv) && Plausible(srv.bytes(newer), srv)
    ensures IsRun(r, srv) && Last(r).work.Idle? && Admits(Last(r).state, build, newer)
    ensures Last(r).state.Some? && Last(r).state.value.kind == Applied && Last(r).state.value.time == older
    ensures Records(r, i) && Time(r, i) == newer && i + 1 < |r.steps| && r.steps[i + 1].Undo?
  {
    r := Run([Dir(None, None, None, None, Idle)], []);
    r := PutInPlace(r, srv, newer, false, build);
    i := |r.steps|;
    r := Extend(r, srv, Save(0));
    r := Extend(r, srv, Undo);
    r := Extend(r, srv, SaveUndo);
    r := PutInPlace(r, srv, older, true, build);
    r := Extend(r, srv, Save(0));
    AdmitsExactly(Last(r).state, build, newer);
  }

  /** A process that dies between the rename and the state file leaves a binary nobody recorded: rolled back by the
      supervisor, it is let in again unattended, with nothing ever forced. */
  lemma UnrecordedInstallReturns(srv: Server, build: int, first: int, second: int) returns (r: Run)
    requires build < first < second && Plausible(srv.bytes(first), srv) && Plausible(srv.bytes(second), srv)
    ensures IsRun(r, srv) && Last(r).work.Idle? && Last(r).state.Some? && Last(r).state.value.kind == RolledBack && Last(r).state.value.time == first && Admits(Last(r).state, build, second)
    ensures r.steps[|r.steps| - 2] == Undo && r.states[|r.steps| - 2].bin == Some(Binary(second, srv.bytes(second), true))
  {
    r := Run([Dir(None, None, None, None, Idle)], []);
    r := PutInPlace(r, srv, first, false, build);
    r := Extend(r, srv, Save(0));
    AdmitsExactly(Last(r).state, build, second);
    r := PutInPlace(r, srv, second, false, build);
    r := Extend(r, srv, Stop(true));
    r := Extend(r, srv, Undo);
    r := Extend(r, srv, SaveUndo);
    AdmitsExactly(Last(r).state, build, second);
  }
}
