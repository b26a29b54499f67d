/** The lock gate in front of a jcc pair's database (engine/jcc.go), interleaved with jClipCorn on both machines.
    A jClipCorn holds its side's lock from start to clean shutdown and writes only in between; one that crashed
    never lets go. The instant of a state is its place in the run. */
module Gate {
  import opened Base
  import opened Jobs
  import opened Machine
  import opened Tear

  /** One machine's database and whether the lock beside it exists. */
  datatype Side = Side(db: Option<FileOnDisk>, lock: bool)

  /** How far an attempt got. */
  datatype Stage = Looked | AskedThere | Cleared | Copying | Copied | AskedAgain | ClearedAgain | Stamped | BackedUp

  /** The instants at which an attempt probed a lock or began and ended the copy. */
  datatype Instants = Instants(there1: nat, here1: nat, begun: nat, ended: nat, there2: nat, here2: nat)

  /** An attempt at replacing the database; held is what the pair of probes under way has found so far. */
  datatype Passage = Passage(force: bool, want: Version, stage: Stage, held: bool, at: Instants)

  /** The history of the last copy: its pieces and the publisher's writes in between, the contents he had meanwhile and
      since when. It decides nothing. */
  datatype Log = Log(events: seq<Event>, contents: seq<Bytes>, since: seq<nat>)

  datatype World = World(now: nat, there: Side, here: Side, incoming: Option<FileOnDisk>, gate: Option<Passage>, log: Log)

  datatype Step =
    // the gate
    | Look(force: bool, tolerance: nat)
    | ProbeThere
    | ProbeHere
    | BeginCopy
    | CopyPiece(n: nat)
    | EndCopy
    | ProbeThereAgain
    | ProbeHereAgain
    | Stamp
    | BackUp
    | Replace
    | GiveUp(kept: bool)   // an error, which discards what arrived; or a death, which leaves it lying
    // jClipCorn
    | OpenThere | CloseThere | WriteThere(file: Option<FileOnDisk>)
    | OpenHere | CloseHere | WriteHere(file: Option<FileOnDisk>)

  function VersionOf(f: FileOnDisk): Version { Version(|f.bytes|, f.mtime) }

  predicate At(w: World, stage: Stage) { w.gate.Some? && w.gate.value.stage == stage }

  predicate Enabled(w: World, st: Step) {
    match st
    case Look(_, tolerance) =>
      && w.gate.None? && w.there.db.Some?
      && !(w.here.db.Some? && Matches(w.here.db.value, VersionOf(w.there.db.value), tolerance))
    case ProbeThere => At(w, Looked)
    case ProbeHere => At(w, AskedThere)
    case BeginCopy => At(w, Cleared)
    case CopyPiece(n) =>
      At(w, Copying) && w.incoming.Some? && w.there.db.Some? && |w.incoming.value.bytes| + n <= |w.there.db.value.bytes|
    case EndCopy =>
      At(w, Copying) && w.incoming.Some? && w.there.db.Some? && |w.there.db.value.bytes| <= |w.incoming.value.bytes|
    case ProbeThereAgain => At(w, Copied)
    case ProbeHereAgain => At(w, AskedAgain)
    case Stamp => At(w, ClearedAgain) && w.incoming.Some?
    case BackUp => At(w, Stamped)
    case Replace => At(w, BackedUp) && w.incoming.Some?
    case GiveUp(_) => w.gate.Some?
    case OpenThere => !w.there.lock
    case CloseThere => w.there.lock
    case WriteThere(_) => w.there.lock
    case OpenHere => !w.here.lock
    case CloseHere => w.here.lock
    case WriteHere(_) => w.here.lock
  }

  /** Clears the second of two probes, unless a lock was found and nobody said to override it. */
  function Verdict(a: Passage, lock: bool, next: Stage): Option<Passage> {
    if (a.held || lock) && !a.force then None else Some(a.(stage := next, held := false))
  }

  function NextGate(w: World, st: Step): Option<Passage>
    requires Enabled(w, st)
  {
    match st
    case Look(force, _) =>
      Some(Passage(force, VersionOf(w.there.db.value), Looked, false, Instants(0, 0, 0, 0, 0, 0)))
    case ProbeThere => Some(AskThere(w.gate.value, w.there.lock, w.now))
    case ProbeHere => Verdict(w.gate.value.(at := w.gate.value.at.(here1 := w.now)), w.here.lock, Cleared)
    case BeginCopy => Some(w.gate.value.(stage := Copying, at := w.gate.value.at.(begun := w.now)))
    case EndCopy => if FullSize(w) then Some(w.gate.value.(stage := Copied, at := w.gate.value.at.(ended := w.now))) else None
    case ProbeThereAgain => Some(AskAgain(w.gate.value, w.there.lock, w.now))
    case ProbeHereAgain => Verdict(w.gate.value.(at := w.gate.value.at.(here2 := w.now)), w.here.lock, ClearedAgain)
    case Stamp => Some(w.gate.value.(stage := Stamped))
    case BackUp => Some(w.gate.value.(stage := BackedUp))
    case Replace => None
    case GiveUp(_) => None
    case _ => w.gate
  }

  predicate FullSize(w: World) {
    w.gate.Some? && w.incoming.Some? && |w.incoming.value.bytes| == w.gate.value.want.size
  }

  /** What arrived, beside the database; an attempt that ends early discards it. */
  function NextIncoming(w: World, st: Step): Option<FileOnDisk>
    requires Enabled(w, st)
  {
    match st
    case BeginCopy => Some(FileOnDisk([], 0))
    case CopyPiece(n) => Some(w.incoming.value.(bytes := Longer(w.incoming.value.bytes, w.there.db.value.bytes, n)))
    case EndCopy => if FullSize(w) then w.incoming else None
    case ProbeHereAgain => if NextGate(w, st).None? then None else w.incoming
    case Stamp => Some(w.incoming.value.(mtime := w.gate.value.want.mtime))
    case Replace => None
    case GiveUp(kept) => if kept then w.incoming else None
    case _ => w.incoming
  }

  function Longer(got: Bytes, all: Bytes, n: nat): Bytes
    requires |got| + n <= |all|
  {
    got + all[|got|..|got| + n]
  }

  function NextThere(w: World, st: Step): Side {
    match st
    case OpenThere => w.there.(lock := true)
    case CloseThere => w.there.(lock := false)
    case WriteThere(file) => w.there.(db := file)
    case _ => w.there
  }

  function NextHere(w: World, st: Step): Side {
    match st
    case Replace => w.here.(db := w.incoming)
    case OpenHere => w.here.(lock := true)
    case CloseHere => w.here.(lock := false)
    case WriteHere(file) => w.here.(db := file)
    case _ => w.here
  }

  /** A database that is not there reads as empty. */
  function BytesOf(db: Option<FileOnDisk>): Bytes { if db.Some? then db.value.bytes else [] }

  function NextLog(w: World, st: Step): Log {
    match st
    case BeginCopy => Log([], [BytesOf(w.there.db)], [w.now])
    case CopyPiece(n) => w.log.(events := w.log.events + [Piece(n)])
    case WriteThere(file) =>
      if At(w, Copying) then Log(w.log.events + [Write], w.log.contents + [BytesOf(file)], w.log.since + [w.now + 1]) else w.log
    case _ => w.log
  }

  function Apply(w: World, st: Step): World
    requires Enabled(w, st)
  {
    World(w.now + 1, NextThere(w, st), NextHere(w, st), NextIncoming(w, st), NextGate(w, st), NextLog(w, st))
  }

  function AskThere(a: Passage, lock: bool, now: nat): Passage {
    a.(stage := AskedThere, held := lock, at := a.at.(there1 := now))
  }

  function AskAgain(a: Passage, lock: bool, now: nat): Passage {
    a.(stage := AskedAgain, held := lock, at := a.at.(there2 := now))
  }

  // ---------------------------------------------------------------- runs

  datatype Run = Run(states: seq<World>, steps: seq<Step>)

  /** Any interleaving that starts between attempts. */
  ghost predicate IsRun(r: Run) {
    && |r.states| == |r.steps| + 1 && r.states[0].now == 0 && r.states[0].gate.None?
    && forall i | 0 <= i < |r.steps| :: Enabled(r.states[i], r.steps[i]) && r.states[i + 1] == Apply(r.states[i], r.steps[i])
  }

  lemma {:induction false} InstantIsIndex(r: Run, n: nat)
    requires IsRun(r) && n <= |r.steps|
    ensures r.states[n].now == n
  {
    if 0 < n { InstantIsIndex(r, n - 1); }
  }

  /** The publisher's lock was free at every instant of [a, b). */
  ghost predicate FreeThere(r: Run, a: nat, b: nat)
    requires b <= |r.states|
  {
    forall t: nat | a <= t < b :: !r.states[t].there.lock
  }

  lemma {:induction false} UnheldUnchanged(r: Run, a: nat, b: nat)
    requires IsRun(r) && a <= b < |r.states| && FreeThere(r, a, b)
    ensures r.states[b].there.db == r.states[a].there.db
    decreases b - a
  {
    if a < b { UnheldUnchanged(r, a, b - 1); }
  }

  function Rank(stage: Stage): nat {
    match stage
    case Looked => 0
    case AskedThere => 1
    case Cleared => 2
    case Copying => 3
    case Copied => 4
    case AskedAgain => 5
    case ClearedAgain => 6
    case Stamped => 7
    case BackedUp => 8
  }

  /** The instants so far follow each other, all before n. */
  predicate InOrder(a: Passage, n: nat) {
    var k, at := Rank(a.stage), a.at;
    && (1 <= k ==> at.there1 < n)
    && (2 <= k ==> at.there1 < at.here1 < n)
    && (3 <= k ==> at.here1 < at.begun < n)
    && (4 <= k ==> at.begun < at.ended < n)
    && (5 <= k ==> at.ended < at.there2 < n)
    && (6 <= k ==> at.there2 < at.here2 < n)
  }

  /** What the two pairs of probes saw. */
  ghost predicate Probed(r: Run, a: Passage, n: nat)
    requires n < |r.states| && InOrder(a, n)
  {
    FirstPair(r, a, n) && SecondPair(r, a, n)
  }

  ghost predicate FirstPair(r: Run, a: Passage, n: nat)
    requires n < |r.states| && InOrder(a, n)
  {
    && (a.stage == AskedThere ==> a.held == r.states[a.at.there1].there.lock)
    && (2 <= Rank(a.stage) && !a.force ==> ClearAt(r, a.at.there1, a.at.here1))
  }

  ghost predicate SecondPair(r: Run, a: Passage, n: nat)
    requires n < |r.states| && InOrder(a, n)
  {
    && (a.stage == AskedAgain ==> a.held == r.states[a.at.there2].there.lock)
    && (6 <= Rank(a.stage) && !a.force ==> ClearAt(r, a.at.there2, a.at.here2))
  }

  /** Neither lock was there when it was asked for. */
  ghost predicate ClearAt(r: Run, there: nat, here: nat)
    requires there < |r.states| && here < |r.states|
  {
    !r.states[there].there.lock && !r.states[here].here.lock
  }

  lemma OrderStep(w: World, st: Step, n: nat)
    requires Enabled(w, st) && w.now == n && (w.gate.Some? ==> InOrder(w.gate.value, n))
    ensures NextGate(w, st).Some? ==> InOrder(NextGate(w, st).value, n + 1)
  {}

  lemma {:induction false} OrderIs(r: Run, n: nat)
    requires IsRun(r) && n < |r.states|
    ensures r.states[n].gate.Some? ==> InOrder(r.states[n].gate.value, n)
  {
    if 0 < n {
      OrderIs(r, n - 1);
      InstantIsIndex(r, n - 1);
      OrderStep(r.states[n - 1], r.steps[n - 1], n - 1);
    }
  }

  /** How one step moves an attempt through its first pair of probes: asking there, asking here, or leaving both behind. */
  lemma FirstProbing(w: World, st: Step, a: Passage, a': Passage)
    requires Enabled(w, st) && w.gate == Some(a) && NextGate(w, st) == Some(a')
    ensures a'.stage == AskedThere ==>
              if st.ProbeThere? then a'.held == w.there.lock && a'.at.there1 == w.now
              else a.stage == AskedThere && a'.held == a.held && a'.at.there1 == a.at.there1
    ensures 2 <= Rank(a'.stage) && !a'.force ==>
              && !a.force && a'.at.there1 == a.at.there1
              && if st.ProbeHere? then a.stage == AskedThere && !a.held && !w.here.lock && a'.at.here1 == w.now
                 else 2 <= Rank(a.stage) && a'.at.here1 == a.at.here1
  {}

  /** And through its second. */
  lemma SecondProbing(w: World, st: Step, a: Passage, a': Passage)
    requires Enabled(w, st) && w.gate == Some(a) && NextGate(w, st) == Some(a')
    ensures a'.stage == AskedAgain ==>
              if st.ProbeThereAgain? then a'.held == w.there.lock && a'.at.there2 == w.now
              else a.stage == AskedAgain && a'.held == a.held && a'.at.there2 == a.at.there2
    ensures 6 <= Rank(a'.stage) && !a'.force ==>
              && !a.force && a'.at.there2 == a.at.there2
              && if st.ProbeHereAgain? then a.stage == AskedAgain && !a.held && !w.here.lock && a'.at.here2 == w.now
                 else 6 <= Rank(a.stage) && a'.at.here2 == a.at.here2
  {}

  lemma FirstPairStep(r: Run, n: nat, a: Passage, a': Passage)
    requires IsRun(r) && n < |r.steps| && r.states[n].gate == Some(a) && r.states[n + 1].gate == Some(a')
    requires InOrder(a, n) && InOrder(a', n + 1) && FirstPair(r, a, n)
    ensures FirstPair(r, a', n + 1)
  {
    InstantIsIndex(r, n);
    FirstProbing(r.states[n], r.steps[n], a, a');
  }

  lemma SecondPairStep(r: Run, n: nat, a: Passage, a': Passage)
    requires IsRun(r) && n < |r.steps| && r.states[n].gate == Some(a) && r.states[n + 1].gate == Some(a')
    requires InOrder(a, n) && InOrder(a', n + 1) && SecondPair(r, a, n)
    ensures SecondPair(r, a', n + 1)
  {
    InstantIsIndex(r, n);
    SecondProbing(r.states[n], r.steps[n], a, a');
  }

  lemma FreshPassage(w: World, st: Step)
    requires Enabled(w, st) && w.gate.None? && NextGate(w, st).Some?
    ensures NextGate(w, st).value.stage == Looked
  {}

  /** Of the attempt at instant n, if there is one. */
  ghost predicate ProbedAt(r: Run, n: nat)
    requires n < |r.states|
  {
    r.states[n].gate.Some? ==> InOrder(r.states[n].gate.value, n) && Probed(r, r.states[n].gate.value, n)
  }

  lemma ProbeStep(r: Run, n: nat)
    requires IsRun(r) && n < |r.steps| && ProbedAt(r, n) && r.states[n + 1].gate.Some?
    requires InOrder(r.states[n + 1].gate.value, n + 1)
    ensures ProbedAt(r, n + 1)
  {
    var last, next := r.states[n].gate, r.states[n + 1].gate.value;
    if last.Some? {
      FirstPairStep(r, n, last.value, next);
      SecondPairStep(r, n, last.value, next);
    } else {
      FreshPassage(r.states[n], r.steps[n]);
    }
  }

  lemma {:induction false} ProbesAre(r: Run, n: nat)
    requires IsRun(r) && n < |r.states|
    ensures ProbedAt(r, n)
  {
    if 0 < n && r.states[n].gate.Some? {
      OrderIs(r, n);
      ProbesAre(r, n - 1);
      ProbeStep(r, n - 1);
    }
  }

  /** What has arrived so far. */
  ghost predicate Arrived(r: Run, a: Passage, n: nat)
    requires n < |r.states|
  {
    var k, w := Rank(a.stage), r.states[n];
    && (3 <= k ==> w.incoming.Some?)
    && (k == 3 ==> a.at.begun < n && PrefixSoFar(r, a.at.begun, n))
    && (4 <= k ==> a.at.ended < n && |w.incoming.value.bytes| == a.want.size && Exact(r, a.at.begun, a.at.ended, w.incoming.value.bytes))
    && (7 <= k ==> w.incoming.value.mtime == a.want.mtime)
  }

  /** Nobody had the publisher's database open since the copy began, so what arrived is the front of it. */
  ghost predicate PrefixSoFar(r: Run, begun: nat, n: nat)
    requires n < |r.states| && r.states[n].incoming.Some?
  {
    var w := r.states[n];
    FreeThere(r, begun, n) && w.there.db.Some? ==> w.incoming.value.bytes <= w.there.db.value.bytes
  }

  /** Nobody had the publisher's database open while it was copied, so these bytes are all of it. */
  ghost predicate Exact(r: Run, begun: nat, ended: nat, bytes: Bytes)
    requires ended < |r.states|
  {
    FreeThere(r, begun, ended) ==> r.states[ended].there.db.Some? && bytes == r.states[ended].there.db.value.bytes
  }

  lemma PieceStep(r: Run, n: nat, begun: nat)
    requires IsRun(r) && n < |r.steps| && r.states[n].incoming.Some? && PrefixSoFar(r, begun, n) && begun <= n
    requires r.states[n + 1].incoming == r.states[n].incoming || r.steps[n].CopyPiece?
    ensures r.states[n + 1].incoming.Some? && PrefixSoFar(r, begun, n + 1)
  {
    var w, w' := r.states[n], r.states[n + 1];
    if FreeThere(r, begun, n + 1) {
      assert !w.there.lock;
      assert w'.there.db == w.there.db;
    }
  }

  lemma ArrivalStep(r: Run, n: nat)
    requires IsRun(r) && n < |r.steps| && (r.states[n].gate.Some? ==> Arrived(r, r.states[n].gate.value, n))
    ensures r.states[n + 1].gate.Some? ==> Arrived(r, r.states[n + 1].gate.value, n + 1)
  {
    var w, st := r.states[n], r.steps[n];
    InstantIsIndex(r, n);
    assert r.states[n + 1].gate == NextGate(w, st) && r.states[n + 1].incoming == NextIncoming(w, st);
    if At(w, Copying) && !st.EndCopy? && !st.GiveUp? {
      PieceStep(r, n, w.gate.value.at.begun);
    }
  }

  lemma {:induction false} ArrivalIs(r: Run, n: nat)
    requires IsRun(r) && n < |r.states|
    ensures r.states[n].gate.Some? ==> Arrived(r, r.states[n].gate.value, n)
  {
    if 0 < n {
      ArrivalIs(r, n - 1);
      ArrivalStep(r, n - 1);
    }
  }

  // ---------------------------------------------------------------- what the gate guarantees

  /** Some jClipCorn of the publisher had the database open from s to e. */
  ghost predicate OpenThroughout(r: Run, s: nat, e: nat)
    requires e < |r.states|
  {
    s <= e && forall t: nat | s <= t <= e :: r.states[t].there.lock
  }

  /** No lock was there at any of the four probes, and every publisher session that met the copy began after the first
      probe and was over before the third. */
  ghost predicate FoundClear(r: Run, i: nat)
    requires i < |r.states| && r.states[i].gate.Some?
  {
    var at := r.states[i].gate.value.at;
    && at.there1 < at.here1 < at.begun < at.ended < at.there2 < at.here2 < i
    && ClearAt(r, at.there1, at.here1) && ClearAt(r, at.there2, at.here2)
    && forall s: nat, e: nat | e < |r.states| && OpenThroughout(r, s, e) && s <= at.ended && at.begun <= e ::
         at.there1 < s && e < at.there2
  }

  /** As many bytes as the publisher reported, under his timestamp; and exactly what he had at every instant of the copy,
      when nobody had it open meanwhile. */
  ghost predicate PutWhole(r: Run, i: nat)
    requires i + 1 < |r.states| && r.states[i].gate.Some?
  {
    var a := r.states[i].gate.value;
    && r.states[i + 1].here.db.Some? && VersionOf(r.states[i + 1].here.db.value) == a.want
    && a.at.begun < a.at.ended < i
    && (FreeThere(r, a.at.begun, a.at.ended) ==>
          forall t: nat | a.at.begun <= t <= a.at.ended ::
            r.states[t].there.db.Some? && r.states[t].there.db.value.bytes == r.states[i + 1].here.db.value.bytes)
  }

  /** An unforced replacement found everything clear: any other session makes the gate defer or discard. */
  lemma UnforcedReplacement(r: Run, i: nat)
    requires IsRun(r) && i < |r.steps| && r.steps[i].Replace? && !r.states[i].gate.value.force
    ensures FoundClear(r, i)
  {
    ProbesAre(r, i);
    var at := r.states[i].gate.value.at;
    forall s: nat, e: nat | e < |r.states| && OpenThroughout(r, s, e) && s <= at.ended && at.begun <= e
      ensures at.there1 < s && e < at.there2
    {
      assert !r.states[at.there1].there.lock && !r.states[at.there2].there.lock;
    }
  }

  /** A replacement puts a whole database in place, forced or not. */
  lemma ReplacementIsWhole(r: Run, i: nat)
    requires IsRun(r) && i < |r.steps| && r.steps[i].Replace?
    ensures PutWhole(r, i)
  {
    OrderIs(r, i);
    ArrivalIs(r, i);
    var at := r.states[i].gate.value.at;
    if FreeThere(r, at.begun, at.ended) {
      forall t: nat | at.begun <= t <= at.ended ensures r.states[t].there.db == r.states[at.ended].there.db {
        assert FreeThere(r, t, at.ended);
        UnheldUnchanged(r, t, at.ended);
      }
    }
  }

  /** Step i put this database in its place: a whole replacement, or jClipCorn here writing its own. */
  ghost predicate PutBy(r: Run, i: nat, db: Option<FileOnDisk>)
    requires i < |r.steps| && i + 1 < |r.states|
  {
    && r.states[i + 1].here.db == db
    && (r.steps[i] == WriteHere(db)
        || (r.steps[i].Replace? && r.states[i].gate.Some? && db.Some? && VersionOf(db.value) == r.states[i].gate.value.want))
  }

  /** At every instant the local database is wholly the one it was at first or wholly one that a single step put there:
      no attempt, error or death leaves it half replaced. */
  lemma {:induction false} WhollyOldOrNew(r: Run, n: nat)
    requires IsRun(r) && n < |r.states|
    ensures r.states[n].here.db == r.states[0].here.db || exists i: nat | i < n :: PutBy(r, i, r.states[n].here.db)
  {
    if 0 < n {
      WhollyOldOrNew(r, n - 1);
      if r.steps[n - 1].Replace? {
        ReplacementIsWhole(r, n - 1);
        assert PutBy(r, n - 1, r.states[n].here.db);
      } else if r.steps[n - 1].WriteHere? {
        assert PutBy(r, n - 1, r.states[n].here.db);
      } else {
        assert r.states[n].here.db == r.states[n - 1].here.db;
      }
    }
  }

  // ---------------------------------------------------------------- what it does not

  function Last(r: Run): World
    requires r.states != []
  {
    r.states[|r.states| - 1]
  }

  lemma Extend(r: Run, st: Step) returns (r': Run)
    requires IsRun(r) && Enabled(Last(r), st)
    ensures IsRun(r') && r'.steps == r.steps + [st] && r'.states == r.states + [Apply(Last(r), st)]
  {
    r' := Run(r.states + [Apply(Last(r), st)], r.steps + [st]);
  }

  /** Nothing watches the lock between the last probe and the rename: a jClipCorn started here in that window
      has its database replaced under it, whenever an attempt got that far. */
  lemma LateLocalSession(r: Run) returns (r': Run)
    requires IsRun(r) && At(Last(r), BackedUp) && !Last(r).here.lock
    ensures IsRun(r') && r'.steps == r.steps + [OpenHere, Step.Replace]
    ensures Last(r').here.lock && Last(r').here.db == Last(r).incoming
  {
    ArrivalIs(r, |r.steps|);
    r' := Extend(r, OpenHere);
    r' := Extend(r', Step.Replace);
  }

  /** The session here that began at instant t is still on. */
  ghost predicate StillOn(r: Run, t: nat, n: nat)
    requires n <= |r.steps|
  {
    t < n && r.steps[t].OpenHere? && forall u: nat | t < u < n :: !r.steps[u].CloseHere?
  }

  /** A session here that began from instant a on is still on. */
  ghost predicate LeftOn(r: Run, a: nat, n: nat)
    requires n <= |r.steps|
  {
    exists t: nat :: a <= t && StillOn(r, t, n)
  }

  lemma LeftOnNext(r: Run, a: nat, n: nat)
    requires a <= n < |r.steps|
    ensures LeftOn(r, a, n + 1) <==> r.steps[n].OpenHere? || (LeftOn(r, a, n) && !r.steps[n].CloseHere?)
  {
    if t: nat :| a <= t && StillOn(r, t, n) {
      assert !r.steps[n].CloseHere? ==> StillOn(r, t, n + 1);
    }
    assert r.steps[n].OpenHere? ==> StillOn(r, n, n + 1);
    if LeftOn(r, a, n + 1) {
      var t: nat :| a <= t && StillOn(r, t, n + 1);
      assert t < n ==> StillOn(r, t, n) && !r.steps[n].CloseHere?;
    }
  }

  lemma LockStep(w: World, st: Step)
    requires Enabled(w, st)
    ensures Apply(w, st).here.lock <==> st.OpenHere? || (w.here.lock && !st.CloseHere?)
  {}

  /** From an instant without it, the local lock exists exactly when one was taken since and not let go of. */
  lemma {:induction false} LockTaken(r: Run, a: nat, n: nat)
    requires IsRun(r) && a <= n < |r.states| && !r.states[a].here.lock
    ensures r.states[n].here.lock <==> LeftOn(r, a, n)
    decreases n
  {
    if a < n {
      LockTaken(r, a, n - 1);
      LockStep(r.states[n - 1], r.steps[n - 1]);
      LeftOnNext(r, a, n - 1);
    }
  }

  /** Exactly when an unforced replacement meets a local session: one was started after the last probe and is still on. */
  lemma MeetsLocalSessionExactly(r: Run, i: nat)
    requires IsRun(r) && i < |r.steps| && r.steps[i].Replace? && !r.states[i].gate.value.force
    ensures r.states[i].here.lock <==>
              exists t: nat :: r.states[i].gate.value.at.here2 < t && StillOn(r, t, i)
  {
    ProbesAre(r, i);
    var a := r.states[i].gate.value.at.here2;
    LockTaken(r, a, i);
    ProbeIsNoStart(r, i);
  }

  /** The step at the instant of the last probe is that probe. */
  lemma {:induction false} ProbeIsNoStart(r: Run, n: nat)
    requires IsRun(r) && n < |r.states| && r.states[n].gate.Some? && 6 <= Rank(r.states[n].gate.value.stage)
    ensures r.states[n].gate.value.at.here2 < n && r.steps[r.states[n].gate.value.at.here2].ProbeHereAgain?
  {
    InstantIsIndex(r, n - 1);
    var last := r.states[n - 1].gate;
    assert r.states[n].gate == NextGate(r.states[n - 1], r.steps[n - 1]);
    if last.Some? && 6 <= Rank(last.value.stage) { ProbeIsNoStart(r, n - 1); }
  }
}
