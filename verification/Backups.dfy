/** The copies kept of a database before it is replaced (engine/jcc.go over store/backups.go), as a machine over its
    persisted effects: a copy, its row, the rename, and the pruning of old copies one file and one row at a time.
    Any process may die between two of them. Hashes are taken as injective. The number kept is the least that was ever set:
    what is past a larger number of newer rows is past a smaller one. */
module Backups {
  import opened Base
  import opened Sums
  import H = Histories

  datatype Digest = Sha(of: Bytes)

  /** A path in the backup directory. */
  datatype Name = Name(path: string)

  const NANOS := 1_000_000   // in a millisecond

  /** A row. Files carry nanoseconds; rows carry milliseconds. */
  datatype Backup = Backup(ts: int, path: Name, size: nat, mtime: int, hash: Digest)

  type Rows = map<nat, Backup>

  /** Where a replacement stands between taking its copy and the rename. */
  datatype Phase =
    | Quiet
    | NothingThere                               // there was no database to keep
    | Copied(path: Name, file: FileOnDisk)
    | Kept(id: nat, ts: int, file: FileOnDisk)

  datatype Vault = Vault(rows: Rows, copies: map<Name, FileOnDisk>, local: Option<FileOnDisk>, phase: Phase)

  /** Newest first: by time, then by id. */
  predicate NewerKey(ts: int, id: nat, ts': int, id': nat) { ts > ts' || (ts == ts' && id > id') }

  function Newer(rows: Rows, ts: int, id: nat): set<nat> { set k | k in rows && NewerKey(rows[k].ts, k, ts, id) }

  /** Past the newest few. */
  predicate Excess(rows: Rows, k: nat, keep: nat) { k in rows && keep <= |Newer(rows, rows[k].ts, k)| }

  /** Past the newest few: so many are of a later time, or of the same time with a higher id. */
  lemma ExcessWritten(rows: Rows, k: nat, keep: nat)
    requires k in rows
    ensures Excess(rows, k, keep) <==> keep <= |set j | j in rows && (rows[j].ts > rows[k].ts || (rows[j].ts == rows[k].ts && j > k))|
  {
    assert Newer(rows, rows[k].ts, k) == set j | j in rows && (rows[j].ts > rows[k].ts || (rows[j].ts == rows[k].ts && j > k));
  }

  function RowFor(ts: int, path: Name, f: FileOnDisk): Backup {
    Backup(ts, path, |f.bytes|, f.mtime / NANOS, Sha(f.bytes))
  }

  datatype Step =
    | Touch(db: Option<FileOnDisk>)            // jClipCorn here
    | Skip                                     // nothing to keep
    | Copy(path: Name)
    | Litter(path: Name, file: FileOnDisk)     // a copy cut short, which no row names
    | Enter(id: nat, ts: int)
    | Place(file: FileOnDisk)
    | Stop                                     // an error or a death on the way
    | RemoveCopy(id: nat)
    | DropRow(id: nat)

  /** A free name. That no row names it either is what its timestamp is for. */
  predicate Free(v: Vault, path: Name) { path !in v.copies && forall k | k in v.rows :: v.rows[k].path != path }

  predicate Enabled(v: Vault, st: Step, keep: nat) {
    match st
    case Touch(_) => true
    case Skip => v.phase.Quiet? && v.local.None?
    case Copy(path) => v.phase.Quiet? && v.local.Some? && Free(v, path)
    case Litter(path, _) => v.phase.Quiet? && Free(v, path)
    case Enter(id, _) => v.phase.Copied? && id !in v.rows
    case Place(_) => v.phase.NothingThere? || v.phase.Kept?
    case Stop => true
    case RemoveCopy(id) => Excess(v.rows, id, keep)
    case DropRow(id) => Excess(v.rows, id, keep) && v.rows[id].path !in v.copies
  }

  function Apply(v: Vault, st: Step, keep: nat): Vault
    requires Enabled(v, st, keep)
  {
    match st
    case Touch(db) => v.(local := db)
    case Skip => v.(phase := NothingThere)
    case Copy(path) => v.(copies := v.copies[path := v.local.value], phase := Copied(path, v.local.value))
    case Litter(path, file) => v.(copies := v.copies[path := file])
    case Enter(id, ts) =>
      v.(rows := v.rows[id := RowFor(ts, v.phase.path, v.phase.file)], phase := Kept(id, ts, v.phase.file))
    case Place(file) => v.(local := Some(file), phase := Quiet)
    case Stop => v.(phase := Quiet)
    case RemoveCopy(id) => v.(copies := v.copies - {v.rows[id].path})
    case DropRow(id) => v.(rows := v.rows - {id})
  }

  // ---------------------------------------------------------------- what is kept

  /** The row's copy is there and is this file, by size, hash, bytes and timestamp. */
  predicate Intact(v: Vault, id: nat, ts: int, f: FileOnDisk) {
    && id in v.rows && v.rows[id] == RowFor(ts, v.rows[id].path, f)
    && v.rows[id].path in v.copies && v.copies[v.rows[id].path] == f
  }

  /** The row's copy is there and is what was recorded of it. */
  predicate HasCopy(v: Vault, k: nat) {
    k in v.rows && v.rows[k].path in v.copies && Verified(v.rows[k], v.copies[v.rows[k].path])
  }

  predicate Verified(b: Backup, f: FileOnDisk) { |f.bytes| == b.size && Sha(f.bytes) == b.hash }

  function NewerCopies(v: Vault, ts: int, id: nat): set<nat> { set k | k in Newer(v.rows, ts, id) && HasCopy(v, k) }

  /** Held in a recorded copy, unless that many newer copies exist. */
  predicate Held(v: Vault, keep: nat, id: nat, ts: int, f: FileOnDisk) {
    Intact(v, id, ts, f) || keep <= |NewerCopies(v, ts, id)|
  }

  /** The same, counting rows. */
  predicate Rowed(v: Vault, keep: nat, id: nat, ts: int, f: FileOnDisk) {
    Intact(v, id, ts, f) || keep <= |Newer(v.rows, ts, id)|
  }

  /** Every row among the newest few has its copy. */
  predicate TopIntact(v: Vault, keep: nat) { forall k | k in v.rows && !Excess(v.rows, k, keep) :: HasCopy(v, k) }

  predicate PathsDistinct(rows: Rows) { forall j, k | j in rows && k in rows && rows[j].path == rows[k].path :: j == k }

  ghost predicate Inv(v: Vault, keep: nat) {
    && PathsDistinct(v.rows) && TopIntact(v, keep)
    && (v.phase.Copied? ==>
          v.phase.path in v.copies && v.copies[v.phase.path] == v.phase.file && forall k | k in v.rows :: v.rows[k].path != v.phase.path)
    && (v.phase.Kept? ==> Rowed(v, keep, v.phase.id, v.phase.ts, v.phase.file))
  }

  /** Dropping a row past the newest few leaves as many newer ones beside every key that had them. */
  lemma DropKeepsNewer(rows: Rows, gone: nat, keep: nat, ts: int, id: nat)
    requires Excess(rows, gone, keep) && keep <= |Newer(rows, ts, id)|
    ensures keep <= |Newer(rows - {gone}, ts, id)|
  {
    var rest := rows - {gone};
    if gone in Newer(rows, ts, id) {
      SubsetCardinality(Newer(rows, rows[gone].ts, gone), Newer(rest, ts, id));
    } else {
      SubsetCardinality(Newer(rows, ts, id), Newer(rest, ts, id));
    }
  }

  lemma EnterKeepsNewer(rows: Rows, id': nat, b: Backup, ts: int, id: nat)
    requires id' !in rows
    ensures |Newer(rows, ts, id)| <= |Newer(rows[id' := b], ts, id)|
  {
    SubsetCardinality(Newer(rows, ts, id), Newer(rows[id' := b], ts, id));
  }

  lemma StepHolds(v: Vault, st: Step, keep: nat, id: nat, ts: int, f: FileOnDisk)
    requires Enabled(v, st, keep) && Inv(v, keep) && Rowed(v, keep, id, ts, f)
    ensures Rowed(Apply(v, st, keep), keep, id, ts, f)
  {
    if st.Enter? {
      EnterKeepsNewer(v.rows, st.id, RowFor(st.ts, v.phase.path, v.phase.file), ts, id);
    } else if st.DropRow? {
      if keep <= |Newer(v.rows, ts, id)| { DropKeepsNewer(v.rows, st.id, keep, ts, id); }
    } else if Intact(v, id, ts, f) {
      CopyStepHolds(v, st, keep, id, ts, f);
    }
  }

  /** A step that touches no row leaves the copy alone, but for that of a row past the newest few. */
  lemma CopyStepHolds(v: Vault, st: Step, keep: nat, id: nat, ts: int, f: FileOnDisk)
    requires Enabled(v, st, keep) && PathsDistinct(v.rows) && Intact(v, id, ts, f) && !st.Enter? && !st.DropRow?
    ensures Intact(Apply(v, st, keep), id, ts, f) || Excess(v.rows, id, keep)
  {}

  lemma EnteredIsIntact(v: Vault, keep: nat, id: nat, ts: int)
    requires Inv(v, keep) && Enabled(v, Enter(id, ts), keep)
    ensures Intact(Apply(v, Enter(id, ts), keep), id, ts, v.phase.file)
  {}

  lemma StepKeepsPaths(v: Vault, st: Step, keep: nat)
    requires Enabled(v, st, keep) && Inv(v, keep)
    ensures var v' := Apply(v, st, keep);
            && PathsDistinct(v'.rows)
            && (v'.phase.Copied? ==>
                  v'.phase.path in v'.copies && v'.copies[v'.phase.path] == v'.phase.file
                  && forall k | k in v'.rows :: v'.rows[k].path != v'.phase.path)
  {}

  lemma StepKeepsTop(v: Vault, st: Step, keep: nat)
    requires Enabled(v, st, keep) && Inv(v, keep)
    ensures TopIntact(Apply(v, st, keep), keep)
  {
    var v' := Apply(v, st, keep);
    forall k | k in v'.rows && !Excess(v'.rows, k, keep) ensures HasCopy(v', k) {
      if k in v.rows {
        if Excess(v.rows, k, keep) { StaysExcess(v, st, keep, k); }
        assert HasCopy(v, k);
      }
    }
  }

  /** A row past the newest few never comes back among them. */
  lemma StaysExcess(v: Vault, st: Step, keep: nat, k: nat)
    requires Enabled(v, st, keep) && Excess(v.rows, k, keep) && k in Apply(v, st, keep).rows
    ensures Excess(Apply(v, st, keep).rows, k, keep)
  {
    match st
    case Enter(id, t) => EnterKeepsNewer(v.rows, id, RowFor(t, v.phase.path, v.phase.file), v.rows[k].ts, k);
    case DropRow(gone) => DropKeepsNewer(v.rows, gone, keep, v.rows[k].ts, k);
    case _ =>
  }

  lemma StepKeeps(v: Vault, st: Step, keep: nat)
    requires Enabled(v, st, keep) && Inv(v, keep)
    ensures Inv(Apply(v, st, keep), keep)
  {
    StepKeepsPaths(v, st, keep);
    StepKeepsTop(v, st, keep);
    if st.Enter? {
      EnteredIsIntact(v, keep, st.id, st.ts);
    } else if v.phase.Kept? {
      StepHolds(v, st, keep, v.phase.id, v.phase.ts, v.phase.file);
    }
  }

  // ---------------------------------------------------------------- rows and copies

  function Top(rows: Rows, keep: nat): set<nat> { set k | k in rows && !Excess(rows, k, keep) }

  lemma {:induction false} Oldest(rows: Rows) returns (o: nat)
    requires rows != map[]
    ensures o in rows && forall k | k in rows && k != o :: NewerKey(rows[k].ts, k, rows[o].ts, o)
    decreases |rows|
  {
    var x :| x in rows;
    if z :| z in rows && z != x {
      var rest := rows - {x};
      assert z in rest && rest.Keys == rows.Keys - {x};
      var y := Oldest(rest);
      o := if NewerKey(rows[x].ts, x, rows[y].ts, y) then y else x;
      forall k | k in rows && k != o ensures NewerKey(rows[k].ts, k, rows[o].ts, o) {
        assert k == x || k == y || NewerKey(rest[k].ts, k, rest[y].ts, y);
      }
    } else {
      o := x;
    }
  }

  /** There are as many rows among the newest few as there can be. */
  lemma {:induction false} TopSize(rows: Rows, keep: nat)
    requires keep <= |rows|
    ensures keep <= |Top(rows, keep)|
    decreases |rows|
  {
    if |rows| == keep {
      forall k | k in rows ensures !Excess(rows, k, keep) {
        var newer := Newer(rows, rows[k].ts, k);
        assert newer <= rows.Keys - {k};
        SubsetCardinality(newer, rows.Keys - {k});
      }
      assert Top(rows, keep) == rows.Keys;
    } else {
      var o := Oldest(rows);
      var rest := rows - {o};
      assert rest.Keys == rows.Keys - {o};
      TopSize(rest, keep);
      forall k | k in Top(rest, keep) ensures k in Top(rows, keep) {
        assert Newer(rows, rows[k].ts, k) == Newer(rest, rest[k].ts, k);
      }
      SubsetCardinality(Top(rest, keep), Top(rows, keep));
    }
  }

  /** Where that many newer rows exist, that many newer copies do. */
  lemma RowsAreCopies(v: Vault, keep: nat, ts: int, id: nat)
    requires TopIntact(v, keep) && keep <= |Newer(v.rows, ts, id)|
    ensures keep <= |NewerCopies(v, ts, id)|
  {
    SubsetCardinality(Newer(v.rows, ts, id), v.rows.Keys);
    TopSize(v.rows, keep);
    forall k | k in Top(v.rows, keep) ensures k in NewerCopies(v, ts, id) {
      if k !in Newer(v.rows, ts, id) {
        SubsetCardinality(Newer(v.rows, ts, id), Newer(v.rows, v.rows[k].ts, k));
      }
    }
    SubsetCardinality(Top(v.rows, keep), NewerCopies(v, ts, id));
  }

  lemma RowedIsHeld(v: Vault, keep: nat, id: nat, ts: int, f: FileOnDisk)
    requires TopIntact(v, keep) && Rowed(v, keep, id, ts, f)
    ensures Held(v, keep, id, ts, f)
  {
    if keep <= |Newer(v.rows, ts, id)| { RowsAreCopies(v, keep, ts, id); }
  }

  // ---------------------------------------------------------------- runs

  datatype Run = Run(states: seq<Vault>, steps: seq<Step>)

  ghost predicate IsRun(r: Run, keep: nat) {
    && |r.states| == |r.steps| + 1 && r.states[0].phase.Quiet? && PathsDistinct(r.states[0].rows) && TopIntact(r.states[0], keep)
    && forall i | 0 <= i < |r.steps| ::
         Enabled(r.states[i], r.steps[i], keep) && r.states[i + 1] == Apply(r.states[i], r.steps[i], keep)
  }

  lemma {:induction false} RunKeeps(r: Run, keep: nat, n: nat)
    requires IsRun(r, keep) && n < |r.states|
    ensures Inv(r.states[n], keep)
  {
    if 0 < n {
      RunKeeps(r, keep, n - 1);
      StepKeeps(r.states[n - 1], r.steps[n - 1], keep);
    }
  }

  /** A rollback restores this: the copy's bytes under the row's timestamp, if the copy is what was recorded of it. */
  function Restored(v: Vault, id: nat): Option<FileOnDisk> {
    if HasCopy(v, id) then Some(FileOnDisk(v.copies[v.rows[id].path].bytes, v.rows[id].mtime * NANOS)) else None
  }

  /** To the millisecond. */
  function Floored(f: FileOnDisk): FileOnDisk { f.(mtime := f.mtime / NANOS * NANOS) }

  lemma StepAt(r: Run, keep: nat, n: nat)
    requires IsRun(r, keep) && n < |r.steps|
    ensures Enabled(r.states[n], r.steps[n], keep) && r.states[n + 1] == Apply(r.states[n], r.steps[n], keep) && Inv(r.states[n], keep)
  {
    RunKeeps(r, keep, n);
  }

  lemma RowedNext(v: Vault, st: Step, v': Vault, keep: nat, id: nat, ts: int, f: FileOnDisk)
    requires Enabled(v, st, keep) && v' == Apply(v, st, keep) && Inv(v, keep) && Rowed(v, keep, id, ts, f)
    ensures Rowed(v', keep, id, ts, f)
  {
    StepHolds(v, st, keep, id, ts, f);
  }

  lemma StaysRowed(r: Run, keep: nat, m: nat, n: nat, id: nat, ts: int, f: FileOnDisk)
    requires IsRun(r, keep) && m <= n < |r.states| && Rowed(r.states[m], keep, id, ts, f)
    ensures Rowed(r.states[n], keep, id, ts, f)
  {
    var holds := (v: Vault) => Rowed(v, keep, id, ts, f);
    forall i | m <= i < n && holds(r.states[i]) ensures holds(r.states[i + 1]) {
      StepAt(r, keep, i);
      RowedNext(r.states[i], r.steps[i], r.states[i + 1], keep, id, ts, f);
    }
    H.Persists(r.states, holds, m, n);
  }

  // ---------------------------------------------------------------- writers here

  /** jClipCorn here wrote nothing since the last time its database was looked at to keep it. */
  ghost predicate Unwritten(r: Run, i: nat)
    requires i <= |r.steps|
  {
    forall t: nat | t < i && r.steps[t].Touch? :: exists c: nat :: t < c < i && Looks(r.steps[c])
  }

  predicate Looks(st: Step) { st.Copy? || st.Skip? }

  lemma UnwrittenBefore(r: Run, n: nat)
    requires n < |r.steps| && Unwritten(r, n + 1)
    ensures !r.steps[n].Touch? && (!Looks(r.steps[n]) ==> Unwritten(r, n))
  {
    if !Looks(r.steps[n]) {
      forall t: nat | t < n && r.steps[t].Touch? ensures exists c: nat :: t < c < n && Looks(r.steps[c]) {
        var c: nat :| t < c < n + 1 && Looks(r.steps[c]);
        assert c != n;
      }
    }
  }

  /** The database that is in place is the one the replacement under way knows of. */
  predicate Known(v: Vault) {
    && (v.phase.Copied? || v.phase.Kept? ==> v.local == Some(v.phase.file))
    && (v.phase.NothingThere? ==> v.local == None)
  }

  lemma {:induction false} UnwrittenIsKnown(r: Run, keep: nat, n: nat)
    requires IsRun(r, keep) && n < |r.states| && Unwritten(r, n)
    ensures Known(r.states[n])
  {
    if 0 < n {
      UnwrittenBefore(r, n - 1);
      if !Looks(r.steps[n - 1]) { UnwrittenIsKnown(r, keep, n - 1); }
    }
  }

  /** Every database displaced from its place by a replacement since whose copy nobody wrote here is held ever after, in a
      recorded copy with its size, hash, bytes and timestamp, unless at least that many newer copies exist - whatever
      replacements, rollbacks, prunings and deaths follow. */
  lemma DisplacedIsHeld(r: Run, keep: nat, i: nat, n: nat)
    requires IsRun(r, keep) && i < n < |r.states| && r.steps[i].Place? && Unwritten(r, i) && r.states[i].local.Some?
    ensures r.states[i].phase.Kept?
    ensures Held(r.states[n], keep, r.states[i].phase.id, r.states[i].phase.ts, r.states[i].local.value)
  {
    RunKeeps(r, keep, i);
    RunKeeps(r, keep, n);
    UnwrittenIsKnown(r, keep, i);
    var id, ts, f := r.states[i].phase.id, r.states[i].phase.ts, r.states[i].local.value;
    StaysRowed(r, keep, i, n, id, ts, f);
    RowedIsHeld(r.states[n], keep, id, ts, f);
  }

  /** The last write before an instant, and what it left for a replacement that is still on its way. */
  lemma {:induction false} LastTouch(r: Run, keep: nat, n: nat) returns (t: nat)
    requires IsRun(r, keep) && n < |r.states| && !Unwritten(r, n)
    ensures IsLastTouch(r, n, t) && (r.states[n].phase.Quiet? || r.states[n].local == r.steps[t].db)
  {
    if r.steps[n - 1].Touch? {
      t := n - 1;
    } else {
      WrittenBefore(r, n - 1);
      t := LastTouch(r, keep, n - 1);
    }
  }

  ghost predicate IsLastTouch(r: Run, n: nat, t: nat)
    requires n <= |r.steps|
  {
    t < n && r.steps[t].Touch? && forall u: nat | t < u < n :: !r.steps[u].Touch?
  }

  /** Nobody wrote since the copy, or whoever wrote last put the very same database back. */
  ghost predicate Unchanged(r: Run, n: nat, f: FileOnDisk)
    requires n <= |r.steps|
  {
    Unwritten(r, n) || exists t: nat :: IsLastTouch(r, n, t) && r.steps[t].db == Some(f)
  }

  lemma {:induction false} KnownExactly(r: Run, keep: nat, n: nat)
    requires IsRun(r, keep) && n < |r.states| && r.states[n].phase.Kept?
    ensures r.states[n].local == Some(r.states[n].phase.file) <==> Unchanged(r, n, r.states[n].phase.file)
  {
    if Unwritten(r, n) {
      UnwrittenIsKnown(r, keep, n);
    } else {
      var t := LastTouch(r, keep, n);
      assert forall t': nat | IsLastTouch(r, n, t') :: t' == t;
    }
  }

  /** What a replacement displaces is held in its copy exactly when nobody wrote here since that copy was taken, or the last
      to write put the same database back. */
  lemma DisplacedIsHeldExactly(r: Run, keep: nat, i: nat)
    requires IsRun(r, keep) && i < |r.steps| && r.steps[i].Place? && r.states[i].phase.Kept? && r.states[i].local.Some?
    requires |NewerCopies(r.states[i + 1], r.states[i].phase.ts, r.states[i].phase.id)| < keep
    ensures Held(r.states[i + 1], keep, r.states[i].phase.id, r.states[i].phase.ts, r.states[i].local.value)
            <==> Unchanged(r, i, r.states[i].phase.file)
  {
    RunKeeps(r, keep, i);
    RunKeeps(r, keep, i + 1);
    KnownExactly(r, keep, i);
    var id, ts, f := r.states[i].phase.id, r.states[i].phase.ts, r.states[i].phase.file;
    StepHolds(r.states[i], r.steps[i], keep, id, ts, f);
    RowedIsHeld(r.states[i + 1], keep, id, ts, f);
  }

  /** A database that jClipCorn writes between the copy and the rename is in no copy afterwards, whatever it is. */
  lemma LateWriteIsLost(was: FileOnDisk, late: FileOnDisk, file: FileOnDisk, path: Name, id: nat, ts: int, keep: nat) returns (r: Run)
    requires late != was
    ensures IsRun(r, keep) && r.steps == [Copy(path), Enter(id, ts), Touch(Some(late)), Place(file)]
    ensures r.states[0] == Vault(map[], map[], Some(was), Quiet) && r.states[3].local == Some(late)
    ensures forall p | p in r.states[4].copies :: r.states[4].copies[p] != late
  {
    var steps := [Copy(path), Enter(id, ts), Touch(Some(late)), Place(file)];
    var s0 := Vault(map[], map[], Some(was), Quiet);
    var s1 := Apply(s0, steps[0], keep);
    var s2 := Apply(s1, steps[1], keep);
    var s3 := Apply(s2, steps[2], keep);
    r := Run([s0, s1, s2, s3, Apply(s3, steps[3], keep)], steps);
  }

  lemma WrittenBefore(r: Run, n: nat)
    requires n < |r.steps| && !Unwritten(r, n + 1) && !r.steps[n].Touch?
    ensures !Unwritten(r, n)
  {
    var t: nat :| t < n + 1 && r.steps[t].Touch? && forall c: nat | t < c < n + 1 :: !Looks(r.steps[c]);
    assert forall c: nat | t < c < n :: !Looks(r.steps[c]);
  }

  /** Rolling back to that copy, at any later time before that many newer copies exist, restores what was displaced:
      the bytes exactly and the timestamp to the millisecond. */
  lemma DisplacedIsRestored(r: Run, keep: nat, i: nat, n: nat)
    requires IsRun(r, keep) && i < n < |r.states| && r.steps[i].Place? && Unwritten(r, i) && r.states[i].phase.Kept? && r.states[i].local.Some?
    requires |NewerCopies(r.states[n], r.states[i].phase.ts, r.states[i].phase.id)| < keep
    ensures Restored(r.states[n], r.states[i].phase.id) == Some(Floored(r.states[i].local.value))
  {
    DisplacedIsHeld(r, keep, i, n);
  }
}
