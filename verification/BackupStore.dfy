/** The backup rows and files as the engine keeps them (store/backups.go, engine/jcc.go). */
module BackupStore {
  import opened Base
  import opened Backups
  import H = Histories

  ghost function Begins(keep: nat): Vault -> bool { (v: Vault) => v.phase.Quiet? && PathsDistinct(v.rows) && TopIntact(v, keep) }

  ghost function Takes(keep: nat): (Vault, Step, Vault) -> bool { (v: Vault, st: Step, v': Vault) => Enabled(v, st, keep) && v' == Apply(v, st, keep) }

  ghost predicate Recorded(r: Run, keep: nat) { H.Recorded(r.states, r.steps, Begins(keep), Takes(keep)) }

  lemma RecordedIsRun(r: Run, keep: nat)
    requires Recorded(r, keep)
    ensures IsRun(r, keep)
  {
    H.IsRun(r.states, r.steps, Begins(keep), Takes(keep));
    forall i | 0 <= i < |r.steps| ensures Enabled(r.states[i], r.steps[i], keep) && r.states[i + 1] == Apply(r.states[i], r.steps[i], keep) {
      assert Takes(keep)(r.states[i], r.steps[i], r.states[i + 1]);
    }
  }

  predicate Before(rows: Rows, a: nat, b: nat)
    requires a in rows && b in rows
  {
    NewerKey(rows[a].ts, a, rows[b].ts, b)
  }

  predicate Among(rows: Rows, ids: seq<nat>) { forall i | 0 <= i < |ids| :: ids[i] in rows }

  predicate NewestFirst(rows: Rows, ids: seq<nat>)
    requires Among(rows, ids)
  {
    forall i, j | 0 <= i < j < |ids| :: Before(rows, ids[i], ids[j])
  }

  /** Where a row goes in the order. */
  method PlaceFor(rows: Rows, ids: seq<nat>, k: nat) returns (at: nat)
    requires k in rows && Among(rows, ids) && NewestFirst(rows, ids) && k !in ids
    ensures at <= |ids|
    ensures forall i | 0 <= i < at :: Before(rows, ids[i], k)
    ensures forall i | at <= i < |ids| :: Before(rows, k, ids[i])
  {
    at := 0;
    while at < |ids| && Before(rows, ids[at], k)
      invariant at <= |ids| && forall i | 0 <= i < at :: Before(rows, ids[i], k)
    {
      at := at + 1;
    }
    if at < |ids| {
      assert ids[at] in ids;
    }
  }

  /** All rows, newest first. */
  method Listing(rows: Rows) returns (ids: seq<nat>)
    ensures Among(rows, ids) && NewestFirst(rows, ids) && forall k | k in rows :: k in ids
    ensures forall i, j | 0 <= i < j < |ids| :: rows[ids[i]].ts > rows[ids[j]].ts || (rows[ids[i]].ts == rows[ids[j]].ts && ids[i] > ids[j])
  {
    ids := [];
    var left := rows.Keys;
    while left != {}
      invariant left <= rows.Keys && Among(rows, ids) && NewestFirst(rows, ids)
      invariant forall k | k in rows :: k in left <==> k !in ids
      decreases left
    {
      var k :| k in left;
      var at := PlaceFor(rows, ids, k);
      ids := ids[..at] + [k] + ids[at..];
      left := left - {k};
    }
  }

  lemma {:induction false} PrefixSize(ids: seq<nat>, n: nat)
    requires n <= |ids| && forall i, j | 0 <= i < j < |ids| :: ids[i] != ids[j]
    ensures |set i | 0 <= i < n :: ids[i]| == n
  {
    if 0 < n {
      PrefixSize(ids, n - 1);
      assert (set i | 0 <= i < n :: ids[i]) == (set i | 0 <= i < n - 1 :: ids[i]) + {ids[n - 1]};
    }
  }

  /** A row's place in the listing is the number of rows newer than it. */
  lemma PlaceIsRank(rows: Rows, ids: seq<nat>, n: nat)
    requires Among(rows, ids) && NewestFirst(rows, ids) && (forall k | k in rows :: k in ids) && n < |ids|
    ensures |Newer(rows, rows[ids[n]].ts, ids[n])| == n
  {
    PrefixSize(ids, n);
    var front := set i | 0 <= i < n :: ids[i];
    forall k | k in Newer(rows, rows[ids[n]].ts, ids[n]) ensures k in front {
      var i :| 0 <= i < |ids| && ids[i] == k;
    }
    assert front == Newer(rows, rows[ids[n]].ts, ids[n]);
  }

  /** A row is in the first n of the listing exactly when fewer than n are newer. */
  lemma FrontAndRest(rows: Rows, ids: seq<nat>, n: nat, k: nat)
    requires Among(rows, ids) && NewestFirst(rows, ids) && (forall j | j in rows :: j in ids) && n <= |ids|
    ensures k in ids[..n] <==> k in rows && !Excess(rows, k, n)
    ensures k in ids[n..] <==> Excess(rows, k, n)
  {
    if k in rows {
      var i :| 0 <= i < |ids| && ids[i] == k;
      PlaceIsRank(rows, ids, i);
      if i < n { assert ids[..n][i] == k; } else { assert ids[n..][i - n] == k; }
      if j :| 0 <= j < n && ids[j] == k { PlaceIsRank(rows, ids, j); }
      if j :| n <= j < |ids| && ids[j] == k { PlaceIsRank(rows, ids, j); }
    }
  }

  lemma FewRows(rows: Rows, ids: seq<nat>, n: nat, k: nat)
    requires Among(rows, ids) && NewestFirst(rows, ids) && (forall j | j in rows :: j in ids) && |ids| < n
    ensures !Excess(rows, k, n)
  {
    if k in rows {
      var i :| 0 <= i < |ids| && ids[i] == k;
      PlaceIsRank(rows, ids, i);
    }
  }

  /** The newest few; 25 when no number is given. */
  method DBBackups(rows: Rows, limit: int) returns (ids: seq<nat>)
    ensures Among(rows, ids) && NewestFirst(rows, ids)
    ensures forall k :: k in ids <==> k in rows && !Excess(rows, k, if limit <= 0 then 25 else limit)
    ensures forall i, j | 0 <= i < j < |ids| :: rows[ids[i]].ts > rows[ids[j]].ts || (rows[ids[i]].ts == rows[ids[j]].ts && ids[i] > ids[j])
  {
    var all := Listing(rows);
    var n := if limit <= 0 then 25 else limit;
    ids := if |all| < n then all else all[..n];
    forall k ensures k in ids <==> k in rows && !Excess(rows, k, n) {
      if |all| < n { FewRows(rows, all, n, k); } else { FrontAndRest(rows, all, n, k); }
    }
  }

  /** The copies past the newest few, at least one of which is always kept; newest first. */
  method ExcessDBBackups(rows: Rows, keep: int) returns (ids: seq<nat>)
    ensures Among(rows, ids) && NewestFirst(rows, ids)
    ensures forall k :: k in ids <==> Excess(rows, k, if keep < 1 then 1 else keep)
    ensures forall i, j | 0 <= i < j < |ids| :: rows[ids[i]].ts > rows[ids[j]].ts || (rows[ids[i]].ts == rows[ids[j]].ts && ids[i] > ids[j])
  {
    var all := Listing(rows);
    var n := if keep < 1 then 1 else keep;
    ids := if |all| < n then [] else all[n..];
    forall k ensures k in ids <==> Excess(rows, k, n) {
      if |all| < n { FewRows(rows, all, n, k); } else { FrontAndRest(rows, all, n, k); }
    }
  }

  /** The names a copy taken now may get: the stamp, then the stamp with a number. None is named by a row whose
      copy is gone, which is what the stamp is for. */
  predicate Stamped(v: Vault, names: seq<Name>) {
    forall i, k | 0 <= i < |names| && k in v.rows && v.rows[k].path == names[i] :: names[i] in v.copies
  }

  ghost predicate AllExcess(rows: Rows, ids: seq<nat>, from: nat, keep: nat) { forall i | from <= i < |ids| :: Excess(rows, ids[i], keep) }

  /** No row but these, and none of their files, was touched. */
  ghost predicate Spared(was: Rows, wasCopies: map<Name, FileOnDisk>, rows: Rows, copies: map<Name, FileOnDisk>, tried: seq<nat>) {
    && (forall k | k in rows :: k in was && rows[k] == was[k])
    && (forall k | k in was && k !in tried :: k in rows)
    && (forall k | k in was && k !in tried && was[k].path in wasCopies ::
          was[k].path in copies && copies[was[k].path] == wasCopies[was[k].path])
  }

  lemma SparedNext(was: Rows, wasCopies: map<Name, FileOnDisk>, rows: Rows, copies: map<Name, FileOnDisk>, tried: seq<nat>,
                   k: nat, rows': Rows, copies': map<Name, FileOnDisk>)
    requires Spared(was, wasCopies, rows, copies, tried) && PathsDistinct(was) && k in rows
    requires rows' == rows || rows' == rows - {k}
    requires copies' == copies || copies' == copies - {rows[k].path}
    ensures Spared(was, wasCopies, rows', copies', tried + [k])
  {}

  lemma SparedUpTo(was: Rows, wasCopies: map<Name, FileOnDisk>, rows: Rows, copies: map<Name, FileOnDisk>, ids: seq<nat>, i: nat,
                   rows': Rows, copies': map<Name, FileOnDisk>)
    requires i < |ids| && Spared(was, wasCopies, rows, copies, ids[..i]) && PathsDistinct(was) && ids[i] in rows
    requires rows' == rows || rows' == rows - {ids[i]}
    requires copies' == copies || copies' == copies - {rows[ids[i]].path}
    ensures Spared(was, wasCopies, rows', copies', ids[..i + 1])
  {
    SparedNext(was, wasCopies, rows, copies, ids[..i], ids[i], rows', copies');
    assert ids[..i + 1] == ids[..i] + [ids[i]];
  }

  /** Letting one of them go, or not, leaves the later ones past the newest few. */
  lemma StillExcess(rows: Rows, rows': Rows, ids: seq<nat>, i: nat, keep: nat)
    requires i < |ids| && AllExcess(rows, ids, i, keep) && (rows' == rows || rows' == rows - {ids[i]})
    requires forall j | i < j < |ids| :: ids[j] != ids[i]
    ensures AllExcess(rows', ids, i + 1, keep)
  {
    forall j | i + 1 <= j < |ids| ensures Excess(rows', ids[j], keep) {
      if rows' != rows { DropKeepsNewer(rows, ids[i], keep, rows[ids[j]].ts, ids[j]); }
    }
  }

  /** A history continues another. */
  ghost predicate Goes(r: Run, r': Run) { r.steps <= r'.steps && r.states <= r'.states }

  ghost predicate HeldSoFar(r: Run, keep: nat, v: Vault) {
    forall i: nat | i < |r.steps| && i < |r.states| && r.steps[i].Place? && Unwritten(r, i) && r.states[i].local.Some? ::
      r.states[i].phase.Kept? && Held(v, keep, r.states[i].phase.id, r.states[i].phase.ts, r.states[i].local.value)
  }

  lemma RecordHolds(r: Run, keep: nat)
    requires Recorded(r, keep)
    ensures HeldSoFar(r, keep, r.states[|r.steps|])
  {
    RecordedIsRun(r, keep);
    forall i: nat | i < |r.steps| && r.steps[i].Place? && Unwritten(r, i) && r.states[i].local.Some?
      ensures r.states[i].phase.Kept? && Held(r.states[|r.steps|], keep, r.states[i].phase.id, r.states[i].phase.ts, r.states[i].local.value)
    {
      DisplacedIsHeld(r, keep, i, |r.steps|);
    }
  }

  /** What the file system and the store refuse on the way: to stage the new file, to copy and record the old one, to rename. */
  datatype Trouble = Trouble(stage: bool, keep: bool, place: bool)

  class Keeper {
    const keep: nat
    var rows: Rows
    var copies: map<Name, FileOnDisk>
    var local: Option<FileOnDisk>
    ghost var phase: Phase
    ghost var run: Run

    ghost function View(): Vault
      reads this
    {
      Vault(rows, copies, local, phase)
    }

    ghost predicate Valid()
      reads this
    {
      Recorded(run, keep) && run.states[|run.steps|] == View() && Inv(View(), keep)
    }

    /** Every database this keeper displaced unwritten is held, unless that many newer copies exist. */
    ghost predicate AllHeld()
      reads this
    {
      HeldSoFar(run, keep, View())
    }

    constructor (keep: nat, rows: Rows, copies: map<Name, FileOnDisk>, local: Option<FileOnDisk>)
      requires PathsDistinct(rows) && TopIntact(Vault(rows, copies, local, Quiet), keep)
      ensures Valid() && View() == Vault(rows, copies, local, Quiet) && this.keep == keep && run.steps == []
    {
      this.keep, this.rows, this.copies, this.local, this.phase := keep, rows, copies, local, Quiet;
      this.run := Run([Vault(rows, copies, local, Quiet)], []);
    }

    ghost method Took(st: Step, before: Vault)
      requires Recorded(run, keep) && run.states[|run.steps|] == before && Inv(before, keep)
      requires Enabled(before, st, keep) && View().(phase := phase) == Apply(before, st, keep).(phase := phase)
      modifies this`run, this`phase
      ensures Valid() && phase == Apply(before, st, keep).phase && Goes(old(run), run)
    {
      StepKeeps(before, st, keep);
      phase := Apply(before, st, keep).phase;
      H.Longer(run.states, run.steps, st, View(), Begins(keep), Takes(keep));
      run := Run(run.states + [View()], run.steps + [st]);
    }

    /** The first free name. */
    method BackupName(names: seq<Name>) returns (name: Option<Name>)
      requires Valid() && Stamped(View(), names)
      ensures name.Some? ==> name.value in names && Free(View(), name.value)
      ensures name.Some? ==> exists i :: 0 <= i < |names| && names[i] == name.value && forall j | 0 <= j < i :: names[j] in copies
      ensures name.None? <==> AllTaken(names, copies)
    {
      for i := 0 to |names|
        invariant forall j | 0 <= j < i :: names[j] in copies
      {
        if names[i] !in copies {
          return Some(names[i]);
        }
      }
      name := None;
    }

    /** Keeps a copy of what is in place, if anything is; on an error nothing was recorded. */
    method BackupDatabase(names: seq<Name>, id: nat, ts: int, fails: bool) returns (ok: bool)
      requires Valid() && phase.Quiet? && Stamped(View(), names) && id !in rows
      modifies this
      ensures Goes(old(run), run)
      ensures Valid() && local == old(local)
      ensures ok <==> old(local).None? || (!fails && !AllTaken(names, old(copies)))
      ensures ok && old(local).None? ==> phase.NothingThere? && rows == old(rows) && copies == old(copies)
      ensures ok && old(local).Some? ==>
                && phase == Kept(id, ts, local.value) && Intact(View(), id, ts, local.value)
                && rows.Keys == old(rows.Keys) + {id} && forall k | k in old(rows) :: rows[k] == old(rows[k])
      ensures !ok ==> phase.Quiet? && rows == old(rows)
      ensures forall p | p in old(copies) :: p in copies && copies[p] == old(copies[p])
    {
      if local.None? {
        Took(Skip, View());
        return true;
      }
      var name := BackupName(names);
      if name.None? {
        return false;
      }
      ghost var before := View();
      copies := copies[name.value := local.value];
      Took(Copy(name.value), before);
      if fails {
        Took(Stop, View());
        return false;
      }
      AddDBBackup(id, ts, name.value);
      ok := true;
    }

    /** Records the copy just taken: its size, hash and timestamp to the millisecond. */
    method AddDBBackup(id: nat, ts: int, path: Name)
      requires Valid() && id !in rows && local.Some? && phase == Copied(path, local.value)
      modifies this
      ensures Goes(old(run), run)
      ensures Valid() && local == old(local) && copies == old(copies) && rows == old(rows)[id := RowFor(ts, path, local.value)]
      ensures phase == Kept(id, ts, local.value) && Intact(View(), id, ts, local.value)
    {
      EnteredIsIntact(View(), keep, id, ts);
      ghost var before := View();
      rows := rows[id := RowFor(ts, path, local.value)];
      Took(Enter(id, ts), before);
    }

    /** Lets one old copy go: the file, then its row. A file that will not go keeps its row. */
    method Forget(k: nat) returns (gone: bool)
      requires Valid() && phase.Quiet? && Excess(rows, k, keep)
      modifies this
      ensures Goes(old(run), run)
      ensures Valid() && phase.Quiet? && local == old(local)
      ensures rows == if gone then old(rows) - {k} else old(rows)
      ensures copies == old(copies) - {old(rows[k].path)} || (!gone && copies == old(copies))
    {
      var fails: bool := *;
      if fails {
        return false;
      }
      ghost var before := View();
      copies := copies - {rows[k].path};
      Took(RemoveCopy(k), before);
      fails := *;
      if fails {
        return false;
      }
      before := View();
      rows := rows - {k};
      Took(DropRow(k), before);
      gone := true;
    }

    /** Keeps the newest few. Whatever fails on the way, none of those is touched, nor is its file. */
    method PruneBackups() returns (clean: bool)
      requires Valid() && phase.Quiet? && 1 <= keep
      modifies this
      ensures Goes(old(run), run)
      ensures Valid() && phase.Quiet? && local == old(local)
      ensures forall k | k in rows :: k in old(rows) && rows[k] == old(rows[k])
      ensures forall k | k in old(rows) && !Excess(old(rows), k, keep) ::
                k in rows && (rows[k].path in old(copies) ==> rows[k].path in copies && copies[rows[k].path] == old(copies[rows[k].path]))
      ensures clean ==> forall k | k in old(rows) :: k in rows <==> !Excess(old(rows), k, keep)
      ensures AllHeld()
    {
      var excess := ExcessDBBackups(rows, keep);
      assert forall j | 0 <= j < |excess| :: excess[j] in excess;
      clean := ForgetAll(excess);
      RecordHolds(run, keep);
    }

    method ForgetNext(excess: seq<nat>, i: nat, ghost was: Rows, ghost wasCopies: map<Name, FileOnDisk>) returns (gone: bool)
      requires Valid() && phase.Quiet? && i < |excess| && AllExcess(rows, excess, i, keep) && PathsDistinct(was)
      requires forall j | i < j < |excess| :: excess[j] != excess[i]
      requires Spared(was, wasCopies, rows, copies, excess[..i])
      modifies this
      ensures Goes(old(run), run)
      ensures Valid() && phase.Quiet? && local == old(local)
      ensures Spared(was, wasCopies, rows, copies, excess[..i + 1]) && AllExcess(rows, excess, i + 1, keep)
      ensures (forall k | k in rows :: k in old(rows)) && (gone ==> excess[i] !in rows)
    {
      ghost var rows0, copies0 := rows, copies;
      gone := Forget(excess[i]);
      StillExcess(rows0, rows, excess, i, keep);
      SparedUpTo(was, wasCopies, rows0, copies0, excess, i, rows, copies);
    }

    /** One old copy after the other; one that will not go is stepped over. */
    method ForgetAll(excess: seq<nat>) returns (clean: bool)
      requires Valid() && phase.Quiet? && AllExcess(rows, excess, 0, keep)
      requires forall i, j | 0 <= i < j < |excess| :: excess[i] != excess[j]
      modifies this
      ensures Goes(old(run), run)
      ensures Valid() && phase.Quiet? && local == old(local)
      ensures Spared(old(rows), old(copies), rows, copies, excess)
      ensures clean ==> forall k | k in excess :: k !in rows
    {
      ghost var was, wasCopies := rows, copies;
      clean := true;
      for i := 0 to |excess|
        invariant Valid() && phase.Quiet? && local == old(local) && Goes(old(run), run)
        invariant Spared(was, wasCopies, rows, copies, excess[..i]) && AllExcess(rows, excess, i, keep)
        invariant clean ==> forall j | 0 <= j < i :: excess[j] !in rows
      {
        var gone := ForgetNext(excess, i, was, wasCopies);
        clean := clean && gone;
      }
      assert excess[..|excess|] == excess;
    }

    /** What an operator named: an id, or else the newest copy. */
    method PickBackup(named: Option<nat>) returns (k: Option<nat>)
      ensures k.Some? ==> k.value in rows && (named.Some? ==> k == named)
      ensures k.Some? && named.None? ==> Newer(rows, rows[k.value].ts, k.value) == {}
      ensures k.None? <==> if named.Some? then named.value !in rows else rows == map[]
      ensures k.Some? && named.None? ==>
                forall j | j in rows && j != k.value :: rows[j].ts < rows[k.value].ts || (rows[j].ts == rows[k.value].ts && j < k.value)
    {
      if named.Some? {
        return if named.value in rows then named else None;
      }
      var ids := DBBackups(rows, 1);
      k := if ids == [] then None else Some(ids[0]);
      if ids == [] {
        var all := Listing(rows);
        if all != [] { PlaceIsRank(rows, all, 0); }
      } else {
        assert ids[0] in ids;
      }
      if k.Some? && named.None? {
        forall j | j in rows && j != k.value ensures rows[j].ts < rows[k.value].ts || (rows[j].ts == rows[k.value].ts && j < k.value) {
          assert j !in Newer(rows, rows[k.value].ts, k.value);
        }
      }
    }

    /** The last two steps of every replacement: keep what is in place, then put the new one there. */
    method KeepAndPlace(file: FileOnDisk, names: seq<Name>, id: nat, ts: int, io: Trouble) returns (ok: bool)
      requires Valid() && phase.Quiet? && Stamped(View(), names) && id !in rows
      modifies this
      ensures Goes(old(run), run)
      ensures Valid() && phase.Quiet?
      ensures ok <==> (old(local).None? || (!io.keep && !AllTaken(names, old(copies)))) && !io.place
      ensures local == if ok then Some(file) else old(local)
      ensures ok && old(local).Some? ==> Intact(View(), id, ts, old(local.value))
      ensures forall p | p in old(copies) :: p in copies && copies[p] == old(copies[p])
      ensures forall k | k in old(rows) :: k in rows && rows[k] == old(rows[k])
    {
      ok := BackupDatabase(names, id, ts, io.keep);
      if !ok {
        return;
      }
      if io.place {
        Took(Stop, View());
        return false;
      }
      ghost var before := View();
      local := Some(file);
      Took(Place(file), before);
    }

    /** Puts this copy back if it is what was recorded of it and nothing is in the way: all of this, and nothing less. */
    method RollbackTo(k: nat, names: seq<Name>, id: nat, ts: int, io: Trouble) returns (ok: bool)
      requires Valid() && phase.Quiet? && Stamped(View(), names) && id !in rows && k in rows
      modifies this
      ensures Goes(old(run), run)
      ensures Valid() && phase.Quiet?
      ensures ok <==>
                && old(rows)[k].path in old(copies) && |old(copies)[old(rows)[k].path].bytes| == old(rows)[k].size
                && Sha(old(copies)[old(rows)[k].path].bytes) == old(rows)[k].hash
                && !io.stage && !io.place && (old(local).None? || (!io.keep && !AllTaken(names, old(copies))))
      ensures ok ==> local == Some(FileOnDisk(old(copies)[old(rows)[k].path].bytes, old(rows)[k].mtime * 1_000_000))
      ensures ok ==> local == old(Restored(View(), k)) && Restored(View(), k) == old(Restored(View(), k))
      ensures ok && old(local).Some? ==> Restored(View(), id) == Some(Floored(old(local.value)))
      ensures !ok ==> local == old(local)
    {
      var b := rows[k];
      if b.path !in copies || !Verified(b, copies[b.path]) || io.stage {
        return false;
      }
      ok := KeepAndPlace(FileOnDisk(copies[b.path].bytes, b.mtime * NANOS), names, id, ts, io);
    }

    /** Puts a kept copy back, exactly if there is one to put back that is what was recorded of it, the lock here allows it
        and nothing is in the way. What it displaces can be restored from the copy taken of it: the bytes exactly, the
        timestamp to the millisecond. */
    method RollbackDatabase(named: Option<nat>, held: bool, force: bool, names: seq<Name>, id: nat, ts: int, io: Trouble)
      returns (done: Option<nat>)
      requires Valid() && phase.Quiet? && Stamped(View(), names) && id !in rows
      modifies this
      ensures Goes(old(run), run)
      ensures Valid() && phase.Quiet?
      ensures done.Some? <==> (exists k :: Restorable(old(rows), old(copies), named, k)) && (!held || force)
                              && !io.stage && !io.place && (old(local).None? || (!io.keep && !AllTaken(names, old(copies))))
      ensures done.Some? ==> Restorable(old(rows), old(copies), named, done.value)
      ensures done.Some? ==> local == Some(FileOnDisk(old(copies)[old(rows)[done.value].path].bytes, old(rows)[done.value].mtime * 1_000_000))
      ensures done.Some? ==> local == old(Restored(View(), done.value)) && Restored(View(), done.value) == old(Restored(View(), done.value))
      ensures done.Some? && old(local).Some? ==> Restored(View(), id) == Some(Floored(old(local.value)))
      ensures done.None? ==> local == old(local)
      ensures AllHeld()
    {
      var k := PickBackup(named);
      PickedOrNone(rows, copies, named, k);
      done := None;
      if k.Some? && (!held || force) {
        var ok := RollbackTo(k.value, names, id, ts, io);
        done := if ok then k else None;
      }
      RecordHolds(run, keep);
    }
  }

  predicate AllTaken(names: seq<Name>, copies: map<Name, FileOnDisk>) { forall i | 0 <= i < |names| :: names[i] in copies }

  /** The row that was named, or the newest when none was, with a copy of the recorded size and hash. */
  ghost predicate Restorable(rows: Rows, copies: map<Name, FileOnDisk>, named: Option<nat>, k: nat) {
    && k in rows && (if named.Some? then k == named.value else Newer(rows, rows[k].ts, k) == {})
    && rows[k].path in copies && |copies[rows[k].path].bytes| == rows[k].size && Sha(copies[rows[k].path].bytes) == rows[k].hash
  }

  lemma OneNewest(rows: Rows, a: nat, b: nat)
    requires a in rows && b in rows && Newer(rows, rows[a].ts, a) == {} && Newer(rows, rows[b].ts, b) == {}
    ensures a == b
  {
    assert a !in Newer(rows, rows[b].ts, b) && b !in Newer(rows, rows[a].ts, a);
  }

  lemma PickedOrNone(rows: Rows, copies: map<Name, FileOnDisk>, named: Option<nat>, picked: Option<nat>)
    requires picked.Some? ==> picked.value in rows && if named.Some? then picked == named else Newer(rows, rows[picked.value].ts, picked.value) == {}
    requires picked.None? ==> if named.Some? then named.value !in rows else rows == map[]
    ensures (exists k :: Restorable(rows, copies, named, k)) <==> picked.Some? && Restorable(rows, copies, named, picked.value)
  {
    if k: nat :| Restorable(rows, copies, named, k) {
      if named.None? { OneNewest(rows, k, picked.value); }
    }
  }
}
