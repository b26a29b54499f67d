/** A plan carried out leaves nothing to plan: queue, transfer, delete, and the next diff is empty
    (engine/diff.go, engine/transfer.go, engine/reap.go). */
module Convergence {
  import opened Base
  import opened Jobs
  import opened Machine
  import opened Plan
  import R = Resume
  import D = Deletion

  function RowOf(v: Version): FileRow { FileRow(v.size, v.mtime) }

  ghost predicate Landed(s: Sys, m: Manifest, p: Path)
    requires p in m
  {
    p in s.files && s.files[p] == RowOf(m[p])
  }

  /** A row still stands for this file. */
  ghost predicate Waiting(rows: Rows, p: Path) { exists k :: k in rows && Live(rows[k]) && rows[k].path == p }

  /** Unfinished rows are of the plan's versions, and so is the attempt in flight. */
  ghost predicate OfThePlan(s: Sys, m: Manifest, wanted: set<Path>) {
    && wanted <= m.Keys
    && (forall k | k in s.rows && Live(s.rows[k]) :: s.rows[k].path in wanted && s.rows[k].version == m[s.rows[k].path])
    && (s.att.Some? ==>
          var a := s.att.value;
          && a.k in s.rows && s.rows[a.k].path == a.job.path && Live(s.rows[a.k]) && s.rows[a.k].version == a.job.version
          && (a.phase.Recorded? ==> a.job.path in m && Landed(s, m, a.job.path)))
  }

  /** Every wanted file has landed or still has its row; nothing else in local truth has moved. */
  ghost predicate OnTheWay(s: Sys, m: Manifest, wanted: set<Path>, before: Truth) {
    && OfThePlan(s, m, wanted)
    && (forall p | p in wanted :: Landed(s, m, p) || Waiting(s.rows, p))
    && (forall p | p !in wanted :: (p in s.files <==> p in before) && (p in before ==> s.files[p] == before[p]))
  }

  /** A step that leaves every row its path, its version and whether it is unfinished, and local truth alone. */
  lemma QuietStep(s: Sys, s': Sys, m: Manifest, wanted: set<Path>, before: Truth)
    requires OnTheWay(s, m, wanted, before) && s'.files == s.files && s'.rows.Keys == s.rows.Keys
    requires forall k | k in s.rows ::
               s'.rows[k].path == s.rows[k].path && s'.rows[k].version == s.rows[k].version && (Live(s'.rows[k]) <==> Live(s.rows[k]))
    requires s'.att.Some? ==> s.att.Some? && s'.att.value.k == s.att.value.k && s'.att.value.job == s.att.value.job
                              && (s'.att.value.phase.Recorded? ==> s.att.value.phase.Recorded?)
    ensures OnTheWay(s', m, wanted, before)
  {
    forall p | p in wanted ensures Landed(s', m, p) || Waiting(s'.rows, p) {
      if !Landed(s, m, p) {
        var k :| k in s.rows && Live(s.rows[k]) && s.rows[k].path == p;
        assert k in s'.rows && Live(s'.rows[k]) && s'.rows[k].path == p;
      }
    }
  }

  lemma InsideSteps(s: Sys, st: Step, o: Options, pub: Publisher, m: Manifest, wanted: set<Path>, before: Truth)
    requires o.Filled() && OnTheWay(s, m, wanted, before) && Enabled(s, st, o, pub)
    requires st.OpenPart? || st.BeginFetch? || st.Receive? || st.RoundDone? || st.StopFetch? || st.Verify? || st.Truncate? || st.Move?
    ensures OnTheWay(Apply(s, st, o, pub), m, wanted, before)
  {
    QuietStep(s, Apply(s, st, o, pub), m, wanted, before);
  }

  lemma OutsideSteps(s: Sys, st: Step, o: Options, pub: Publisher, m: Manifest, wanted: set<Path>, before: Truth)
    requires o.Filled() && OnTheWay(s, m, wanted, before) && Enabled(s, st, o, pub)
    requires st.Shorten? || st.Lose? || st.Outside?
    ensures OnTheWay(Apply(s, st, o, pub), m, wanted, before)
  {
    QuietStep(s, Apply(s, st, o, pub), m, wanted, before);
  }

  lemma UnsettledSteps(s: Sys, st: Step, o: Options, pub: Publisher, m: Manifest, wanted: set<Path>, before: Truth)
    requires o.Filled() && OnTheWay(s, m, wanted, before) && Enabled(s, st, o, pub)
    requires st.Requeue? || st.Fail? || st.Release? || st.Die?
    ensures OnTheWay(Apply(s, st, o, pub), m, wanted, before)
  {
    QuietStep(s, Apply(s, st, o, pub), m, wanted, before);
  }

  lemma ClaimStep(s: Sys, k: nat, now: int, m: Manifest, wanted: set<Path>, before: Truth)
    requires OnTheWay(s, m, wanted, before) && CanClaim(s, k, now)
    ensures OnTheWay(DoClaim(s, k, now), m, wanted, before)
  {
    var s' := DoClaim(s, k, now);
    QuietStep(s, s'.(att := None), m, wanted, before);
  }

  lemma RecordStep(s: Sys, m: Manifest, wanted: set<Path>, before: Truth)
    requires OnTheWay(s, m, wanted, before) && s.att.Some?
    ensures OnTheWay(DoRecord(s), m, wanted, before)
  {
    var s', p := DoRecord(s), s.att.value.job.path;
    assert p in wanted && Landed(s', m, p);
    forall q | q in wanted && q != p ensures Landed(s', m, q) || Waiting(s'.rows, q) {
      assert Landed(s, m, q) || Waiting(s.rows, q);
    }
  }

  lemma FinishStep(s: Sys, now: int, m: Manifest, wanted: set<Path>, before: Truth)
    requires OnTheWay(s, m, wanted, before) && CanFinish(s)
    ensures OnTheWay(DoFinish(s, now), m, wanted, before)
  {
    var s', p := DoFinish(s, now), s.att.value.job.path;
    forall q | q in wanted ensures Landed(s', m, q) || Waiting(s'.rows, q) {
      if q != p && !Landed(s, m, q) {
        var k :| k in s.rows && Live(s.rows[k]) && s.rows[k].path == q;
        assert k in s'.rows && Live(s'.rows[k]) && s'.rows[k].path == q;
      }
    }
  }

  lemma LandingSteps(s: Sys, st: Step, o: Options, pub: Publisher, m: Manifest, wanted: set<Path>, before: Truth)
    requires o.Filled() && OnTheWay(s, m, wanted, before) && Enabled(s, st, o, pub)
    requires st.Adopt? || st.Record? || st.Finish?
    ensures OnTheWay(Apply(s, st, o, pub), m, wanted, before)
  {
    if st.Finish? { FinishStep(s, st.now, m, wanted, before); } else { RecordStep(s, m, wanted, before); }
  }

  lemma ClaimingStep(s: Sys, st: Step, o: Options, pub: Publisher, m: Manifest, wanted: set<Path>, before: Truth)
    requires o.Filled() && OnTheWay(s, m, wanted, before) && Enabled(s, st, o, pub) && st.Claim?
    ensures OnTheWay(Apply(s, st, o, pub), m, wanted, before)
  {
    ClaimStep(s, st.k, st.now, m, wanted, before);
  }

  lemma StepStaysOnTheWay(s: Sys, st: Step, o: Options, pub: Publisher, m: Manifest, wanted: set<Path>, before: Truth)
    requires o.Filled() && OnTheWay(s, m, wanted, before) && Enabled(s, st, o, pub) && !R.Plans(st)
    ensures OnTheWay(Apply(s, st, o, pub), m, wanted, before)
  {
    if st.Claim? {
      ClaimingStep(s, st, o, pub, m, wanted, before);
    } else if st.Adopt? || st.Record? || st.Finish? {
      LandingSteps(s, st, o, pub, m, wanted, before);
    } else if st.Requeue? || st.Fail? || st.Release? || st.Die? {
      UnsettledSteps(s, st, o, pub, m, wanted, before);
    } else if st.Shorten? || st.Lose? || st.Outside? {
      OutsideSteps(s, st, o, pub, m, wanted, before);
    } else {
      InsideSteps(s, st, o, pub, m, wanted, before);
    }
  }

  lemma {:induction false} RunStaysOnTheWay(r: R.Run, o: Options, pub: Publisher, m: Manifest, wanted: set<Path>, n: nat)
    requires o.Filled() && R.IsRun(r, o, pub) && n < |r.states|
    requires QueueIsPlan(r.states[0].rows, m, wanted) && r.states[0].att.None?
    requires R.Unplanned(r)
    ensures OnTheWay(r.states[n], m, wanted, r.states[0].files)
  {
    if n == 0 {
      var s := r.states[0];
      forall p | p in wanted ensures Waiting(s.rows, p) {
        assert Queued(s.rows, p, m[p]);
        var k :| OpenFor(s.rows, p, k) && s.rows[k].version == m[p];
      }
    } else {
      RunStaysOnTheWay(r, o, pub, m, wanted, n - 1);
      StepStaysOnTheWay(r.states[n - 1], r.steps[n - 1], o, pub, m, wanted, r.states[0].files);
    }
  }

  /** Every job ended done. */
  ghost predicate AllDone(rows: Rows) { forall k | k in rows :: rows[k].state.Done? }

  /** Local truth with the files to delete gone, and nothing else changed. */
  ghost predicate Reaped(m: Manifest, f: Truth, f': Truth, s: Scope) {
    f'.Keys == f.Keys - Deletes(m, f, s).Keys && forall p | p in f' :: f'[p] == f[p]
  }

  /** Convergence. A queue that is the plan, any run of transfers - deaths, retries and interruptions included - after
      which every job is done, and a deletion without failures: the next plan queues and deletes nothing, and for a raw pair
      it wants nothing at all. */
  lemma Converges(r: R.Run, o: Options, pub: Publisher, m: Manifest, s: Scope, f: Truth)
    requires o.Filled() && R.IsRun(r, o, pub) && r.states[0].att.None?
    requires QueueIsPlan(r.states[0].rows, m, Transfers(m, r.states[0].files, s))
    requires R.Unplanned(r) && AllDone(r.states[|r.steps|].rows) && Reaped(m, r.states[|r.steps|].files, f, s)
    ensures Transfers(m, f, s) == {} && Deletes(m, f, s) == map[]
    ensures s.gated.None? ==> CountsOf(m, f, s) == NONE
  {
    var f0, n := r.states[0].files, |r.steps|;
    var wanted := Transfers(m, f0, s);
    RunStaysOnTheWay(r, o, pub, m, wanted, n);
    forall p | p in m && s.allows(p) && s.gated != Some(p) ensures !Changed(m, f, s, p) {
      if p in wanted {
        assert Landed(r.states[n], m, p) || Waiting(r.states[n].rows, p);
      }
    }
    if s.gated.None? { NothingLeft(m, f, s); }
  }

  lemma NothingLeft(m: Manifest, f: Truth, s: Scope)
    requires Transfers(m, f, s) == {} && Deletes(m, f, s) == map[] && s.gated.None?
    ensures CountsOf(m, f, s) == NONE
  {
    forall p | p in m ensures !Fetches(m, f, s, p) { assert p !in Transfers(m, f, s); }
    assert Adds(m, f, s) == map[] && Replaces(m, f, s) == map[];
  }

  /** What the deletion pass is after is what the plan would delete. */
  lemma PassDeletesThePlan(m: Manifest, f: Truth, s: Scope, gated: Path)
    requires if s.gated.Some? then gated == s.gated.value else gated !in f
    ensures (set p | p in D.Vanished(f, m.Keys) && s.allows(p) && p != gated) == Deletes(m, f, s).Keys
  {}
}
