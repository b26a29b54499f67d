/** Retry accounting: what the attempts column counts, over every run of the transfer machine. */
module Accounting {
  import opened Base
  import opened Jobs
  import opened Machine
  import opened Resume

  /** attempts = failures + deaths since the row was queued or revived, plus the one in flight (or the one
      that succeeded); a row is failed only once that has used the budget up. */
  ghost predicate Accounted(s: Sys, o: Options) {
    && (forall k | k in s.rows :: k in s.acct)
    && (forall k | k in s.rows ::
          s.rows[k].attempts == s.acct[k].failures + s.acct[k].deaths + (if InFlight(s, k) || s.rows[k].state.Done? then 1 else 0))
    && (forall k | k in s.rows && s.rows[k].state.Failed? ::
          o.maxAttempts <= s.acct[k].failures + s.acct[k].deaths)
  }

  /** The attempt in flight is on a row that is running or being verified. */
  ghost predicate Attached(s: Sys) {
    s.att.Some? ==> s.att.value.k in s.rows && (s.rows[s.att.value.k].state.Running? || s.rows[s.att.value.k].state.Verifying?)
  }

  /** A step inside an attempt that neither ends it nor touches the attempts. */
  lemma QuietStep(s: Sys, s': Sys, o: Options)
    requires Accounted(s, o) && Attached(s) && s.att.Some? && s'.att.Some? && s'.att.value.k == s.att.value.k
    requires s'.acct == s.acct && s'.rows.Keys == s.rows.Keys
    requires forall k | k in s.rows :: s'.rows[k].attempts == s.rows[k].attempts
    requires forall k | k in s.rows && k != s.att.value.k :: s'.rows[k].state == s.rows[k].state
    requires s'.rows[s.att.value.k].state.Running? || s'.rows[s.att.value.k].state.Verifying?
    ensures Accounted(s', o) && Attached(s')
  {}

  lemma EnqueueAccounts(s: Sys, k: nat, p: Path, op: Op, v: Version, now: int, o: Options)
    requires Accounted(s, o) && CanEnqueue(s, k, p)
    ensures Accounted(DoEnqueue(s, k, p, op, v, now), o)
  {
    var s' := DoEnqueue(s, k, p, op, v, now);
    assert s.att.None? && k in s'.rows && k in s'.acct && !s'.rows[k].state.Failed? && !s'.rows[k].state.Done?;
    forall j | j in s'.rows && j != k ensures j in s.rows && s'.rows[j] == s.rows[j] && s'.acct[j] == s.acct[j] {}
  }

  lemma SettleAccounts(s: Sys, wait: int, now: int, o: Options)
    requires Accounted(s, o) && Attached(s) && CanSettle(s)
    ensures Accounted(DoFail(s, o, wait, now), o)
    ensures Accounted(DoRelease(s, now), o)
    ensures DoRelease(s, now).rows[s.att.value.k].attempts == s.rows[s.att.value.k].attempts - 1
    ensures DoFail(s, o, wait, now).rows[s.att.value.k].state.Failed? <==> o.maxAttempts <= s.rows[s.att.value.k].attempts
  {}

  lemma QuietSteps(s: Sys, st: Step, o: Options, pub: Publisher)
    requires o.Filled() && Accounted(s, o) && Attached(s) && Enabled(s, st, o, pub)
    requires st.Adopt? || st.OpenPart? || st.BeginFetch? || st.Receive? || st.RoundDone? || st.StopFetch?
    ensures var s' := Apply(s, st, o, pub); Accounted(s', o) && Attached(s')
  {
    QuietStep(s, Apply(s, st, o, pub), o);
  }

  lemma LandingSteps(s: Sys, st: Step, o: Options, pub: Publisher)
    requires o.Filled() && Accounted(s, o) && Attached(s) && Enabled(s, st, o, pub)
    requires st.Verify? || st.Truncate? || st.Move? || st.Record?
    ensures var s' := Apply(s, st, o, pub); Accounted(s', o) && Attached(s')
  {
    QuietStep(s, Apply(s, st, o, pub), o);
  }

  lemma OutsideSteps(s: Sys, st: Step, o: Options, pub: Publisher)
    requires o.Filled() && Accounted(s, o) && Attached(s) && Enabled(s, st, o, pub)
    requires st.Shorten? || st.Lose? || st.Outside?
    ensures var s' := Apply(s, st, o, pub); Accounted(s', o) && Attached(s')
  {
    SameAccounts(s, Apply(s, st, o, pub), o);
  }

  lemma SameAccounts(s: Sys, s': Sys, o: Options)
    requires Accounted(s, o) && Attached(s) && s'.rows == s.rows && s'.acct == s.acct && s'.att == s.att
    ensures Accounted(s', o) && Attached(s')
  {}

  lemma IdleSteps(s: Sys, st: Step, o: Options, pub: Publisher)
    requires o.Filled() && Accounted(s, o) && Attached(s) && Enabled(s, st, o, pub) && (st.DropFailed? || st.Requeue?)
    ensures var s' := Apply(s, st, o, pub); Accounted(s', o) && Attached(s')
  {
    if st.DropFailed? {
      DropAccounts(s, st.since, o);
    } else {
      RequeueAccounts(s, st.now, o);
    }
  }

  lemma DropAccounts(s: Sys, since: int, o: Options)
    requires Accounted(s, o) && s.att.None?
    ensures Accounted(DoDropFailed(s, since), o)
  {}

  lemma RequeueAccounts(s: Sys, now: int, o: Options)
    requires Accounted(s, o) && s.att.None?
    ensures Accounted(DoRequeue(s, now), o)
  {}

  lemma ClaimAccounts(s: Sys, k: nat, now: int, o: Options)
    requires Accounted(s, o) && CanClaim(s, k, now)
    ensures Accounted(DoClaim(s, k, now), o) && Attached(DoClaim(s, k, now))
  {}

  lemma EndingAccounts(s: Sys, now: int, o: Options)
    requires Accounted(s, o) && Attached(s) && s.att.Some?
    ensures CanFinish(s) ==> Accounted(DoFinish(s, now), o)
    ensures Accounted(DoDie(s), o)
  {}

  lemma BeginningSteps(s: Sys, st: Step, o: Options, pub: Publisher)
    requires o.Filled() && Accounted(s, o) && Attached(s) && Enabled(s, st, o, pub) && (st.Enqueue? || st.Claim?)
    ensures var s' := Apply(s, st, o, pub); Accounted(s', o) && Attached(s')
  {
    if st.Enqueue? {
      EnqueueAccounts(s, st.k, st.path, st.op, st.v, st.now, o);
    } else {
      ClaimAccounts(s, st.k, st.now, o);
    }
  }

  lemma EndingSteps(s: Sys, st: Step, o: Options, pub: Publisher)
    requires o.Filled() && Accounted(s, o) && Attached(s) && Enabled(s, st, o, pub) && (st.Finish? || st.Die?)
    ensures var s' := Apply(s, st, o, pub); Accounted(s', o) && Attached(s')
  {
    EndingAccounts(s, if st.Finish? then st.now else 0, o);
  }

  lemma SettlingSteps(s: Sys, st: Step, o: Options, pub: Publisher)
    requires o.Filled() && Accounted(s, o) && Attached(s) && Enabled(s, st, o, pub) && (st.Fail? || st.Release?)
    ensures var s' := Apply(s, st, o, pub); Accounted(s', o) && Attached(s')
  {
    SettleAccounts(s, if st.Fail? then st.wait else 0, st.now, o);
  }

  /** Every step keeps the account. */
  lemma StepAccounts(s: Sys, st: Step, o: Options, pub: Publisher)
    requires o.Filled() && Accounted(s, o) && Attached(s) && Enabled(s, st, o, pub)
    ensures var s' := Apply(s, st, o, pub); Accounted(s', o) && Attached(s')
  {
    if st.Enqueue? || st.Claim? {
      BeginningSteps(s, st, o, pub);
    } else if st.Finish? || st.Die? {
      EndingSteps(s, st, o, pub);
    } else if st.Fail? || st.Release? {
      SettlingSteps(s, st, o, pub);
    } else if st.DropFailed? || st.Requeue? {
      IdleSteps(s, st, o, pub);
    } else if st.Shorten? || st.Lose? || st.Outside? {
      OutsideSteps(s, st, o, pub);
    } else if st.Verify? || st.Truncate? || st.Move? || st.Record? {
      LandingSteps(s, st, o, pub);
    } else {
      QuietSteps(s, st, o, pub);
    }
  }

  lemma {:induction false} RunAccounts(r: Run, o: Options, pub: Publisher, n: nat)
    requires o.Filled() && IsRun(r, o, pub) && r.states[0].rows == map[] && r.states[0].att.None?
    requires n <= |r.steps|
    ensures Accounted(r.states[n], o) && Attached(r.states[n])
  {
    if n > 0 {
      RunAccounts(r, o, pub, n - 1);
      StepAccounts(r.states[n - 1], r.steps[n - 1], o, pub);
    }
  }
}
