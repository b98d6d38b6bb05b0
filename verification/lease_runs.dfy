/** What every run of guarded statements on one task row keeps, for all
    interleavings of callers and all clock readings. */
module LeaseRuns {
  import opened Wrappers
  import T = WorkTask
  import opened TaskRows

  /** A row as CreateImportTask and CreateBundleTask insert it. */
  predicate Fresh(row: Row) {
    && row.status == T.Pending && row.owner == "" && row.epoch == 0
    && row.lease.None? && row.attempts == 0
  }

  datatype Hold = Hold(owner: string, epoch: nat, claim: nat)

  /** rows[i] is the row before steps[i]; callers may be any number of workers
      and operators, and a step that fails its guard leaves the row alone. */
  datatype Run = Run(rows: seq<Row>, steps: seq<Step>) {

    ghost predicate Shape() { |rows| == |steps| + 1 }

    ghost predicate Valid() {
      && Shape()
      && Fresh(rows[0])
      && forall i :: 0 <= i < |steps| ==> rows[i + 1] == Apply(rows[i], steps[i])
    }

    ghost predicate Did(i: nat)
      requires Shape()
    {
      i < |steps| && Succeeds(rows[i], steps[i])
    }

    /** Claims among the first n steps. */
    ghost function Claims(n: nat): nat
      requires Shape() && n <= |steps|
    {
      if n == 0 then 0
      else Claims(n - 1) + if Did(n - 1) && steps[n - 1].ev.Claim? then 1 else 0
    }

    /** Claims among the first n steps that follow the last operator reset. */
    ghost function ClaimsSinceReset(n: nat): nat
      requires Shape() && n <= |steps|
    {
      if n == 0 || (Did(n - 1) && steps[n - 1].ev.RetryFailed?) then 0
      else ClaimsSinceReset(n - 1) + if Did(n - 1) && steps[n - 1].ev.Claim? then 1 else 0
    }

    /** Retries among the first n steps that follow the last operator reset. */
    ghost function RetriesSinceReset(n: nat): nat
      requires Shape() && n <= |steps|
    {
      if n == 0 || (Did(n - 1) && steps[n - 1].ev.RetryFailed?) then 0
      else RetriesSinceReset(n - 1) + if Did(n - 1) && steps[n - 1].ev.Retry? then 1 else 0
    }

    /** The claim that no release has followed yet. */
    ghost function Holder(n: nat): Option<Hold>
      requires Shape() && n <= |steps|
    {
      if n == 0 then None
      else if !Did(n - 1) then Holder(n - 1)
      else if steps[n - 1].ev.Claim? then Some(Hold(steps[n - 1].ev.owner, rows[n].epoch, n - 1))
      else if steps[n - 1].ev.Releases?() then None
      else Holder(n - 1)
    }

    /** Step k renews or binds under the lease (owner, epoch). */
    ghost predicate Extends(k: nat, owner: string, epoch: int)
      requires k < |steps|
    {
      var ev := steps[k].ev;
      (ev.Renew? || ev.Bind?) && ev.owner == owner && ev.epoch == epoch
    }
  }

  // ---- segments -----------------------------------------------------------

  lemma {:induction false} HolderMatchesRow(run: Run, n: nat)
    requires run.Valid() && n <= |run.steps|
    ensures run.rows[n].status == T.Importing <==> run.Holder(n).Some?
    ensures run.rows[n].lease.Some? <==> run.Holder(n).Some?
    ensures run.Holder(n).Some? ==>
              var h := run.Holder(n).value;
              && h.claim < n && run.Did(h.claim)
              && run.steps[h.claim].ev.Claim? && run.steps[h.claim].ev.owner == h.owner
              && run.rows[h.claim + 1].epoch == h.epoch == run.rows[n].epoch
              && run.rows[n].owner == h.owner
              && run.rows[n].attempts == run.rows[h.claim + 1].attempts
              && forall k :: h.claim < k < n && run.Did(k) ==> run.Extends(k, h.owner, h.epoch)
  {
    if n > 0 {
      HolderMatchesRow(run, n - 1);
    }
  }

  /** A renew, bind or release takes effect only under the newest claim, by its
      owner and with its epoch, and only renews and binds lie between. */
  lemma {:induction false} OnlyTheHolderWrites(run: Run, i: nat)
    requires run.Valid() && run.Did(i) && run.steps[i].ev.Fenced?()
    ensures exists c :: 0 <= c < i && run.Did(c)
              && run.steps[c].ev.Claim? && run.steps[c].ev.owner == run.steps[i].ev.owner
              && run.rows[c + 1].epoch == run.steps[i].ev.epoch
              && forall k :: c < k < i && run.Did(k) ==>
                   run.Extends(k, run.steps[i].ev.owner, run.steps[i].ev.epoch)
  {
    HolderMatchesRow(run, i);
    var c := run.Holder(i).value.claim;
    assert run.Did(c);
  }

  /** Every claim raises the epoch by exactly one, and nothing else moves it. */
  lemma {:induction false} EpochCountsClaims(run: Run, n: nat)
    requires run.Valid() && n <= |run.steps|
    ensures run.rows[n].epoch == run.Claims(n)
  {
    if n > 0 {
      EpochCountsClaims(run, n - 1);
    }
  }

  lemma {:induction false} EpochNeverFalls(run: Run, i: nat, j: nat)
    requires run.Valid() && i <= j <= |run.steps|
    ensures run.rows[i].epoch <= run.rows[j].epoch
  {
    if i < j {
      EpochNeverFalls(run, i, j - 1);
    }
  }

  /** Once a claim has handed out an epoch, no write under an older one succeeds
      again, even across an operator reset. */
  lemma StaleEpochsAreFenced(run: Run, i: nat, j: nat)
    requires run.Valid() && i < j && run.Did(i) && run.steps[i].ev.Claim?
    requires run.Did(j) && run.steps[j].ev.Fenced?()
    ensures run.steps[j].ev.epoch >= run.rows[i + 1].epoch == run.rows[i].epoch + 1
  {
    EpochNeverFalls(run, i + 1, j);
  }

  // ---- terminal states ----------------------------------------------------

  lemma {:induction false} CompleteIsLast(run: Run, i: nat, j: nat)
    requires run.Valid() && i < j < |run.steps| && run.Did(i) && run.steps[i].ev.Complete?
    ensures !run.Did(j) && run.rows[j] == run.rows[i + 1] && run.rows[j].status == T.Completed
  {
    if i + 1 < j {
      CompleteIsLast(run, i, j - 1);
    }
  }

  /** A failed row was failed by the last step that took effect. */
  lemma {:induction false} FailedBy(run: Run, n: nat) returns (f: nat)
    requires run.Valid() && n <= |run.steps| && run.rows[n].status == T.Failed
    ensures f < n && run.Did(f) && run.steps[f].ev.Fail?
    ensures forall k :: f < k < n ==> !run.Did(k)
  {
    if run.Did(n - 1) {
      f := n - 1;
    } else {
      f := FailedBy(run, n - 1);
    }
  }

  /** An operator reset takes effect only directly after a Fail. */
  lemma {:induction false} ResetFollowsFail(run: Run, i: nat)
    requires run.Valid() && run.Did(i) && run.steps[i].ev.RetryFailed?
    ensures exists f :: 0 <= f < i && run.Did(f) && run.steps[f].ev.Fail?
              && forall k :: f < k < i ==> !run.Did(k)
  {
    var f := FailedBy(run, i);
    assert run.Did(f);
  }

  // ---- binding ------------------------------------------------------------

  lemma {:induction false} BindingNeverChanges(run: Run, i: nat, j: nat)
    requires run.Valid() && i <= j <= |run.steps| && run.rows[i].version.Some?
    ensures run.rows[j].version == run.rows[i].version && run.rows[j].model == run.rows[i].model
  {
    if i < j {
      BindingNeverChanges(run, i, j - 1);
    }
  }

  lemma AtMostOneBind(run: Run, i: nat, j: nat)
    requires run.Valid() && run.Did(i) && run.Did(j)
    requires run.steps[i].ev.Bind? && run.steps[j].ev.Bind?
    ensures i == j
  {
    if i < j {
      BindingNeverChanges(run, i + 1, j);
    } else if j < i {
      BindingNeverChanges(run, j + 1, i);
    }
  }

  // ---- attempts and retries -----------------------------------------------

  lemma {:induction false} AttemptsCountClaims(run: Run, n: nat)
    requires run.Valid() && n <= |run.steps|
    ensures run.rows[n].attempts == run.ClaimsSinceReset(n)
  {
    if n > 0 {
      AttemptsCountClaims(run, n - 1);
    }
  }

  /** retryOrFail: a worker asks for a retry only while the attempt number its
      claim returned is below MaxAttempts. */
  ghost predicate WorkersStopRetrying(run: Run, maxAttempts: int)
    requires run.Shape()
  {
    forall i :: 0 <= i < |run.steps| && run.Did(i) && run.steps[i].ev.Retry? ==>
      var h := run.Holder(i);
      h.Some? && h.value.claim < i && run.rows[h.value.claim + 1].attempts < maxAttempts
  }

  lemma AttemptAtRetry(run: Run, maxAttempts: int, i: nat)
    requires run.Valid() && WorkersStopRetrying(run, maxAttempts)
    requires run.Did(i) && run.steps[i].ev.Retry?
    ensures run.rows[i].attempts < maxAttempts
  {
    HolderMatchesRow(run, i);
    assert run.Holder(i).Some?;
  }

  lemma {:induction false} RetriesLagAttempts(run: Run, maxAttempts: int, n: nat)
    requires run.Valid() && n <= |run.steps| && WorkersStopRetrying(run, maxAttempts)
    ensures run.RetriesSinceReset(n) + (if run.rows[n].status == T.Importing then 1 else 0) <= run.rows[n].attempts
    ensures run.RetriesSinceReset(n) > 0 ==> run.RetriesSinceReset(n) < maxAttempts
  {
    if n > 0 {
      var i := n - 1;
      RetriesLagAttempts(run, maxAttempts, i);
      assert run.rows[n] == Apply(run.rows[i], run.steps[i]);
      if run.Did(i) && run.steps[i].ev.Retry? {
        AttemptAtRetry(run, maxAttempts, i);
        assert run.RetriesSinceReset(n) == run.RetriesSinceReset(i) + 1;
      }
    }
  }

  /** Between resets the workers schedule at most MaxAttempts - 1 retries. */
  lemma RetriesAreBounded(run: Run, maxAttempts: int, n: nat)
    requires run.Valid() && n <= |run.steps| && maxAttempts > 0 && WorkersStopRetrying(run, maxAttempts)
    ensures run.RetriesSinceReset(n) <= maxAttempts - 1
  {
    RetriesLagAttempts(run, maxAttempts, n);
  }

  // ---- exactly when a task can be claimed ---------------------------------

  /** The next claim of a row that nothing has touched since step i takes effect exactly
      when the row's own time has come, as long as the counters fit their columns. */
  lemma ClaimExactly(run: Run, i: nat, j: nat)
    requires run.Valid() && i < j < |run.steps| && run.Did(i) && run.steps[j].ev.Claim?
    requires forall k :: i < k < j ==> !run.Did(k)
    ensures var row := run.rows[i + 1];
      run.Did(j) <==>
        && (row.status == T.Pending || row.status == T.Importing) && row.nextAttempt <= run.steps[j].at
        && (row.lease.None? || row.lease.value <= run.steps[j].at)
        && run.Claims(j) < 0x7fff_ffff_ffff_ffff && run.ClaimsSinceReset(j) < 0x7fff_ffff
  {
    Quiet(run, i + 1, j);
    EpochCountsClaims(run, j);
    AttemptsCountClaims(run, j);
  }

  /** After a retry, with nothing in effect since, a claim takes effect exactly when the
      delay asked for has passed on the database clock. */
  lemma ClaimAfterRetry(run: Run, i: nat, j: nat)
    requires run.Valid() && i < j < |run.steps| && run.Did(i) && run.steps[i].ev.Retry? && run.steps[j].ev.Claim?
    requires forall k :: i < k < j ==> !run.Did(k)
    requires run.Claims(j) < 0x7fff_ffff_ffff_ffff && run.ClaimsSinceReset(j) < 0x7fff_ffff
    ensures run.Did(j) <==> run.steps[j].at >= run.steps[i].stamp + Micros(run.steps[i].ev.after)
  {
    ClaimExactly(run, i, j);
  }

  /** After an operator reset a claim takes effect from the moment of the reset on. */
  lemma ClaimAfterReset(run: Run, i: nat, j: nat)
    requires run.Valid() && i < j < |run.steps| && run.Did(i) && run.steps[i].ev.RetryFailed? && run.steps[j].ev.Claim?
    requires forall k :: i < k < j ==> !run.Did(k)
    requires run.Claims(j) < 0x7fff_ffff_ffff_ffff
    ensures run.Did(j) <==> run.steps[j].at >= run.steps[i].stamp
  {
    ClaimExactly(run, i, j);
    AttemptsCountClaims(run, i + 1);
    Quiet(run, i + 1, j);
    AttemptsCountClaims(run, j);
  }

  /** While a task is held, its time had come when it was claimed. */
  lemma {:induction false} HeldTaskWasDue(run: Run, n: nat)
    requires run.Valid() && n <= |run.steps| && run.Holder(n).Some?
    ensures run.Holder(n).value.claim < n
    ensures run.rows[n].nextAttempt <= run.steps[run.Holder(n).value.claim].at
  {
    HolderMatchesRow(run, n - 1);
    if !(run.Did(n - 1) && run.steps[n - 1].ev.Claim?) {
      HeldTaskWasDue(run, n - 1);
    }
  }

  /** Under a lease, another claim takes effect exactly when the latest claim or renewal in
      effect has run out its own length on the database clock: no earlier, and no later. */
  lemma ClaimAfterLease(run: Run, i: nat, j: nat)
    requires run.Valid() && MonotoneClock(run) && i < j < |run.steps| && run.Did(i) && run.steps[j].ev.Claim?
    requires run.steps[i].ev.Claim? || run.steps[i].ev.Renew?
    requires forall k :: i < k < j ==> !run.Did(k)
    requires run.Claims(j) < 0x7fff_ffff_ffff_ffff && run.ClaimsSinceReset(j) < 0x7fff_ffff
    ensures run.Did(j) <==> run.steps[j].at >= run.steps[i].stamp + Micros(run.steps[i].ev.lease)
  {
    ClaimExactly(run, i, j);
    HolderMatchesRow(run, i + 1);
    HeldTaskWasDue(run, i + 1);
  }

  /** After a retry the row waits out its delay: the next step to take effect is a
      claim, and the database clock has passed the delay by then. */
  lemma {:induction false} RetryWaits(run: Run, i: nat, j: nat)
    requires run.Valid() && i < j && run.Did(i) && run.steps[i].ev.Retry? && run.Did(j)
    requires forall k :: i < k < j ==> !run.Did(k)
    ensures run.steps[j].ev.Claim?
    ensures run.steps[j].at >= run.steps[i].stamp + Micros(run.steps[i].ev.after)
  {
    Quiet(run, i + 1, j);
  }

  lemma {:induction false} Quiet(run: Run, i: nat, j: nat)
    requires run.Valid() && i <= j <= |run.steps| && forall k :: i <= k < j ==> !run.Did(k)
    ensures run.rows[j] == run.rows[i]
  {
    if i < j {
      Quiet(run, i, j - 1);
      assert !run.Did(j - 1);
    }
  }

  // ---- no theft under timely renewal --------------------------------------

  /** Step j is the claim c itself or a renewal attempt under its lease. */
  ghost predicate Refresh(run: Run, c: nat, j: nat)
    requires run.Shape() && c < |run.steps| && j < |run.steps| && run.steps[c].ev.Claim?
  {
    j == c || (j > c && run.steps[j].ev == Renew(run.steps[c].ev.owner, run.rows[c + 1].epoch, run.steps[c].ev.lease))
  }

  ghost predicate MonotoneClock(run: Run) {
    && (forall k :: 0 <= k < |run.steps| ==> run.steps[k].at <= run.steps[k].stamp)
    && (forall i, j :: 0 <= i < j < |run.steps| ==> run.steps[i].stamp <= run.steps[j].at)
  }

  /** Step k runs under the lease that claim c took. */
  predicate UnderClaim(run: Run, c: nat, k: nat)
    requires c + 1 < |run.rows| && c < |run.steps| && k < |run.steps| && run.steps[c].ev.Claim?
  {
    var ev := run.steps[k].ev;
    ev.Fenced?() && ev.owner == run.steps[c].ev.owner && ev.epoch == run.rows[c + 1].epoch
  }

  /** Before step d the holder of claim c only binds and renews, with its own
      lease length, and every statement on the row comes less than the lease after
      some earlier claim or renewal attempt. */
  ghost predicate Timely(run: Run, c: nat, d: nat)
    requires run.Shape() && c < d <= |run.steps| && run.steps[c].ev.Claim?
  {
    forall k :: c < k < d ==>
      && (UnderClaim(run, c, k) ==> Refresh(run, c, k) || run.steps[k].ev.Bind?)
      && Covered(run, c, k)
  }

  ghost predicate Covered(run: Run, c: nat, k: nat)
    requires run.Shape() && c < k < |run.steps| && run.steps[c].ev.Claim?
  {
    exists j :: c <= j < k && Refresh(run, c, j)
      && run.steps[k].at < run.steps[j].stamp + Micros(run.steps[c].ev.lease)
  }

  /** The row at n is still under claim c, up to the latest refresh. */
  ghost predicate StillHeld(run: Run, c: nat, n: nat)
    requires run.Shape() && c < n <= |run.steps| && run.steps[c].ev.Claim?
  {
    var row := run.rows[n];
    && row.status == T.Importing && row.owner == run.steps[c].ev.owner
    && row.epoch == run.rows[c + 1].epoch && row.lease.Some?
    && forall j :: c <= j < n && Refresh(run, c, j) ==>
         run.steps[j].stamp + Micros(run.steps[c].ev.lease) <= row.lease.value
  }

  lemma JustClaimed(run: Run, c: nat)
    requires run.Valid() && c < |run.steps| && run.Did(c) && run.steps[c].ev.Claim?
    ensures StillHeld(run, c, c + 1)
  {
    assert run.rows[c + 1] == Apply(run.rows[c], run.steps[c]);
  }

  lemma StepKeepsLease(run: Run, c: nat, i: nat)
    requires run.Valid() && MonotoneClock(run)
    requires c < i < |run.steps| && run.steps[c].ev.Claim? && StillHeld(run, c, i) && Covered(run, c, i)
    requires UnderClaim(run, c, i) ==> Refresh(run, c, i) || run.steps[i].ev.Bind?
    ensures StillHeld(run, c, i + 1) && !(run.Did(i) && run.steps[i].ev.Claim?)
    ensures Refresh(run, c, i) ==> run.Did(i)
  {
    var row, s := run.rows[i], run.steps[i];
    assert s.at < row.lease.value;
    assert run.rows[i + 1] == Apply(row, s);
    if run.Did(i) {
      assert UnderClaim(run, c, i);
      if !s.ev.Bind? {
        forall j | c <= j < i ensures run.steps[j].stamp <= s.stamp {
          assert run.steps[j].stamp <= s.at;
        }
      }
    }
  }

  lemma {:induction false} LeaseStaysHeld(run: Run, c: nat, n: nat)
    requires run.Valid() && MonotoneClock(run)
    requires c < n <= |run.steps| && run.Did(c) && run.steps[c].ev.Claim? && Timely(run, c, n)
    ensures StillHeld(run, c, n)
    ensures forall k :: c < k < n ==> !(run.Did(k) && run.steps[k].ev.Claim?)
    ensures forall k :: c < k < n && Refresh(run, c, k) ==> run.Did(k)
  {
    if n == c + 1 {
      JustClaimed(run, c);
    } else {
      LeaseStaysHeld(run, c, n - 1);
      StepKeepsLease(run, c, n - 1);
    }
  }

  /** The renewals at `ticks` start with the claim and are less than the lease
      apart on the database clock, up to step d. */
  ghost predicate RenewedInTime(run: Run, c: nat, ticks: seq<nat>, d: nat)
    requires run.Shape() && c < d < |run.steps| && run.steps[c].ev.Claim?
  {
    && |ticks| > 0 && ticks[0] == c
    && (forall i :: 0 <= i < |ticks| ==> c <= ticks[i] < d && Refresh(run, c, ticks[i]))
    && (forall i :: 0 < i < |ticks| ==>
          ticks[i - 1] < ticks[i]
          && run.steps[ticks[i]].at < run.steps[ticks[i - 1]].stamp + Micros(run.steps[c].ev.lease))
    && run.steps[d].at < run.steps[ticks[|ticks| - 1]].stamp + Micros(run.steps[c].ev.lease)
  }

  lemma {:induction false} TickCovers(run: Run, c: nat, ticks: seq<nat>, d: nat, k: nat, n: nat)
    requires run.Shape() && MonotoneClock(run) && c < d < |run.steps| && run.steps[c].ev.Claim?
    requires RenewedInTime(run, c, ticks, d) && c < k <= d && 0 < n <= |ticks|
    requires n < |ticks| ==> k <= ticks[n]
    ensures Covered(run, c, k)
  {
    if ticks[n - 1] < k {
      var j := ticks[n - 1];
      assert Refresh(run, c, j);
      var limit := if n < |ticks| then ticks[n] else d;
      assert run.steps[limit].at < run.steps[j].stamp + Micros(run.steps[c].ev.lease);
      assert k < limit ==> run.steps[k].stamp <= run.steps[limit].at;
    } else {
      TickCovers(run, c, ticks, d, k, n - 1);
    }
  }

  /** Timely renewal: no claim by anyone takes effect while the executor runs,
      every renewal succeeds, and the terminal write d is not fenced. */
  lemma TimelyRenewalPreventsTheft(run: Run, c: nat, ticks: seq<nat>, d: nat)
    requires run.Valid() && MonotoneClock(run)
    requires c < d < |run.steps| && run.Did(c) && run.steps[c].ev.Claim?
    requires RenewedInTime(run, c, ticks, d)
    requires forall k :: c < k < d && UnderClaim(run, c, k) ==> Refresh(run, c, k) || run.steps[k].ev.Bind?
    requires UnderClaim(run, c, d) && run.steps[d].ev.Releases?()
    ensures forall k :: c < k < d ==> !(run.Did(k) && run.steps[k].ev.Claim?)
    ensures forall i :: 0 <= i < |ticks| ==> run.Did(ticks[i])
    ensures run.Did(d)
  {
    forall k | c < k <= d ensures Covered(run, c, k) {
      TickCovers(run, c, ticks, d, k, |ticks|);
    }
    LeaseStaysHeld(run, c, d);
    assert Covered(run, c, d);
  }

  // ---- the statements refine the pure task --------------------------------

  /** A NULL lease reads as the zero time. */
  function Abs(row: Row): T.Task {
    T.Task(row.id, row.model, row.version, row.status, row.owner, row.epoch,
           if row.lease.Some? then row.lease.value else T.ZERO_TIME, row.attempts)
  }

  /** A claim the database accepts is a reference claim at the moment the row was
      stamped, exactly when the caller named an owner and a lease of a microsecond
      or more; the statement itself checks neither. */
  lemma ClaimRefines(row: Row, s: Step)
    requires s.ev.Claim? && s.at <= s.stamp && Succeeds(row, s)
    ensures T.Claim(Abs(row), s.ev.owner, s.stamp, Micros(s.ev.lease)) == Ok(Abs(Effect(row, s)))
            <==> s.ev.owner != "" && Micros(s.ev.lease) > 0
  {
  }

  /** A pure claim that is allowed is a claim the database allows exactly when the
      retry delay has passed and neither counter is at the end of its column. */
  lemma ClaimConverse(row: Row, owner: string, now: nat, lease: Duration)
    requires T.Claim(Abs(row), owner, now, Micros(lease)).Ok?
    ensures Succeeds(row, Step(Claim(owner, lease), now, now)) <==>
              row.nextAttempt <= now && row.epoch < MAX_INT64 && row.attempts < MAX_INT32
  {
  }

  /** Neither condition is idle. In the run that claims a new task and schedules its retry
      for later, the pure task may be claimed again at once and the row may not; and the
      row takes a claim without an owner, which the pure task refuses. */
  lemma ClaimsDiffer(row: Row) returns (run: Run, last: Row)
    requires Fresh(row) && row.nextAttempt <= 0
    ensures run.Valid() && |run.steps| == 2 && run.rows[0] == row && run.rows[2] == last
    ensures run.Did(0) && run.Did(1)
    ensures run.steps[0].ev.Claim? && run.steps[1].ev.Retry?
    ensures T.Claim(Abs(last), "b", 2, 1).Ok? && !Succeeds(last, Step(Claim("b", 1000), 2, 2))
    ensures Succeeds(row, Step(Claim("", 1000), 0, 0)) && T.Claim(Abs(row), "", 0, 1).Err?
  {
    var claim := Step(Claim("a", 10000), 0, 0);
    var retry := Step(Retry("a", 1, 10000, ""), 1, 1);
    var held := Apply(row, claim);
    last := Apply(held, retry);
    run := Run([row, held, last], [claim, retry]);
    assert held.lease == Some(10) && last.nextAttempt == 11;
  }

  lemma ReleaseRefines(row: Row, owner: string, epoch: int, message: string, at: nat, stamp: nat)
    ensures var s := Step(Complete(owner, epoch), at, stamp);
            T.Complete(Abs(row), owner, epoch, at)
            == if Succeeds(row, s) then Ok(Abs(Effect(row, s))) else Err(T.LeaseFenced)
    ensures var s := Step(Fail(owner, epoch, message), at, stamp);
            T.Fail(Abs(row), owner, epoch, at)
            == if Succeeds(row, s) then Ok(Abs(Effect(row, s))) else Err(T.LeaseFenced)
  {
  }

  /** One move of the abstract task: a reference transition, or one of the four
      statements the reference does not have, described on the abstract fields. */
  ghost predicate PureMove(t: T.Task, t': T.Task, s: Step) {
    match s.ev
    case Claim(owner, lease) => T.Claim(t, owner, s.stamp, Micros(lease)) == Ok(t')
    case Complete(owner, epoch) => T.Complete(t, owner, epoch, s.at) == Ok(t')
    case Fail(owner, epoch, _) => T.Fail(t, owner, epoch, s.at) == Ok(t')
    case Renew(owner, epoch, lease) =>
      T.Holds(t, owner, epoch, s.at) && t' == t.(leaseUntil := s.stamp + Micros(lease))
    case Bind(owner, epoch, m, v) =>
      T.Holds(t, owner, epoch, s.at) && t.version.None? && t' == t.(model := Some(m), version := Some(v))
    case Retry(owner, epoch, _, _) =>
      T.Holds(t, owner, epoch, s.at) && t' == t.(status := T.Pending, owner := "", leaseUntil := T.ZERO_TIME)
    case RetryFailed =>
      t.status == T.Failed && t' == t.(status := T.Pending, attempts := 0, owner := "", leaseUntil := T.ZERO_TIME)
  }

  /** Workers identify themselves and lease for at least a microsecond. */
  ghost predicate ProperClaims(run: Run) {
    forall i :: 0 <= i < |run.steps| ==>
      run.steps[i].at <= run.steps[i].stamp
      && (run.steps[i].ev.Claim? ==> run.steps[i].ev.owner != "" && Micros(run.steps[i].ev.lease) > 0)
  }

  /** Every run of the database is, row by row, a run of the abstract task that
      stutters where a statement was refused. */
  lemma RunSimulatesTask(run: Run) returns (tasks: seq<T.Task>)
    requires run.Valid() && ProperClaims(run)
    ensures |tasks| == |run.rows| && forall i :: 0 <= i < |tasks| ==> tasks[i] == Abs(run.rows[i])
    ensures forall i :: 0 <= i < |run.steps| ==>
              if run.Did(i) then PureMove(tasks[i], tasks[i + 1], run.steps[i])
              else tasks[i + 1] == tasks[i]
    ensures forall i :: 0 <= i < |run.steps| && !run.Did(i) && run.steps[i].ev.Complete? ==>
              T.Complete(tasks[i], run.steps[i].ev.owner, run.steps[i].ev.epoch, run.steps[i].at).Err?
  {
    tasks := seq(|run.rows|, i requires 0 <= i < |run.rows| => Abs(run.rows[i]));
    forall i | 0 <= i < |run.steps|
      ensures if run.Did(i) then PureMove(tasks[i], tasks[i + 1], run.steps[i]) else tasks[i + 1] == tasks[i]
    {
      if run.Did(i) && run.steps[i].ev.Claim? {
        ClaimRefines(run.rows[i], run.steps[i]);
      }
    }
  }
}
