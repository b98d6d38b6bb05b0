/** One turn of the worker's loop seen from outside: what decides it, which statements and
    replies it may consist of, and what follows for the task. */
module ImportTurns {
  import opened Wrappers
  import opened Transitions
  import opened TaskRows
  import opened ImportWorkers
  import T = WorkTask
  import C = Catalog

  /** One statement of the worker: what others did before it ran, the clock readings it
      made, and whether its reply arrived. */
  datatype Moment = Moment(others: seq<Action>, at: nat, stamp: nat, seen: bool)

  /** What the binder says about a task without a version. */
  datatype Binding = NoBinder | Unresolved | Resolved(model: T.ModelId, version: T.VersionId)

  /** What happens while Execute runs: its own writes, the renewal goroutine, others. */
  datatype Work =
    | Persist(artifact: C.Artifact)
    | Checksum(checksum: string, bytes: int)
    | Renewal(moment: Moment)
    | Elsewhere(others: seq<Action>)

  /** Everything outside the worker that decides one turn of the loop. */
  datatype Turn = Turn(
    claim: Moment, binding: Binding, bind: Moment,
    work: seq<Work>, executed: bool, ready: Moment, complete: Moment,
    mark: Moment, end: Moment, message: string)

  /** Actions of anyone but worker w. */
  predicate Foreign(a: Action, w: WorkerId) {
    a.CreateTask? || a.OperatorReset? || a.Others? || a.w != w
  }

  lemma StepsKeepInv(x: World, actions: seq<Action>, y: World, maxAttempts: nat)
    requires Inv(x) && Leads(x, actions, y, StepWith(maxAttempts))
    ensures Inv(y)
  {
    forall u, a, v | Inv(u) && StepWith(maxAttempts)(u, a, v) ensures Inv(v) {
      EveryActionKeepsInv(u, a, maxAttempts);
    }
    LeadsKeeps(x, actions, y, StepWith(maxAttempts), Inv);
  }

  /** Others cannot touch what a worker remembers. */
  lemma ForeignKeepsLocal(x: World, a: Action, w: WorkerId, maxAttempts: nat)
    requires Foreign(a, w) && Enabled(x, a, maxAttempts) && w in x.workers
    ensures w in Next(x, a, maxAttempts).workers && Next(x, a, maxAttempts).workers[w] == x.workers[w]
  {
  }

  /** No task is ever removed. */
  ghost predicate TasksStay(x: World, y: World) { forall t <- x.tasks :: t in y.tasks }

  ghost predicate TasksAt(due: seq<T.TaskId>, x: World) { forall n :: 0 <= n < |due| ==> due[n] in x.tasks }

  /** Worker w's own actions, in order. */
  ghost function Mine(actions: seq<Action>, w: WorkerId): seq<Action> {
    if actions == [] then []
    else
      var last := |actions| - 1;
      Mine(actions[..last], w) + if Foreign(actions[last], w) then [] else [actions[last]]
  }

  /** The tasks that a sequence of actions tries to claim, in order. */
  ghost function Claims(actions: seq<Action>): seq<T.TaskId> {
    if actions == [] then []
    else
      var last := |actions| - 1;
      Claims(actions[..last]) + if actions[last].WClaim? then [actions[last].t] else []
  }

  function StatementOf(work: Work, w: WorkerId, lease: Duration): seq<Action> {
    match work
    case Persist(artifact) => [WPersist(w, artifact)]
    case Checksum(checksum, bytes) => [WSetChecksum(w, checksum, bytes)]
    case Renewal(m) => [WRenew(w, lease, m.at, m.stamp)]
    case Elsewhere(_) => []
  }

  // ---- replies ----------------------------------------------------------------

  /** A statement whose outcome the worker acts on: its place in the trace, the world it
      found, and the moment of it. */
  datatype Reply = Reply(place: nat, statement: Action, before: World, moment: Moment)

  /** The statement succeeds on the tables of x. */
  predicate Took(x: World, a: Action) {
    match a
    case WClaim(_, t, owner, lease, at, stamp) =>
      t in x.tasks && Succeeds(x.tasks[t], Step(Claim(owner, lease), at, stamp))
    case WBind(w, m, v, at, stamp, _) =>
      Working(x, w) && Succeeds(x.tasks[x.workers[w].task], StepOn(x, a, x.workers[w].task))
    case WRenew(w, _, _, _) =>
      Working(x, w) && Succeeds(x.tasks[x.workers[w].task], StepOn(x, a, x.workers[w].task))
    case WMarkReady(w, _) =>
      Working(x, w) && x.workers[w].version.Some? && C.MarksReady(x.db, x.workers[w].version.value)
    case _ => false
  }

  /** It succeeded on the tables as it found them, and the worker heard so. */
  predicate Good(r: Reply) { r.moment.seen && Took(r.before, r.statement) }

  /** The reply is one that the trace really holds: the statement stands at its place, and
      what came before led to the world it found. */
  ghost predicate Recorded(
      r: Reply, first: World, trace: seq<Action>, maxAttempts: nat)
  {
    && r.place < |trace| && trace[r.place] == r.statement
    && Leads(first, trace[..r.place], r.before, StepWith(maxAttempts))
  }

  ghost predicate AllRecorded(
      replies: seq<Reply>, first: World, trace: seq<Action>, maxAttempts: nat)
  {
    forall k :: 0 <= k < |replies| ==> Recorded(replies[k], first, trace, maxAttempts)
  }

  lemma StillRecorded(
      replies: seq<Reply>, first: World, trace: seq<Action>, a: Action, maxAttempts: nat)
    requires AllRecorded(replies, first, trace, maxAttempts)
    ensures AllRecorded(replies, first, trace + [a], maxAttempts)
  {
    forall k | 0 <= k < |replies| ensures Recorded(replies[k], first, trace + [a], maxAttempts) {
      assert Recorded(replies[k], first, trace, maxAttempts);
      assert (trace + [a])[..replies[k].place] == trace[..replies[k].place];
    }
  }

  lemma RecordOne(
      replies: seq<Reply>, r: Reply, first: World, trace: seq<Action>, maxAttempts: nat)
    requires AllRecorded(replies, first, trace, maxAttempts)
    requires Recorded(r, first, trace, maxAttempts)
    ensures AllRecorded(replies + [r], first, trace, maxAttempts)
  {
  }

  ghost predicate AllGood(replies: seq<Reply>) {
    forall k :: 0 <= k < |replies| ==> Good(replies[k])
  }

  function Moments(replies: seq<Reply>): (moments: seq<Moment>)
    ensures |moments| == |replies|
  {
    seq(|replies|, k requires 0 <= k < |replies| => replies[k].moment)
  }

  /** The renewals that fall due while Execute runs. */
  function Renewals(work: seq<Work>): seq<Moment> {
    if work == [] then []
    else
      Renewals(work[..|work| - 1])
      + if work[|work| - 1].Renewal? then [work[|work| - 1].moment] else []
  }

  /** The statements of Execute when the first n of its renewals are issued. */
  function Issued(work: seq<Work>, n: nat, w: WorkerId, lease: Duration): seq<Action> {
    if work == [] then []
    else
      var front, last := work[..|work| - 1], work[|work| - 1];
      Issued(front, n, w, lease)
      + if last.Renewal? && |Renewals(front)| >= n then [] else StatementOf(last, w, lease)
  }

  lemma {:induction false} AllIssued(work: seq<Work>, m: nat, n: nat, w: WorkerId, lease: Duration)
    requires m >= |Renewals(work)| && n >= |Renewals(work)|
    ensures Issued(work, m, w, lease) == Issued(work, n, w, lease)
  {
    if work != [] {
      AllIssued(work[..|work| - 1], m, n, w, lease);
    }
  }

  predicate Renews(r: Reply, w: WorkerId, lease: Duration) {
    r.statement == WRenew(w, lease, r.moment.at, r.moment.stamp)
  }

  /** The replies that came in over this work: those of its renewals in order, all of them
      unless one is bad, and none after a bad one. */
  ghost predicate Replied(replies: seq<Reply>, work: seq<Work>, w: WorkerId, lease: Duration, renewed: bool) {
    && (renewed <==> AllGood(replies))
    && Moments(replies) <= Renewals(work) && (renewed ==> Moments(replies) == Renewals(work))
    && (forall k :: 0 <= k < |replies| - 1 ==> Good(replies[k]))
    && forall k :: 0 <= k < |replies| ==> Renews(replies[k], w, lease)
  }

  lemma NoReply(replies: seq<Reply>, work: seq<Work>, n: nat, w: WorkerId, lease: Duration, renewed: bool)
    requires n < |work| && Replied(replies, work[..n], w, lease, renewed) && !(work[n].Renewal? && renewed)
    ensures Replied(replies, work[..n + 1], w, lease, renewed)
  {
    assert work[..n + 1][..n] == work[..n];
  }

  lemma OneReply(
      replies: seq<Reply>, r: Reply, work: seq<Work>, n: nat, w: WorkerId, lease: Duration)
    requires n < |work| && Replied(replies, work[..n], w, lease, true)
    requires work[n].Renewal? && work[n].moment == r.moment && Renews(r, w, lease)
    ensures Replied(replies + [r], work[..n + 1], w, lease, Good(r))
  {
    var all := replies + [r];
    assert work[..n + 1][..n] == work[..n];
    assert Moments(all) == Moments(replies) + [r.moment];
    assert all[|replies|] == r;
    assert forall k :: 0 <= k < |replies| ==> all[k] == replies[k];
  }

  /** One more reply has come in, to this statement at this moment, and it was good or not
      as the last argument says. */
  ghost predicate Heard(before: seq<Reply>, after: seq<Reply>, statement: Action, moment: Moment, good: bool) {
    && |after| == |before| + 1 && after[..|before|] == before
    && after[|before|].statement == statement && after[|before|].moment == moment
    && good == Good(after[|before|])
  }

  lemma HeardOne(before: seq<Reply>, r: Reply)
    ensures Heard(before, before + [r], r.statement, r.moment, Good(r))
  {
  }

  /** What this work has added to the statements and the replies so far. */
  ghost predicate Carried(
      own: seq<Action>, own': seq<Action>, replies: seq<Reply>, replies': seq<Reply>,
      work: seq<Work>, w: WorkerId, lease: Duration, renewed: bool)
  {
    && replies <= replies' && own' == own + Issued(work, |replies'| - |replies|, w, lease)
    && Replied(replies'[|replies|..], work, w, lease, renewed)
  }

  lemma CarryOn(
      own: seq<Action>, own': seq<Action>, own'': seq<Action>,
      replies: seq<Reply>, replies': seq<Reply>, replies'': seq<Reply>,
      work: seq<Work>, n: nat, w: WorkerId, lease: Duration, renewing: bool, renewed: bool)
    requires n < |work| && Carried(own, own', replies, replies', work[..n], w, lease, renewing)
    requires own'' == own' + if work[n].Renewal? && !renewing then [] else StatementOf(work[n], w, lease)
    requires if work[n].Renewal? && renewing
             then Heard(replies', replies'', WRenew(w, lease, work[n].moment.at, work[n].moment.stamp),
                        work[n].moment, renewed)
             else replies'' == replies' && renewed == renewing
    ensures Carried(own, own'', replies, replies'', work[..n + 1], w, lease, renewed)
  {
    assert work[..n + 1][..n] == work[..n];
    var q := |replies'| - |replies|;
    if work[n].Renewal? && renewing {
      AllIssued(work[..n], q, q + 1, w, lease);
      AppendTwice(own, Issued(work[..n], q, w, lease), StatementOf(work[n], w, lease));
      var r := replies''[|replies'|];
      OneReply(replies'[|replies|..], r, work, n, w, lease);
      assert replies''[|replies|..] == replies'[|replies|..] + [r];
    } else {
      AppendTwice(own, Issued(work[..n], q, w, lease), StatementOf(work[n], w, lease));
      NoReply(replies'[|replies|..], work, n, w, lease, renewed);
    }
  }

  lemma AppendTwice(s: seq<Action>, a: seq<Action>, b: seq<Action>)
    ensures s + a + b == s + (a + b)
  {
  }

  lemma OneMoreAction(trace: seq<Action>, a: Action, w: WorkerId)
    ensures Mine(trace + [a], w) == Mine(trace, w) + if Foreign(a, w) then [] else [a]
    ensures Claims(Mine(trace, w) + [a]) == Claims(Mine(trace, w)) + if a.WClaim? then [a.t] else []
  {
    assert (trace + [a])[..|trace|] == trace;
    assert (Mine(trace, w) + [a])[..|Mine(trace, w)|] == Mine(trace, w);
  }

  lemma OneMoreClaim(claims: seq<T.TaskId>, due: seq<T.TaskId>, n: nat)
    requires n < |due|
    ensures claims + due[..n] + [due[n]] == claims + due[..n + 1]
  {
  }

  // ---- the shape of a turn ------------------------------------------------------

  /** Who the worker is. */
  datatype Self = Self(w: WorkerId, owner: string, lease: Duration, maxAttempts: nat)

  /** The statements that end a claim in failure: a retry after the delay, or, when the
      attempts are used up, the version's error, if there is a version, and the task's. */
  function GivingUp(me: Self, h: Local, after: Duration, turn: Turn): seq<Action>
    requires h.Holding?
  {
    var fail := [WFail(me.w, turn.message, turn.end.at, turn.end.stamp)];
    if h.attempt < me.maxAttempts then [WRetry(me.w, after, turn.message, turn.end.at, turn.end.stamp)]
    else if h.version.Some? then [WMarkError(me.w, turn.mark.at)] + fail else fail
  }

  /** MarkReady, and after it Complete if the reply to MarkReady was good, and the failure
      path, a second later, if it was not. */
  ghost predicate Finalizes(
      me: Self, own: seq<Action>, own': seq<Action>, heard: seq<Reply>, heard': seq<Reply>, h: Local, turn: Turn)
    requires h.Holding?
  {
    var ready := WMarkReady(me.w, turn.ready.seen);
    && Heard(heard, heard', ready, turn.ready, |heard'| == |heard| + 1 && Good(heard'[|heard|]))
    && own' == own + ([ready] +
         if Good(heard'[|heard|]) then [WComplete(me.w, turn.complete.at, turn.complete.stamp)]
         else GivingUp(me, h, 1_000_000_000, turn))
  }

  /** The executor's work; then MarkReady and the rest, if the executor reports success and
      no renewal was refused, and otherwise the failure path, a second later. */
  ghost predicate Works(
      me: Self, own: seq<Action>, own': seq<Action>, heard: seq<Reply>, heard': seq<Reply>, h: Local, turn: Turn)
    requires h.Holding?
  {
    exists mid: seq<Action>, heard1: seq<Reply>, renewed ::
      && Carried(own, mid, heard, heard1, turn.work, me.w, me.lease, renewed)
      && Concludes(me, mid, own', heard1, heard', h, turn, turn.executed && renewed)
  }

  ghost predicate Concludes(
      me: Self, own: seq<Action>, own': seq<Action>, heard: seq<Reply>, heard': seq<Reply>, h: Local, turn: Turn,
      ok: bool)
    requires h.Holding?
  {
    if ok then Finalizes(me, own + [WExecuted(me.w, true)], own', heard, heard', h, turn)
    else heard' == heard && own' == own + [WExecuted(me.w, false)] + GivingUp(me, h, 1_000_000_000, turn)
  }

  /** A bound claim goes on as it is. An unbound one goes on with the binder's version after
      a good reply to Bind, and otherwise not: bound is then failing. Bind is passed over
      only when the binder gave no version, or one that does not exist. */
  ghost predicate Binds(
      me: Self, own: seq<Action>, own': seq<Action>, heard: seq<Reply>, heard': seq<Reply>,
      h: Local, turn: Turn, bound: Local)
    requires h.Holding?
  {
    if h.version.Some? then bound == h && own' == own && heard' == heard
    else
      |heard'| == |heard| + 1 && Bound(me, own, own', heard, heard', h, turn, bound, heard'[|heard|])
  }

  ghost predicate Bound(
      me: Self, own: seq<Action>, own': seq<Action>, heard: seq<Reply>, heard': seq<Reply>,
      h: Local, turn: Turn, bound: Local, r: Reply)
    requires h.Holding?
  {
    && Heard(heard, heard', BindCall(me, turn, r.before), turn.bind, Good(r))
    && own' == own + [BindCall(me, turn, r.before)] && r == heard'[|heard|]
    && bound == if Good(r) then h.(version := Some(turn.binding.version)) else h.(phase := Failing)
  }

  function BindCall(me: Self, turn: Turn, x: World): Action {
    if turn.binding.Resolved? && turn.binding.version in x.db.versions then
      WBind(me.w, turn.binding.model, turn.binding.version, turn.bind.at, turn.bind.stamp, turn.bind.seen)
    else WUnbound(me.w)
  }

  /** Everything after a claim that was won and heard of. Without a version the failure path
      comes at once: five minutes later if there is no binder, and otherwise a second. */
  ghost predicate Conducts(
      me: Self, own: seq<Action>, own': seq<Action>, heard: seq<Reply>, heard': seq<Reply>, h: Local, turn: Turn)
    requires h.Holding?
  {
    exists mid: seq<Action>, heard1: seq<Reply>, bound: Local ::
      && bound.Holding? && Binds(me, own, mid, heard, heard1, h, turn, bound)
      && GoesOn(me, mid, own', heard1, heard', bound, turn)
  }

  ghost predicate GoesOn(
      me: Self, own: seq<Action>, own': seq<Action>, heard: seq<Reply>, heard': seq<Reply>, bound: Local, turn: Turn)
    requires bound.Holding?
  {
    if bound.phase == Failing then
      && heard' == heard
      && own' == own + GivingUp(me, bound, if turn.binding.NoBinder? then 300_000_000_000 else 1_000_000_000, turn)
    else Works(me, own, own', heard, heard', bound, turn)
  }

  /** What the worker remembers of the row that its claim r returned. */
  function HeldBy(me: Self, r: Reply, t: T.TaskId): Local
    requires t in r.before.tasks
  {
    var row := r.before.tasks[t];
    Holding(t, me.owner, row.epoch + 1, row.attempts + 1, row.version, Claimed)
  }

  /** One turn: nothing, if the task is not there; otherwise the claim, and after it nothing
      if it was refused, a forgotten lease if its reply was lost, and the whole way to the
      end if it was won and heard of. */
  ghost predicate Turned(
      me: Self, there: bool, own: seq<Action>, own': seq<Action>, heard: seq<Reply>, heard': seq<Reply>,
      t: T.TaskId, turn: Turn)
  {
    var claim := WClaim(me.w, t, me.owner, me.lease, turn.claim.at, turn.claim.stamp);
    || (!there && own' == own && heard' == heard)
    || (exists r: Reply ::
          && r.statement == claim && r.moment == turn.claim && t in r.before.tasks
          && Answered(me, own, own', heard + [r], heard', t, turn, r))
  }

  ghost predicate Answered(
      me: Self, own: seq<Action>, own': seq<Action>, heard: seq<Reply>, heard': seq<Reply>,
      t: T.TaskId, turn: Turn, r: Reply)
    requires t in r.before.tasks
  {
    if Good(r) then Conducts(me, own + [r.statement], own', heard, heard', HeldBy(me, r, t), turn)
    else
      && heard' == heard
      && own' == own + ([r.statement] + if Took(r.before, r.statement) then [Crash(me.w)] else [])
  }

  /** The claim and its reply r, on which the worker holds the task, or does not, or forgets
      a lease that it has not heard of. */
  ghost predicate Taken(
      me: Self, own: seq<Action>, own': seq<Action>, heard: seq<Reply>, heard': seq<Reply>,
      t: T.TaskId, moment: Moment, r: Reply, h: Local)
  {
    && r.statement == WClaim(me.w, t, me.owner, me.lease, moment.at, moment.stamp) && r.moment == moment
    && t in r.before.tasks && heard' == heard + [r]
    && h == (if Good(r) then HeldBy(me, r, t) else Idle)
    && own' == own + ([r.statement] + if !Good(r) && Took(r.before, r.statement) then [Crash(me.w)] else [])
  }

  /** A claim and no more, with a good reply, or refused. */
  lemma TakenAtOnce(
      me: Self, own: seq<Action>, own': seq<Action>, heard: seq<Reply>, heard': seq<Reply>,
      t: T.TaskId, moment: Moment, r: Reply, h: Local)
    requires r.statement == WClaim(me.w, t, me.owner, me.lease, moment.at, moment.stamp) && r.moment == moment
    requires t in r.before.tasks && heard' == heard + [r] && own' == own + [r.statement]
    requires Took(r.before, r.statement) ==> moment.seen
    requires h == if Took(r.before, r.statement) then HeldBy(me, r, t) else Idle
    ensures Taken(me, own, own', heard, heard', t, moment, r, h)
  {
    assert [r.statement] + [] == [r.statement];
  }

  /** A claim whose reply was lost. */
  lemma TakenInVain(
      me: Self, own: seq<Action>, own': seq<Action>, heard: seq<Reply>, heard': seq<Reply>,
      t: T.TaskId, moment: Moment, r: Reply)
    requires r.statement == WClaim(me.w, t, me.owner, me.lease, moment.at, moment.stamp) && r.moment == moment
    requires t in r.before.tasks && heard' == heard + [r] && own' == own + [r.statement] + [Crash(me.w)]
    requires Took(r.before, r.statement) && !moment.seen
    ensures Taken(me, own, own', heard, heard', t, moment, r, Idle)
  {
    AppendTwice(own, [r.statement], [Crash(me.w)]);
  }

  lemma TurnOfNothing(me: Self, own: seq<Action>, heard: seq<Reply>, t: T.TaskId, turn: Turn)
    ensures Turned(me, false, own, own, heard, heard, t, turn)
  {
  }

  lemma TurnWithoutTask(
      me: Self, there: bool, own: seq<Action>, own': seq<Action>, heard: seq<Reply>, heard': seq<Reply>,
      t: T.TaskId, turn: Turn, r: Reply)
    requires Taken(me, own, own', heard, heard', t, turn.claim, r, Idle)
    ensures Turned(me, there, own, own', heard, heard', t, turn)
  {
    assert Answered(me, own, own', heard + [r], heard', t, turn, r);
  }

  lemma TurnWithTask(
      me: Self, there: bool, own: seq<Action>, mid: seq<Action>, own': seq<Action>,
      heard: seq<Reply>, heard1: seq<Reply>, heard': seq<Reply>,
      t: T.TaskId, turn: Turn, r: Reply, h: Local)
    requires h.Holding? && Taken(me, own, mid, heard, heard1, t, turn.claim, r, h)
    requires Conducts(me, mid, own', heard1, heard', h, turn)
    ensures Turned(me, there, own, own', heard, heard', t, turn)
  {
    assert [r.statement] + [] == [r.statement];
    assert Answered(me, own, own', heard + [r], heard', t, turn, r);
  }

  // ---- how a turn ends ------------------------------------------------------------

  /** The statements that let a task go. */
  predicate Ends(a: Action) { a.WComplete? || a.WRetry? || a.WFail? }

  /** tail does not let the task go, nor forget it, before its last statement, and with that
      it does. */
  ghost predicate EndsOnce(tail: seq<Action>) {
    && tail != [] && Ends(tail[|tail| - 1])
    && forall k :: 0 <= k < |tail| - 1 ==> !Ends(tail[k]) && !tail[k].Crash?
  }

  /** How a turn may end: whether it is the last attempt, whether the task has a version, and
      when it is due again if it is not done. */
  datatype Terms = Terms(delay: Duration, last: bool, versioned: bool)

  function TermsFor(me: Self, h: Local, delay: Duration): Terms
    requires h.Holding?
  {
    Terms(delay, h.attempt >= me.maxAttempts, h.version.Some?)
  }

  function TermsOf(me: Self, h: Local, turn: Turn): Terms
    requires h.Holding?
  {
    TermsFor(me, h, if h.version.None? && turn.binding.NoBinder? then 300_000_000_000 else 1_000_000_000)
  }

  /** A retry only if it is not the last attempt, after the delay; a failure only if it is,
      and right after the version's error, if there is a version. */
  ghost predicate OnTerms(tail: seq<Action>, terms: Terms)
    requires tail != []
  {
    var last := tail[|tail| - 1];
    && (last.WRetry? ==> !terms.last && last.after == terms.delay)
    && (last.WFail? ==> terms.last && (terms.versioned ==> |tail| > 1 && tail[|tail| - 2].WMarkError?))
  }

  ghost predicate Steady(part: seq<Action>) { forall a <- part :: !Ends(a) && !a.Crash? }

  lemma Prepended(part: seq<Action>, tail: seq<Action>)
    requires Steady(part) && EndsOnce(tail)
    ensures EndsOnce(part + tail) && (part + tail)[|part + tail| - 1] == tail[|tail| - 1]
  {
  }

  lemma GivingUpEndsOnce(me: Self, h: Local, after: Duration, turn: Turn)
    requires h.Holding?
    ensures EndsOnce(GivingUp(me, h, after, turn))
    ensures OnTerms(GivingUp(me, h, after, turn), Terms(after, h.attempt >= me.maxAttempts, h.version.Some?))
  {
  }

  lemma {:induction false} IssuedIsSteady(work: seq<Work>, n: nat, w: WorkerId, lease: Duration)
    ensures Steady(Issued(work, n, w, lease))
  {
    if work != [] {
      IssuedIsSteady(work[..|work| - 1], n, w, lease);
    }
  }

  /** The tail of a turn from own on lets the task go once, at its end, on these terms. */
  ghost predicate LetsGo(own: seq<Action>, own': seq<Action>, terms: Terms) {
    own <= own' && EndsOnce(own'[|own|..]) && OnTerms(own'[|own|..], terms)
  }

  lemma LetsGoAfter(own: seq<Action>, part: seq<Action>, own': seq<Action>, terms: Terms)
    requires Steady(part) && LetsGo(own + part, own', terms)
    ensures LetsGo(own, own', terms)
  {
    var tail := own'[|own + part|..];
    assert own'[|own|..] == part + tail;
    Prepended(part, tail);
  }

  lemma LetsGoNow(own: seq<Action>, tail: seq<Action>, terms: Terms)
    requires EndsOnce(tail) && OnTerms(tail, terms)
    ensures LetsGo(own, own + tail, terms)
  {
    assert (own + tail)[|own|..] == tail;
  }

  lemma FinalizesLetsGo(
      me: Self, own: seq<Action>, own': seq<Action>, heard: seq<Reply>, heard': seq<Reply>, h: Local, turn: Turn)
    requires h.Holding? && Finalizes(me, own, own', heard, heard', h, turn)
    ensures LetsGo(own, own', TermsFor(me, h, 1_000_000_000))
  {
    var ready := [WMarkReady(me.w, turn.ready.seen)];
    var tail := if Good(heard'[|heard|]) then [WComplete(me.w, turn.complete.at, turn.complete.stamp)]
                else GivingUp(me, h, 1_000_000_000, turn);
    GivingUpEndsOnce(me, h, 1_000_000_000, turn);
    Prepended(ready, tail);
    LetsGoNow(own, ready + tail, TermsFor(me, h, 1_000_000_000));
  }

  lemma ConcludesLetsGo(
      me: Self, own: seq<Action>, own': seq<Action>, heard: seq<Reply>, heard': seq<Reply>, h: Local, turn: Turn,
      ok: bool)
    requires h.Holding? && Concludes(me, own, own', heard, heard', h, turn, ok)
    ensures LetsGo(own, own', TermsFor(me, h, 1_000_000_000))
  {
    if ok {
      FinalizesLetsGo(me, own + [WExecuted(me.w, true)], own', heard, heard', h, turn);
    } else {
      GivingUpEndsOnce(me, h, 1_000_000_000, turn);
      LetsGoNow(own + [WExecuted(me.w, false)], GivingUp(me, h, 1_000_000_000, turn),
                TermsFor(me, h, 1_000_000_000));
    }
    LetsGoAfter(own, [WExecuted(me.w, ok)], own', TermsFor(me, h, 1_000_000_000));
  }

  lemma WorksLetsGo(
      me: Self, own: seq<Action>, own': seq<Action>, heard: seq<Reply>, heard': seq<Reply>, h: Local, turn: Turn)
    requires h.Holding? && Works(me, own, own', heard, heard', h, turn)
    ensures LetsGo(own, own', TermsFor(me, h, 1_000_000_000))
  {
    var mid: seq<Action>, heard1: seq<Reply>, renewed :|
      && Carried(own, mid, heard, heard1, turn.work, me.w, me.lease, renewed)
      && Concludes(me, mid, own', heard1, heard', h, turn, turn.executed && renewed);
    ConcludesLetsGo(me, mid, own', heard1, heard', h, turn, turn.executed && renewed);
    IssuedIsSteady(turn.work, |heard1| - |heard|, me.w, me.lease);
    LetsGoAfter(own, Issued(turn.work, |heard1| - |heard|, me.w, me.lease), own', TermsFor(me, h, 1_000_000_000));
  }

  /** A claim that was won and heard of is never dropped: the statements after it let the
      task go exactly once, as the last of them, by Complete, Fail or Retry. A retry comes
      only below MaxAttempts and is due five minutes later if the task had no version and
      the worker no binder, and a second later in every other case. A failure comes only at
      MaxAttempts, and right after the version's error, if the task had a version. */
  lemma ClaimIsNeverDropped(
      me: Self, own: seq<Action>, own': seq<Action>, heard: seq<Reply>, heard': seq<Reply>, h: Local, turn: Turn)
    requires h.Holding? && h.phase == Claimed && Conducts(me, own, own', heard, heard', h, turn)
    ensures LetsGo(own, own', TermsOf(me, h, turn))
  {
    var mid: seq<Action>, heard1: seq<Reply>, bound: Local :|
      && bound.Holding? && Binds(me, own, mid, heard, heard1, h, turn, bound)
      && GoesOn(me, mid, own', heard1, heard', bound, turn);
    if h.version.None? {
      UnboundClaimLetsGo(me, own, mid, own', heard, heard1, heard', h, turn, bound);
    } else {
      BoundAlready(me, own, mid, heard, heard1, h, turn, bound);
      GoingOnLetsGo(me, own, own', heard, heard', h, turn, TermsOf(me, h, turn));
    }
  }

  lemma UnboundClaimLetsGo(
      me: Self, own: seq<Action>, mid: seq<Action>, own': seq<Action>,
      heard: seq<Reply>, heard1: seq<Reply>, heard': seq<Reply>, h: Local, turn: Turn, bound: Local)
    requires h.Holding? && h.phase == Claimed && h.version.None? && bound.Holding?
    requires Binds(me, own, mid, heard, heard1, h, turn, bound) && GoesOn(me, mid, own', heard1, heard', bound, turn)
    ensures LetsGo(own, own', TermsOf(me, h, turn))
  {
    BoundClaim(me, own, mid, heard, heard1, h, turn, bound);
    GoingOnLetsGo(me, mid, own', heard1, heard', bound, turn, TermsOf(me, h, turn));
    LetsGoAfter(own, [BindCall(me, turn, heard1[|heard|].before)], own', TermsOf(me, h, turn));
  }

  lemma BoundAlready(
      me: Self, own: seq<Action>, own': seq<Action>, heard: seq<Reply>, heard': seq<Reply>,
      h: Local, turn: Turn, bound: Local)
    requires h.Holding? && h.version.Some? && Binds(me, own, own', heard, heard', h, turn, bound)
    ensures bound == h && own' == own && heard' == heard
  {
  }

  lemma BoundClaim(
      me: Self, own: seq<Action>, own': seq<Action>, heard: seq<Reply>, heard': seq<Reply>,
      h: Local, turn: Turn, bound: Local)
    requires h.Holding? && h.phase == Claimed && h.version.None? && Binds(me, own, own', heard, heard', h, turn, bound)
    ensures |heard'| == |heard| + 1 && own' == own + [BindCall(me, turn, heard'[|heard|].before)]
    ensures bound.Holding? && bound.attempt == h.attempt
    ensures bound.phase == Failing || (bound.phase == Claimed && turn.binding.Resolved?)
  {
  }

  lemma GoingOnLetsGo(
      me: Self, own: seq<Action>, own': seq<Action>, heard: seq<Reply>, heard': seq<Reply>, bound: Local, turn: Turn,
      terms: Terms)
    requires bound.Holding? && GoesOn(me, own, own', heard, heard', bound, turn)
    requires terms.delay ==
      if bound.phase == Failing && turn.binding.NoBinder? then 300_000_000_000 else 1_000_000_000
    requires terms.last == (bound.attempt >= me.maxAttempts) && (terms.versioned ==> bound.version.Some?)
    ensures LetsGo(own, own', terms)
  {
    if bound.phase == Failing {
      GivingUpEndsOnce(me, bound, terms.delay, turn);
      LetsGoNow(own, GivingUp(me, bound, terms.delay, turn), terms);
    } else {
      WorksLetsGo(me, own, own', heard, heard', bound, turn);
    }
  }

  lemma RepliesGrow(
      me: Self, own: seq<Action>, own': seq<Action>, heard: seq<Reply>, heard': seq<Reply>, h: Local, turn: Turn)
    requires h.Holding? && Conducts(me, own, own', heard, heard', h, turn)
    ensures heard <= heard'
  {
    var mid: seq<Action>, heard1: seq<Reply>, bound: Local :|
      && bound.Holding? && Binds(me, own, mid, heard, heard1, h, turn, bound)
      && GoesOn(me, mid, own', heard1, heard', bound, turn);
    assert heard <= heard1;
    if bound.phase != Failing {
      var mid2: seq<Action>, heard2: seq<Reply>, renewed :|
        && Carried(mid, mid2, heard1, heard2, turn.work, me.w, me.lease, renewed)
        && Concludes(me, mid2, own', heard2, heard', bound, turn, turn.executed && renewed);
      assert heard1 <= heard2 <= heard';
    }
  }

  /** A turn of a task that is there: its first reply is that to the claim. If it is good the
      task is let go once, at the end, on the terms that the row calls for; if not, there
      is nothing but the claim, and a lease forgotten if the claim did take effect. */
  lemma TurnEnds(
      me: Self, own: seq<Action>, own': seq<Action>, heard: seq<Reply>, heard': seq<Reply>, t: T.TaskId, turn: Turn)
    requires Turned(me, true, own, own', heard, heard', t, turn)
    ensures heard < heard'
    ensures var r := heard'[|heard|];
      && r.statement == WClaim(me.w, t, me.owner, me.lease, turn.claim.at, turn.claim.stamp)
      && r.moment == turn.claim && t in r.before.tasks
      && (Good(r) ==> LetsGo(own, own', var row := r.before.tasks[t]; Terms(
            if row.version.None? && turn.binding.NoBinder? then 300_000_000_000 else 1_000_000_000,
            row.attempts + 1 >= me.maxAttempts, row.version.Some?)))
      && (!Good(r) ==> own' == own + ([r.statement] + if Took(r.before, r.statement) then [Crash(me.w)] else []))
  {
    var claim := WClaim(me.w, t, me.owner, me.lease, turn.claim.at, turn.claim.stamp);
    var r: Reply :| r.statement == claim && r.moment == turn.claim && t in r.before.tasks
      && Answered(me, own, own', heard + [r], heard', t, turn, r);
    AnswerGrows(me, own, own', heard, heard', t, turn, r);
    if Good(r) {
      GoodAnswerLetsGo(me, own, own', heard, heard', t, turn, r);
    }
  }

  lemma AnswerGrows(
      me: Self, own: seq<Action>, own': seq<Action>, heard: seq<Reply>, heard': seq<Reply>,
      t: T.TaskId, turn: Turn, r: Reply)
    requires t in r.before.tasks && Answered(me, own, own', heard + [r], heard', t, turn, r)
    ensures heard < heard' && heard'[|heard|] == r
  {
    if Good(r) {
      RepliesGrow(me, own + [r.statement], own', heard + [r], heard', HeldBy(me, r, t), turn);
    }
  }

  lemma GoodAnswerLetsGo(
      me: Self, own: seq<Action>, own': seq<Action>, heard: seq<Reply>, heard': seq<Reply>,
      t: T.TaskId, turn: Turn, r: Reply)
    requires t in r.before.tasks && Answered(me, own, own', heard + [r], heard', t, turn, r) && Good(r)
    requires r.statement.WClaim?
    ensures LetsGo(own, own', TermsOf(me, HeldBy(me, r, t), turn))
  {
    var h := HeldBy(me, r, t);
    ClaimIsNeverDropped(me, own + [r.statement], own', heard + [r], heard', h, turn);
    LetsGoAfter(own, [r.statement], own', TermsOf(me, h, turn));
  }

  lemma SameGivingUp(me: Self, h: Local, h': Local, after: Duration, turn: Turn)
    requires h.Holding? && h'.Holding? && h'.attempt == h.attempt && h'.version == h.version
    ensures GivingUp(me, h', after, turn) == GivingUp(me, h, after, turn)
  {
  }

  // ---- whole scans ------------------------------------------------------------------

  /** The worker's statements and replies at some point, and the world as it is there. */
  datatype Mark = Mark(own: seq<Action>, replies: seq<Reply>, world: World)

  /** From mark to mark one turn of each due task, and a good one imports it. */
  ghost predicate Scanned(me: Self, known: bool, due: seq<T.TaskId>, turns: seq<Turn>, marks: seq<Mark>) {
    && |turns| == |due| && |marks| == |due| + 1
    && forall k :: 0 <= k < |due| ==> TurnedAt(me, known, due, turns, marks, k)
  }

  ghost predicate TurnedAt(
      me: Self, known: bool, due: seq<T.TaskId>, turns: seq<Turn>, marks: seq<Mark>, k: nat)
    requires k < |due| && |turns| == |due| && |marks| == |due| + 1
  {
    && Turned(me, known, marks[k].own, marks[k + 1].own, marks[k].replies, marks[k + 1].replies, due[k], turns[k])
    && (GoodTurn(marks[k].world, me, due[k], turns[k]) ==>
          Imported(marks[k + 1].world, due[k], Target(marks[k].world.tasks[due[k]].version, turns[k])))
  }

  lemma OneMoreTurn(
      me: Self, known: bool, there: bool, due: seq<T.TaskId>, turns: seq<Turn>, n: nat, marks: seq<Mark>, next: Mark)
    requires n < |due| && |turns| == |due| && Scanned(me, known, due[..n], turns[..n], marks) && (known ==> there)
    requires Turned(me, there, marks[n].own, next.own, marks[n].replies, next.replies, due[n], turns[n])
    requires GoodTurn(marks[n].world, me, due[n], turns[n]) ==>
      Imported(next.world, due[n], Target(marks[n].world.tasks[due[n]].version, turns[n]))
    ensures Scanned(me, known, due[..n + 1], turns[..n + 1], marks + [next])
  {
    var all, due', turns' := marks + [next], due[..n + 1], turns[..n + 1];
    forall k | 0 <= k < |due'| ensures TurnedAt(me, known, due', turns', all, k) {
      if k < n {
        assert TurnedAt(me, known, due[..n], turns[..n], marks, k);
        assert due'[k] == due[..n][k] && turns'[k] == turns[..n][k];
        assert all[k] == marks[k] && all[k + 1] == marks[k + 1];
      }
    }
  }

  lemma BoundNow(
      me: Self, own: seq<Action>, heard: seq<Reply>, h: Local, turn: Turn, bound: Local, r: Reply)
    requires h.Holding? && h.version.None?
    requires r.statement == BindCall(me, turn, r.before) && r.moment == turn.bind
    requires bound == if Good(r) then h.(version := Some(turn.binding.version)) else h.(phase := Failing)
    requires Good(r) ==> turn.binding.Resolved?
    ensures Binds(me, own, own + [r.statement], heard, heard + [r], h, turn, bound)
  {
    HeardOne(heard, r);
    assert (heard + [r])[|heard|] == r;
    assert Bound(me, own, own + [r.statement], heard, heard + [r], h, turn, bound, r);
  }

  lemma ConductedThrough(
      me: Self, own: seq<Action>, mid: seq<Action>, own': seq<Action>,
      heard: seq<Reply>, heard1: seq<Reply>, heard': seq<Reply>, h: Local, turn: Turn, bound: Local)
    requires h.Holding? && bound.Holding? && Binds(me, own, mid, heard, heard1, h, turn, bound)
    requires GoesOn(me, mid, own', heard1, heard', bound, turn)
    ensures Conducts(me, own, own', heard, heard', h, turn)
  {
  }

  lemma WorkedThrough(
      me: Self, own: seq<Action>, mid: seq<Action>, own': seq<Action>,
      heard: seq<Reply>, heard1: seq<Reply>, heard': seq<Reply>, h: Local, turn: Turn, renewed: bool)
    requires h.Holding? && Carried(own, mid, heard, heard1, turn.work, me.w, me.lease, renewed)
    requires Concludes(me, mid, own', heard1, heard', h, turn, turn.executed && renewed)
    ensures Works(me, own, own', heard, heard', h, turn)
  {
  }

  lemma ConcludesWell(
      me: Self, own: seq<Action>, own': seq<Action>, heard: seq<Reply>, heard': seq<Reply>,
      h: Local, h': Local, turn: Turn)
    requires h.Holding? && h'.Holding? && h'.attempt == h.attempt && h'.version == h.version
    requires Finalizes(me, own + [WExecuted(me.w, true)], own', heard, heard', h', turn)
    ensures Concludes(me, own, own', heard, heard', h, turn, true)
  {
    SameGivingUp(me, h, h', 1_000_000_000, turn);
  }

  // ---- what the statements do ---------------------------------------------------------

  /** The statements that do not write the task row. */
  predicate SparesTask(a: Action) {
    a.WUnbound? || a.WPersist? || a.WSetChecksum? || a.WExecuted? || a.WMarkReady?
  }

  lemma TaskSpared(x: World, a: Action, maxAttempts: nat, t: T.TaskId)
    requires Enabled(x, a, maxAttempts) && SparesTask(a) && t in x.tasks
    ensures t in Next(x, a, maxAttempts).tasks && Next(x, a, maxAttempts).tasks[t] == x.tasks[t]
  {
    RowsMoveByStatements(x, a, maxAttempts, t);
  }

  lemma RenewMovesRow(x: World, w: WorkerId, lease: Duration, m: Moment, maxAttempts: nat)
    requires Working(x, w)
    ensures var a := WRenew(w, lease, m.at, m.stamp); var h := x.workers[w];
      && Enabled(x, a, maxAttempts) && h.task in Next(x, a, maxAttempts).tasks
      && Next(x, a, maxAttempts).tasks[h.task] == Apply(x.tasks[h.task], RenewStep(h, lease, m))
      && Next(x, a, maxAttempts).db == x.db && Next(x, a, maxAttempts).workers[w] == h
  {
    RowsMoveByStatements(x, WRenew(w, lease, m.at, m.stamp), maxAttempts, x.workers[w].task);
  }

  lemma BindMovesRow(x: World, w: WorkerId, m: T.ModelId, v: T.VersionId, moment: Moment, maxAttempts: nat)
    requires Working(x, w) && x.workers[w].phase == Claimed && x.workers[w].version.None? && v in x.db.versions
    ensures var a := WBind(w, m, v, moment.at, moment.stamp, moment.seen); var h := x.workers[w];
      var bind := Step(Bind(h.owner, h.epoch, m, v), moment.at, moment.stamp);
      && Enabled(x, a, maxAttempts) && h.task in Next(x, a, maxAttempts).tasks
      && Next(x, a, maxAttempts).tasks[h.task] == Apply(x.tasks[h.task], bind)
      && Next(x, a, maxAttempts).db == x.db && (Took(x, a) <==> Succeeds(x.tasks[h.task], bind))
      && Next(x, a, maxAttempts).workers[w] ==
           if moment.seen && Succeeds(x.tasks[h.task], bind) then h.(version := Some(v)) else h.(phase := Failing)
  {
    RowsMoveByStatements(x, WBind(w, m, v, moment.at, moment.stamp, moment.seen), maxAttempts, x.workers[w].task);
  }

  /** What they do to the catalog. */
  function WriteOf(a: Action, v: T.VersionId): Option<C.Op> {
    match a
    case WPersist(_, artifact) => Some(C.CreateArtifact(v, artifact))
    case WSetChecksum(_, checksum, bytes) => Some(C.SetChecksum(v, checksum, bytes))
    case WMarkReady(_, _) => Some(C.MarkReady(v))
    case _ => None
  }

  lemma CatalogWritten(x: World, a: Action, maxAttempts: nat)
    requires Enabled(x, a, maxAttempts) && SparesTask(a)
    ensures var v := x.workers[a.w].version;
      Next(x, a, maxAttempts).db ==
        if v.Some? && WriteOf(a, v.value).Some? then C.Apply(x.db, WriteOf(a, v.value).value) else x.db
  {
  }

  // ---- an undisturbed turn ------------------------------------------------------------

  function RenewStep(h: Local, lease: Duration, m: Moment): Step
    requires h.Holding?
  {
    Step(Renew(h.owner, h.epoch, lease), m.at, m.stamp)
  }

  function BindStep(h: Local, turn: Turn, x: World): Step
    requires h.Holding?
  {
    if turn.binding.Resolved? && turn.binding.version in x.db.versions then
      Step(Bind(h.owner, h.epoch, turn.binding.model, turn.binding.version), turn.bind.at, turn.bind.stamp)
    else NOTHING
  }

  /** Nobody else acts in it. */
  predicate Calm(work: Work) {
    (work.Renewal? ==> work.moment.others == []) && (work.Elsewhere? ==> work.others == [])
  }

  predicate AllCalm(work: seq<Work>) { forall k :: 0 <= k < |work| ==> Calm(work[k]) }

  /** The task row, and the catalog, after one event of calm work. */
  function RowAfter(row: Row, h: Local, lease: Duration, work: Work): Row
    requires h.Holding?
  {
    if work.Renewal? then Apply(row, RenewStep(h, lease, work.moment)) else row
  }

  function DbAfter1(db: C.Db, v: T.VersionId, work: Work): C.Db {
    match work
    case Persist(artifact) => C.Apply(db, C.CreateArtifact(v, artifact))
    case Checksum(checksum, bytes) => C.Apply(db, C.SetChecksum(v, checksum, bytes))
    case _ => db
  }

  function RowAfterAll(row: Row, h: Local, lease: Duration, work: seq<Work>): Row
    requires h.Holding?
  {
    if work == [] then row
    else RowAfter(RowAfterAll(row, h, lease, work[..|work| - 1]), h, lease, work[|work| - 1])
  }

  function DbAfterAll(db: C.Db, v: T.VersionId, work: seq<Work>): C.Db {
    if work == [] then db else DbAfter1(DbAfterAll(db, v, work[..|work| - 1]), v, work[|work| - 1])
  }

  /** Every renewal finds the lease alive, and its reply arrives. */
  ghost predicate InTime(row: Row, h: Local, lease: Duration, work: seq<Work>)
    requires h.Holding?
  {
    forall n :: 0 <= n < |work| && work[n].Renewal? ==>
      work[n].moment.seen && Succeeds(RowAfterAll(row, h, lease, work[..n]), RenewStep(h, lease, work[n].moment))
  }

  lemma CalmOn(row: Row, db: C.Db, h: Local, lease: Duration, work: seq<Work>, n: nat)
    requires h.Holding? && h.version.Some? && n < |work|
    ensures RowAfterAll(row, h, lease, work[..n + 1])
      == RowAfter(RowAfterAll(row, h, lease, work[..n]), h, lease, work[n])
    ensures DbAfterAll(db, h.version.value, work[..n + 1])
      == DbAfter1(DbAfterAll(db, h.version.value, work[..n]), h.version.value, work[n])
  {
    assert work[..n + 1][..n] == work[..n];
  }

  /** v is open, of a live model, with an artifact whose digest is its own checksum. */
  predicate Verified(db: C.Db, v: T.VersionId) {
    && v in db.versions && db.versions[v].state in {C.Pending, C.Importing}
    && v in db.artifacts && db.artifacts[v].reference != ""
    && db.artifacts[v].sha == db.versions[v].checksum != ""
    && db.versions[v].model in db.models && db.models[db.versions[v].model].state != C.ModelDeleted
  }

  predicate VerifiedBy(db: C.Db, v: T.VersionId, work: seq<Work>) { Verified(DbAfterAll(db, v, work), v) }

  /** The task is completed, and its version v ready under a ready model. */
  predicate Imported(x: World, t: T.TaskId, v: T.VersionId) {
    && t in x.tasks && x.tasks[t].status == T.Completed && x.tasks[t].version == Some(v)
    && v in x.db.versions && x.db.versions[v].state == C.Ready
    && x.db.versions[v].model in x.db.models && x.db.models[x.db.versions[v].model].state == C.ModelReady
  }

  /** From this row and catalog on, a bound claim meets nobody, keeps its lease, and leaves
      a verified version behind. */
  ghost predicate SmoothWork(row: Row, db: C.Db, h: Local, lease: Duration, turn: Turn)
    requires h.Holding? && h.version.Some?
  {
    && row.version == h.version && AllCalm(turn.work) && InTime(row, h, lease, turn.work) && turn.executed
    && Verified(DbAfterAll(db, h.version.value, turn.work), h.version.value)
    && turn.ready.others == [] && turn.ready.seen && turn.complete.others == []
    && Live(RowAfterAll(row, h, lease, turn.work), h.owner, h.epoch, turn.complete.at)
  }

  /** The version that the turn imports: the task's own, or the binder's. */
  function Target(version: Option<T.VersionId>, turn: Turn): T.VersionId {
    if version.Some? then version.value else if turn.binding.Resolved? then turn.binding.version else 0
  }

  ghost predicate Smooth(row: Row, x: World, h: Local, lease: Duration, turn: Turn)
    requires h.Holding?
  {
    if h.version.Some? then SmoothWork(row, x.db, h, lease, turn)
    else
      && turn.binding.Resolved? && turn.binding.version in x.db.versions
      && turn.bind.others == [] && turn.bind.seen && Succeeds(row, BindStep(h, turn, x))
      && SmoothWork(Apply(row, BindStep(h, turn, x)), x.db, h.(version := Some(turn.binding.version)), lease, turn)
  }

  lemma {:induction false} WorkKeepsVersion(row: Row, h: Local, lease: Duration, work: seq<Work>)
    requires h.Holding?
    ensures RowAfterAll(row, h, lease, work).version == row.version
  {
    if work != [] {
      WorkKeepsVersion(row, h, lease, work[..|work| - 1]);
    }
  }

  /** What is left behind makes MarkReady succeed and Complete take effect. */
  lemma SmoothWorkEndsWell(row: Row, db: C.Db, h: Local, lease: Duration, turn: Turn)
    requires h.Holding? && h.version.Some? && SmoothWork(row, db, h, lease, turn)
    ensures var v := h.version.value; var done := DbAfterAll(db, v, turn.work);
      var last := Apply(RowAfterAll(row, h, lease, turn.work),
                        Step(Complete(h.owner, h.epoch), turn.complete.at, turn.complete.stamp));
      var final := C.Apply(done, C.MarkReady(v));
      && C.MarksReady(done, v) && last.status == T.Completed && last.version == Some(v)
      && v in final.versions && final.versions[v].state == C.Ready
      && final.versions[v].model in final.models && final.models[final.versions[v].model].state == C.ModelReady
  {
    WorkKeepsVersion(row, h, lease, turn.work);
  }

  // ---- the same in terms of times ----------------------------------------------------

  /** When the lease that ends at until ends after this work, by its renewals. */
  function Until(until: int, lease: Duration, work: seq<Work>): int {
    if work == [] then until
    else
      var last := work[|work| - 1];
      if last.Renewal? then last.moment.stamp + Micros(lease) else Until(until, lease, work[..|work| - 1])
  }

  /** Each renewal comes before the lease then in force ends, and is heard of. */
  ghost predicate Prompt(until: int, lease: Duration, work: seq<Work>) {
    forall n :: 0 <= n < |work| && work[n].Renewal? ==>
      work[n].moment.seen && work[n].moment.at < Until(until, lease, work[..n])
  }

  /** The row is held, under this lease. */
  predicate HeldUntil(row: Row, h: Local, until: int)
    requires h.Holding?
  {
    row.status == T.Importing && row.owner == h.owner && row.epoch == h.epoch && row.lease == Some(until)
  }

  lemma {:induction false} PromptWorkIsInTime(row: Row, h: Local, lease: Duration, work: seq<Work>, until: int, n: nat)
    requires h.Holding? && HeldUntil(row, h, until) && Prompt(until, lease, work) && n <= |work|
    ensures HeldUntil(RowAfterAll(row, h, lease, work[..n]), h, Until(until, lease, work[..n]))
    ensures InTime(row, h, lease, work[..n])
  {
    if n > 0 {
      var front, all := work[..n - 1], work[..n];
      assert all[..n - 1] == front;
      PromptWorkIsInTime(row, h, lease, work, until, n - 1);
      forall k | 0 <= k < n && all[k].Renewal?
        ensures all[k].moment.seen && Succeeds(RowAfterAll(row, h, lease, all[..k]), RenewStep(h, lease, all[k].moment))
      {
        assert work[k] == all[k] && all[..k] == front[..k] == work[..k];
        if k < n - 1 {
          assert front[k] == all[k];
        }
      }
    }
  }

  /** A turn as it should go, in terms of clock readings. The task can be claimed. It has
      a version, or the binder gives one while the lease lasts. Nobody else acts; renewals
      are prompt; the executor reports success, and its writes leave the version verified;
      and the lease lasts until Complete. Every reply but the last arrives. */
  ghost predicate GoodTurn(x: World, me: Self, t: T.TaskId, turn: Turn) {
    var until := turn.claim.stamp + Micros(me.lease);
    && t in x.tasks && turn.claim.others == [] && turn.claim.seen
    && x.tasks[t].status in {T.Pending, T.Importing} && x.tasks[t].nextAttempt <= turn.claim.at
    && (x.tasks[t].lease.Some? ==> x.tasks[t].lease.value <= turn.claim.at)
    && x.tasks[t].epoch < 0x7fff_ffff_ffff_ffff && x.tasks[t].attempts < 0x7fff_ffff
    && (x.tasks[t].version.None? ==>
          && turn.binding.Resolved? && turn.binding.version in x.db.versions
          && turn.bind.others == [] && turn.bind.seen && turn.bind.at < until)
    && AllCalm(turn.work) && Prompt(until, me.lease, turn.work) && turn.executed
    && VerifiedBy(x.db, Target(x.tasks[t].version, turn), turn.work)
    && turn.ready.others == [] && turn.ready.seen && turn.complete.others == []
    && turn.complete.at < Until(until, me.lease, turn.work)
  }

  function ClaimOf(me: Self, turn: Turn): Step {
    Step(Claim(me.owner, me.lease), turn.claim.at, turn.claim.stamp)
  }

  /** What a claim made without anybody in its way does: x is the world it finds, y the one
      it leaves, and h what the worker holds. */
  ghost predicate Won(x: World, y: World, me: Self, t: T.TaskId, turn: Turn, h: Local)
    requires t in x.tasks
  {
    var row := x.tasks[t];
    && h == Holding(t, me.owner, row.epoch + 1, row.attempts + 1, row.version, Claimed)
    && t in y.tasks && y.tasks[t] == Apply(row, ClaimOf(me, turn)) && y.db == x.db
  }

  /** A good turn, once its claim is in, is smooth from there on. */
  lemma GoodTurnIsSmooth(x: World, y: World, me: Self, t: T.TaskId, turn: Turn, h: Local)
    requires GoodTurn(x, me, t, turn) && Won(x, y, me, t, turn, h)
    ensures Smooth(y.tasks[t], y, h, me.lease, turn)
  {
    var v := Target(h.version, turn);
    var row1 := y.tasks[t];
    var until := turn.claim.stamp + Micros(me.lease);
    assert HeldUntil(row1, h, until);
    var row2 := if h.version.Some? then row1 else Apply(row1, BindStep(h, turn, y));
    var bound := h.(version := Some(v));
    assert HeldUntil(row2, bound, until) && row2.version == Some(v);
    PromptWorkIsInTime(row2, bound, me.lease, turn.work, until, |turn.work|);
    assert turn.work[..|turn.work|] == turn.work;
  }

  // ---- work that leaves a version verified ------------------------------------------

  /** The writes of some work: renewals and others' doings aside. */
  function Writes(work: seq<Work>): seq<Work> {
    if work == [] then []
    else
      var last := work[|work| - 1];
      Writes(work[..|work| - 1]) + if last.Persist? || last.Checksum? then [last] else []
  }

  lemma {:induction false} OnlyWritesMatter(db: C.Db, v: T.VersionId, work: seq<Work>)
    ensures DbAfterAll(db, v, work) == DbAfterAll(db, v, Writes(work))
  {
    if work != [] {
      var front, last := work[..|work| - 1], work[|work| - 1];
      OnlyWritesMatter(db, v, front);
      assert (Writes(front) + [last])[..|Writes(front)|] == Writes(front);
      assert Writes(front) + [] == Writes(front);
    }
  }

  /** The executor that persists an artifact and then sets its digest as checksum leaves an
      open version of a live model verified, however often it renews in between. */
  lemma PersistAndChecksumVerify(db: C.Db, v: T.VersionId, a: C.Artifact, bytes: int, work: seq<Work>)
    requires v in db.versions && db.versions[v].state in {C.Pending, C.Importing}
    requires C.ModelLive(db, db.versions[v].model) && db.versions[v].checksum in {"", a.sha}
    requires C.ValidArtifact(a) && (v in db.artifacts ==> db.artifacts[v] == a)
    requires Writes(work) == [Persist(a), Checksum(a.sha, bytes)]
    ensures Verified(DbAfterAll(db, v, work), v)
  {
    OnlyWritesMatter(db, v, work);
    var writes := Writes(work);
    assert writes[..1] == [Persist(a)] && writes[..1][..0] == [];
    assert DbAfterAll(db, v, writes[..1]) == C.Apply(db, C.CreateArtifact(v, a));
  }
}
