/** The worker's loop as a program: one scan of runOnce, statement by statement, while
    other workers, operators and writers act between its statements. Every statement it
    issues is one that the protocol of ImportWorkers allows it at that point. */
module ImportLoop {
  import opened Wrappers
  import opened Transitions
  import opened TaskRows
  import opened ImportWorkers
  import opened ImportTurns
  import T = WorkTask
  import C = Catalog

  const SECOND: Duration := 1_000_000_000

  class Worker {
    const w: WorkerId
    const owner: string
    const lease: Duration
    const maxAttempts: nat
    var world: World
    ghost var trace: seq<Action>
    ghost var own: seq<Action>
    ghost var claims: seq<T.TaskId>
    ghost var replies: seq<Reply>
    ghost const first: World

    /** own is the worker's part of the trace, claims its claims, replies those to the
        statements whose outcome it acts on. */
    ghost predicate Valid() reads this {
      && w in world.workers && Leads(first, trace, world, StepWith(maxAttempts))
      && own == Mine(trace, w) && claims == Claims(own)
      && AllRecorded(replies, first, trace, maxAttempts)
    }

    ghost predicate At(h: Local) reads this {
      Valid() && world.workers[w] == h && (h.Holding? ==> h.task in world.tasks)
    }

    constructor (w: WorkerId, owner: string, lease: Duration, maxAttempts: nat, world: World)
      requires w in world.workers && maxAttempts > 0
      ensures Valid() && this.world == world && first == world && trace == []
      ensures this.w == w && this.owner == owner && this.lease == lease && this.maxAttempts == maxAttempts
    {
      this.w, this.owner, this.lease, this.maxAttempts, this.world := w, owner, lease, maxAttempts, world;
      first, trace, own, claims, replies := world, [], [], [], [];
    }

    method Act(a: Action)
      requires Valid() && Enabled(world, a, maxAttempts)
      modifies this
      ensures Valid() && world == Next(old(world), a, maxAttempts) && TasksStay(old(world), world)
      ensures trace == old(trace) + [a] && replies == old(replies)
      ensures own == old(own) + (if Foreign(a, w) then [] else [a])
      ensures claims == old(claims) + (if Foreign(a, w) || !a.WClaim? then [] else [a.t])
    {
      LeadsOn(first, trace, world, a, Next(world, a, maxAttempts), StepWith(maxAttempts));
      StillRecorded(replies, first, trace, a, maxAttempts);
      OneMoreAction(trace, a, w);
      world, trace := Next(world, a, maxAttempts), trace + [a];
      if !Foreign(a, w) {
        own := own + [a];
        claims := claims + if a.WClaim? then [a.t] else [];
      }
    }

    /** What the others do meanwhile; an action that is not open to them is dropped. */
    method Meanwhile(others: seq<Action>)
      requires Valid()
      modifies this
      ensures Valid() && own == old(own) && claims == old(claims) && TasksStay(old(world), world)
      ensures replies == old(replies)
      ensures world.workers[w] == old(world).workers[w] && (others == [] ==> world == old(world))
    {
      for n := 0 to |others|
        invariant Valid() && own == old(own) && claims == old(claims) && TasksStay(old(world), world)
        invariant replies == old(replies)
        invariant world.workers[w] == old(world).workers[w] && (n == 0 ==> world == old(world))
      {
        if Foreign(others[n], w) && Enabled(world, others[n], maxAttempts) {
          ForeignKeepsLocal(world, others[n], w, maxAttempts);
          Act(others[n]);
        }
      }
    }

    function Me(): Self { Self(w, owner, lease, maxAttempts) }

    /** Ends the claim: the error goes to the version and the task, or to the task's
        next attempt. */
    method RetryOrFail(h: Local, after: Duration, turn: Turn)
      requires h.Holding? && h.phase == Failing && At(h)
      modifies this
      ensures At(Idle) && TasksStay(old(world), world) && own == old(own) + GivingUp(Me(), h, after, turn)
      ensures claims == old(claims) && replies == old(replies)
    {
      if h.attempt >= maxAttempts {
        GiveUp(h, turn);
      } else {
        Reschedule(h, after, turn);
      }
    }

    method Reschedule(h: Local, after: Duration, turn: Turn)
      requires h.Holding? && h.phase == Failing && h.attempt < maxAttempts && At(h)
      modifies this
      ensures At(Idle) && TasksStay(old(world), world)
      ensures own == old(own) + [WRetry(w, after, turn.message, turn.end.at, turn.end.stamp)]
      ensures claims == old(claims) && replies == old(replies)
    {
      Meanwhile(turn.end.others);
      Act(WRetry(w, after, turn.message, turn.end.at, turn.end.stamp));
    }

    method GiveUp(h: Local, turn: Turn)
      requires h.Holding? && h.phase == Failing && h.attempt >= maxAttempts && At(h)
      modifies this
      ensures At(Idle) && TasksStay(old(world), world)
      ensures own == old(own) + GivingUp(Me(), h, 0, turn)
      ensures claims == old(claims) && replies == old(replies)
    {
      if h.version.Some? {
        var marked := MarkVersion(h, turn.mark);
        Close(marked, turn);
        AppendTwice(old(own), [WMarkError(w, turn.mark.at)], [WFail(w, turn.message, turn.end.at, turn.end.stamp)]);
      } else {
        Close(h, turn);
      }
    }

    method MarkVersion(h: Local, moment: Moment) returns (marked: Local)
      requires h.Holding? && h.phase == Failing && h.version.Some? && h.attempt >= maxAttempts && At(h)
      modifies this
      ensures marked == h.(phase := Marked) && At(marked) && TasksStay(old(world), world)
      ensures own == old(own) + [WMarkError(w, moment.at)]
      ensures claims == old(claims) && replies == old(replies)
    {
      Meanwhile(moment.others);
      Act(WMarkError(w, moment.at));
      marked := h.(phase := Marked);
    }

    method Close(h: Local, turn: Turn)
      requires h.Holding? && h.attempt >= maxAttempts && At(h)
      requires h.phase == Marked || (h.phase == Failing && h.version.None?)
      modifies this
      ensures At(Idle) && TasksStay(old(world), world)
      ensures own == old(own) + [WFail(w, turn.message, turn.end.at, turn.end.stamp)]
      ensures claims == old(claims) && replies == old(replies)
    {
      Meanwhile(turn.end.others);
      Act(WFail(w, turn.message, turn.end.at, turn.end.stamp));
    }

    /** The claimed task gets a version to write to, or the claim is on its way out. */
    method EnsureBound(h: Local, turn: Turn) returns (bound: Local)
      requires h.Holding? && h.phase == Claimed && At(h)
      modifies this
      ensures bound.Holding? && At(bound) && TasksStay(old(world), world) && claims == old(claims)
      ensures bound.task == h.task && (bound.phase == Failing || (bound.phase == Claimed && bound.version.Some?))
      ensures Binds(Me(), old(own), own, old(replies), replies, h, turn, bound)
      ensures turn.bind.others == [] || h.version.Some? ==> world.db == old(world).db
      ensures var row := old(world).tasks[h.task]; var bind := BindStep(h, turn, old(world));
        && (h.version.Some? ==> world.tasks[h.task] == row)
        && (h.version.None? && turn.bind.others == [] ==> world.tasks[h.task] == Apply(row, bind))
        && (h.version.None? && turn.bind.others == [] && turn.bind.seen && Succeeds(row, bind) ==>
              bound.phase == Claimed)
    {
      if h.version.Some? {
        return h;
      }
      Meanwhile(turn.bind.others);
      bound := TryBind(h, turn);
    }

    /** Binds to the binder's version, if it gave one that exists. */
    method TryBind(h: Local, turn: Turn) returns (bound: Local)
      requires h.Holding? && h.phase == Claimed && h.version.None? && At(h)
      modifies this
      ensures bound.Holding? && At(bound) && TasksStay(old(world), world) && claims == old(claims)
      ensures bound.task == h.task && (bound.phase == Failing || (bound.phase == Claimed && bound.version.Some?))
      ensures Binds(Me(), old(own), own, old(replies), replies, h, turn, bound)
      ensures world.db == old(world).db
      ensures var row := old(world).tasks[h.task]; var bind := BindStep(h, turn, old(world));
        && world.tasks[h.task] == Apply(row, bind)
        && (turn.bind.seen && Succeeds(row, bind) ==> bound.phase == Claimed)
    {
      if turn.binding.Resolved? && turn.binding.version in world.db.versions {
        bound := BindTo(h, turn);
      } else {
        bound := DoWithout(h, turn);
      }
    }

    method BindTo(h: Local, turn: Turn) returns (bound: Local)
      requires h.Holding? && h.phase == Claimed && h.version.None? && At(h)
      requires turn.binding.Resolved? && turn.binding.version in world.db.versions
      modifies this
      ensures At(bound) && TasksStay(old(world), world) && claims == old(claims)
      ensures bound == h.(phase := Failing) || bound == h.(version := Some(turn.binding.version))
      ensures Binds(Me(), old(own), own, old(replies), replies, h, turn, bound)
      ensures world.db == old(world).db
      ensures var row := old(world).tasks[h.task]; var bind := BindStep(h, turn, old(world));
        && world.tasks[h.task] == Apply(row, bind)
        && (turn.bind.seen && Succeeds(row, bind) ==> bound.phase == Claimed)
    {
      ghost var reply := Reply(|trace|, BindCall(Me(), turn, world), world, turn.bind);
      BindMovesRow(world, w, turn.binding.model, turn.binding.version, turn.bind, maxAttempts);
      bound := BindNow(h, turn.binding.model, turn.binding.version, turn.bind);
      BoundNow(Me(), old(own), old(replies), h, turn, bound, reply);
    }

    method DoWithout(h: Local, turn: Turn) returns (bound: Local)
      requires h.Holding? && h.phase == Claimed && h.version.None? && At(h)
      requires !(turn.binding.Resolved? && turn.binding.version in world.db.versions)
      modifies this
      ensures bound == h.(phase := Failing) && At(bound) && TasksStay(old(world), world) && claims == old(claims)
      ensures Binds(Me(), old(own), own, old(replies), replies, h, turn, bound)
      ensures world.tasks[h.task] == old(world).tasks[h.task] && world.db == old(world).db
    {
      ghost var reply := Reply(|trace|, BindCall(Me(), turn, world), world, turn.bind);
      bound := PassOver(h, turn.bind);
      BoundNow(Me(), old(own), old(replies), h, turn, bound, reply);
    }

    /** The bind itself: it counts exactly if it took effect on the row as it is now, and
        the reply arrived. */
    method BindNow(h: Local, m: T.ModelId, v: T.VersionId, moment: Moment) returns (bound: Local)
      requires h.Holding? && h.phase == Claimed && h.version.None? && At(h) && v in world.db.versions
      modifies this
      ensures At(bound) && TasksStay(old(world), world) && claims == old(claims)
      ensures var bind := Step(Bind(h.owner, h.epoch, m, v), moment.at, moment.stamp);
        && bound == (if moment.seen && Succeeds(old(world).tasks[h.task], bind) then h.(version := Some(v))
                     else h.(phase := Failing))
        && world.tasks[h.task] == Apply(old(world).tasks[h.task], bind) && world.db == old(world).db
      ensures var bind := WBind(w, m, v, moment.at, moment.stamp, moment.seen);
        own == old(own) + [bind] && replies == old(replies) + [Reply(|old(trace)|, bind, old(world), moment)]
    {
      var bind := WBind(w, m, v, moment.at, moment.stamp, moment.seen);
      ghost var reply := Reply(|trace|, bind, world, moment);
      var took := moment.seen
        && Succeeds(world.tasks[h.task], Step(Bind(h.owner, h.epoch, m, v), moment.at, moment.stamp));
      BindMovesRow(world, w, m, v, moment, maxAttempts);
      Act(bind);
      Record(reply);
      bound := if took then h.(version := Some(v)) else h.(phase := Failing);
    }

    /** No version to bind to. */
    method PassOver(h: Local, moment: Moment) returns (bound: Local)
      requires h.Holding? && h.phase == Claimed && h.version.None? && At(h)
      modifies this
      ensures bound == h.(phase := Failing) && At(bound) && TasksStay(old(world), world) && claims == old(claims)
      ensures own == old(own) + [WUnbound(w)]
      ensures replies == old(replies) + [Reply(|old(trace)|, WUnbound(w), old(world), moment)]
      ensures world.tasks[h.task] == old(world).tasks[h.task] && world.db == old(world).db
    {
      ghost var reply := Reply(|trace|, WUnbound(w), world, moment);
      TaskSpared(world, WUnbound(w), maxAttempts, h.task);
      CatalogWritten(world, WUnbound(w), maxAttempts);
      Act(WUnbound(w));
      Record(reply);
      bound := h.(phase := Failing);
    }

    /** One event while Execute runs; returns whether renewal goes on. */
    method Advance(h: Local, work: Work, renewing: bool) returns (renewed: bool)
      requires h.Holding? && h.phase == Claimed && h.version.Some? && At(h)
      modifies this
      ensures At(h) && TasksStay(old(world), world) && claims == old(claims)
      ensures own == old(own) + if work.Renewal? && !renewing then [] else StatementOf(work, w, lease)
      ensures if work.Renewal? && renewing then
                Heard(old(replies), replies, WRenew(w, lease, work.moment.at, work.moment.stamp), work.moment, renewed)
              else replies == old(replies) && renewed == renewing
      ensures Calm(work) && renewing ==>
        && world.tasks[h.task] == RowAfter(old(world).tasks[h.task], h, lease, work)
        && world.db == DbAfter1(old(world).db, h.version.value, work)
        && (renewed <==> (work.Renewal? ==>
              work.moment.seen && Succeeds(old(world).tasks[h.task], RenewStep(h, lease, work.moment))))
    {
      renewed := renewing;
      match work {
        case Persist(artifact) => Write(h, WPersist(w, artifact));
        case Checksum(checksum, bytes) => Write(h, WSetChecksum(w, checksum, bytes));
        case Elsewhere(others) => Meanwhile(others);
        case Renewal(moment) =>
          if renewing {
            renewed := RenewLease(h, moment);
          }
      }
    }

    /** One of the executor's two writes. */
    method Write(h: Local, a: Action)
      requires h.Holding? && h.phase == Claimed && h.version.Some? && At(h)
      requires (a.WPersist? || a.WSetChecksum?) && a.w == w
      modifies this
      ensures At(h) && TasksStay(old(world), world) && own == old(own) + [a] && claims == old(claims)
      ensures replies == old(replies) && world.tasks[h.task] == old(world).tasks[h.task]
      ensures world.db == C.Apply(old(world).db,
                                  if a.WPersist? then C.CreateArtifact(h.version.value, a.artifact)
                                  else C.SetChecksum(h.version.value, a.checksum, a.bytes))
    {
      TaskSpared(world, a, maxAttempts, h.task);
      CatalogWritten(world, a, maxAttempts);
      Act(a);
    }

    method RenewLease(h: Local, moment: Moment) returns (renewed: bool)
      requires h.Holding? && h.phase == Claimed && At(h)
      modifies this
      ensures At(h) && TasksStay(old(world), world)
      ensures own == old(own) + [WRenew(w, lease, moment.at, moment.stamp)] && claims == old(claims)
      ensures Heard(old(replies), replies, WRenew(w, lease, moment.at, moment.stamp), moment, renewed)
      ensures moment.others == [] ==>
        && world.tasks[h.task] == Apply(old(world).tasks[h.task], RenewStep(h, lease, moment))
        && world.db == old(world).db
        && (renewed <==> moment.seen && Succeeds(old(world).tasks[h.task], RenewStep(h, lease, moment)))
    {
      Meanwhile(moment.others);
      HeardOne(replies, Reply(|trace|, WRenew(w, lease, moment.at, moment.stamp), world, moment));
      renewed := RenewNow(h, moment);
    }

    /** The renewal itself: it counts exactly if the statement took effect, on the row as
        it is now, and the reply arrived. */
    method RenewNow(h: Local, moment: Moment) returns (renewed: bool)
      requires h.Holding? && h.phase == Claimed && At(h)
      modifies this
      ensures At(h) && TasksStay(old(world), world)
      ensures var renewal := WRenew(w, lease, moment.at, moment.stamp);
        own == old(own) + [renewal] && replies == old(replies) + [Reply(|old(trace)|, renewal, old(world), moment)]
      ensures claims == old(claims) && world.db == old(world).db
      ensures renewed <==> moment.seen && Succeeds(old(world).tasks[h.task], RenewStep(h, lease, moment))
      ensures world.tasks[h.task] == Apply(old(world).tasks[h.task], RenewStep(h, lease, moment))
    {
      var renewal := WRenew(w, lease, moment.at, moment.stamp);
      ghost var reply := Reply(|trace|, renewal, world, moment);
      renewed := moment.seen && Succeeds(world.tasks[h.task], RenewStep(h, lease, moment));
      RenewMovesRow(world, w, lease, moment, maxAttempts);
      Act(renewal);
      Record(reply);
    }

    ghost method Record(reply: Reply)
      requires Valid() && reply.place == |trace| - 1
      requires trace[reply.place] == reply.statement
      requires Leads(first, trace[..reply.place], reply.before, StepWith(maxAttempts))
      modifies this`replies
      ensures Valid() && replies == old(replies) + [reply]
    {
      RecordOne(replies, reply, first, trace, maxAttempts);
      replies := replies + [reply];
    }

    /** What happens while Execute runs. Renewal goes on exactly as long as every reply is
        good, and then all the statements are issued, in order. */
    method Carry(h: Local, work: seq<Work>) returns (renewed: bool)
      requires h.Holding? && h.phase == Claimed && h.version.Some? && At(h)
      modifies this
      ensures At(h) && TasksStay(old(world), world) && claims == old(claims)
      ensures Carried(old(own), own, old(replies), replies, work, w, lease, renewed)
      ensures AllCalm(work) && InTime(old(world).tasks[h.task], h, lease, work) ==>
        && renewed && world.tasks[h.task] == RowAfterAll(old(world).tasks[h.task], h, lease, work)
        && world.db == DbAfterAll(old(world).db, h.version.value, work)
    {
      renewed := true;
      ghost var row, db := world.tasks[h.task], world.db;
      ghost var calm := AllCalm(work) && InTime(row, h, lease, work);
      for n := 0 to |work|
        invariant At(h) && TasksStay(old(world), world) && claims == old(claims)
        invariant Carried(old(own), own, old(replies), replies, work[..n], w, lease, renewed)
        invariant calm ==> renewed && world.tasks[h.task] == RowAfterAll(row, h, lease, work[..n])
                           && world.db == DbAfterAll(db, h.version.value, work[..n])
      {
        ghost var own', replies', renewing := own, replies, renewed;
        CalmOn(row, db, h, lease, work, n);
        renewed := Advance(h, work[n], renewed);
        CarryOn(old(own), own', own, old(replies), replies', replies, work, n, w, lease, renewing, renewed);
      }
      assert work[..|work|] == work;
    }

    /** Execute beside the renewals: it counts as done exactly when the executor says so
        and no renewal was refused. */
    method Execute(h: Local, turn: Turn) returns (after: Local, renewed: bool)
      requires h.Holding? && h.phase == Claimed && h.version.Some? && At(h)
      modifies this
      ensures after == h.(phase := if turn.executed && renewed then Executed else Failing)
      ensures At(after) && TasksStay(old(world), world) && old(own) < own && claims == old(claims)
      ensures own[|own| - 1] == WExecuted(w, turn.executed && renewed)
      ensures Carried(old(own), own[..|own| - 1], old(replies), replies, turn.work, w, lease, renewed)
      ensures AllCalm(turn.work) && InTime(old(world).tasks[h.task], h, lease, turn.work) ==>
        && renewed && world.tasks[h.task] == RowAfterAll(old(world).tasks[h.task], h, lease, turn.work)
        && world.db == DbAfterAll(old(world).db, h.version.value, turn.work)
    {
      renewed := Carry(h, turn.work);
      after := Report(h, turn.executed && renewed);
      assert own[..|own| - 1] + [WExecuted(w, turn.executed && renewed)] == own;
    }

    method Report(h: Local, ok: bool) returns (after: Local)
      requires h.Holding? && h.phase == Claimed && h.version.Some? && At(h)
      modifies this
      ensures after == h.(phase := if ok then Executed else Failing)
      ensures At(after) && TasksStay(old(world), world)
      ensures own == old(own) + [WExecuted(w, ok)] && claims == old(claims) && replies == old(replies)
      ensures world.tasks[h.task] == old(world).tasks[h.task] && world.db == old(world).db
    {
      TaskSpared(world, WExecuted(w, ok), maxAttempts, h.task);
      CatalogWritten(world, WExecuted(w, ok), maxAttempts);
      Act(WExecuted(w, ok));
      after := h.(phase := if ok then Executed else Failing);
    }

    /** Claims one due task, if it is still there to claim. */
    method Take(t: T.TaskId, moment: Moment) returns (h: Local, ghost r: Option<Reply>)
      requires At(Idle)
      modifies this
      ensures At(h) && TasksStay(old(world), world)
      ensures t in old(world).tasks ==> r.Some? && claims == old(claims) + [t]
      ensures r.None? ==> h == Idle && own == old(own) && replies == old(replies)
      ensures r.Some? ==> Taken(Me(), old(own), own, old(replies), replies, t, moment, r.value, h)
      ensures t in old(world).tasks && moment.others == [] && moment.seen ==>
        (Succeeds(old(world).tasks[t], ClaimStep(moment)) ==>
          && h.Holding? && h.epoch == old(world).tasks[t].epoch + 1 && h.attempt == old(world).tasks[t].attempts + 1
          && h.task == t && h.owner == owner && h.version == old(world).tasks[t].version && h.phase == Claimed
          && world.tasks[t] == Apply(old(world).tasks[t], ClaimStep(moment)) && world.db == old(world).db)
    {
      Meanwhile(moment.others);
      if t !in world.tasks {
        return Idle, None;
      }
      ghost var reply := Reply(|trace|, WClaim(w, t, owner, lease, moment.at, moment.stamp), world, moment);
      r := Some(reply);
      h := ClaimNow(t, moment);
      if h.Holding? && !moment.seen {
        Forget(h);
        TakenInVain(Me(), old(own), own, old(replies), replies, t, moment, reply);
        h := Idle;
      } else {
        TakenAtOnce(Me(), old(own), own, old(replies), replies, t, moment, reply, h);
      }
    }

    function ClaimStep(moment: Moment): Step { Step(Claim(owner, lease), moment.at, moment.stamp) }

    /** The claim itself: it holds the task exactly if it took effect on the row as it is
        now, and then with the row's own epoch, attempt number and version. */
    method ClaimNow(t: T.TaskId, moment: Moment) returns (h: Local)
      requires At(Idle) && t in world.tasks
      modifies this
      ensures At(h) && TasksStay(old(world), world)
      ensures var row := old(world).tasks[t];
        h == if Succeeds(row, ClaimStep(moment)) then
               Holding(t, owner, row.epoch + 1, row.attempts + 1, row.version, Claimed)
             else Idle
      ensures var claim := WClaim(w, t, owner, lease, moment.at, moment.stamp);
        own == old(own) + [claim] && replies == old(replies) + [Reply(|old(trace)|, claim, old(world), moment)]
      ensures claims == old(claims) + [t]
      ensures world.tasks[t] == Apply(old(world).tasks[t], ClaimStep(moment)) && world.db == old(world).db
    {
      var claim := WClaim(w, t, owner, lease, moment.at, moment.stamp);
      ghost var reply := Reply(|trace|, claim, world, moment);
      var row := world.tasks[t];
      RowsMoveByStatements(world, claim, maxAttempts, t);
      Act(claim);
      Record(reply);
      if !Succeeds(row, ClaimStep(moment)) {
        return Idle;
      }
      var claimed := Effect(row, ClaimStep(moment));
      h := Holding(t, owner, claimed.epoch, claimed.attempts, claimed.version, Claimed);
    }

    /** The reply to a claim was lost: the worker moves on without it. */
    method Forget(h: Local)
      requires At(h)
      modifies this
      ensures At(Idle) && TasksStay(old(world), world) && own == old(own) + [Crash(w)]
      ensures claims == old(claims) && replies == old(replies)
    {
      Act(Crash(w));
    }

    /** MarkReady: the version is final exactly if the reply to it is good. */
    method SayReady(h: Local, moment: Moment) returns (after: Local)
      requires h.Holding? && h.phase == Executed && h.version.Some? && At(h)
      modifies this
      ensures after.Holding? && At(after) && TasksStay(old(world), world)
      ensures after == h.(phase := Phase.Finalized) || after == h.(phase := Failing)
      ensures Heard(old(replies), replies, WMarkReady(w, moment.seen), moment, after.phase == Phase.Finalized)
      ensures own == old(own) + [WMarkReady(w, moment.seen)] && claims == old(claims)
      ensures moment.others == [] ==>
        && world.tasks[h.task] == old(world).tasks[h.task]
        && world.db == C.Apply(old(world).db, C.MarkReady(h.version.value))
        && (after.phase == Phase.Finalized <==> moment.seen && C.MarksReady(old(world).db, h.version.value))
    {
      Meanwhile(moment.others);
      HeardOne(replies, Reply(|trace|, WMarkReady(w, moment.seen), world, moment));
      after := MarkNow(h, moment);
    }

    /** The statement itself: it counts exactly if it succeeded, on the tables as they are
        now, and the reply arrived. */
    method MarkNow(h: Local, moment: Moment) returns (after: Local)
      requires h.Holding? && h.phase == Executed && h.version.Some? && At(h)
      modifies this
      ensures At(after) && TasksStay(old(world), world)
      ensures var ready := moment.seen && C.MarksReady(old(world).db, h.version.value);
        after == h.(phase := if ready then Phase.Finalized else Failing)
      ensures own == old(own) + [WMarkReady(w, moment.seen)] && claims == old(claims)
      ensures replies == old(replies) + [Reply(|old(trace)|, WMarkReady(w, moment.seen), old(world), moment)]
      ensures world.tasks[h.task] == old(world).tasks[h.task]
      ensures world.db == C.Apply(old(world).db, C.MarkReady(h.version.value))
    {
      ghost var reply := Reply(|trace|, WMarkReady(w, moment.seen), world, moment);
      var ready := moment.seen && C.MarksReady(world.db, h.version.value);
      TaskSpared(world, WMarkReady(w, moment.seen), maxAttempts, h.task);
      CatalogWritten(world, WMarkReady(w, moment.seen), maxAttempts);
      Act(WMarkReady(w, moment.seen));
      Record(reply);
      after := h.(phase := if ready then Phase.Finalized else Failing);
    }

    method SayComplete(h: Local, moment: Moment)
      requires h.Holding? && h.phase == Phase.Finalized && At(h)
      modifies this
      ensures At(Idle) && TasksStay(old(world), world)
      ensures own == old(own) + [WComplete(w, moment.at, moment.stamp)]
      ensures claims == old(claims) && replies == old(replies)
      ensures var complete := Step(Complete(h.owner, h.epoch), moment.at, moment.stamp);
        moment.others == [] ==>
          world.db == old(world).db && world.tasks[h.task] == Apply(old(world).tasks[h.task], complete)
    {
      Meanwhile(moment.others);
      RowsMoveByStatements(world, WComplete(w, moment.at, moment.stamp), maxAttempts, h.task);
      Act(WComplete(w, moment.at, moment.stamp));
    }

    /** After a good execution: the version, then, if that went well, the task. */
    method Finalize(h: Local, turn: Turn)
      requires h.Holding? && h.phase == Executed && h.version.Some? && At(h)
      modifies this
      ensures At(Idle) && TasksStay(old(world), world) && claims == old(claims)
      ensures Finalizes(Me(), old(own), own, old(replies), replies, h, turn)
      ensures turn.ready.others == [] && turn.complete.others == [] && turn.ready.seen ==>
        C.MarksReady(old(world).db, h.version.value) ==>
        && world.db == C.Apply(old(world).db, C.MarkReady(h.version.value))
        && world.tasks[h.task] == Apply(old(world).tasks[h.task],
                                        Step(Complete(h.owner, h.epoch), turn.complete.at, turn.complete.stamp))
    {
      ghost var said := [WMarkReady(w, turn.ready.seen)];
      var after := SayReady(h, turn.ready);
      if after.phase == Phase.Finalized {
        SayComplete(after, turn.complete);
        AppendTwice(old(own), said, [WComplete(w, turn.complete.at, turn.complete.stamp)]);
      } else {
        RetryOrFail(after, 1_000_000_000, turn);
        SameGivingUp(Me(), h, after, 1_000_000_000, turn);
        AppendTwice(old(own), said, GivingUp(Me(), h, 1_000_000_000, turn));
      }
    }

    /** Everything after the claim. */
    method Conduct(h: Local, turn: Turn)
      requires h.Holding? && h.phase == Claimed && At(h)
      modifies this
      ensures At(Idle) && TasksStay(old(world), world) && claims == old(claims)
      ensures Conducts(Me(), old(own), own, old(replies), replies, h, turn)
      ensures Smooth(old(world).tasks[h.task], old(world), h, lease, turn)
        ==> Imported(world, h.task, Target(h.version, turn))
    {
      var bound := EnsureBound(h, turn);
      ghost var mid, heard := own, replies;
      GoOn(bound, turn);
      ConductedThrough(Me(), old(own), mid, own, old(replies), heard, replies, h, turn, bound);
    }

    /** Everything after the binding. */
    method GoOn(bound: Local, turn: Turn)
      requires bound.Holding? && At(bound)
      requires bound.phase == Failing || (bound.phase == Claimed && bound.version.Some?)
      modifies this
      ensures At(Idle) && TasksStay(old(world), world) && claims == old(claims)
      ensures GoesOn(Me(), old(own), own, old(replies), replies, bound, turn)
      ensures bound.phase == Claimed && SmoothWork(old(world).tasks[bound.task], old(world).db, bound, lease, turn)
        ==> Imported(world, bound.task, bound.version.value)
    {
      if bound.phase == Failing {
        RetryOrFail(bound, if turn.binding.NoBinder? then 300 * SECOND else SECOND, turn);
      } else {
        WorkOn(bound, turn);
      }
    }

    method WorkOn(h: Local, turn: Turn)
      requires h.Holding? && h.phase == Claimed && h.version.Some? && At(h)
      modifies this
      ensures At(Idle) && TasksStay(old(world), world) && claims == old(claims)
      ensures Works(Me(), old(own), own, old(replies), replies, h, turn)
      ensures SmoothWork(old(world).tasks[h.task], old(world).db, h, lease, turn)
        ==> Imported(world, h.task, h.version.value)
    {
      if SmoothWork(world.tasks[h.task], world.db, h, lease, turn) {
        SmoothWorkEndsWell(world.tasks[h.task], world.db, h, lease, turn);
      }
      var after, renewed := Execute(h, turn);
      ghost var own', replies' := own[..|own| - 1], replies;
      assert own' + [WExecuted(w, turn.executed && renewed)] == own;
      if after.phase == Failing {
        RetryOrFail(after, SECOND, turn);
        SameGivingUp(Me(), h, after, SECOND, turn);
      } else {
        Finalize(after, turn);
        ConcludesWell(Me(), own', own, replies', replies, h, after, turn);
      }
      WorkedThrough(Me(), old(own), own', own, old(replies), replies', replies, h, turn, renewed);
    }

    /** One due task. */
    method Process(t: T.TaskId, turn: Turn)
      requires At(Idle)
      modifies this
      ensures At(Idle) && TasksStay(old(world), world)
      ensures t in old(world).tasks ==> claims == old(claims) + [t]
      ensures Turned(Me(), t in old(world).tasks, old(own), own, old(replies), replies, t, turn)
      ensures GoodTurn(old(world), Me(), t, turn)
        ==> Imported(world, t, Target(old(world).tasks[t].version, turn))
    {
      var h;
      ghost var r;
      h, r := Take(t, turn.claim);
      ghost var mid, heard := own, replies;
      if GoodTurn(old(world), Me(), t, turn) {
        GoodTurnIsSmooth(old(world), world, Me(), t, turn, h);
      }
      if h.Holding? {
        Conduct(h, turn);
        TurnWithTask(Me(), t in old(world).tasks, old(own), mid, own, old(replies), heard, replies,
                     t, turn, r.value, h);
      } else if r.Some? {
        TurnWithoutTask(Me(), t in old(world).tasks, old(own), own, old(replies), replies, t, turn, r.value);
      } else {
        TurnOfNothing(Me(), own, replies, t, turn);
      }
    }

    /** The tasks of a scan, one after the other. */
    method Scan(due: seq<T.TaskId>, turns: seq<Turn>) returns (ghost marks: seq<Mark>)
      requires At(Idle) && |turns| == |due|
      modifies this
      ensures At(Idle) && (TasksAt(due, old(world)) ==> claims == old(claims) + due)
      ensures Scanned(Me(), TasksAt(due, old(world)), due, turns, marks)
      ensures marks[0] == Mark(old(own), old(replies), old(world)) && marks[|due|] == Mark(own, replies, world)
    {
      ghost var known := TasksAt(due, world);
      marks := [Mark(own, replies, world)];
      for n := 0 to |due|
        invariant At(Idle) && TasksStay(old(world), world)
        invariant known ==> claims == old(claims) + due[..n]
        invariant Scanned(Me(), known, due[..n], turns[..n], marks)
        invariant marks[0] == Mark(old(own), old(replies), old(world)) && marks[n] == Mark(own, replies, world)
      {
        assert known ==> due[n] in old(world).tasks;
        ghost var there := due[n] in world.tasks;
        Process(due[n], turns[n]);
        OneMoreClaim(old(claims), due, n);
        OneMoreTurn(Me(), known, there, due, turns, n, marks, Mark(own, replies, world));
        marks := marks + [Mark(own, replies, world)];
      }
      assert due[..|due|] == due && turns[..|turns|] == turns;
    }

    /** One scan over the due tasks. Each is claimed once, in order, and takes one turn: marks
        are the statements and replies before and after each. Inv is the protocol's
        invariant, so a completed task has a ready version at every point of every scan,
        whatever the others do. */
    method RunOnce(due: seq<T.TaskId>, turns: seq<Turn>) returns (ghost marks: seq<Mark>)
      requires At(Idle) && |turns| == |due| && Inv(first)
      modifies this
      ensures At(Idle) && Inv(world) && Leads(first, trace, world, StepWith(maxAttempts))
      ensures TasksAt(due, old(world)) ==> Claims(Mine(trace, w)) == old(Claims(Mine(trace, w))) + due
      ensures Scanned(Me(), TasksAt(due, old(world)), due, turns, marks)
      ensures marks[0] == Mark(old(own), old(replies), old(world)) && marks[|due|] == Mark(own, replies, world)
    {
      marks := Scan(due, turns);
      StepsKeepInv(first, trace, world, maxAttempts);
    }
  }
}
