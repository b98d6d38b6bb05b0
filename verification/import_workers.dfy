/** Any number of import workers, crashes, lease theft, operator resets and other
    catalog writers, interleaved. A worker's position in runOnce is its phase. */
module ImportWorkers {
  import opened Wrappers
  import opened Transitions
  import opened TaskRows
  import T = WorkTask
  import C = Catalog
  import Runs = LeaseRuns

  type WorkerId = nat

  datatype Phase =
    | Claimed    // the claim returned; bind if needed, then execute
    | Executed   // Execute returned nil
    | Finalized  // MarkReady returned nil
    | Failing    // on the way into retryOrFail
    | Marked     // retryOrFail has reported the version error

  /** What a worker remembers: the row its claim returned, not the row as it is. */
  datatype Local =
    | Idle
    | Holding(task: T.TaskId, owner: string, epoch: nat, attempt: nat, version: Option<T.VersionId>, phase: Phase)

  datatype World = World(
    tasks: map<T.TaskId, Row>,
    db: C.Db,
    workers: map<WorkerId, Local>,
    everReady: set<T.VersionId>)

  /** `seen` is false when the reply to a statement that may have committed is lost. */
  datatype Action =
    | CreateTask(t: T.TaskId, row: Row)
    | WClaim(w: WorkerId, t: T.TaskId, owner: string, lease: Duration, at: nat, stamp: nat)
    | WBind(w: WorkerId, m: T.ModelId, v: T.VersionId, at: nat, stamp: nat, seen: bool)
    | WUnbound(w: WorkerId)
    | WRenew(w: WorkerId, lease: Duration, at: nat, stamp: nat)
    | WPersist(w: WorkerId, artifact: C.Artifact)
    | WSetChecksum(w: WorkerId, checksum: string, bytes: int)
    | WExecuted(w: WorkerId, ok: bool)
    | WMarkReady(w: WorkerId, seen: bool)
    | WComplete(w: WorkerId, at: nat, stamp: nat)
    | WMarkError(w: WorkerId, at: nat)
    | WFail(w: WorkerId, message: string, at: nat, stamp: nat)
    | WRetry(w: WorkerId, after: Duration, message: string, at: nat, stamp: nat)
    | Crash(w: WorkerId)
    | OperatorReset(t: T.TaskId, at: nat, stamp: nat)
    | Others(op: C.Op)

  predicate Working(x: World, w: WorkerId) {
    w in x.workers && x.workers[w].Holding? && x.workers[w].task in x.tasks
  }

  /** The position runOnce must be in for the action to be its next call. */
  predicate Enabled(x: World, a: Action, maxAttempts: nat) {
    match a
    case CreateTask(t, row) =>
      t !in x.tasks && Runs.Fresh(row) && (row.version.Some? ==> row.version.value in x.db.versions)
    case WClaim(w, t, _, _, _, _) => w in x.workers && x.workers[w].Idle? && t in x.tasks
    case WBind(w, _, v, _, _, _) =>
      Working(x, w) && x.workers[w].phase == Claimed && x.workers[w].version.None? && v in x.db.versions
    case WUnbound(w) => Working(x, w) && x.workers[w].phase == Claimed && x.workers[w].version.None?
    case WRenew(w, _, _, _) => Working(x, w)
    case WPersist(w, _) => Working(x, w) && x.workers[w].phase == Claimed && x.workers[w].version.Some?
    case WSetChecksum(w, _, _) => Working(x, w) && x.workers[w].phase == Claimed && x.workers[w].version.Some?
    case WExecuted(w, _) => Working(x, w) && x.workers[w].phase == Claimed && x.workers[w].version.Some?
    case WMarkReady(w, _) => Working(x, w) && x.workers[w].phase == Executed && x.workers[w].version.Some?
    case WComplete(w, _, _) => Working(x, w) && x.workers[w].phase == Finalized
    case WMarkError(w, _) =>
      && Working(x, w) && x.workers[w].phase == Failing
      && x.workers[w].version.Some? && x.workers[w].attempt >= maxAttempts
    case WFail(w, _, _, _) =>
      Working(x, w) && (x.workers[w].phase == Marked
                        || (x.workers[w].phase == Failing && x.workers[w].version.None?
                            && x.workers[w].attempt >= maxAttempts))
    case WRetry(w, _, _, _, _) => Working(x, w) && x.workers[w].phase == Failing && x.workers[w].attempt < maxAttempts
    case Crash(w) => w in x.workers
    case OperatorReset(t, _, _) => t in x.tasks
    case Others(op) => true
  }

  /** A statement that no row's guard accepts: epochs are not negative. */
  const NOTHING := Step(Complete("", -1), 0, 0)

  /** The statement action a runs on task t's row. */
  function StepOn(x: World, a: Action, t: T.TaskId): Step {
    if a.WClaim? && a.t == t then Step(Claim(a.owner, a.lease), a.at, a.stamp)
    else if a.OperatorReset? && a.t == t then Step(RetryFailed, a.at, a.stamp)
    else if (a.WBind? || a.WRenew? || a.WComplete? || a.WFail? || a.WRetry?)
            && Working(x, a.w) && x.workers[a.w].task == t then
      var h := x.workers[a.w];
      (match a
       case WBind(_, m, v, at, stamp, _) => Step(Bind(h.owner, h.epoch, m, v), at, stamp)
       case WRenew(_, lease, at, stamp) => Step(Renew(h.owner, h.epoch, lease), at, stamp)
       case WComplete(_, at, stamp) => Step(Complete(h.owner, h.epoch), at, stamp)
       case WFail(_, message, at, stamp) => Step(Fail(h.owner, h.epoch, message), at, stamp)
       case WRetry(_, after, message, at, stamp) => Step(Retry(h.owner, h.epoch, after, message), at, stamp)
       case _ => NOTHING)
    else NOTHING
  }

  function TasksAfter(x: World, a: Action): map<T.TaskId, Row> {
    if a.CreateTask? then x.tasks[a.t := a.row]
    else map t | t in x.tasks :: Apply(x.tasks[t], StepOn(x, a, t))
  }

  /** The catalog statement action a runs, if it runs one. */
  function OpOf(x: World, a: Action, maxAttempts: nat): Option<C.Op>
    requires Enabled(x, a, maxAttempts)
  {
    match a
    case WPersist(w, artifact) => Some(C.CreateArtifact(x.workers[w].version.value, artifact))
    case WSetChecksum(w, checksum, bytes) => Some(C.SetChecksum(x.workers[w].version.value, checksum, bytes))
    case WMarkReady(w, _) => Some(C.MarkReady(x.workers[w].version.value))
    case WMarkError(w, at) =>
      var h := x.workers[w];
      if x.tasks[h.task].version == h.version && Live(x.tasks[h.task], h.owner, h.epoch, at)
      then Some(C.MarkErrorAndModel(h.version.value)) else None
    case OperatorReset(t, at, stamp) =>
      if Succeeds(x.tasks[t], Step(RetryFailed, at, stamp)) && x.tasks[t].version.Some?
      then Some(C.ResetVersion(x.tasks[t].version.value)) else None
    case Others(op) => Some(op)
    case _ => None
  }

  function DbAfter(db: C.Db, op: Option<C.Op>): C.Db {
    if op.Some? then C.Apply(db, op.value) else db
  }

  function LocalAfter(x: World, a: Action, maxAttempts: nat): Local
    requires Enabled(x, a, maxAttempts) && !a.CreateTask? && !a.OperatorReset? && !a.Others?
  {
    var h := x.workers[a.w];
    match a
    case WClaim(_, t, owner, lease, at, stamp) =>
      var s := Step(Claim(owner, lease), at, stamp);
      if !Succeeds(x.tasks[t], s) then Idle
      else
        var row := Effect(x.tasks[t], s);
        Holding(t, owner, row.epoch, row.attempts, row.version, Claimed)
    case WBind(_, m, v, at, stamp, seen) =>
      if seen && Succeeds(x.tasks[h.task], StepOn(x, a, h.task)) then h.(version := Some(v)) else h.(phase := Failing)
    case WUnbound(_) => h.(phase := Failing)
    case WExecuted(_, ok) => h.(phase := if ok then Executed else Failing)
    case WMarkReady(_, seen) =>
      if seen && C.MarksReady(x.db, h.version.value)
      then h.(phase := Finalized) else h.(phase := Failing)
    case WMarkError(_, _) => h.(phase := Marked)
    case WComplete(_, _, _) => Idle
    case WFail(_, _, _, _) => Idle
    case WRetry(_, _, _, _, _) => Idle
    case Crash(_) => Idle
    case _ => h
  }

  function ReadyVersions(db: C.Db): set<T.VersionId> {
    set v | v in db.versions && db.versions[v].state == C.Ready
  }

  function Next(x: World, a: Action, maxAttempts: nat): World
    requires Enabled(x, a, maxAttempts)
  {
    var db' := DbAfter(x.db, OpOf(x, a, maxAttempts));
    World(TasksAfter(x, a), db',
          if a.CreateTask? || a.OperatorReset? || a.Others? then x.workers
          else x.workers[a.w := LocalAfter(x, a, maxAttempts)],
          x.everReady + ReadyVersions(db'))
  }

  ghost function StepWith(maxAttempts: nat): (World, Action, World) -> bool {
    (x: World, a: Action, y: World) => Enabled(x, a, maxAttempts) && y == Next(x, a, maxAttempts)
  }

  // ---- invariants -----------------------------------------------------------

  ghost predicate LocalOk(x: World, h: Local) {
    h.Holding? ==>
      && h.task in x.tasks
      && h.epoch <= x.tasks[h.task].epoch
      && (h.version.Some? ==> x.tasks[h.task].version == h.version)
      && (h.phase == Finalized ==> h.version.Some? && h.version.value in x.everReady)
      && (h.epoch == x.tasks[h.task].epoch && x.tasks[h.task].status == T.Importing ==>
            h.attempt == x.tasks[h.task].attempts)
  }

  ghost predicate RowOk(x: World, row: Row) {
    row.status == T.Completed ==> row.version.Some? && row.version.value in x.everReady
  }

  /** Once ready, a version is ready or deleted. */
  ghost predicate HistoryOk(x: World) {
    && (forall v <- x.everReady :: v in x.db.versions && x.db.versions[v].state in {C.Ready, C.Deleted})
    && ReadyVersions(x.db) <= x.everReady
  }

  ghost predicate Inv(x: World) {
    && C.Sound(x.db)
    && HistoryOk(x)
    && (forall w <- x.workers :: LocalOk(x, x.workers[w]))
    && (forall t <- x.tasks :: RowOk(x, x.tasks[t]))
    && (forall w <- x.workers, u <- x.workers ::
          w != u && x.workers[w].Holding? && x.workers[u].Holding? && x.workers[w].task == x.workers[u].task ==>
            x.workers[w].epoch != x.workers[u].epoch)
  }

  ghost predicate Start(x: World) {
    && C.Sound(x.db) && x.tasks == map[] && x.everReady == ReadyVersions(x.db)
    && forall w <- x.workers :: x.workers[w].Idle?
  }

  lemma DbStep(db: C.Db, op: Option<C.Op>)
    requires C.Sound(db)
    ensures C.Sound(DbAfter(db, op)) && C.Evolves(db, DbAfter(db, op))
  {
    if op.Some? {
      C.EveryWriterKeepsSound(db, op.value);
      C.EveryWriterEvolves(db, op.value);
    }
  }

  lemma NextKeepsHistory(x: World, a: Action, maxAttempts: nat)
    requires Inv(x) && Enabled(x, a, maxAttempts)
    ensures C.Sound(Next(x, a, maxAttempts).db) && HistoryOk(Next(x, a, maxAttempts))
  {
    DbStep(x.db, OpOf(x, a, maxAttempts));
  }

  /** Every action treats a task row as one guarded statement would. */
  lemma RowsMoveByStatements(x: World, a: Action, maxAttempts: nat, t: T.TaskId)
    requires Enabled(x, a, maxAttempts) && t in x.tasks
    ensures t in Next(x, a, maxAttempts).tasks
    ensures Next(x, a, maxAttempts).tasks[t] == Apply(x.tasks[t], StepOn(x, a, t))
  {
  }

  lemma CompletedBy(row: Row, s: Step)
    requires Apply(row, s).status == T.Completed
    ensures Apply(row, s).version == row.version
    ensures row.status == T.Completed
      || (s.ev.Complete? && row.status == T.Importing && row.owner == s.ev.owner && row.epoch == s.ev.epoch)
  {
  }

  lemma NextKeepsRows(x: World, a: Action, maxAttempts: nat, t: T.TaskId)
    requires Inv(x) && Enabled(x, a, maxAttempts) && t in Next(x, a, maxAttempts).tasks
    ensures RowOk(Next(x, a, maxAttempts), Next(x, a, maxAttempts).tasks[t])
  {
    var y := Next(x, a, maxAttempts);
    if t in x.tasks && y.tasks[t].status == T.Completed {
      assert RowOk(x, x.tasks[t]);
      RowsMoveByStatements(x, a, maxAttempts, t);
      CompletedBy(x.tasks[t], StepOn(x, a, t));
      if x.tasks[t].status != T.Completed {
        CompleteIsLegal(x, a, maxAttempts, t);
      }
    }
  }

  /** Whoever completes a task holds its claim and has seen its version ready. */
  lemma CompleteIsLegal(x: World, a: Action, maxAttempts: nat, t: T.TaskId)
    requires Inv(x) && Enabled(x, a, maxAttempts) && t in x.tasks
    requires StepOn(x, a, t).ev.Complete? && StepOn(x, a, t).ev.epoch == x.tasks[t].epoch
    ensures x.tasks[t].version.Some? && x.tasks[t].version.value in x.everReady
  {
    assert a.WComplete? && x.workers[a.w].task == t;
    assert LocalOk(x, x.workers[a.w]);
  }

  /** How one statement may move a row, as a worker that remembers it sees it. */
  predicate RowEvolves(row: Row, row': Row) {
    && row.epoch <= row'.epoch
    && (row.version.Some? ==> row'.version == row.version)
    && (row'.epoch == row.epoch && row'.status == T.Importing ==>
          row.status == T.Importing && row'.attempts == row.attempts)
  }

  ghost predicate WorldEvolves(x: World, y: World) {
    && (forall t <- x.tasks :: t in y.tasks && RowEvolves(x.tasks[t], y.tasks[t]))
    && x.everReady <= y.everReady
  }

  lemma NextEvolves(x: World, a: Action, maxAttempts: nat)
    requires Enabled(x, a, maxAttempts)
    ensures WorldEvolves(x, Next(x, a, maxAttempts))
  {
    forall t | t in x.tasks
      ensures t in Next(x, a, maxAttempts).tasks && RowEvolves(x.tasks[t], Next(x, a, maxAttempts).tasks[t])
    {
      RowsMoveByStatements(x, a, maxAttempts, t);
      StatementEvolves(x.tasks[t], StepOn(x, a, t));
    }
  }

  lemma StatementEvolves(row: Row, s: Step)
    ensures RowEvolves(row, Apply(row, s))
  {
  }

  lemma LocalStaysOk(x: World, y: World, h: Local)
    requires WorldEvolves(x, y) && LocalOk(x, h)
    ensures LocalOk(y, h)
  {
  }

  lemma NewLocalIsOk(x: World, a: Action, maxAttempts: nat)
    requires Inv(x) && Enabled(x, a, maxAttempts) && !a.CreateTask? && !a.OperatorReset? && !a.Others?
    ensures LocalOk(Next(x, a, maxAttempts), LocalAfter(x, a, maxAttempts))
  {
    assert LocalOk(x, x.workers[a.w]);
    if a.WClaim? {
      RowsMoveByStatements(x, a, maxAttempts, a.t);
    } else {
      NextEvolves(x, a, maxAttempts);
      LocalStaysOk(x, Next(x, a, maxAttempts), x.workers[a.w]);
      if a.WMarkReady? {
        FinalizedIsReady(x, a, maxAttempts);
      } else if a.WBind? && LocalAfter(x, a, maxAttempts).version != x.workers[a.w].version {
        RowsMoveByStatements(x, a, maxAttempts, x.workers[a.w].task);
      }
    }
  }

  lemma FinalizedIsReady(x: World, a: Action, maxAttempts: nat)
    requires Inv(x) && Enabled(x, a, maxAttempts) && a.WMarkReady?
    ensures LocalAfter(x, a, maxAttempts).phase == Finalized
      ==> x.workers[a.w].version.value in Next(x, a, maxAttempts).everReady
  {
    assert LocalAfter(x, a, maxAttempts).phase == Finalized
      ==> x.workers[a.w].version.value in ReadyVersions(Next(x, a, maxAttempts).db);
  }

  /** A worker holds what it held, or has just claimed with the next epoch. */
  lemma HoldsOrClaims(x: World, a: Action, maxAttempts: nat, w: WorkerId)
    requires Enabled(x, a, maxAttempts)
    requires w in Next(x, a, maxAttempts).workers && Next(x, a, maxAttempts).workers[w].Holding?
    ensures w in x.workers
    ensures var h, h' := x.workers[w], Next(x, a, maxAttempts).workers[w];
      || (h.Holding? && h'.task == h.task && h'.epoch == h.epoch)
      || (a.WClaim? && a.w == w && h'.task == a.t && h'.epoch == x.tasks[a.t].epoch + 1)
  {
  }

  lemma NextKeepsEpochsApart(x: World, a: Action, maxAttempts: nat, w: WorkerId, u: WorkerId)
    requires Inv(x) && Enabled(x, a, maxAttempts) && w != u
    requires var ws := Next(x, a, maxAttempts).workers;
             w in ws && u in ws && ws[w].Holding? && ws[u].Holding? && ws[w].task == ws[u].task
    ensures Next(x, a, maxAttempts).workers[w].epoch != Next(x, a, maxAttempts).workers[u].epoch
  {
    HoldsOrClaims(x, a, maxAttempts, w);
    HoldsOrClaims(x, a, maxAttempts, u);
    assert LocalOk(x, x.workers[w]) && LocalOk(x, x.workers[u]);
  }

  lemma EveryActionKeepsInv(x: World, a: Action, maxAttempts: nat)
    requires Inv(x) && Enabled(x, a, maxAttempts)
    ensures Inv(Next(x, a, maxAttempts))
  {
    var y := Next(x, a, maxAttempts);
    NextKeepsHistory(x, a, maxAttempts);
    NextEvolves(x, a, maxAttempts);
    forall t | t in y.tasks ensures RowOk(y, y.tasks[t]) {
      NextKeepsRows(x, a, maxAttempts, t);
    }
    forall w | w in y.workers ensures LocalOk(y, y.workers[w]) {
      if a.CreateTask? || a.OperatorReset? || a.Others? || a.w != w {
        LocalStaysOk(x, y, x.workers[w]);
      } else {
        NewLocalIsOk(x, a, maxAttempts);
      }
    }
    forall w, u | w in y.workers && u in y.workers && w != u && y.workers[w].Holding? && y.workers[u].Holding?
                  && y.workers[w].task == y.workers[u].task
      ensures y.workers[w].epoch != y.workers[u].epoch
    {
      NextKeepsEpochsApart(x, a, maxAttempts, w, u);
    }
  }

  ghost predicate IsRun(worlds: seq<World>, actions: seq<Action>, maxAttempts: nat) {
    Transitions.IsRun(worlds, actions, Start, StepWith(maxAttempts))
  }

  lemma RunKeepsInv(worlds: seq<World>, actions: seq<Action>, maxAttempts: nat, n: nat)
    requires IsRun(worlds, actions, maxAttempts) && n < |worlds|
    ensures Inv(worlds[n])
  {
    forall x, a, y | Inv(x) && StepWith(maxAttempts)(x, a, y) ensures Inv(y) {
      EveryActionKeepsInv(x, a, maxAttempts);
    }
    RunKeeps(worlds, actions, Start, StepWith(maxAttempts), Inv, n);
  }

  // ---- what the protocol promises -------------------------------------------

  /** In every reachable state a completed task has a bound version that has been
      ready: it is ready still, with its verified artifact, or was deleted since. */
  lemma CompletedTaskHasReadyVersion(worlds: seq<World>, actions: seq<Action>, maxAttempts: nat, n: nat, t: T.TaskId)
    requires IsRun(worlds, actions, maxAttempts) && n < |worlds|
    requires t in worlds[n].tasks && worlds[n].tasks[t].status == T.Completed
    ensures var x := worlds[n];
            && x.tasks[t].version.Some?
            && var v := x.tasks[t].version.value;
            && v in x.db.versions
            && (x.db.versions[v].state == C.Ready || x.db.versions[v].state == C.Deleted)
            && (x.db.versions[v].state == C.Ready ==> C.Backed(x.db, v, x.db.versions[v]))
            && exists k :: 0 <= k <= n && v in worlds[k].db.versions && worlds[k].db.versions[v].state == C.Ready
  {
    RunKeepsInv(worlds, actions, maxAttempts, n);
    assert RowOk(worlds[n], worlds[n].tasks[t]);
    WasReady(worlds, actions, maxAttempts, n, worlds[n].tasks[t].version.value);
  }

  lemma {:induction false} WasReady(worlds: seq<World>, actions: seq<Action>, maxAttempts: nat, n: nat, v: T.VersionId)
    requires IsRun(worlds, actions, maxAttempts) && n < |worlds| && v in worlds[n].everReady
    ensures exists k :: 0 <= k <= n && v in worlds[k].db.versions && worlds[k].db.versions[v].state == C.Ready
  {
    if n > 0 && v in worlds[n - 1].everReady {
      WasReady(worlds, actions, maxAttempts, n - 1, v);
    } else {
      assert n > 0 ==> worlds[n] == Next(worlds[n - 1], actions[n - 1], maxAttempts);
      assert v in ReadyVersions(worlds[n].db);
    }
  }

  /** The binding of a task never changes once it is set. */
  lemma {:induction false} BindingIsFixed(
      worlds: seq<World>, actions: seq<Action>, maxAttempts: nat, i: nat, j: nat, t: T.TaskId)
    requires IsRun(worlds, actions, maxAttempts) && i <= j < |worlds|
    requires t in worlds[i].tasks && worlds[i].tasks[t].version.Some?
    ensures t in worlds[j].tasks && worlds[j].tasks[t].version == worlds[i].tasks[t].version
  {
    if i < j {
      BindingIsFixed(worlds, actions, maxAttempts, i, j - 1, t);
      RowsMoveByStatements(worlds[j - 1], actions[j - 1], maxAttempts, t);
    }
  }

  /** Two workers are never both able to write under a live lease of one task. */
  lemma LiveLeaseIsExclusive(
      worlds: seq<World>, actions: seq<Action>, maxAttempts: nat, n: nat, w: WorkerId, u: WorkerId, at: nat)
    requires IsRun(worlds, actions, maxAttempts) && n < |worlds|
    requires var x := worlds[n];
             Working(x, w) && Working(x, u) && x.workers[w].task == x.workers[u].task
             && Live(x.tasks[x.workers[w].task], x.workers[w].owner, x.workers[w].epoch, at)
             && Live(x.tasks[x.workers[u].task], x.workers[u].owner, x.workers[u].epoch, at)
    ensures w == u
  {
    RunKeepsInv(worlds, actions, maxAttempts, n);
  }

  /** The rows of task t, and the statements aimed at it, after its creation at c. */
  ghost function RowRun(worlds: seq<World>, actions: seq<Action>, c: nat, t: T.TaskId): (run: Runs.Run)
    requires |worlds| == |actions| + 1 && c < |actions|
    requires forall i :: c < i < |worlds| ==> t in worlds[i].tasks
    ensures run.Shape() && |run.rows| == |worlds| - (c + 1)
  {
    var len := |worlds| - (c + 1);
    Runs.Run(seq(len, i requires 0 <= i < len => worlds[c + 1 + i].tasks[t]),
             seq(len - 1, i requires 0 <= i < len - 1 => StepOn(worlds[c + 1 + i], actions[c + 1 + i], t)))
  }

  lemma RowRunIsValid(worlds: seq<World>, actions: seq<Action>, maxAttempts: nat, c: nat, t: T.TaskId)
    requires IsRun(worlds, actions, maxAttempts) && c < |actions| && actions[c].CreateTask? && actions[c].t == t
    requires forall i :: c < i < |worlds| ==> t in worlds[i].tasks
    ensures RowRun(worlds, actions, c, t).Valid()
  {
    var run := RowRun(worlds, actions, c, t);
    assert Enabled(worlds[c], actions[c], maxAttempts) && worlds[c + 1] == Next(worlds[c], actions[c], maxAttempts);
    assert run.rows[0] == actions[c].row;
    forall i | 0 <= i < |run.steps|
      ensures run.rows[i + 1] == Apply(run.rows[i], run.steps[i])
    {
      RowsMoveByStatements(worlds[c + 1 + i], actions[c + 1 + i], maxAttempts, t);
    }
  }

  /** A retry that takes effect comes from the worker whose claim is in force, and
      its attempt number is the row's. */
  lemma RetryMeansAttemptsLeft(x: World, a: Action, maxAttempts: nat, t: T.TaskId)
    requires Inv(x) && Enabled(x, a, maxAttempts) && t in x.tasks
    requires StepOn(x, a, t).ev.Retry? && Succeeds(x.tasks[t], StepOn(x, a, t))
    ensures x.tasks[t].attempts < maxAttempts
  {
    assert a.WRetry? && LocalOk(x, x.workers[a.w]);
  }

  lemma RetryAt(worlds: seq<World>, actions: seq<Action>, maxAttempts: nat, c: nat, t: T.TaskId, i: nat)
    requires IsRun(worlds, actions, maxAttempts) && c + 1 + i < |actions|
    requires forall k :: c < k < |worlds| ==> t in worlds[k].tasks
    requires var run := RowRun(worlds, actions, c, t); run.Did(i) && run.steps[i].ev.Retry?
    ensures RowRun(worlds, actions, c, t).rows[i].attempts < maxAttempts
  {
    RunKeepsInv(worlds, actions, maxAttempts, c + 1 + i);
    RetryMeansAttemptsLeft(worlds[c + 1 + i], actions[c + 1 + i], maxAttempts, t);
  }

  /** A run in which every retry finds attempts left obeys the workers' rule. */
  lemma AttemptsLeftMeansWorkersStop(run: Runs.Run, maxAttempts: nat)
    requires run.Valid()
    requires forall i | 0 <= i < |run.steps| && run.Did(i) && run.steps[i].ev.Retry? ::
      run.rows[i].attempts < maxAttempts
    ensures Runs.WorkersStopRetrying(run, maxAttempts)
  {
    forall i | 0 <= i < |run.steps| && run.Did(i) && run.steps[i].ev.Retry?
      ensures run.Holder(i).Some? && run.Holder(i).value.claim < i
      ensures run.rows[run.Holder(i).value.claim + 1].attempts < maxAttempts
    {
      Runs.HolderMatchesRow(run, i);
    }
  }

  lemma RowRunStopsRetrying(worlds: seq<World>, actions: seq<Action>, maxAttempts: nat, c: nat, t: T.TaskId)
    requires IsRun(worlds, actions, maxAttempts) && c < |actions|
    requires forall i :: c < i < |worlds| ==> t in worlds[i].tasks
    requires RowRun(worlds, actions, c, t).Valid()
    ensures Runs.WorkersStopRetrying(RowRun(worlds, actions, c, t), maxAttempts)
  {
    var run := RowRun(worlds, actions, c, t);
    forall i | 0 <= i < |run.steps| && run.Did(i) && run.steps[i].ev.Retry?
      ensures run.rows[i].attempts < maxAttempts
    {
      RetryAt(worlds, actions, maxAttempts, c, t, i);
    }
    AttemptsLeftMeansWorkersStop(run, maxAttempts);
  }

  lemma {:induction false} TaskStays(worlds: seq<World>, actions: seq<Action>, maxAttempts: nat, c: nat, t: T.TaskId)
    requires IsRun(worlds, actions, maxAttempts) && c < |actions| && actions[c].CreateTask? && actions[c].t == t
    ensures forall i :: c < i < |worlds| ==> t in worlds[i].tasks
  {
    var i := c + 1;
    assert worlds[i] == Next(worlds[c], actions[c], maxAttempts);
    while i + 1 < |worlds|
      invariant c < i < |worlds|
      invariant forall k :: c < k <= i ==> t in worlds[k].tasks
    {
      RowsMoveByStatements(worlds[i], actions[i], maxAttempts, t);
      i := i + 1;
    }
  }

  /** Seen from one task row, a run of the protocol is a run of guarded statements,
      so everything LeaseRuns proves holds of it. In particular, whatever the
      interleaving, crashes and thefts, the workers schedule at most
      MaxAttempts - 1 retries of a task between operator resets. */
  lemma ProtocolBoundsRetries(worlds: seq<World>, actions: seq<Action>, maxAttempts: nat, c: nat, t: T.TaskId)
    requires IsRun(worlds, actions, maxAttempts) && c < |actions| && maxAttempts > 0
    requires actions[c].CreateTask? && actions[c].t == t
    ensures forall i :: c < i < |worlds| ==> t in worlds[i].tasks
    ensures var run := RowRun(worlds, actions, c, t);
            run.Valid() && forall n :: 0 <= n < |run.rows| ==> run.RetriesSinceReset(n) <= maxAttempts - 1
  {
    TaskStays(worlds, actions, maxAttempts, c, t);
    RowRunIsValid(worlds, actions, maxAttempts, c, t);
    RowRunStopsRetrying(worlds, actions, maxAttempts, c, t);
    var run := RowRun(worlds, actions, c, t);
    forall n | 0 <= n < |run.rows| ensures run.RetriesSinceReset(n) <= maxAttempts - 1 {
      Runs.RetriesAreBounded(run, maxAttempts, n);
    }
  }
}
