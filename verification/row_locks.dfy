/** The catalog under concurrent transactions: every multi-statement writer is
    split into the statements that take its row locks, its writes stay invisible
    until it commits, and any number of transactions interleave. */
module RowLocks {
  import opened Wrappers
  import opened Transitions
  import opened Catalog

  type TxId = nat

  const BATCH: nat := 256

  datatype Answer = Inactive | Active | Unavailable

  /** How far a transaction has got. */
  datatype Txn =
    | ReadyStarted(v: VersionId)              // MarkModelVersionReady found its row in its snapshot
    | ReadyVersion(v: VersionId, m: ModelId)  // its CTE wrote the version row
    | ReadyModel(v: VersionId, m: ModelId)    // its outer UPDATE wrote the model row
    | ErrorVersion(v: VersionId, m: ModelId)  // MarkModelVersionErrorForTask wrote the version row
    | ErrorLocked(v: VersionId, m: ModelId)   // LockModelForVersionError
    | ErrorJudged(v: VersionId, m: ModelId, hit: bool) // MarkModelErrorIfNoReady
    | Creating(v: VersionId, m: ModelId, row: Version) // CreateModelVersion inserted
    | DeletingModel(m: ModelId)               // deleteProtected locked the parent
    | Listed(m: ModelId, ids: seq<VersionId>, asked: seq<seq<VersionId>>)
    | DeletingVersion(v: VersionId, m: ModelId, cleared: bool)
    | Registering(v: VersionId, m: ModelId, trained: Trained)

  datatype Sys = Sys(db: Db, txns: map<TxId, Txn>)

  /** PostgreSQL's row lock modes that these statements use. */
  datatype Mode = KeyShare | NoKeyUpdate | ForUpdate

  predicate Conflicts(a: Mode, b: Mode) {
    a == ForUpdate || b == ForUpdate || (a == NoKeyUpdate && b == NoKeyUpdate)
  }

  datatype ModelLock = ModelLock(m: ModelId, mode: Mode)

  function ModelLockOf(t: Txn): Option<ModelLock> {
    match t
    case ReadyModel(_, m) => Some(ModelLock(m, NoKeyUpdate))
    case ErrorLocked(_, m) => Some(ModelLock(m, ForUpdate))
    case ErrorJudged(_, m, _) => Some(ModelLock(m, ForUpdate))
    case Creating(_, m, _) => Some(ModelLock(m, KeyShare))
    case DeletingModel(m) => Some(ModelLock(m, ForUpdate))
    case Listed(m, _, _) => Some(ModelLock(m, ForUpdate))
    case DeletingVersion(_, m, _) => Some(ModelLock(m, ForUpdate))
    case Registering(_, m, _) => Some(ModelLock(m, ForUpdate))
    case _ => None
  }

  function VersionLockOf(t: Txn): Option<VersionId> {
    match t
    case ReadyVersion(v, _) => Some(v)
    case ReadyModel(v, _) => Some(v)
    case ErrorVersion(v, _) => Some(v)
    case ErrorLocked(v, _) => Some(v)
    case ErrorJudged(v, _, _) => Some(v)
    case DeletingVersion(v, _, _) => Some(v)
    case _ => None
  }

  predicate Compatible(a: Txn, b: Txn) {
    && (VersionLockOf(a).Some? && VersionLockOf(b).Some? ==> VersionLockOf(a) != VersionLockOf(b))
    && (ModelLockOf(a).Some? && ModelLockOf(b).Some? && ModelLockOf(a).value.m == ModelLockOf(b).value.m ==>
          !Conflicts(ModelLockOf(a).value.mode, ModelLockOf(b).value.mode))
  }

  /** Transaction tx may move to t: nobody else holds a lock that t needs. */
  predicate Granted(s: Sys, tx: TxId, t: Txn) {
    forall other <- s.txns :: other != tx ==> Compatible(s.txns[other], t)
  }

  datatype Action =
    | StartReady(tx: TxId, v: VersionId)
    | LockReadyVersion(tx: TxId)
    | LockReadyModel(tx: TxId)
    | StartError(tx: TxId, v: VersionId)
    | LockErrorModel(tx: TxId)
    | JudgeError(tx: TxId)
    | StartCreate(tx: TxId, v: VersionId, m: ModelId, row: Version)
    | LockDelete(tx: TxId, m: ModelId)
    | List(tx: TxId, ids: seq<VersionId>)
    | Ask(tx: TxId, answer: Answer)
    | StartDeleteVersion(tx: TxId, v: VersionId)
    | StartRegister(tx: TxId, v: VersionId, m: ModelId, trained: Trained)
    | Commit(tx: TxId)
    | Rollback(tx: TxId)
    | Single(op: Op)

  predicate Ascending(ids: seq<VersionId>) {
    forall i, j :: 0 <= i < j < |ids| ==> ids[i] < ids[j]
  }

  /** The next batch deleteProtected sends to the reference checker. */
  function NextBatch(ids: seq<VersionId>, done: nat): (batch: seq<VersionId>)
    requires done <= |ids|
  {
    ids[done..if done + BATCH > |ids| then |ids| else done + BATCH]
  }

  function Flat(batches: seq<seq<VersionId>>): seq<VersionId> {
    if batches == [] then [] else Flat(batches[..|batches| - 1]) + batches[|batches| - 1]
  }

  /** The guard of MarkModelErrorIfNoReady. */
  predicate MayFail(db: Db, m: ModelId)
    requires m in db.models
  {
    db.models[m].state in {ModelPending, ModelDownloading, ModelError} && !HasReady(db, m)
  }

  /** The committed effect of a transaction that is ready to commit. */
  predicate CanCommit(db: Db, t: Txn) {
    match t
    case ReadyModel(v, m) => v in db.versions && m in db.models
    case ErrorJudged(v, m, _) => v in db.versions && m in db.models
    case Creating(v, m, row) => v !in db.versions && VersionNameFree(db, m, row.name)
    case Listed(m, ids, asked) => m in db.models && |Flat(asked)| == |ids|
    case DeletingVersion(v, m, cleared) => v in db.versions && cleared
    case Registering(v, m, trained) => Allowed(db, Register(v, m, trained))
    case _ => false
  }

  function Committed(db: Db, t: Txn): Db
    requires CanCommit(db, t)
  {
    match t
    case ReadyModel(v, m) => WithModelState(WithVersionState(db, v, Ready), m, ModelReady)
    case ErrorJudged(v, m, hit) =>
      var db1 := WithVersionState(db, v, Error);
      if hit then WithModelState(db1, m, ModelError) else db1
    case Creating(v, m, row) => db.(versions := db.versions[v := row])
    case Listed(m, _, _) => WithModelState(db, m, ModelDeleted)
    case DeletingVersion(v, _, _) => WithVersionState(db, v, Deleted)
    case Registering(v, m, trained) => Effect(db, Register(v, m, trained))
  }

  /** The statements that write one version row, or only insert, and commit at once. */
  predicate SingleRow(op: Op) {
    op.CreateModel? || op.CreateArtifact? || op.SetChecksum? || op.MarkError? || op.ResetVersion?
  }

  predicate Free(s: Sys, v: VersionId) {
    forall other <- s.txns :: VersionLockOf(s.txns[other]) != Some(v)
  }

  ghost predicate Enabled(s: Sys, a: Action) {
    match a
    case StartReady(tx, v) =>
      && tx !in s.txns && v in s.db.versions && Open(s.db.versions[v].state)
      && Backed(s.db, v, s.db.versions[v]) && ModelLive(s.db, s.db.versions[v].model)
    case LockReadyVersion(tx) =>
      && tx in s.txns && s.txns[tx].ReadyStarted?
      && var v := s.txns[tx].v;
      v in s.db.versions && Open(s.db.versions[v].state) && Backed(s.db, v, s.db.versions[v])
      && Granted(s, tx, ReadyVersion(v, s.db.versions[v].model))
    case LockReadyModel(tx) =>
      tx in s.txns && s.txns[tx].ReadyVersion? && Granted(s, tx, ReadyModel(s.txns[tx].v, s.txns[tx].m))
    case StartError(tx, v) =>
      && tx !in s.txns && v in s.db.versions && Open(s.db.versions[v].state)
      && Granted(s, tx, ErrorVersion(v, s.db.versions[v].model))
    case LockErrorModel(tx) =>
      tx in s.txns && s.txns[tx].ErrorVersion? && Granted(s, tx, ErrorLocked(s.txns[tx].v, s.txns[tx].m))
    case JudgeError(tx) => tx in s.txns && s.txns[tx].ErrorLocked? && s.txns[tx].m in s.db.models
    case StartCreate(tx, v, m, row) =>
      && tx !in s.txns && v !in s.db.versions && ModelLive(s.db, m)
      && row.model == m && row.state == Pending && Granted(s, tx, Creating(v, m, row))
    case LockDelete(tx, m) => tx !in s.txns && ModelLive(s.db, m) && Granted(s, tx, DeletingModel(m))
    case List(tx, ids) =>
      && tx in s.txns && s.txns[tx].DeletingModel?
      && Ascending(ids)
      && forall v :: v in ids <==> v in s.db.versions && s.db.versions[v].model == s.txns[tx].m
    case Ask(tx, _) =>
      tx in s.txns && (s.txns[tx].DeletingVersion?
                       || (s.txns[tx].Listed? && |Flat(s.txns[tx].asked)| < |s.txns[tx].ids|))
    case StartDeleteVersion(tx, v) =>
      && tx !in s.txns && v in s.db.versions && s.db.versions[v].state != Deleted
      && ModelLive(s.db, s.db.versions[v].model)
      && Granted(s, tx, DeletingVersion(v, s.db.versions[v].model, false))
    case StartRegister(tx, v, m, trained) =>
      && tx !in s.txns
      && (if trained.target.Some? then trained.target == Some(m) && ModelLive(s.db, m) else m !in s.db.models)
      && Granted(s, tx, Registering(v, m, trained))
    case Commit(tx) => tx in s.txns && CanCommit(s.db, s.txns[tx])
    case Rollback(tx) => tx in s.txns
    case Single(op) =>
      SingleRow(op) && Allowed(s.db, op) && (op.SetChecksum? || op.MarkError? || op.ResetVersion? ==> Free(s, op.v))
  }

  function Begin(s: Sys, tx: TxId, t: Txn): Sys { s.(txns := s.txns[tx := t]) }

  function End(s: Sys, tx: TxId, db: Db): Sys { Sys(db, s.txns - {tx}) }

  /** The transaction's next position, for the actions that only move one. */
  ghost function Moved(s: Sys, a: Action): Txn
    requires Enabled(s, a) && !a.Commit? && !a.Rollback? && !a.Single?
  {
    match a
    case StartReady(_, v) => ReadyStarted(v)
    case LockReadyVersion(tx) => ReadyVersion(s.txns[tx].v, s.db.versions[s.txns[tx].v].model)
    case LockReadyModel(tx) => ReadyModel(s.txns[tx].v, s.txns[tx].m)
    case StartError(_, v) => ErrorVersion(v, s.db.versions[v].model)
    case LockErrorModel(tx) => ErrorLocked(s.txns[tx].v, s.txns[tx].m)
    case JudgeError(tx) =>
      var m := s.txns[tx].m;
      ErrorJudged(s.txns[tx].v, m, MayFail(s.db, m))
    case StartCreate(_, v, m, row) => Creating(v, m, row)
    case LockDelete(_, m) => DeletingModel(m)
    case List(tx, ids) => Listed(s.txns[tx].m, ids, [])
    case Ask(tx, _) =>
      var t := s.txns[tx];
      if t.DeletingVersion? then t.(cleared := true)
      else t.(asked := t.asked + [NextBatch(t.ids, |Flat(t.asked)|)])
    case StartDeleteVersion(_, v) => DeletingVersion(v, s.db.versions[v].model, false)
    case StartRegister(_, v, m, trained) => Registering(v, m, trained)
  }

  ghost function Next(s: Sys, a: Action): Sys
    requires Enabled(s, a)
  {
    match a
    case Commit(tx) => End(s, tx, Committed(s.db, s.txns[tx]))
    case Rollback(tx) => End(s, tx, s.db)
    case Single(op) => s.(db := Effect(s.db, op))
    case Ask(tx, answer) => if answer == Inactive then Begin(s, tx, Moved(s, a)) else End(s, tx, s.db)
    case _ => Begin(s, a.tx, Moved(s, a))
  }

  // ---- the invariant --------------------------------------------------------

  ghost predicate AskedPrefix(ids: seq<VersionId>, asked: seq<seq<VersionId>>) {
    && |Flat(asked)| <= |ids| && Flat(asked) == ids[..|Flat(asked)|]
    && forall b <- asked :: 1 <= |b| <= BATCH
  }

  ghost predicate TxnOk(db: Db, t: Txn) {
    match t
    case ReadyStarted(v) => v in db.versions && Backed(db, v, db.versions[v])
    case ReadyVersion(v, m) =>
      v in db.versions && db.versions[v].model == m && Open(db.versions[v].state) && Backed(db, v, db.versions[v])
    case ReadyModel(v, m) =>
      v in db.versions && db.versions[v].model == m && Open(db.versions[v].state) && Backed(db, v, db.versions[v])
    case ErrorVersion(v, m) => v in db.versions && db.versions[v].model == m && Open(db.versions[v].state)
    case ErrorLocked(v, m) => v in db.versions && db.versions[v].model == m && Open(db.versions[v].state)
    case ErrorJudged(v, m, hit) =>
      && v in db.versions && db.versions[v].model == m && Open(db.versions[v].state) && m in db.models
      && (hit <==> MayFail(db, m))
    case Creating(v, m, row) => ModelLive(db, m) && row.model == m && row.state == Pending
    case DeletingModel(m) => ModelLive(db, m)
    case Listed(m, ids, asked) =>
      && ModelLive(db, m) && Ascending(ids) && AskedPrefix(ids, asked)
      && forall v :: v in ids <==> v in db.versions && db.versions[v].model == m
    case DeletingVersion(v, m, _) =>
      v in db.versions && db.versions[v].model == m && db.versions[v].state != Deleted && ModelLive(db, m)
    case Registering(_, _, _) => true
  }

  ghost predicate Inv(s: Sys) {
    && Sound(s.db)
    && (forall tx <- s.txns :: TxnOk(s.db, s.txns[tx]))
    && (forall a <- s.txns, b <- s.txns :: a != b ==> Compatible(s.txns[a], s.txns[b]))
  }

  lemma CommitKeepsSound(db: Db, t: Txn)
    requires Sound(db) && TxnOk(db, t) && CanCommit(db, t)
    ensures Sound(Committed(db, t))
  {
    match t
    case Registering(v, m, trained) => EveryWriterKeepsSound(db, Register(v, m, trained));
    case ErrorJudged(v, m, hit) =>
      var db' := Committed(db, t);
      forall w | w in db'.versions && db'.versions[w].state == Ready
        ensures db'.models[db'.versions[w].model].state in {ModelReady, ModelDeleted}
      {
        assert db.versions[w].state == Ready;
      }
    case _ =>
  }

  predicate ReadyIn(db: Db, v: VersionId, m: ModelId) {
    v in db.versions && db.versions[v].model == m && db.versions[v].state == Ready
  }

  lemma SameReady(db: Db, db': Db, m: ModelId)
    requires forall v :: ReadyIn(db, v, m) <==> ReadyIn(db', v, m)
    ensures HasReady(db, m) <==> HasReady(db', m)
  {
    if HasReady(db, m) {
      var v :| v in db.versions && db.versions[v].model == m && db.versions[v].state == Ready;
      assert ReadyIn(db, v, m) && ReadyIn(db', v, m);
    }
    if HasReady(db', m) {
      var v :| v in db'.versions && db'.versions[v].model == m && db'.versions[v].state == Ready;
      assert ReadyIn(db', v, m) && ReadyIn(db, v, m);
    }
  }

  /** A model row may change under a transaction that holds no lock on it, and under one
      that only shares its key as long as the model stays live. */
  lemma ModelStateKeeps(db: Db, m: ModelId, state: ModelState, other: Txn)
    requires TxnOk(db, other) && m in db.models
    requires ModelLockOf(other).Some? && ModelLockOf(other).value.m == m ==>
      state != ModelDeleted && ModelLockOf(other).value.mode == KeyShare
    ensures TxnOk(WithModelState(db, m, state), other)
  {
    if other.ErrorJudged? {
      SameReady(db, WithModelState(db, m, state), other.m);
    }
  }

  lemma VersionStateKeeps(db: Db, v: VersionId, state: VersionState, other: Txn)
    requires TxnOk(db, other) && v in db.versions && VersionLockOf(other) != Some(v)
    requires state == Ready || db.versions[v].state == Ready ==>
      !(other.ErrorJudged? && other.m == db.versions[v].model)
    ensures TxnOk(WithVersionState(db, v, state), other)
  {
    if other.ErrorJudged? {
      SameReady(db, WithVersionState(db, v, state), other.m);
    }
  }

  lemma CommitKeepsOthers(db: Db, t: Txn, other: Txn)
    requires Sound(db) && TxnOk(db, t) && CanCommit(db, t) && TxnOk(db, other) && Compatible(other, t)
    ensures TxnOk(Committed(db, t), other)
  {
    match t
    case ReadyModel(v, m) =>
      VersionStateKeeps(db, v, Ready, other);
      ModelStateKeeps(WithVersionState(db, v, Ready), m, ModelReady, other);
    case ErrorJudged(v, m, hit) =>
      VersionStateKeeps(db, v, Error, other);
      if hit {
        ModelStateKeeps(WithVersionState(db, v, Error), m, ModelError, other);
      }
    case Listed(m, _, _) => ModelStateKeeps(db, m, ModelDeleted, other);
    case DeletingVersion(v, _, _) => VersionStateKeeps(db, v, Deleted, other);
    case Creating(_, _, _) => CreationKeeps(db, t, other);
    case Registering(_, _, _) => RegistrationKeeps(db, t, other);
  }

  lemma CreationKeeps(db: Db, t: Txn, other: Txn)
    requires TxnOk(db, t) && CanCommit(db, t) && TxnOk(db, other) && Compatible(other, t) && t.Creating?
    ensures TxnOk(Committed(db, t), other)
  {
    if other.ErrorJudged? {
      SameReady(db, Committed(db, t), other.m);
    }
  }

  lemma RegistrationKeeps(db: Db, t: Txn, other: Txn)
    requires TxnOk(db, t) && CanCommit(db, t) && TxnOk(db, other) && Compatible(other, t) && t.Registering?
    ensures TxnOk(Committed(db, t), other)
  {
    if other.ErrorJudged? {
      assert other.m != t.m;
      SameReady(db, Committed(db, t), other.m);
    }
  }

  lemma SingleKeepsOthers(s: Sys, op: Op, other: TxId)
    requires Inv(s) && Enabled(s, Single(op)) && other in s.txns
    ensures TxnOk(Effect(s.db, op), s.txns[other])
  {
    OpKeepsTxn(s.db, op, s.txns[other]);
  }

  lemma OpKeepsTxn(db: Db, op: Op, t: Txn)
    requires SingleRow(op) && Allowed(db, op) && TxnOk(db, t)
    requires op.SetChecksum? || op.MarkError? || op.ResetVersion? ==> VersionLockOf(t) != Some(op.v)
    ensures TxnOk(Effect(db, op), t)
  {
    if t.ErrorJudged? {
      SameReady(db, Effect(db, op), t.m);
    }
  }

  lemma AskExtendsPrefix(ids: seq<VersionId>, asked: seq<seq<VersionId>>)
    requires AskedPrefix(ids, asked) && |Flat(asked)| < |ids|
    ensures AskedPrefix(ids, asked + [NextBatch(ids, |Flat(asked)|)])
  {
    var batch := NextBatch(ids, |Flat(asked)|);
    var asked' := asked + [batch];
    assert asked'[..|asked'| - 1] == asked;
    assert Flat(asked') == Flat(asked) + batch;
  }

  /** Taking another lock keeps the invariant when nobody holds a conflicting one. */
  lemma BeginKeepsInv(s: Sys, tx: TxId, t: Txn)
    requires Inv(s) && TxnOk(s.db, t) && Granted(s, tx, t)
    ensures Inv(Begin(s, tx, t))
  {
  }

  lemma EndKeepsInv(s: Sys, tx: TxId, db: Db)
    requires Inv(s) && Sound(db) && forall other <- s.txns :: other != tx ==> TxnOk(db, s.txns[other])
    ensures Inv(End(s, tx, db))
  {
  }

  lemma CommitKeepsInv(s: Sys, tx: TxId)
    requires Inv(s) && Enabled(s, Commit(tx))
    ensures Inv(Next(s, Commit(tx)))
  {
    var db' := Committed(s.db, s.txns[tx]);
    CommitKeepsSound(s.db, s.txns[tx]);
    forall other | other in s.txns && other != tx
      ensures TxnOk(db', s.txns[other])
    {
      CommitKeepsOthers(s.db, s.txns[tx], s.txns[other]);
    }
    EndKeepsInv(s, tx, db');
  }

  lemma SingleKeepsInv(s: Sys, op: Op)
    requires Inv(s) && Enabled(s, Single(op))
    ensures Inv(Next(s, Single(op)))
  {
    EveryWriterKeepsSound(s.db, op);
    forall other | other in s.txns
      ensures TxnOk(Effect(s.db, op), s.txns[other])
    {
      SingleKeepsOthers(s, op, other);
    }
  }

  lemma MovedIsOk(s: Sys, a: Action)
    requires Inv(s) && Enabled(s, a) && !a.Commit? && !a.Rollback? && !a.Single?
    ensures TxnOk(s.db, Moved(s, a))
  {
    if a.Ask? && s.txns[a.tx].Listed? {
      AskExtendsPrefix(s.txns[a.tx].ids, s.txns[a.tx].asked);
    }
  }

  lemma MovedIsGranted(s: Sys, a: Action)
    requires Inv(s) && Enabled(s, a) && !a.Commit? && !a.Rollback? && !a.Single?
    ensures Granted(s, a.tx, Moved(s, a))
  {
    if a.List? || a.Ask? || a.JudgeError? {
      assert ModelLockOf(Moved(s, a)) == ModelLockOf(s.txns[a.tx]);
      assert VersionLockOf(Moved(s, a)) == VersionLockOf(s.txns[a.tx]);
      assert forall other <- s.txns :: other != a.tx ==> Compatible(s.txns[other], s.txns[a.tx]);
    }
  }

  lemma EveryActionKeepsInv(s: Sys, a: Action)
    requires Inv(s) && Enabled(s, a)
    ensures Inv(Next(s, a))
  {
    if a.Commit? {
      CommitKeepsInv(s, a.tx);
    } else if a.Single? {
      SingleKeepsInv(s, a.op);
    } else if a.Rollback? || (a.Ask? && a.answer != Inactive) {
      EndKeepsInv(s, a.tx, s.db);
    } else {
      MovedIsOk(s, a);
      MovedIsGranted(s, a);
      BeginKeepsInv(s, a.tx, Moved(s, a));
    }
  }

  ghost predicate Start(s: Sys) { Sound(s.db) && s.txns == map[] }

  ghost predicate Step(s: Sys, a: Action, t: Sys) { Enabled(s, a) && t == Next(s, a) }

  ghost predicate IsRun(states: seq<Sys>, actions: seq<Action>) {
    Transitions.IsRun(states, actions, Start, Step)
  }

  lemma RunKeepsInv(states: seq<Sys>, actions: seq<Action>, n: nat)
    requires IsRun(states, actions) && n < |states|
    ensures Inv(states[n])
  {
    forall s, a, t | Inv(s) && Step(s, a, t) ensures Inv(t) {
      EveryActionKeepsInv(s, a);
    }
    RunKeeps(states, actions, Start, Step, Inv, n);
  }

  /** In every committed state of every interleaving, a model with a ready version
      is ready or deleted; in particular a model in error has no ready version. */
  lemma ReadyAlwaysWins(states: seq<Sys>, actions: seq<Action>, n: nat, v: VersionId)
    requires IsRun(states, actions) && n < |states|
    requires v in states[n].db.versions && states[n].db.versions[v].state == Ready
    ensures var db := states[n].db;
            && db.versions[v].model in db.models
            && db.models[db.versions[v].model].state in {ModelReady, ModelDeleted}
            && Backed(db, v, db.versions[v])
  {
    RunKeepsInv(states, actions, n);
  }

  /** Past its first wait: MarkReady and MarkError have reached their model statement. */
  predicate OnModel(t: Txn, m: ModelId) {
    !t.ReadyStarted? && !t.ReadyVersion? && !t.ErrorVersion? && t.m == m
  }

  /** At work on an existing version. */
  predicate OnVersion(t: Txn, v: VersionId) {
    && (t.ReadyVersion? || t.ReadyModel? || t.ErrorVersion? || t.ErrorLocked? || t.ErrorJudged? || t.DeletingVersion?)
    && t.v == v
  }

  predicate MayShare(a: Txn, b: Txn) { a.Creating? && (b.Creating? || b.ReadyModel?) }

  lemma ModelIsSharedExactly(a: Txn, b: Txn, m: ModelId)
    requires OnModel(a, m) && OnModel(b, m)
    ensures Compatible(a, b) ==> MayShare(a, b) || MayShare(b, a)
    ensures MayShare(a, b) || MayShare(b, a) ==> Compatible(a, b)
  {
  }

  /** At any instant of any run two transactions are at work on one model only if both insert
      versions, or one inserts and the other is a MarkReady; and no two write one version. */
  lemma OneWriterPerRow(states: seq<Sys>, actions: seq<Action>, n: nat, a: TxId, b: TxId)
    requires IsRun(states, actions) && n < |states| && a in states[n].txns && b in states[n].txns && a != b
    ensures var t, u := states[n].txns[a], states[n].txns[b];
      && (forall m :: OnModel(t, m) && OnModel(u, m) ==> MayShare(t, u) || MayShare(u, t))
      && (forall v :: !(OnVersion(t, v) && OnVersion(u, v)))
  {
    RunKeepsInv(states, actions, n);
    assert Compatible(states[n].txns[a], states[n].txns[b]);
  }

  // ---- refinement of the atomic writers --------------------------------------

  /** The writer of the catalog that transaction t is, all at once. */
  function OpOf(t: Txn): Option<Op> {
    match t
    case ReadyModel(v, _) => Some(MarkReady(v))
    case ErrorJudged(v, _, _) => Some(MarkErrorAndModel(v))
    case Creating(v, m, row) => Some(CreateVersion(v, m, row.name, row.checksum, row.size))
    case Listed(m, _, _) => Some(DeleteModel(m))
    case DeletingVersion(v, _, _) => Some(DeleteVersion(v))
    case Registering(v, m, trained) => Some(Register(v, m, trained))
    case _ => None
  }

  /** The commit of a MarkReady on a model that was deleted in the meantime. */
  predicate Revives(s: Sys, a: Action) {
    && a.Commit? && a.tx in s.txns && s.txns[a.tx].ReadyModel?
    && s.txns[a.tx].m in s.db.models && s.db.models[s.txns[a.tx].m].state == ModelDeleted
  }

  /** The writer that takes effect at an action, if one does. */
  function WriterOf(s: Sys, a: Action): Option<Op> {
    if a.Single? then Some(a.op)
    else if a.Commit? && a.tx in s.txns then OpOf(s.txns[a.tx])
    else None
  }

  lemma CommitIsAWriter(db: Db, t: Txn)
    requires Sound(db) && TxnOk(db, t) && CanCommit(db, t)
    requires t.ReadyModel? ==> t.m in db.models && db.models[t.m].state != ModelDeleted
    ensures OpOf(t).Some? && Allowed(db, OpOf(t).value) && Committed(db, t) == Effect(db, OpOf(t).value)
  {
    if t.ErrorJudged? {
      SameReady(db, WithVersionState(db, t.v, Error), t.m);
    }
  }

  /** Split into statements and interleaved, the transactions are still the catalog's atomic
      writers: each commit has a writer's whole effect, allowed at that instant, and no
      other action changes the tables. The one exception is a MarkReady that revives a
      deleted model. */
  lemma EveryActionIsAWriter(s: Sys, a: Action)
    requires Inv(s) && Enabled(s, a) && !Revives(s, a)
    ensures Wrote(s.db, WriterOf(s, a), Next(s, a).db)
  {
    if a.Commit? {
      CommitIsAWriter(s.db, s.txns[a.tx]);
    }
  }

  /** The exception breaks none of what writers keep: it too leaves artifacts and checksums
      alone, and a ready version ready. */
  lemma EveryActionEvolves(s: Sys, a: Action)
    requires Inv(s) && Enabled(s, a)
    ensures Evolves(s.db, Next(s, a).db)
  {
    if !Revives(s, a) {
      EveryActionIsAWriter(s, a);
      var op := WriterOf(s, a);
      if op.Some? {
        EveryWriterEvolves(s.db, op.value);
      }
    }
  }

  lemma RunEvolves(states: seq<Sys>, actions: seq<Action>, n: nat)
    requires IsRun(states, actions) && n < |actions|
    ensures Sound(states[n + 1].db) && Evolves(states[n].db, states[n + 1].db)
  {
    RunKeepsInv(states, actions, n);
    RunKeepsInv(states, actions, n + 1);
    EveryActionEvolves(states[n], actions[n]);
  }

  /** Between any two points of any run, revivals included: artifacts as inserted, checksums
      write-once, ready left only to deleted, and at the later point soundness. */
  lemma {:induction false} RunKeepsIntegrity(states: seq<Sys>, actions: seq<Action>, i: nat, j: nat)
    requires IsRun(states, actions) && i <= j < |states|
    ensures Sound(states[j].db) && Evolves(states[i].db, states[j].db)
  {
    if i == j {
      RunKeepsInv(states, actions, j);
    } else {
      RunKeepsIntegrity(states, actions, i, j - 1);
      RunEvolves(states, actions, j - 1);
      EvolvesTransitive(states[i].db, states[j - 1].db, states[j].db);
    }
  }

  /** The writers that take effect in the first n actions, in order. */
  function Writers(states: seq<Sys>, actions: seq<Action>, n: nat): seq<Op>
    requires n <= |actions| && n <= |states|
  {
    if n == 0 then []
    else
      Writers(states, actions, n - 1)
      + Listing(WriterOf(states[n - 1], actions[n - 1]))
  }

  lemma RunWrites(states: seq<Sys>, actions: seq<Action>, n: nat)
    requires IsRun(states, actions) && n < |actions| && !Revives(states[n], actions[n])
    ensures Wrote(states[n].db, WriterOf(states[n], actions[n]), states[n + 1].db)
  {
    RunKeepsInv(states, actions, n);
    EveryActionIsAWriter(states[n], actions[n]);
  }

  lemma OneMoreWriter(states: seq<Sys>, actions: seq<Action>, n: nat, before: seq<Db>) returns (dbs: seq<Db>)
    requires IsRun(states, actions) && n < |actions| && !Revives(states[n], actions[n])
    requires Recounts(states, actions, n, before)
    ensures Recounts(states, actions, n + 1, dbs)
  {
    RunWrites(states, actions, n);
    var op := WriterOf(states[n], actions[n]);
    HistoryOn(before, Writers(states, actions, n), op, states[n + 1].db);
    dbs := Appended(before, op, states[n + 1].db);
  }

  /** The tables dbs are a history of the writers in the first n actions of the run, each
      allowed when it takes effect, from the run's first tables to those after n actions. */
  ghost predicate Recounts(states: seq<Sys>, actions: seq<Action>, n: nat, dbs: seq<Db>)
    requires |states| == |actions| + 1 && n <= |actions|
  {
    var ops := Writers(states, actions, n);
    IsHistory(dbs, ops) && AllAllowed(dbs, ops) && dbs[0] == states[0].db && dbs[|ops|] == states[n].db
  }

  /** A run without a revival is a history of atomic writers, in the order of their commits. */
  lemma {:induction false} RunIsAHistory(states: seq<Sys>, actions: seq<Action>, n: nat) returns (dbs: seq<Db>)
    requires IsRun(states, actions) && n < |states|
    requires forall k {:trigger Revives(states[k], actions[k])} :: 0 <= k < n ==> !Revives(states[k], actions[k])
    ensures Recounts(states, actions, n, dbs)
  {
    if n == 0 {
      dbs := [states[0].db];
    } else {
      dbs := RunIsAHistory(states, actions, n - 1);
      assert !Revives(states[n - 1], actions[n - 1]);
      dbs := OneMoreWriter(states, actions, n - 1, dbs);
    }
  }

  // ---- deletion -------------------------------------------------------------

  /** Step p of the run is the request with which the deletion tx of m asked about the
      k-th batch, and the service answered that none of it is in use. */
  ghost predicate AskedInactive(
      states: seq<Sys>, actions: seq<Action>, p: nat, tx: TxId, t: Txn, k: nat)
    requires p < |actions| && p < |states| && t.Listed? && k < |t.asked|
  {
    && actions[p] == Ask(tx, Inactive)
    && tx in states[p].txns && states[p].txns[tx] == Listed(t.m, t.ids, t.asked[..k])
    && |Flat(t.asked[..k])| <= |t.ids| && t.asked[k] == NextBatch(t.ids, |Flat(t.asked[..k])|)
  }

  ghost predicate WasInactive(states: seq<Sys>, actions: seq<Action>, n: nat, tx: TxId, t: Txn, k: nat)
    requires n < |states| && n <= |actions| && t.Listed? && k < |t.asked|
  {
    exists p :: 0 <= p < n && AskedInactive(states, actions, p, tx, t, k)
  }

  /** Every batch that a deletion has behind it was asked about and answered inactive. */
  lemma {:induction false} EveryBatchWasInactive(states: seq<Sys>, actions: seq<Action>, n: nat, tx: TxId, k: nat)
    requires IsRun(states, actions) && n < |states| && tx in states[n].txns && states[n].txns[tx].Listed?
    requires k < |states[n].txns[tx].asked|
    ensures WasInactive(states, actions, n, tx, states[n].txns[tx], k)
  {
    var i := n - 1;
    var t := states[n].txns[tx];
    assert states[n] == Next(states[i], actions[i]) && Enabled(states[i], actions[i]);
    RunKeepsInv(states, actions, i);
    if tx in states[i].txns && states[i].txns[tx] == t {
      EveryBatchWasInactive(states, actions, i, tx, k);
    } else {
      LastAsk(states[i], actions[i], tx);
      var before := states[i].txns[tx];
      if k < |before.asked| {
        EveryBatchWasInactive(states, actions, i, tx, k);
        var p :| 0 <= p < i && AskedInactive(states, actions, p, tx, before, k);
        AskedStays(states, actions, p, tx, before, t, k);
      } else {
        assert t.asked[..k] == before.asked;
        assert AskedInactive(states, actions, i, tx, t, k);
      }
    }
  }

  lemma AskedStays(states: seq<Sys>, actions: seq<Action>, p: nat, tx: TxId, t: Txn, t': Txn, k: nat)
    requires p < |actions| && p < |states| && t.Listed? && t'.Listed? && k < |t.asked|
    requires AskedInactive(states, actions, p, tx, t, k)
    requires t'.m == t.m && t'.ids == t.ids && t.asked <= t'.asked
    ensures AskedInactive(states, actions, p, tx, t', k)
  {
    assert t'.asked[..k] == t.asked[..k];
  }

  /** A deletion's list of answered batches only changes by one inactive answer. */
  lemma LastAsk(s: Sys, a: Action, tx: TxId)
    requires Inv(s) && Enabled(s, a) && tx in Next(s, a).txns && Next(s, a).txns[tx].Listed?
    requires !(tx in s.txns && s.txns[tx] == Next(s, a).txns[tx]) && Next(s, a).txns[tx].asked != []
    ensures a == Ask(tx, Inactive) && tx in s.txns && s.txns[tx].Listed?
    ensures var t, t' := s.txns[tx], Next(s, a).txns[tx];
      && t'.m == t.m && t'.ids == t.ids && |Flat(t.asked)| <= |t.ids|
      && t'.asked == t.asked + [NextBatch(t.ids, |Flat(t.asked)|)]
  {
  }

  /** When a model deletion commits, every batch was put to the reference checker in turn
      and answered inactive, in requests of 1 to 256 ids, and the batches make up, each once
      and in order, every version row the model has at that instant. */
  lemma DeletionCheckedEveryVersion(states: seq<Sys>, actions: seq<Action>, n: nat)
    requires IsRun(states, actions) && n < |actions|
    requires actions[n].Commit? && states[n].txns[actions[n].tx].Listed?
    ensures var tx := actions[n].tx; var t := states[n].txns[tx];
            && (forall k :: 0 <= k < |t.asked| ==> WasInactive(states, actions, n, tx, t, k))
            && (forall v :: v in Flat(t.asked) <==>
                  v in states[n + 1].db.versions && states[n + 1].db.versions[v].model == t.m)
            && Ascending(Flat(t.asked)) && (forall b <- t.asked :: 1 <= |b| <= 256)
            && t.m in states[n + 1].db.models && states[n + 1].db.models[t.m].state == ModelDeleted
  {
    RunKeepsInv(states, actions, n);
    var tx := actions[n].tx;
    var t := states[n].txns[tx];
    assert t.ids[..|t.ids|] == t.ids;
    forall k | 0 <= k < |t.asked| ensures WasInactive(states, actions, n, tx, t, k) {
      EveryBatchWasInactive(states, actions, n, tx, k);
    }
  }

  /** Transaction t is a deletion of m, from its lock on. */
  predicate Deletes(t: Txn, m: ModelId) { (t.DeletingModel? || t.Listed?) && t.m == m }

  ghost function VersionsOf(db: Db, m: ModelId): set<VersionId> {
    set v | v in db.versions && db.versions[v].model == m
  }

  /** The parent row and the model's set of version rows are the same in both. */
  ghost predicate SameFamily(db: Db, db': Db, m: ModelId) {
    && m in db.models && m in db'.models && db'.models[m] == db.models[m]
    && VersionsOf(db', m) == VersionsOf(db, m)
  }

  /** While a deletion of m is under way, no step but its own commit touches the model row
      or adds a version to the model. */
  lemma DeletionFreezesTheFamily(s: Sys, a: Action, tx: TxId, m: ModelId)
    requires Inv(s) && Enabled(s, a) && tx in s.txns && Deletes(s.txns[tx], m) && a != Commit(tx)
    ensures SameFamily(s.db, Next(s, a).db, m)
    ensures Follows(s, a, tx, m)
  {
    if a.Commit? {
      OtherCommitSparesTheFamily(s, a.tx, tx, m);
    } else if a.Single? {
      OpSparesTheFamily(s.db, a.op, m);
    }
  }

  lemma OpSparesTheFamily(db: Db, op: Op, m: ModelId)
    requires m in db.models && SingleRow(op) && Allowed(db, op)
    ensures SameFamily(db, Effect(db, op), m)
  {
  }

  /** What the deletion tx of m does at an action that is not its commit. */
  ghost predicate Follows(s: Sys, a: Action, tx: TxId, m: ModelId)
    requires Enabled(s, a)
  {
    && (tx in Next(s, a).txns ==> Deletes(Next(s, a).txns[tx], m))
    && (!a.Single? && a.tx == tx ==> Next(s, a).db == s.db)
    && (tx !in Next(s, a).txns ==> Refused(a, tx))
  }

  predicate Refused(a: Action, tx: TxId) {
    a == Rollback(tx) || a == Ask(tx, Active) || a == Ask(tx, Unavailable)
  }

  lemma OtherCommitSparesTheFamily(s: Sys, other: TxId, tx: TxId, m: ModelId)
    requires Inv(s) && Enabled(s, Commit(other)) && tx in s.txns && Deletes(s.txns[tx], m) && other != tx
    ensures SameFamily(s.db, Next(s, Commit(other)).db, m)
  {
    assert Compatible(s.txns[other], s.txns[tx]);
    CommitSparesTheFamily(s.db, s.txns[other], m);
  }

  lemma CommitSparesTheFamily(db: Db, t: Txn, m: ModelId)
    requires m in db.models && TxnOk(db, t) && CanCommit(db, t)
    requires ModelLockOf(t).Some? ==> ModelLockOf(t).value.m != m
    ensures SameFamily(db, Committed(db, t), m)
  {
  }

  lemma DeletionStarts(s: Sys, tx: TxId, m: ModelId)
    requires Enabled(s, LockDelete(tx, m))
    ensures Next(s, LockDelete(tx, m)).db == s.db && SameFamily(s.db, s.db, m)
    ensures tx in Next(s, LockDelete(tx, m)).txns && Deletes(Next(s, LockDelete(tx, m)).txns[tx], m)
  {
  }

  lemma DeletionGoesOn(states: seq<Sys>, actions: seq<Action>, n: nat, tx: TxId, m: ModelId)
    requires IsRun(states, actions) && n < |actions| && actions[n] != Commit(tx)
    requires tx in states[n].txns && Deletes(states[n].txns[tx], m)
    ensures SameFamily(states[n].db, states[n + 1].db, m)
    ensures tx in states[n + 1].txns ==> Deletes(states[n + 1].txns[tx], m)
    ensures tx !in states[n + 1].txns ==> Refused(actions[n], tx)
    ensures !actions[n].Single? && actions[n].tx == tx ==> states[n + 1].db == states[n].db
  {
    RunKeepsInv(states, actions, n);
    DeletionFreezesTheFamily(states[n], actions[n], tx, m);
  }

  /** From i to j no step of tx changes the tables, and whoever's step it is, m's row and
      versions are after it as they were at i. */
  ghost predicate Untouched(states: seq<Sys>, actions: seq<Action>, i: nat, j: nat, tx: TxId, m: ModelId)
    requires |states| == |actions| + 1 && i <= j < |actions|
  {
    forall k {:trigger Spares(states, actions, i, k, tx, m)} :: i <= k <= j ==> Spares(states, actions, i, k, tx, m)
  }

  ghost predicate Spares(states: seq<Sys>, actions: seq<Action>, i: nat, k: nat, tx: TxId, m: ModelId)
    requires |states| == |actions| + 1 && i <= k < |actions|
  {
    && (!actions[k].Single? && actions[k].tx == tx ==> states[k + 1].db == states[k].db)
    && SameFamily(states[i].db, states[k + 1].db, m)
  }

  /** From the step after i on, up to j, the transaction is there and does not commit. */
  ghost predicate NotYet(states: seq<Sys>, actions: seq<Action>, i: nat, j: nat, tx: TxId)
    requires |states| == |actions| + 1 && j < |actions|
  {
    forall k :: i < k <= j ==> tx in states[k].txns && actions[k] != Commit(tx)
  }

  lemma OneMoreUntouched(states: seq<Sys>, actions: seq<Action>, i: nat, j: nat, tx: TxId, m: ModelId)
    requires |states| == |actions| + 1 && i < j < |actions|
    requires Untouched(states, actions, i, j - 1, tx, m) && Spares(states, actions, i, j, tx, m)
    ensures Untouched(states, actions, i, j, tx, m)
  {
  }

  lemma YetShorter(states: seq<Sys>, actions: seq<Action>, i: nat, j: nat, tx: TxId)
    requires |states| == |actions| + 1 && i < j < |actions| && NotYet(states, actions, i, j, tx)
    ensures NotYet(states, actions, i, j - 1, tx) && tx in states[j].txns && actions[j] != Commit(tx)
  {
  }

  lemma DeletionBegins(states: seq<Sys>, actions: seq<Action>, i: nat, tx: TxId, m: ModelId)
    requires IsRun(states, actions) && i < |actions| && actions[i] == LockDelete(tx, m)
    ensures Untouched(states, actions, i, i, tx, m) && SameFamily(states[i].db, states[i + 1].db, m)
    ensures tx in states[i + 1].txns && Deletes(states[i + 1].txns[tx], m)
  {
    DeletionStarts(states[i], tx, m);
  }

  /** A deletion that starts at i and is gone after j without a commit was refused by an
      answer or rolled back; none of its own steps changed the tables, and from its lock to
      its end nobody changed the model row or the model's set of versions. */
  lemma {:induction false} RefusedDeletionChangesNothing(
      states: seq<Sys>, actions: seq<Action>, i: nat, j: nat, tx: TxId, m: ModelId)
    requires IsRun(states, actions) && i <= j < |actions| && actions[i] == LockDelete(tx, m)
    requires NotYet(states, actions, i, j, tx)
    ensures Untouched(states, actions, i, j, tx, m) && SameFamily(states[i].db, states[j + 1].db, m)
    ensures tx in states[j + 1].txns ==> Deletes(states[j + 1].txns[tx], m)
    ensures tx !in states[j + 1].txns ==> Refused(actions[j], tx)
  {
    if i == j {
      DeletionBegins(states, actions, i, tx, m);
    } else {
      YetShorter(states, actions, i, j, tx);
      RefusedDeletionChangesNothing(states, actions, i, j - 1, tx, m);
      DeletionGoesOn(states, actions, j, tx, m);
      StillTheSame(states[i].db, states[j].db, states[j + 1].db, m);
      OneMoreUntouched(states, actions, i, j, tx, m);
    }
  }

  lemma StillTheSame(a: Db, b: Db, c: Db, m: ModelId)
    requires SameFamily(a, b, m) && SameFamily(b, c, m)
    ensures SameFamily(a, c, m)
  {
  }

  // ---- unopposed transactions get through -----------------------------------

  /** Nobody else is under way with a lock on version v, or on model m. */
  predicate Unlocked(s: Sys, tx: TxId, v: Option<VersionId>, m: ModelId) {
    && tx !in s.txns
    && forall other <- s.txns ::
         && (v.Some? ==> VersionLockOf(s.txns[other]) != v)
         && (ModelLockOf(s.txns[other]).Some? ==> ModelLockOf(s.txns[other]).value.m != m)
  }

  /** After these actions transaction tx stands at t, and nothing else has changed. */
  ghost predicate Reaches(s: Sys, actions: seq<Action>, tx: TxId, t: Txn) {
    tx !in s.txns && Leads(s, actions, Begin(s, tx, t), Step)
  }

  lemma Began(s: Sys, a: Action)
    requires Enabled(s, a) && !a.Commit? && !a.Rollback? && !a.Single? && !a.Ask? && a.tx !in s.txns
    ensures Reaches(s, [a], a.tx, Moved(s, a))
  {
    assert Leads(s, [], s, Step);
    LeadsOn(s, [], s, a, Next(s, a), Step);
    assert [] + [a] == [a];
  }

  lemma WentOn(s: Sys, actions: seq<Action>, tx: TxId, t: Txn, a: Action)
    requires Reaches(s, actions, tx, t)
    requires !a.Commit? && !a.Rollback? && !a.Single? && (a.Ask? ==> a.answer == Inactive) && a.tx == tx
    requires Enabled(Begin(s, tx, t), a)
    ensures Reaches(s, actions + [a], tx, Moved(Begin(s, tx, t), a))
  {
    var s1 := Begin(s, tx, t);
    LeadsOn(s, actions, s1, a, Next(s1, a), Step);
    assert Next(s1, a) == Begin(s, tx, Moved(s1, a));
  }

  lemma GotThrough(s: Sys, actions: seq<Action>, tx: TxId, t: Txn, op: Op)
    requires Sound(s.db) && Reaches(s, actions, tx, t) && TxnOk(s.db, t) && CanCommit(s.db, t)
    requires OpOf(t) == Some(op) && (t.ReadyModel? ==> ModelLive(s.db, t.m))
    ensures Allowed(s.db, op)
    ensures Leads(s, actions + [Commit(tx)], Sys(Effect(s.db, op), s.txns), Step)
  {
    CommitIsAWriter(s.db, t);
    var s1 := Begin(s, tx, t);
    assert s1.txns - {tx} == s.txns;
    LeadsOn(s, actions, s1, Commit(tx), Sys(Effect(s.db, op), s.txns), Step);
  }

  /** The rows that a transaction for this writer locks: the version, where it has one, and the model. */
  function LockedVersion(op: Op): Option<VersionId>
    requires !SingleRow(op)
  {
    if op.MarkReady? || op.MarkErrorAndModel? || op.DeleteVersion? then Some(op.v) else None
  }

  function LockedModel(db: Db, op: Op): ModelId
    requires Allowed(db, op) && !SingleRow(op)
  {
    match op
    case MarkReady(v) => db.versions[v].model
    case MarkErrorAndModel(v) => db.versions[v].model
    case DeleteVersion(v) => db.versions[v].model
    case CreateVersion(_, m, _, _, _) => m
    case DeleteModel(m) => m
    case Register(_, m, _) => m
  }

  lemma ReadyGetsThrough(s: Sys, tx: TxId, v: VersionId) returns (actions: seq<Action>)
    requires Sound(s.db) && Allowed(s.db, MarkReady(v)) && Unlocked(s, tx, Some(v), s.db.versions[v].model)
    ensures Leads(s, actions, Sys(Effect(s.db, MarkReady(v)), s.txns), Step)
  {
    var m := s.db.versions[v].model;
    Began(s, StartReady(tx, v));
    actions := [StartReady(tx, v)];
    WentOn(s, actions, tx, ReadyStarted(v), LockReadyVersion(tx));
    actions := actions + [LockReadyVersion(tx)];
    WentOn(s, actions, tx, ReadyVersion(v, m), LockReadyModel(tx));
    actions := actions + [LockReadyModel(tx)];
    GotThrough(s, actions, tx, ReadyModel(v, m), MarkReady(v));
    actions := actions + [Commit(tx)];
  }

  lemma ErrorGetsThrough(s: Sys, tx: TxId, v: VersionId) returns (actions: seq<Action>)
    requires Sound(s.db) && Allowed(s.db, MarkErrorAndModel(v))
    requires Unlocked(s, tx, Some(v), s.db.versions[v].model)
    ensures Leads(s, actions, Sys(Effect(s.db, MarkErrorAndModel(v)), s.txns), Step)
  {
    var m := s.db.versions[v].model;
    Began(s, StartError(tx, v));
    actions := [StartError(tx, v)];
    WentOn(s, actions, tx, ErrorVersion(v, m), LockErrorModel(tx));
    actions := actions + [LockErrorModel(tx)];
    WentOn(s, actions, tx, ErrorLocked(v, m), JudgeError(tx));
    actions := actions + [JudgeError(tx)];
    GotThrough(s, actions, tx, ErrorJudged(v, m, MayFail(s.db, m)), MarkErrorAndModel(v));
    actions := actions + [Commit(tx)];
  }

  lemma CreationGetsThrough(s: Sys, tx: TxId, op: Op) returns (actions: seq<Action>)
    requires Sound(s.db) && Allowed(s.db, op) && (op.CreateVersion? || op.Register?) && Unlocked(s, tx, None, op.m)
    ensures Leads(s, actions, Sys(Effect(s.db, op), s.txns), Step)
  {
    var a, t;
    if op.CreateVersion? {
      var row := Version(op.m, op.name, Pending, op.checksum, op.size);
      a, t := StartCreate(tx, op.v, op.m, row), Creating(op.v, op.m, row);
    } else {
      a, t := StartRegister(tx, op.v, op.m, op.trained), Registering(op.v, op.m, op.trained);
    }
    Began(s, a);
    GotThrough(s, [a], tx, t, op);
    actions := [a] + [Commit(tx)];
  }

  lemma VersionDeletionGetsThrough(s: Sys, tx: TxId, v: VersionId) returns (actions: seq<Action>)
    requires Sound(s.db) && Allowed(s.db, DeleteVersion(v)) && Unlocked(s, tx, Some(v), s.db.versions[v].model)
    ensures Leads(s, actions, Sys(Effect(s.db, DeleteVersion(v)), s.txns), Step)
  {
    var m := s.db.versions[v].model;
    Began(s, StartDeleteVersion(tx, v));
    actions := [StartDeleteVersion(tx, v)];
    WentOn(s, actions, tx, DeletingVersion(v, m, false), Ask(tx, Inactive));
    actions := actions + [Ask(tx, Inactive)];
    GotThrough(s, actions, tx, DeletingVersion(v, m, true), DeleteVersion(v));
    actions := actions + [Commit(tx)];
  }

  lemma {:induction false} Greatest(vs: set<VersionId>) returns (v: VersionId)
    requires vs != {}
    ensures v in vs && forall w <- vs :: w <= v
  {
    v :| v in vs;
    if vs != {v} {
      var u := Greatest(vs - {v});
      assert forall w <- vs :: w == v || w in vs - {v};
      v := if v < u then u else v;
    }
  }

  lemma {:induction false} Listable(vs: set<VersionId>) returns (ids: seq<VersionId>)
    ensures Ascending(ids) && forall v :: v in ids <==> v in vs
  {
    if vs == {} {
      ids := [];
    } else {
      var v := Greatest(vs);
      ids := Listable(vs - {v});
      forall i | 0 <= i < |ids| ensures ids[i] < v {
        assert ids[i] in ids && ids[i] in vs - {v};
      }
      ids := ids + [v];
    }
  }

  /** Once every batch has been answered inactive the deletion is ready to commit. */
  lemma {:induction false} AllAsked(
      s: Sys, done: seq<Action>, tx: TxId, m: ModelId, ids: seq<VersionId>, asked: seq<seq<VersionId>>)
    returns (actions: seq<Action>, batches: seq<seq<VersionId>>)
    requires Reaches(s, done, tx, Listed(m, ids, asked)) && AskedPrefix(ids, asked)
    ensures Reaches(s, actions, tx, Listed(m, ids, batches)) && AskedPrefix(ids, batches)
    ensures |Flat(batches)| == |ids|
    decreases |ids| - |Flat(asked)|
  {
    if |Flat(asked)| == |ids| {
      actions, batches := done, asked;
    } else {
      var more := asked + [NextBatch(ids, |Flat(asked)|)];
      AskExtendsPrefix(ids, asked);
      assert more[..|more| - 1] == asked;
      WentOn(s, done, tx, Listed(m, ids, asked), Ask(tx, Inactive));
      actions, batches := AllAsked(s, done + [Ask(tx, Inactive)], tx, m, ids, more);
    }
  }

  lemma ModelDeletionGetsThrough(s: Sys, tx: TxId, m: ModelId) returns (actions: seq<Action>)
    requires Sound(s.db) && Allowed(s.db, DeleteModel(m)) && Unlocked(s, tx, None, m)
    ensures Leads(s, actions, Sys(Effect(s.db, DeleteModel(m)), s.txns), Step)
  {
    Began(s, LockDelete(tx, m));
    var ids := Listable(VersionsOf(s.db, m));
    assert forall v :: v in ids <==> v in VersionsOf(s.db, m);
    WentOn(s, [LockDelete(tx, m)], tx, DeletingModel(m), List(tx, ids));
    var none: seq<seq<VersionId>> := [];
    assert Flat(none) == [];
    var batches;
    actions, batches := AllAsked(s, [LockDelete(tx, m)] + [List(tx, ids)], tx, m, ids, none);
    GotThrough(s, actions, tx, Listed(m, ids, batches), DeleteModel(m));
    actions := actions + [Commit(tx)];
  }

  /** Whatever else is under way, a writer that is allowed and whose rows nobody else has
      locked gets through, with its whole effect and nothing else changed; a deletion does
      when the checker calls every batch inactive. */
  lemma UnopposedWriterGetsThrough(s: Sys, tx: TxId, op: Op) returns (actions: seq<Action>)
    requires Sound(s.db) && Allowed(s.db, op) && !SingleRow(op)
    requires Unlocked(s, tx, LockedVersion(op), LockedModel(s.db, op))
    ensures Leads(s, actions, Sys(Effect(s.db, op), s.txns), Step)
  {
    match op
    case MarkReady(v) => actions := ReadyGetsThrough(s, tx, v);
    case MarkErrorAndModel(v) => actions := ErrorGetsThrough(s, tx, v);
    case DeleteVersion(v) => actions := VersionDeletionGetsThrough(s, tx, v);
    case DeleteModel(m) => actions := ModelDeletionGetsThrough(s, tx, m);
    case CreateVersion(_, _, _, _, _) => actions := CreationGetsThrough(s, tx, op);
    case Register(_, _, _) => actions := CreationGetsThrough(s, tx, op);
  }

  // ---- when a deletion is final ---------------------------------------------

  /** A MarkReady that has locked its version can undo the deletion of its model: with no
      other lock on the model in its way the statement goes on to mark the deleted model
      ready, because its outer UPDATE checks no status. */
  lemma DeletionCanBeUndone(s: Sys, tx: TxId)
    requires Inv(s) && tx in s.txns && s.txns[tx].ReadyVersion? && s.txns[tx].m in s.db.models
    requires s.db.models[s.txns[tx].m].state == ModelDeleted
    requires forall other <- s.txns ::
      ModelLockOf(s.txns[other]).Some? ==> ModelLockOf(s.txns[other]).value.m != s.txns[tx].m
    ensures Enabled(s, LockReadyModel(tx))
    ensures var s1 := Next(s, LockReadyModel(tx));
            && Enabled(s1, Commit(tx))
            && Next(s1, Commit(tx)).db.models[s.txns[tx].m].state == ModelReady
  {
    assert forall other <- s.txns :: other != tx ==> Compatible(s.txns[other], s.txns[tx]);
  }

  /** Some continuation makes model m ready. */
  ghost predicate Revivable(s: Sys, m: ModelId) {
    exists actions, t :: Leads(s, actions, t, Step) && m in t.db.models && t.db.models[m].state == ModelReady
  }

  /** m is deleted and its row is not locked, as when the deletion has just committed. */
  ghost predicate JustDeleted(s: Sys, m: ModelId) {
    && Inv(s) && m in s.db.models && s.db.models[m].state == ModelDeleted
    && forall tx <- s.txns :: ModelLockOf(s.txns[tx]).Some? ==> ModelLockOf(s.txns[tx]).value.m != m
  }

  lemma CommitLeavesJustDeleted(states: seq<Sys>, actions: seq<Action>, n: nat)
    requires IsRun(states, actions) && n < |actions|
    requires actions[n].Commit? && states[n].txns[actions[n].tx].Listed?
    ensures JustDeleted(states[n + 1], states[n].txns[actions[n].tx].m)
  {
    RunKeepsInv(states, actions, n);
    RunKeepsInv(states, actions, n + 1);
    var s, tx := states[n], actions[n].tx;
    forall other | other in s.txns && other != tx
      ensures ModelLockOf(s.txns[other]).Some? ==> ModelLockOf(s.txns[other]).value.m != s.txns[tx].m
    {
      assert Compatible(s.txns[other], s.txns[tx]);
    }
  }

  /** A MarkReady under way on a version of m that can still get through: it holds the
      version row, or has found it in its snapshot and the row is not ready or deleted. */
  predicate Threatens(db: Db, t: Txn, m: ModelId) {
    || (t.ReadyVersion? && t.m == m)
    || (t.ReadyStarted? && t.v in db.versions && db.versions[t.v].model == m
        && db.versions[t.v].state != Ready && db.versions[t.v].state != Deleted)
  }

  ghost predicate Unthreatened(s: Sys, m: ModelId) {
    forall tx <- s.txns :: !Threatens(s.db, s.txns[tx], m)
  }

  /** A deleted model that nothing can revive: no MarkReady under way threatens it, and
      the only lock on it is that of a failed import. */
  ghost predicate AtRest(s: Sys, m: ModelId) {
    && Inv(s) && m in s.db.models && s.db.models[m].state == ModelDeleted
    && forall tx <- s.txns :: Quiet(s.db, s.txns[tx], m)
  }

  predicate Quiet(db: Db, t: Txn, m: ModelId) {
    && !Threatens(db, t, m)
    && (ModelLockOf(t).Some? && ModelLockOf(t).value.m == m ==> t.ErrorLocked? || (t.ErrorJudged? && !t.hit))
  }

  /** A version that is ready or deleted stays so, and none changes its model. */
  predicate Settles(db: Db, db': Db, v: VersionId)
    requires v in db.versions
  {
    && v in db'.versions && db'.versions[v].model == db.versions[v].model
    && (db.versions[v].state == Ready || db.versions[v].state == Deleted ==>
          db'.versions[v].state == Ready || db'.versions[v].state == Deleted)
  }

  lemma CommitSettles(db: Db, t: Txn, v: VersionId)
    requires TxnOk(db, t) && CanCommit(db, t) && v in db.versions
    ensures Settles(db, Committed(db, t), v)
  {
  }

  lemma OpSettles(db: Db, op: Op, v: VersionId)
    requires SingleRow(op) && Allowed(db, op) && v in db.versions
    ensures Settles(db, Effect(db, op), v)
  {
  }

  lemma RestingVersion(s: Sys, a: Action, v: VersionId)
    requires Inv(s) && Enabled(s, a) && v in s.db.versions
    ensures Settles(s.db, Next(s, a).db, v)
  {
    if a.Commit? {
      CommitSettles(s.db, s.txns[a.tx], v);
    } else if a.Single? {
      OpSettles(s.db, a.op, v);
    }
  }

  lemma RestStep(s: Sys, a: Action, m: ModelId)
    requires AtRest(s, m) && Enabled(s, a)
    ensures AtRest(Next(s, a), m)
  {
    EveryActionKeepsInv(s, a);
    RestingModel(s, a, m);
    forall tx | tx in Next(s, a).txns ensures Quiet(Next(s, a).db, Next(s, a).txns[tx], m) {
      if tx in s.txns && Next(s, a).txns[tx] == s.txns[tx] {
        QuietStays(s, a, m, tx);
      } else {
        QuietMoves(s, a, m);
      }
    }
  }

  lemma RestingModel(s: Sys, a: Action, m: ModelId)
    requires AtRest(s, m) && Enabled(s, a)
    ensures m in Next(s, a).db.models && Next(s, a).db.models[m].state == ModelDeleted
  {
    if a.Commit? {
      assert Quiet(s.db, s.txns[a.tx], m);
      RestingCommit(s.db, s.txns[a.tx], m);
    } else if a.Single? {
      RestingOp(s.db, a.op, m);
    }
  }

  lemma RestingCommit(db: Db, t: Txn, m: ModelId)
    requires CanCommit(db, t) && Quiet(db, t, m) && m in db.models && db.models[m].state == ModelDeleted
    ensures m in Committed(db, t).models && Committed(db, t).models[m].state == ModelDeleted
  {
  }

  lemma RestingOp(db: Db, op: Op, m: ModelId)
    requires SingleRow(op) && Allowed(db, op) && m in db.models && db.models[m].state == ModelDeleted
    ensures m in Effect(db, op).models && Effect(db, op).models[m].state == ModelDeleted
  {
  }

  lemma QuietStays(s: Sys, a: Action, m: ModelId, tx: TxId)
    requires AtRest(s, m) && Enabled(s, a) && tx in s.txns
    ensures Quiet(Next(s, a).db, s.txns[tx], m)
  {
    assert Quiet(s.db, s.txns[tx], m) && TxnOk(s.db, s.txns[tx]);
    if s.txns[tx].ReadyStarted? {
      RestingVersion(s, a, s.txns[tx].v);
    }
  }

  lemma QuietMoves(s: Sys, a: Action, m: ModelId)
    requires AtRest(s, m) && Enabled(s, a) && !a.Commit? && !a.Rollback? && !a.Single?
    ensures Quiet(s.db, Moved(s, a), m)
  {
    if a.tx in s.txns {
      assert Quiet(s.db, s.txns[a.tx], m) && TxnOk(s.db, s.txns[a.tx]);
    }
  }

  lemma RestIsFinal(s: Sys, actions: seq<Action>, t: Sys, m: ModelId)
    requires AtRest(s, m) && Leads(s, actions, t, Step)
    ensures m in t.db.models && t.db.models[m].state == ModelDeleted
  {
    var inv := (u: Sys) => AtRest(u, m);
    forall u, a, v | inv(u) && Step(u, a, v) ensures inv(v) {
      RestStep(u, a, m);
    }
    LeadsKeeps(s, actions, t, Step, inv);
  }

  /** From the version lock, the way to a ready model is open. */
  lemma VersionLockRevives(s: Sys, actions: seq<Action>, t: Sys, tx: TxId, m: ModelId)
    requires Leads(s, actions, t, Step) && JustDeleted(t, m) && HoldsVersion(t, tx, m)
    ensures Revivable(s, m)
  {
    var t1, t2 := ModelRevived(t, tx, m);
    LeadsOn(s, actions, t, LockReadyModel(tx), t1, Step);
    LeadsOn(s, actions + [LockReadyModel(tx)], t1, Commit(tx), t2, Step);
  }

  lemma ModelRevived(s: Sys, tx: TxId, m: ModelId) returns (t: Sys, u: Sys)
    requires JustDeleted(s, m) && HoldsVersion(s, tx, m)
    ensures Step(s, LockReadyModel(tx), t) && Step(t, Commit(tx), u)
    ensures m in u.db.models && u.db.models[m].state == ModelReady
  {
    DeletionCanBeUndone(s, tx);
    t := Next(s, LockReadyModel(tx));
    u := Next(t, Commit(tx));
  }

  predicate HoldsVersion(s: Sys, tx: TxId, m: ModelId) {
    tx in s.txns && s.txns[tx].ReadyVersion? && s.txns[tx].m == m
  }

  /** A MarkReady has started on a version of m that is in this state and not locked. */
  predicate StartedOn(s: Sys, tx: TxId, m: ModelId) {
    && tx in s.txns && s.txns[tx].ReadyStarted? && s.txns[tx].v in s.db.versions
    && s.db.versions[s.txns[tx].v].model == m
  }

  /** It takes the version lock if the version is open and nobody holds it. */
  lemma LockTaken(s: Sys, tx: TxId, m: ModelId)
    requires JustDeleted(s, m) && StartedOn(s, tx, m)
    requires Open(s.db.versions[s.txns[tx].v].state) && Free(s, s.txns[tx].v)
    ensures Enabled(s, LockReadyVersion(tx))
    ensures JustDeleted(Next(s, LockReadyVersion(tx)), m) && HoldsVersion(Next(s, LockReadyVersion(tx)), tx, m)
  {
    assert TxnOk(s.db, s.txns[tx]);
    EveryActionKeepsInv(s, LockReadyVersion(tx));
  }

  /** A version in error is reset when its task is retried. */
  lemma VersionReset(s: Sys, tx: TxId, m: ModelId)
    requires JustDeleted(s, m) && StartedOn(s, tx, m)
    requires s.db.versions[s.txns[tx].v].state == Error && Free(s, s.txns[tx].v)
    ensures var a := Single(ResetVersion(s.txns[tx].v));
      && Enabled(s, a) && JustDeleted(Next(s, a), m) && StartedOn(Next(s, a), tx, m)
      && Next(s, a).txns == s.txns && Open(Next(s, a).db.versions[s.txns[tx].v].state)
  {
    EveryActionKeepsInv(s, Single(ResetVersion(s.txns[tx].v)));
  }

  /** A version is unlocked when the transaction ahead of it is rolled back. */
  lemma VersionFreed(s: Sys, tx: TxId, other: TxId, m: ModelId)
    requires JustDeleted(s, m) && StartedOn(s, tx, m)
    requires other in s.txns && VersionLockOf(s.txns[other]) == Some(s.txns[tx].v)
    requires !s.txns[other].ReadyVersion?
    ensures var t := Next(s, Rollback(other));
      && JustDeleted(t, m) && StartedOn(t, tx, m) && t.db == s.db && t.txns[tx] == s.txns[tx]
      && Open(s.db.versions[s.txns[tx].v].state) && Free(t, s.txns[tx].v)
  {
    assert TxnOk(s.db, s.txns[other]);
    assert forall u <- s.txns :: u != other ==> Compatible(s.txns[u], s.txns[other]);
    EveryActionKeepsInv(s, Rollback(other));
  }

  lemma OpenVersionRevives(s: Sys, actions: seq<Action>, t: Sys, tx: TxId, m: ModelId)
    requires Leads(s, actions, t, Step) && JustDeleted(t, m) && StartedOn(t, tx, m)
    requires Open(t.db.versions[t.txns[tx].v].state) && Free(t, t.txns[tx].v)
    ensures Revivable(s, m)
  {
    var a := LockReadyVersion(tx);
    LockTaken(t, tx, m);
    LeadsOn(s, actions, t, a, Next(t, a), Step);
    VersionLockRevives(s, actions + [a], Next(t, a), tx, m);
  }

  lemma FailedVersionRevives(s: Sys, tx: TxId, m: ModelId)
    requires JustDeleted(s, m) && StartedOn(s, tx, m)
    requires s.db.versions[s.txns[tx].v].state == Error && Free(s, s.txns[tx].v)
    ensures Revivable(s, m)
  {
    var a := Single(ResetVersion(s.txns[tx].v));
    VersionReset(s, tx, m);
    assert Leads(s, [], s, Step);
    LeadsOn(s, [], s, a, Next(s, a), Step);
    OpenVersionRevives(s, [] + [a], Next(s, a), tx, m);
  }

  lemma WaitingRevives(s: Sys, tx: TxId, other: TxId, m: ModelId)
    requires JustDeleted(s, m) && StartedOn(s, tx, m)
    requires other in s.txns && VersionLockOf(s.txns[other]) == Some(s.txns[tx].v)
    ensures Revivable(s, m)
  {
    assert Leads(s, [], s, Step);
    if s.txns[other].ReadyVersion? {
      assert TxnOk(s.db, s.txns[other]);
      VersionLockRevives(s, [], s, other, m);
    } else {
      var a := Rollback(other);
      VersionFreed(s, tx, other, m);
      LeadsOn(s, [], s, a, Next(s, a), Step);
      OpenVersionRevives(s, [] + [a], Next(s, a), tx, m);
    }
  }

  /** A deletion that has just committed is final exactly when no MarkReady under way can
      still get through. */
  lemma FinalExactlyWithoutMarkReady(s: Sys, m: ModelId)
    requires JustDeleted(s, m)
    ensures Revivable(s, m) <==> !Unthreatened(s, m)
  {
    if tx :| tx in s.txns && Threatens(s.db, s.txns[tx], m) {
      var t := s.txns[tx];
      assert TxnOk(s.db, t) && Leads(s, [], s, Step);
      if t.ReadyVersion? {
        VersionLockRevives(s, [], s, tx, m);
      } else if other :| other in s.txns && VersionLockOf(s.txns[other]) == Some(t.v) {
        WaitingRevives(s, tx, other, m);
      } else if s.db.versions[t.v].state == Error {
        FailedVersionRevives(s, tx, m);
      } else {
        OpenVersionRevives(s, [], s, tx, m);
      }
    } else {
      assert AtRest(s, m);
      forall actions, t | Leads(s, actions, t, Step) ensures m in t.db.models && t.db.models[m].state == ModelDeleted {
        RestIsFinal(s, actions, t, m);
      }
    }
  }

  /** A committed deletion is final in every run that goes on from where no MarkReady
      threatens it. */
  lemma {:induction false} DeletionIsFinal(states: seq<Sys>, actions: seq<Action>, n: nat, k: nat)
    requires IsRun(states, actions) && n < k < |states|
    requires actions[n].Commit? && states[n].txns[actions[n].tx].Listed?
    requires Unthreatened(states[n + 1], states[n].txns[actions[n].tx].m)
    ensures var m := states[n].txns[actions[n].tx].m;
            AtRest(states[k], m) && states[k].db.models[m].state == ModelDeleted
  {
    var m := states[n].txns[actions[n].tx].m;
    if k == n + 1 {
      CommitLeavesJustDeleted(states, actions, n);
      assert states[k] == Next(states[n], actions[n]);
    } else {
      DeletionIsFinal(states, actions, n, k - 1);
      RestStep(states[k - 1], actions[k - 1], m);
    }
  }

  /** The same at the commit of a deletion in a run. */
  lemma DeletionIsFinalExactlyWhen(states: seq<Sys>, actions: seq<Action>, n: nat)
    requires IsRun(states, actions) && n < |actions|
    requires actions[n].Commit? && states[n].txns[actions[n].tx].Listed?
    ensures var s, m := states[n + 1], states[n].txns[actions[n].tx].m;
      Revivable(s, m) <==> !Unthreatened(s, m)
  {
    CommitLeavesJustDeleted(states, actions, n);
    FinalExactlyWithoutMarkReady(states[n + 1], states[n].txns[actions[n].tx].m);
  }

  /** Model 0 with one backed, pending version 0. */
  ghost function Seed(state: ModelState, txns: map<TxId, Txn>): Sys {
    var sha := seq(64, i => 'a');
    Sys(Db(map[0 := Model("m", "m", state, 0)], map[0 := Version(0, "v", Pending, sha, 1)],
           map[0 := Artifact("ref", "gguf", sha, 1)]), txns)
  }

  lemma SeedDeletes(s: Sys)
    requires s == Seed(ModelPending, map[0 := ReadyStarted(0)])
    ensures Enabled(s, LockDelete(1, 0))
    ensures var s1 := Next(s, LockDelete(1, 0));
            && Enabled(s1, List(1, [0]))
            && Next(s1, List(1, [0])) == Seed(ModelPending, map[0 := ReadyStarted(0), 1 := Listed(0, [0], [])])
  {
  }

  lemma OneBatch()
    ensures NextBatch([0], 0) == [0] && Flat([]) == [] && Flat([[0]]) == [0]
  {
    var none: seq<seq<VersionId>> := [];
    assert [[0]][..0] == none;
    assert Flat([[0]]) == Flat(none) + [0];
  }

  lemma SeedAsks(s: Sys)
    requires s == Seed(ModelPending, map[0 := ReadyStarted(0), 1 := Listed(0, [0], [])])
    ensures Enabled(s, Ask(1, Inactive))
    ensures Next(s, Ask(1, Inactive)) == Seed(ModelPending, map[0 := ReadyStarted(0), 1 := Listed(0, [0], [[0]])])
  {
    OneBatch();
    var none: seq<seq<VersionId>> := [];
    assert none + [[0]] == [[0]];
  }

  lemma SeedCommits(s: Sys)
    requires s == Seed(ModelPending, map[0 := ReadyStarted(0), 1 := Listed(0, [0], [[0]])])
    ensures Enabled(s, Commit(1)) && Next(s, Commit(1)) == Seed(ModelDeleted, map[0 := ReadyStarted(0)])
  {
    OneBatch();
    assert Next(s, Commit(1)).txns == map[0 := ReadyStarted(0)];
  }

  lemma SeedRevives(s: Sys)
    requires s == Seed(ModelDeleted, map[0 := ReadyStarted(0)])
    ensures Enabled(s, LockReadyVersion(0))
    ensures var s1 := Next(s, LockReadyVersion(0));
            && Enabled(s1, LockReadyModel(0))
            && var s2 := Next(s1, LockReadyModel(0));
            Enabled(s2, Commit(0)) && 0 in Next(s2, Commit(0)).db.models
            && Next(s2, Commit(0)).db.models[0].state == ModelReady
  {
  }

  lemma Extend(states: seq<Sys>, actions: seq<Action>, a: Action) returns (states': seq<Sys>, actions': seq<Action>)
    requires IsRun(states, actions) && Enabled(states[|actions|], a)
    ensures IsRun(states', actions') && actions' == actions + [a]
    ensures states' == states + [Next(states[|actions|], a)]
  {
    states', actions' := ExtendRun(states, actions, Start, Step, a, Next(states[|actions|], a));
  }

  lemma SeedStarts() returns (states: seq<Sys>, actions: seq<Action>)
    ensures IsRun(states, actions) && |actions| == 1
    ensures states[1] == Seed(ModelPending, map[0 := ReadyStarted(0)])
  {
    var s0 := Seed(ModelPending, map[]);
    states, actions := [s0, Next(s0, StartReady(0, 0))], [StartReady(0, 0)];
  }

  lemma ModelIsDeleted() returns (states: seq<Sys>, actions: seq<Action>)
    ensures IsRun(states, actions) && |actions| == 5
    ensures actions[4] == Commit(1) && 1 in states[4].txns && states[4].txns[1].Listed?
    ensures states[5] == Seed(ModelDeleted, map[0 := ReadyStarted(0)])
  {
    states, actions := SeedStarts();
    SeedDeletes(states[1]);
    states, actions := Extend(states, actions, LockDelete(1, 0));
    states, actions := Extend(states, actions, List(1, [0]));
    SeedAsks(states[3]);
    states, actions := Extend(states, actions, Ask(1, Inactive));
    SeedCommits(states[4]);
    states, actions := Extend(states, actions, Commit(1));
  }

  lemma RunRevives(before: seq<Sys>, done: seq<Action>) returns (states: seq<Sys>, actions: seq<Action>)
    requires IsRun(before, done) && |done| == 5 && before[5] == Seed(ModelDeleted, map[0 := ReadyStarted(0)])
    ensures IsRun(states, actions) && |actions| == 8 && done <= actions && before <= states
    ensures 0 in states[8].db.models && states[8].db.models[0].state == ModelReady
  {
    var s5 := before[5];
    SeedRevives(s5);
    states, actions := Extend(before, done, LockReadyVersion(0));
    assert states[6] == Next(s5, LockReadyVersion(0));
    states, actions := Extend(states, actions, LockReadyModel(0));
    states, actions := Extend(states, actions, Commit(0));
  }

  /** Such a run exists: a deletion commits and the model comes back ready. */
  lemma DeletedModelComesBack() returns (states: seq<Sys>, actions: seq<Action>)
    ensures IsRun(states, actions) && |actions| == 8
    ensures actions[4] == Commit(1) && 1 in states[4].txns && states[4].txns[1].Listed?
    ensures 0 in states[5].db.models && states[5].db.models[0].state == ModelDeleted
    ensures 0 in states[8].db.models && states[8].db.models[0].state == ModelReady
  {
    var before, done := ModelIsDeleted();
    states, actions := RunRevives(before, done);
    assert states[4] == before[4] && states[5] == before[5] && actions[4] == done[4];
  }
}
