/** Trained-artifact registrations: the status machine, the transaction that
    completes one, and any number of callers racing on it. */
module Registration {
  import opened Wrappers
  import opened Transitions
  import opened Catalog

  type RegId = nat
  type CallId = nat

  datatype RegState = RegPending | RegUploaded | RegReady | RegFailed | RegAborted

  datatype Reg = Reg(trained: Trained, state: RegState, model: Option<ModelId>, version: Option<VersionId>)

  datatype RegResult = RegResult(
    id: RegId, model: Option<ModelId>, version: Option<VersionId>, state: RegState,
    path: string, size: nat, sha: string)

  datatype RegError = NotFound | Terminal | Conflict | StoreFailure

  predicate Undecided(state: RegState) { state == RegPending || state == RegUploaded }

  /** The CHECKs of trained_artifact_registrations, and the path Prepare composes. */
  predicate WellFormed(t: Trained) { t.path != "" && HexDigest(t.sha) && t.size > 0 }

  /** sessionResult and registrationResult. */
  function ResultOf(id: RegId, reg: Reg): RegResult {
    RegResult(id, reg.model, reg.version, reg.state, reg.trained.path, reg.trained.size, reg.trained.sha)
  }

  function Failed(reg: Reg): Reg {
    if Undecided(reg.state) then reg.(state := RegFailed) else reg
  }

  function Aborted(reg: Reg): Reg {
    if Undecided(reg.state) then reg.(state := RegAborted) else reg
  }

  function Uploaded(reg: Reg): Reg {
    if reg.state == RegPending then reg.(state := RegUploaded) else reg
  }

  function Completed(reg: Reg, m: ModelId, v: VersionId): Reg {
    reg.(state := RegReady, model := Some(m), version := Some(v))
  }

  // ---- the store ------------------------------------------------------------

  class TrainedArtifactStore {
    var regs: map<RegId, Reg>
    const tables: CatalogTables

    constructor (tables: CatalogTables)
      ensures this.tables == tables && regs == map[]
    {
      this.tables := tables;
      regs := map[];
    }

    method MarkUploaded(id: RegId) returns (r: Result<(), RegError>)
      modifies this
      ensures regs == if id in old(regs) then old(regs)[id := Uploaded(old(regs)[id])] else old(regs)
      ensures r == Err(NotFound) <==> id !in old(regs)
      ensures r.Ok? <==> id in regs && regs[id].state in {RegUploaded, RegReady}
      ensures r.Ok? <==> id in old(regs) && old(regs)[id].state in {RegPending, RegUploaded, RegReady}
      ensures regs ==
              if id in old(regs) && old(regs)[id].state == RegPending
              then old(regs)[id := old(regs)[id].(state := RegUploaded)] else old(regs)
    {
      if id in regs && regs[id].state == RegPending {
        regs := regs[id := regs[id].(state := RegUploaded)];
        return Ok(());
      }
      if id !in regs {
        return Err(NotFound);
      }
      r := if regs[id].state == RegUploaded || regs[id].state == RegReady then Ok(()) else Err(Terminal);
    }

    method Fail(id: RegId)
      modifies this
      ensures regs == if id in old(regs) then old(regs)[id := Failed(old(regs)[id])] else old(regs)
      ensures regs ==
              if id in old(regs) && old(regs)[id].state in {RegPending, RegUploaded}
              then old(regs)[id := old(regs)[id].(state := RegFailed)] else old(regs)
    {
      if id in regs && regs[id].state in {RegPending, RegUploaded} {
        regs := regs[id := regs[id].(state := RegFailed)];
      }
    }

    method Abort(id: RegId) returns (r: Result<(), RegError>)
      modifies this
      ensures regs == if id in old(regs) then old(regs)[id := Aborted(old(regs)[id])] else old(regs)
      ensures r.Ok? <==> id in old(regs) && old(regs)[id].state in {RegPending, RegUploaded}
      ensures r.Ok? ==> regs == old(regs)[id := old(regs)[id].(state := RegAborted)]
      ensures r.Err? ==> regs == old(regs)
      ensures r == Err(NotFound) <==> id !in old(regs)
    {
      if id in regs && regs[id].state in {RegPending, RegUploaded} {
        regs := regs[id := regs[id].(state := RegAborted)];
        return Ok(());
      }
      r := if id in regs then Err(Terminal) else Err(NotFound);
    }

    /** The statements of the transaction on working copies of the tables; nothing
        is visible unless the last one succeeds. `newModel` and `newVersion` are
        the UUIDs it draws. */
    method CompleteTx(session: Reg, newModel: ModelId, newVersion: VersionId)
      returns (r: Result<(), RegError>, m: ModelId, db: Db)
      requires WellFormed(session.trained)
      requires newModel !in tables.models && newVersion !in tables.versions && newVersion !in tables.artifacts
      ensures m == if session.trained.target.Some? then session.trained.target.value else newModel
      ensures r.Ok? <==> Allowed(tables.State(), Register(newVersion, m, session.trained))
      ensures r.Ok? ==> db == Effect(tables.State(), Register(newVersion, m, session.trained))
      ensures var t := session.trained; var models := tables.models;
        r.Ok? <==>
          && (t.target.Some? ==>
                m in models && models[m].state != ModelDeleted && models[m].total + t.size <= 0x7fff_ffff_ffff_ffff)
          && (t.target.None? ==>
                && (forall k <- models :: models[k].name != t.modelName)
                && (t.modelName != "" ==> forall k <- models :: models[k].external != t.modelName)
                && t.size <= 0x7fff_ffff_ffff_ffff)
          && (forall k <- tables.versions :: tables.versions[k].model == m ==> tables.versions[k].name != t.versionName)
      ensures r.Ok? ==> var t := session.trained;
        && db.versions == tables.versions[newVersion := Version(m, t.versionName, Ready, t.sha, t.size)]
        && db.artifacts == tables.artifacts[newVersion := Artifact(t.path, t.format, t.sha, t.size)]
        && db.models == tables.models[m :=
             if t.target.Some? then tables.models[m].(state := ModelReady, total := tables.models[m].total + t.size)
             else Model(t.modelName, t.modelName, ModelReady, t.size)]
      ensures r.Err? ==> r.error in {Conflict, StoreFailure}
    {
      var t := session.trained;
      var models, versions, artifacts := tables.models, tables.versions, tables.artifacts;
      db := tables.State();
      m := newModel;
      match t.target {
        case None =>
          if !ModelNameFree(db, t.modelName) || !ExternalIdFree(db, t.modelName) {
            return Err(Conflict), m, db;
          }
          models := models[m := Model(t.modelName, t.modelName, ModelPending, 0)];
        case Some(target) =>
          m := target;
          if !ModelLive(db, m) {
            return Err(StoreFailure), m, db;
          }
      }
      if !VersionNameFree(db, m, t.versionName) {
        return Err(Conflict), m, db;
      }
      versions := versions[newVersion := Version(m, t.versionName, Pending, t.sha, t.size)];
      artifacts := artifacts[newVersion := Artifact(t.path, t.format, t.sha, t.size)];
      if models[m].total + t.size > MAX_INT64 {
        return Err(StoreFailure), m, db;
      }
      models := models[m := models[m].(total := models[m].total + t.size)];
      versions := versions[newVersion := versions[newVersion].(state := Ready)];
      models := models[m := models[m].(state := ModelReady)];
      db := Db(models, versions, artifacts);
      r := Ok(());
    }

    method Complete(id: RegId, newModel: ModelId, newVersion: VersionId) returns (r: Result<RegResult, RegError>)
      requires id in regs ==> WellFormed(regs[id].trained)
      requires newModel !in tables.models && newVersion !in tables.versions && newVersion !in tables.artifacts
      modifies this, tables
      ensures r.Ok? ==> id in regs && regs[id].state == RegReady && r.value == ResultOf(id, regs[id])
      ensures r.Ok? ==> var reg := regs[id];
                r.value == RegResult(id, reg.model, reg.version, RegReady,
                                     reg.trained.path, reg.trained.size, reg.trained.sha)
      ensures r.Ok? && id in old(regs) && old(regs)[id].state in {RegPending, RegUploaded} ==>
                && regs == old(regs)[id := regs[id]] && regs[id].trained == old(regs)[id].trained
                && regs[id].version == Some(newVersion) && newVersion in tables.versions
                && regs[id].model == Some(tables.versions[newVersion].model)
      ensures r == Err(NotFound) <==> id !in old(regs)
      ensures id !in old(regs) || !Undecided(old(regs)[id].state) ==>
                regs == old(regs) && tables.State() == old(tables.State())
      ensures id in old(regs) && old(regs)[id].state in {RegFailed, RegAborted} ==> r == Err(Terminal)
      ensures id in old(regs) && old(regs)[id].state == RegReady ==> r.Ok?
      ensures id in old(regs) && Undecided(old(regs)[id].state) ==>
                var reg := old(regs)[id];
                var m := if reg.trained.target.Some? then reg.trained.target.value else newModel;
                if Allowed(old(tables.State()), Register(newVersion, m, reg.trained)) then
                  && r.Ok? && regs == old(regs)[id := Completed(reg, m, newVersion)]
                  && tables.State() == Effect(old(tables.State()), Register(newVersion, m, reg.trained))
                else
                  && r.Err? && regs == old(regs)[id := reg.(state := RegFailed)]
                  && tables.State() == old(tables.State())
    {
      if id !in regs {
        Fail(id);
        return Err(NotFound);
      }
      var session := regs[id];
      if session.state == RegReady {
        return Ok(ResultOf(id, session));
      }
      if session.state == RegFailed || session.state == RegAborted {
        Fail(id);
        return Err(Terminal);
      }
      var outcome, m, db := CompleteTx(session, newModel, newVersion);
      if outcome.Err? {
        Fail(id);
        return Err(outcome.error);
      }
      tables.models, tables.versions, tables.artifacts := db.models, db.versions, db.artifacts;
      session := session.(model := Some(m), version := Some(newVersion), state := RegReady);
      regs := regs[id := session];
      r := Ok(ResultOf(id, session));
    }
  }

  // ---- racing callers -------------------------------------------------------

  /** A Complete call between its statements. */
  datatype Call =
    | InStore(id: RegId)       // the transaction holds the registration row
    | Compensating(id: RegId)  // rolled back, or the commit reply was lost; Fail comes next

  /** `created` records which registration a commit made each version for, and
      `replies` every result a Complete call returned. */
  datatype World = World(
    regs: map<RegId, Reg>,
    db: Db,
    calls: map<CallId, Call>,
    created: map<VersionId, RegId>,
    replies: seq<RegResult>)

  datatype Action =
    | Prepare(id: RegId, trained: Trained)
    | ServiceReply(id: RegId)
    | MarkUploaded(id: RegId)
    | Fail(id: RegId)
    | Abort(id: RegId)
    | Replay(id: RegId)
    | Begin(c: CallId, id: RegId)
    | Commit(c: CallId, m: ModelId, v: VersionId, acked: bool)
    | Rollback(c: CallId)
    | Compensate(c: CallId)
    | Crash(c: CallId)
    | Others(op: Op)

  predicate Unlocked(x: World, id: RegId) {
    forall c <- x.calls :: x.calls[c] != InStore(id)
  }

  predicate Enabled(x: World, a: Action) {
    match a
    case Prepare(id, trained) => id !in x.regs && WellFormed(trained)
    case ServiceReply(id) => id in x.regs && x.regs[id].state == RegReady
    case Replay(id) => id in x.regs && x.regs[id].state == RegReady && Unlocked(x, id)
    case MarkUploaded(id) => id in x.regs && Unlocked(x, id)
    case Fail(id) => id in x.regs && Unlocked(x, id)
    case Abort(id) => id in x.regs && Unlocked(x, id)
    case Begin(c, id) => c !in x.calls && id in x.regs && Undecided(x.regs[id].state) && Unlocked(x, id)
    case Commit(c, m, v, _) =>
      c in x.calls && x.calls[c].InStore? && x.calls[c].id in x.regs
      && Allowed(x.db, Register(v, m, x.regs[x.calls[c].id].trained))
    case Rollback(c) => c in x.calls && x.calls[c].InStore?
    case Compensate(c) =>
      c in x.calls && x.calls[c].Compensating? && x.calls[c].id in x.regs && Unlocked(x, x.calls[c].id)
    case Crash(c) => c in x.calls
    case Others(op) => !op.Register?
  }

  function Next(x: World, a: Action): World
    requires Enabled(x, a)
  {
    match a
    case Prepare(id, trained) => x.(regs := x.regs[id := Reg(trained, RegPending, None, None)])
    case ServiceReply(id) => x.(replies := x.replies + [ResultOf(id, x.regs[id])])
    case Replay(id) => x.(replies := x.replies + [ResultOf(id, x.regs[id])])
    case MarkUploaded(id) => x.(regs := x.regs[id := Uploaded(x.regs[id])])
    case Fail(id) => x.(regs := x.regs[id := Failed(x.regs[id])])
    case Abort(id) => x.(regs := x.regs[id := Aborted(x.regs[id])])
    case Begin(c, id) => x.(calls := x.calls[c := InStore(id)])
    case Commit(c, m, v, acked) =>
      var id := x.calls[c].id;
      var reg := Completed(x.regs[id], m, v);
      World(x.regs[id := reg], Effect(x.db, Register(v, m, reg.trained)),
            if acked then x.calls - {c} else x.calls[c := Compensating(id)],
            x.created[v := id], if acked then x.replies + [ResultOf(id, reg)] else x.replies)
    case Rollback(c) => x.(calls := x.calls[c := Compensating(x.calls[c].id)])
    case Compensate(c) =>
      var id := x.calls[c].id;
      x.(regs := x.regs[id := Failed(x.regs[id])], calls := x.calls - {c})
    case Crash(c) => x.(calls := x.calls - {c})
    case Others(op) => x.(db := Apply(x.db, op))
  }

  // ---- conservation ---------------------------------------------------------

  function Attached(regs: map<RegId, Reg>, m: ModelId): set<RegId> {
    set id | id in regs && regs[id].state == RegReady && regs[id].model == Some(m)
  }

  ghost function Sizes(regs: map<RegId, Reg>, ids: set<RegId>): nat
    requires ids <= regs.Keys
  {
    if ids == {} then 0 else var x :| x in ids; regs[x].trained.size + Sizes(regs, ids - {x})
  }

  lemma {:induction false} SizesPick(regs: map<RegId, Reg>, ids: set<RegId>, x: RegId)
    requires ids <= regs.Keys && x in ids
    ensures Sizes(regs, ids) == regs[x].trained.size + Sizes(regs, ids - {x})
  {
    var y :| y in ids && Sizes(regs, ids) == regs[y].trained.size + Sizes(regs, ids - {y});
    if y != x {
      SizesPick(regs, ids - {y}, x);
      SizesPick(regs, ids - {x}, y);
      assert ids - {y} - {x} == ids - {x} - {y};
    }
  }

  lemma {:induction false} SizesFrame(regs: map<RegId, Reg>, regs': map<RegId, Reg>, ids: set<RegId>)
    requires ids <= regs.Keys && ids <= regs'.Keys
    requires forall id <- ids :: regs[id].trained.size == regs'[id].trained.size
    ensures Sizes(regs, ids) == Sizes(regs', ids)
  {
    if ids != {} {
      var x :| x in ids;
      SizesPick(regs, ids, x);
      SizesPick(regs', ids, x);
      SizesFrame(regs, regs', ids - {x});
    }
  }

  // ---- invariant ------------------------------------------------------------

  ghost predicate RegOk(x: World, id: RegId, reg: Reg) {
    && WellFormed(reg.trained)
    && (reg.state == RegReady ==>
          && reg.model.Some? && reg.version.Some?
          && var v := reg.version.value;
          && v in x.created && x.created[v] == id
          && v in x.db.versions && v in x.db.artifacts
          && x.db.versions[v].(state := Ready)
             == Version(reg.model.value, reg.trained.versionName, Ready, reg.trained.sha, reg.trained.size)
          && x.db.versions[v].state in {Ready, Deleted}
          && x.db.artifacts[v] == Artifact(reg.trained.path, reg.trained.format, reg.trained.sha, reg.trained.size))
    && (reg.state != RegReady ==> reg.model.None? && reg.version.None?)
  }

  ghost predicate CreatedOk(x: World) {
    forall v <- x.created ::
      && x.created[v] in x.regs
      && x.regs[x.created[v]].state == RegReady && x.regs[x.created[v]].version == Some(v)
  }

  ghost predicate RepliesOk(x: World) {
    forall r <- x.replies :: r.id in x.regs && x.regs[r.id].state == RegReady && r == ResultOf(r.id, x.regs[r.id])
  }

  /** Everything but the calls. */
  ghost predicate Core(x: World, base: map<ModelId, nat>) {
    && (forall id <- x.regs :: RegOk(x, id, x.regs[id]))
    && CreatedOk(x)
    && RepliesOk(x)
    && (forall id <- x.regs :: x.regs[id].model.Some? ==> x.regs[id].model.value in x.db.models)
    && (forall m <- base :: m in x.db.models)
    && Conserved(x, base)
  }

  ghost predicate CallsOk(x: World) {
    && (forall c <- x.calls ::
          x.calls[c].id in x.regs && (x.calls[c].InStore? ==> Undecided(x.regs[x.calls[c].id].state)))
    && (forall c <- x.calls, d <- x.calls ::
          c != d && x.calls[c].InStore? && x.calls[d].InStore? ==> x.calls[c].id != x.calls[d].id)
  }

  ghost predicate Inv(x: World, base: map<ModelId, nat>) {
    Core(x, base) && CallsOk(x)
  }

  ghost predicate Conserved(x: World, base: map<ModelId, nat>) {
    forall m <- x.db.models ::
      x.db.models[m].total == (if m in base then base[m] else 0) + Sizes(x.regs, Attached(x.regs, m))
  }

  /** How a registration row may change. */
  predicate Moves(reg: Reg, reg': Reg) {
    && reg'.trained == reg.trained
    && (reg.state in {RegReady, RegFailed, RegAborted} ==> reg' == reg)
    && (reg.state == RegUploaded ==> reg'.state != RegPending)
  }

  lemma EveryActionMovesForward(x: World, a: Action, id: RegId)
    requires Enabled(x, a) && id in x.regs
    requires a.Commit? ==> x.calls[a.c].id in x.regs && Undecided(x.regs[x.calls[a.c].id].state)
    ensures id in Next(x, a).regs && Moves(x.regs[id], Next(x, a).regs[id])
  {
  }

  /** A registration row that changes without becoming ready moves no bytes. */
  lemma UnreadyMovesNoBytes(regs: map<RegId, Reg>, id: RegId, reg: Reg, m: ModelId)
    requires id in regs ==> regs[id].state == RegReady ==> reg == regs[id]
    requires id !in regs || regs[id].state != RegReady ==> reg.state != RegReady
    ensures Attached(regs[id := reg], m) == Attached(regs, m)
    ensures Sizes(regs[id := reg], Attached(regs, m)) == Sizes(regs, Attached(regs, m))
  {
    SizesFrame(regs, regs[id := reg], Attached(regs, m));
  }

  lemma ReadyAddsItsBytes(regs: map<RegId, Reg>, id: RegId, m: ModelId, v: VersionId, k: ModelId)
    requires id in regs && regs[id].state != RegReady
    ensures var regs' := regs[id := Completed(regs[id], m, v)];
            Sizes(regs', Attached(regs', k))
            == Sizes(regs, Attached(regs, k)) + if k == m then regs[id].trained.size else 0
  {
    var regs' := regs[id := Completed(regs[id], m, v)];
    SizesFrame(regs, regs', Attached(regs, k));
    if k == m {
      assert Attached(regs', k) - {id} == Attached(regs, k);
      SizesPick(regs', Attached(regs', k), id);
    } else {
      assert Attached(regs', k) == Attached(regs, k);
    }
  }

  lemma OthersKeepTotals(db: Db, op: Op, m: ModelId)
    requires !op.Register? && m in Apply(db, op).models
    ensures Apply(db, op).models[m].total == if m in db.models then db.models[m].total else 0
  {
  }

  /** Writing a row that is not ready, over one that was not. */
  lemma UnreadyRowKeepsCore(x: World, base: map<ModelId, nat>, id: RegId, reg: Reg)
    requires Core(x, base) && WellFormed(reg.trained) && reg.state != RegReady && reg.model.None? && reg.version.None?
    requires id in x.regs ==> x.regs[id].state != RegReady
    ensures Core(x.(regs := x.regs[id := reg]), base)
  {
    UnreadyRowConserves(x, base, id, reg);
    UnreadyRowKeepsRecords(x, id, reg);
  }

  lemma UnreadyRowKeepsRecords(x: World, id: RegId, reg: Reg)
    requires CreatedOk(x) && RepliesOk(x) && (id in x.regs ==> x.regs[id].state != RegReady)
    ensures CreatedOk(x.(regs := x.regs[id := reg])) && RepliesOk(x.(regs := x.regs[id := reg]))
  {
  }

  lemma UnreadyRowConserves(x: World, base: map<ModelId, nat>, id: RegId, reg: Reg)
    requires Conserved(x, base) && reg.state != RegReady && (id in x.regs ==> x.regs[id].state != RegReady)
    ensures Conserved(x.(regs := x.regs[id := reg]), base)
  {
    forall m | m in x.db.models
      ensures Sizes(x.regs[id := reg], Attached(x.regs[id := reg], m)) == Sizes(x.regs, Attached(x.regs, m))
    {
      UnreadyMovesNoBytes(x.regs, id, reg, m);
    }
  }

  lemma OthersKeepCore(x: World, base: map<ModelId, nat>, op: Op)
    requires Core(x, base) && !op.Register?
    ensures Core(x.(db := Apply(x.db, op)), base)
  {
    var y := x.(db := Apply(x.db, op));
    EveryWriterEvolves(x.db, op);
    forall m | m in y.db.models
      ensures y.db.models[m].total == (if m in base then base[m] else 0) + Sizes(x.regs, Attached(x.regs, m))
    {
      OthersKeepTotals(x.db, op, m);
      if m !in x.db.models {
        assert Attached(x.regs, m) == {};
      }
    }
    forall id | id in x.regs ensures RegOk(y, id, x.regs[id]) {
      EvolvedRegStaysOk(x, y, id);
    }
  }

  /** The catalog keeps the rows that a ready registration points at. */
  lemma EvolvedRegStaysOk(x: World, y: World, id: RegId)
    requires id in x.regs && RegOk(x, id, x.regs[id]) && Evolves(x.db, y.db)
    requires forall v <- x.created :: v in y.created && y.created[v] == x.created[v]
    ensures RegOk(y, id, x.regs[id])
  {
    var reg := x.regs[id];
    if reg.state == RegReady {
      var v := reg.version.value;
      assert v in x.db.versions && v in y.db.versions && v in x.db.artifacts && v in y.db.artifacts;
    }
  }

  lemma NothingAttached(x: World, base: map<ModelId, nat>, k: ModelId)
    requires Core(x, base) && k !in x.db.models
    ensures Attached(x.regs, k) == {} && k !in base
  {
  }

  lemma CommitConserves(x: World, base: map<ModelId, nat>, id: RegId, m: ModelId, v: VersionId)
    requires Core(x, base) && id in x.regs && Undecided(x.regs[id].state)
    requires Allowed(x.db, Register(v, m, x.regs[id].trained))
    ensures Conserved(Settled(x, id, m, v), base)
  {
    forall k | k in Settled(x, id, m, v).db.models
      ensures var y := Settled(x, id, m, v);
        y.db.models[k].total == (if k in base then base[k] else 0) + Sizes(y.regs, Attached(y.regs, k))
    {
      CommitConservesOne(x, base, id, m, v, k);
    }
  }

  lemma CommitConservesOne(
      x: World, base: map<ModelId, nat>, id: RegId, m: ModelId, v: VersionId, k: ModelId)
    requires Core(x, base) && id in x.regs && Undecided(x.regs[id].state)
    requires Allowed(x.db, Register(v, m, x.regs[id].trained)) && k in Settled(x, id, m, v).db.models
    ensures var y := Settled(x, id, m, v);
      y.db.models[k].total == (if k in base then base[k] else 0) + Sizes(y.regs, Attached(y.regs, k))
  {
    ReadyAddsItsBytes(x.regs, id, m, v, k);
    if k !in x.db.models {
      NothingAttached(x, base, k);
    }
  }

  function Settled(x: World, id: RegId, m: ModelId, v: VersionId): World
    requires id in x.regs && Allowed(x.db, Register(v, m, x.regs[id].trained))
  {
    x.(regs := x.regs[id := Completed(x.regs[id], m, v)], db := Effect(x.db, Register(v, m, x.regs[id].trained)),
       created := x.created[v := id])
  }

  lemma CreatedVersionsExist(x: World, base: map<ModelId, nat>)
    requires Core(x, base)
    ensures forall v <- x.created :: v in x.db.versions
  {
    forall v | v in x.created ensures v in x.db.versions {
      assert RegOk(x, x.created[v], x.regs[x.created[v]]);
    }
  }

  lemma CommitKeepsRegs(x: World, base: map<ModelId, nat>, id: RegId, m: ModelId, v: VersionId, k: RegId)
    requires Core(x, base) && id in x.regs && Undecided(x.regs[id].state) && k in x.regs
    requires Allowed(x.db, Register(v, m, x.regs[id].trained))
    ensures RegOk(Settled(x, id, m, v), k, Settled(x, id, m, v).regs[k])
  {
    assert RegOk(x, k, x.regs[k]);
    if k != id {
      EveryWriterEvolves(x.db, Register(v, m, x.regs[id].trained));
      CreatedVersionsExist(x, base);
      EvolvedRegStaysOk(x, Settled(x, id, m, v), k);
    }
  }

  lemma CommitKeepsRecords(x: World, base: map<ModelId, nat>, id: RegId, m: ModelId, v: VersionId)
    requires Core(x, base) && id in x.regs && Undecided(x.regs[id].state)
    requires Allowed(x.db, Register(v, m, x.regs[id].trained))
    ensures CreatedOk(Settled(x, id, m, v)) && RepliesOk(Settled(x, id, m, v))
  {
  }

  lemma CommitKeepsCore(x: World, base: map<ModelId, nat>, id: RegId, m: ModelId, v: VersionId)
    requires Core(x, base) && id in x.regs && Undecided(x.regs[id].state)
    requires Allowed(x.db, Register(v, m, x.regs[id].trained))
    ensures Core(Settled(x, id, m, v), base)
  {
    var y := Settled(x, id, m, v);
    forall k | k in y.regs ensures RegOk(y, k, y.regs[k]) {
      CommitKeepsRegs(x, base, id, m, v, k);
    }
    CommitKeepsRecords(x, base, id, m, v);
    CommitConserves(x, base, id, m, v);
  }

  /** Replies only ever repeat the row of a ready registration. */
  lemma ReplyKeepsCore(x: World, base: map<ModelId, nat>, id: RegId)
    requires Core(x, base) && id in x.regs && x.regs[id].state == RegReady
    ensures Core(x.(replies := x.replies + [ResultOf(id, x.regs[id])]), base)
  {
  }

  lemma CallsKeepCore(x: World, base: map<ModelId, nat>, calls: map<CallId, Call>)
    requires Core(x, base)
    ensures Core(x.(calls := calls), base)
  {
  }

  /** A row rewritten by MarkUploaded, Fail or Abort. */
  lemma RewriteKeepsCore(x: World, base: map<ModelId, nat>, id: RegId, reg: Reg)
    requires Core(x, base) && id in x.regs && reg in {Uploaded(x.regs[id]), Failed(x.regs[id]), Aborted(x.regs[id])}
    ensures Core(x.(regs := x.regs[id := reg]), base)
  {
    assert RegOk(x, id, x.regs[id]);
    if Undecided(x.regs[id].state) {
      UnreadyRowKeepsCore(x, base, id, reg);
    } else {
      assert x.regs[id := reg] == x.regs;
    }
  }

  lemma EveryActionKeepsCore(x: World, a: Action, base: map<ModelId, nat>)
    requires Inv(x, base) && Enabled(x, a)
    ensures Core(Next(x, a), base)
  {
    match a
    case Prepare(id, trained) => UnreadyRowKeepsCore(x, base, id, Reg(trained, RegPending, None, None));
    case ServiceReply(id) => ReplyKeepsCore(x, base, id);
    case Replay(id) => ReplyKeepsCore(x, base, id);
    case MarkUploaded(id) => RewriteKeepsCore(x, base, id, Uploaded(x.regs[id]));
    case Fail(id) => RewriteKeepsCore(x, base, id, Failed(x.regs[id]));
    case Abort(id) => RewriteKeepsCore(x, base, id, Aborted(x.regs[id]));
    case Commit(c, m, v, acked) =>
      var id := x.calls[c].id;
      CommitKeepsCore(x, base, id, m, v);
      var reg := Completed(x.regs[id], m, v);
      var y := Settled(x, id, m, v);
      if acked {
        ReplyKeepsCore(y, base, id);
        CallsKeepCore(y.(replies := y.replies + [ResultOf(id, reg)]), base, Next(x, a).calls);
      } else {
        CallsKeepCore(y, base, Next(x, a).calls);
      }
    case Compensate(c) =>
      RewriteKeepsCore(x, base, x.calls[c].id, Failed(x.regs[x.calls[c].id]));
      CallsKeepCore(x.(regs := Next(x, a).regs), base, Next(x, a).calls);
    case Others(op) => OthersKeepCore(x, base, op);
    case _ => CallsKeepCore(x, base, Next(x, a).calls);
  }

  lemma EveryActionKeepsCalls(x: World, a: Action)
    requires CallsOk(x) && Enabled(x, a)
    ensures CallsOk(Next(x, a))
  {
  }

  lemma EveryActionKeepsInv(x: World, a: Action, base: map<ModelId, nat>)
    requires Inv(x, base) && Enabled(x, a)
    ensures Inv(Next(x, a), base)
  {
    EveryActionKeepsCore(x, a, base);
    EveryActionKeepsCalls(x, a);
  }

  /** base records each model's total before the first registration. */
  ghost predicate Start(x: World, base: map<ModelId, nat>) {
    && x.regs == map[] && x.calls == map[] && x.created == map[] && x.replies == []
    && base == map m | m in x.db.models :: x.db.models[m].total
  }

  ghost function StartWith(base: map<ModelId, nat>): World -> bool { (x: World) => Start(x, base) }

  ghost predicate Step(x: World, a: Action, y: World) { Enabled(x, a) && y == Next(x, a) }

  ghost predicate IsRun(worlds: seq<World>, actions: seq<Action>, base: map<ModelId, nat>) {
    Transitions.IsRun(worlds, actions, StartWith(base), Step)
  }

  lemma RunKeepsInv(worlds: seq<World>, actions: seq<Action>, base: map<ModelId, nat>, n: nat)
    requires IsRun(worlds, actions, base) && n < |worlds|
    ensures Inv(worlds[n], base)
  {
    var inv := (x: World) => Inv(x, base);
    forall x, a, y | inv(x) && Step(x, a, y) ensures inv(y) {
      EveryActionKeepsInv(x, a, base);
    }
    RunKeeps(worlds, actions, StartWith(base), Step, inv, n);
  }

  // ---- what registrations promise -------------------------------------------

  /** An insert of version v, or of its artifact, by another API among the first n actions. */
  ghost predicate InsertedElsewhere(actions: seq<Action>, n: nat, v: VersionId)
    requires n <= |actions|
  {
    exists k :: 0 <= k < n && actions[k].Others? && actions[k].op.CreateVersion? && actions[k].op.v == v
  }

  ghost predicate StoredElsewhere(actions: seq<Action>, n: nat, v: VersionId)
    requires n <= |actions|
  {
    exists k :: 0 <= k < n && actions[k].Others? && actions[k].op.CreateArtifact? && actions[k].op.v == v
  }

  /** Action k commits version v for registration id. */
  ghost predicate CommitsFor(worlds: seq<World>, actions: seq<Action>, k: nat, v: VersionId, id: RegId)
    requires k < |actions| < |worlds|
  {
    && actions[k].Commit? && actions[k].v == v
    && actions[k].c in worlds[k].calls && worlds[k].calls[actions[k].c].id == id
  }

  ghost predicate CommittedFor(worlds: seq<World>, actions: seq<Action>, n: nat, v: VersionId, id: RegId)
    requires n <= |actions| < |worlds|
  {
    exists k :: 0 <= k < n && CommitsFor(worlds, actions, k, v, id)
  }

  predicate Made(x: World, v: VersionId, id: RegId) { v in x.created && x.created[v] == id }

  lemma CommitRecords(x: World, a: Action)
    requires Enabled(x, a)
    ensures Next(x, a).created == if a.Commit? then x.created[a.v := x.calls[a.c].id] else x.created
  {
  }

  lemma CommitIsNew(x: World, a: Action, base: map<ModelId, nat>)
    requires Core(x, base) && Enabled(x, a) && a.Commit?
    ensures a.v !in x.created
  {
    CreatedVersionsExist(x, base);
  }

  /** A commit is recorded, and no record is ever lost or rewritten. */
  lemma RecordsGrow(x: World, a: Action, base: map<ModelId, nat>, v: VersionId, id: RegId)
    requires Core(x, base) && Enabled(x, a)
    ensures Made(Next(x, a), v, id)
      <==> Made(x, v, id) || (a.Commit? && a.v == v && x.calls[a.c].id == id)
  {
    CommitRecords(x, a);
    if a.Commit? {
      CommitIsNew(x, a, base);
    }
  }

  lemma RecordsGrowInRuns(
      worlds: seq<World>, actions: seq<Action>, base: map<ModelId, nat>, n: nat, v: VersionId, id: RegId)
    requires IsRun(worlds, actions, base) && n < |actions|
    ensures Made(worlds[n + 1], v, id) <==> Made(worlds[n], v, id) || CommitsFor(worlds, actions, n, v, id)
  {
    RunKeepsInv(worlds, actions, base, n);
    RecordsGrow(worlds[n], actions[n], base, v, id);
  }

  lemma {:induction false} MadeExactlyByCommits(
      worlds: seq<World>, actions: seq<Action>, base: map<ModelId, nat>, n: nat, v: VersionId, id: RegId)
    requires IsRun(worlds, actions, base) && n < |worlds|
    ensures Made(worlds[n], v, id) <==> CommittedFor(worlds, actions, n, v, id)
  {
    if n > 0 {
      MadeExactlyByCommits(worlds, actions, base, n - 1, v, id);
      RecordsGrowInRuns(worlds, actions, base, n - 1, v, id);
      if CommittedFor(worlds, actions, n - 1, v, id) {
        var k :| 0 <= k < n - 1 && CommitsFor(worlds, actions, k, v, id);
        assert CommittedFor(worlds, actions, n, v, id);
      }
    }
  }

  lemma OneActionInserts(x: World, a: Action, v: VersionId)
    requires Enabled(x, a)
    ensures var y := Next(x, a);
      && (v in x.created ==> v in y.created)
      && (v in y.db.versions ==>
            v in x.db.versions || v in y.created || (a.Others? && a.op.CreateVersion? && a.op.v == v))
      && (v in y.db.artifacts ==>
            v in x.db.artifacts || v in y.created || (a.Others? && a.op.CreateArtifact? && a.op.v == v))
  {
  }

  /** Every version row and every artifact row has a maker: it was there at the start, a
      commit of a registration made it, or another API did. */
  lemma {:induction false} EveryRowHasAMaker(
      worlds: seq<World>, actions: seq<Action>, base: map<ModelId, nat>, n: nat, v: VersionId)
    requires IsRun(worlds, actions, base) && n < |worlds|
    ensures v in worlds[n].db.versions ==>
      v in worlds[0].db.versions || v in worlds[n].created || InsertedElsewhere(actions, n, v)
    ensures v in worlds[n].db.artifacts ==>
      v in worlds[0].db.artifacts || v in worlds[n].created || StoredElsewhere(actions, n, v)
  {
    if n > 0 {
      var i := n - 1;
      EveryRowHasAMaker(worlds, actions, base, i, v);
      OneActionInserts(worlds[i], actions[i], v);
      assert InsertedElsewhere(actions, i, v) ==> InsertedElsewhere(actions, n, v);
      assert StoredElsewhere(actions, i, v) ==> StoredElsewhere(actions, n, v);
    }
  }

  /** Exactly once: a ready registration made exactly one version, which carries its
      model, name, size, digest and one artifact; any other registration made none. What a
      registration made is what a commit for it inserted, and no version or artifact row
      comes from anywhere but the start, such a commit, or another API. */
  lemma CompleteIsExactlyOnce(
      worlds: seq<World>, actions: seq<Action>, base: map<ModelId, nat>, n: nat, id: RegId)
    requires IsRun(worlds, actions, base) && n < |worlds| && id in worlds[n].regs
    ensures var x := worlds[n]; var reg := x.regs[id];
            if reg.state == RegReady then
              && reg.model.Some? && reg.version.Some?
              && (forall v :: v in x.created && x.created[v] == id <==> v == reg.version.value)
              && reg.version.value in x.db.versions && reg.version.value in x.db.artifacts
              && x.db.versions[reg.version.value].model == reg.model.value
              && x.db.versions[reg.version.value].checksum == reg.trained.sha == x.db.artifacts[reg.version.value].sha
              && x.db.versions[reg.version.value].size == reg.trained.size == x.db.artifacts[reg.version.value].size
              && x.db.artifacts[reg.version.value].reference == reg.trained.path
            else
              reg.model.None? && reg.version.None? && forall v <- x.created :: x.created[v] != id
    ensures forall v, i ::
      CommittedFor(worlds, actions, n, v, i) <==> v in worlds[n].created && worlds[n].created[v] == i
    ensures forall v <- worlds[n].db.versions ::
      v in worlds[0].db.versions || v in worlds[n].created || InsertedElsewhere(actions, n, v)
    ensures forall v <- worlds[n].db.artifacts ::
      v in worlds[0].db.artifacts || v in worlds[n].created || StoredElsewhere(actions, n, v)
  {
    RunKeepsInv(worlds, actions, base, n);
    assert RegOk(worlds[n], id, worlds[n].regs[id]);
    forall v, i
      ensures CommittedFor(worlds, actions, n, v, i) <==> v in worlds[n].created && worlds[n].created[v] == i
    {
      MadeExactlyByCommits(worlds, actions, base, n, v, i);
    }
    forall v
      ensures v in worlds[n].db.versions ==>
        v in worlds[0].db.versions || v in worlds[n].created || InsertedElsewhere(actions, n, v)
      ensures v in worlds[n].db.artifacts ==>
        v in worlds[0].db.artifacts || v in worlds[n].created || StoredElsewhere(actions, n, v)
    {
      EveryRowHasAMaker(worlds, actions, base, n, v);
    }
  }

  /** Conservation: a model's total is what it started with plus the sizes of the
      ready registrations attached to it. */
  lemma BytesAreConserved(worlds: seq<World>, actions: seq<Action>, base: map<ModelId, nat>, n: nat, m: ModelId)
    requires IsRun(worlds, actions, base) && n < |worlds| && m in worlds[n].db.models
    ensures worlds[n].db.models[m].total
            == (if m in base then base[m] else 0) + Sizes(worlds[n].regs, Attached(worlds[n].regs, m))
  {
    RunKeepsInv(worlds, actions, base, n);
  }

  lemma RunMovesForward(worlds: seq<World>, actions: seq<Action>, base: map<ModelId, nat>, n: nat, id: RegId)
    requires IsRun(worlds, actions, base) && n < |actions| && id in worlds[n].regs
    ensures id in worlds[n + 1].regs && Moves(worlds[n].regs[id], worlds[n + 1].regs[id])
  {
    RunKeepsInv(worlds, actions, base, n);
    EveryActionMovesForward(worlds[n], actions[n], id);
  }

  /** A registration only moves forward; ready, failed and aborted are final, so
      racing Complete, Fail and Abort calls settle on one outcome. */
  lemma {:induction false} OutcomeIsFinal(
      worlds: seq<World>, actions: seq<Action>, base: map<ModelId, nat>, i: nat, j: nat, id: RegId)
    requires IsRun(worlds, actions, base) && i <= j < |worlds| && id in worlds[i].regs
    ensures id in worlds[j].regs && Moves(worlds[i].regs[id], worlds[j].regs[id])
  {
    if i < j {
      OutcomeIsFinal(worlds, actions, base, i, j - 1, id);
      RunMovesForward(worlds, actions, base, j - 1, id);
    }
  }

  /** Aborting or failing an undecided registration decides it for good: it stays so in
      every later state, no version is ever made for it, and no Complete call, under way
      or later, gets a reply for it. */
  lemma AbortDecides(
      worlds: seq<World>, actions: seq<Action>, base: map<ModelId, nat>, i: nat, j: nat, id: RegId)
    requires IsRun(worlds, actions, base) && i < j < |worlds|
    requires actions[i] == Abort(id) || actions[i] == Fail(id)
    requires id in worlds[i].regs && worlds[i].regs[id].state in {RegPending, RegUploaded}
    ensures id in worlds[j].regs
    ensures worlds[j].regs[id].state == (if actions[i].Abort? then RegAborted else RegFailed)
    ensures worlds[j].regs[id].trained == worlds[i].regs[id].trained
    ensures forall v <- worlds[j].created :: worlds[j].created[v] != id
    ensures forall r <- worlds[j].replies :: r.id != id
  {
    assert worlds[i + 1] == Next(worlds[i], actions[i]);
    OutcomeIsFinal(worlds, actions, base, i + 1, j, id);
    CompleteIsExactlyOnce(worlds, actions, base, j, id);
    RunKeepsInv(worlds, actions, base, j);
  }

  /** A commit decides it the other way for good. */
  lemma CommitDecides(
      worlds: seq<World>, actions: seq<Action>, base: map<ModelId, nat>, i: nat, j: nat)
    requires IsRun(worlds, actions, base) && i < j < |worlds| && actions[i].Commit?
    ensures var id := worlds[i].calls[actions[i].c].id;
      && id in worlds[j].regs && worlds[j].regs[id].state == RegReady
      && worlds[j].regs[id].version == Some(actions[i].v) && worlds[j].regs[id].model == Some(actions[i].m)
  {
    assert worlds[i + 1] == Next(worlds[i], actions[i]);
    OutcomeIsFinal(worlds, actions, base, i + 1, j, worlds[i].calls[actions[i].c].id);
  }

  /** Every reply to Complete, by the service shortcut or by the store, is the same. */
  lemma RepliesAgree(
      worlds: seq<World>, actions: seq<Action>, base: map<ModelId, nat>, n: nat, r: RegResult, q: RegResult)
    requires IsRun(worlds, actions, base) && n < |worlds|
    requires r in worlds[n].replies && q in worlds[n].replies && r.id == q.id
    ensures r == q && r.state == RegReady && r.id in worlds[n].regs && worlds[n].regs[r.id].state == RegReady
  {
    RunKeepsInv(worlds, actions, base, n);
  }
}
