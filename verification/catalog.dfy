/** The models, model_versions and model_artifacts tables, every statement that
    writes them, and what all of those writers keep together. */
module Catalog {
  import opened Wrappers
  import T = WorkTask
  import R = TaskRows

  type ModelId = T.ModelId
  type VersionId = T.VersionId

  datatype ModelState = ModelPending | ModelDownloading | ModelReady | ModelError | ModelDeleted

  datatype VersionState = Pending | Importing | Ready | Error | Deleted

  /** external is the model_id that callers see; id is the row's key. */
  datatype Model = Model(name: string, external: string, state: ModelState, total: nat)

  datatype Version = Version(model: ModelId, name: string, state: VersionState, checksum: string, size: nat)

  datatype Artifact = Artifact(reference: string, format: string, sha: string, size: nat)

  datatype Db = Db(
    models: map<ModelId, Model>,
    versions: map<VersionId, Version>,
    artifacts: map<VersionId, Artifact>)

  /** What a trained-artifact registration asks Complete to create. */
  datatype Trained = Trained(
    target: Option<ModelId>, modelName: string,
    versionName: string, format: string, path: string, size: nat, sha: string)

  /** The CHECK on the sha256 columns: 64 hexadecimal digits. */
  predicate HexDigest(s: string) {
    |s| == 64 && forall i :: 0 <= i < 64 ==> '0' <= s[i] <= '9' || 'a' <= s[i] <= 'f' || 'A' <= s[i] <= 'F'
  }

  /** Artifact.Validate and the CHECKs of model_artifacts. */
  predicate ValidArtifact(a: Artifact) {
    a.reference != "" && HexDigest(a.sha) && a.format in {"safetensors", "gguf", "pytorch"}
  }

  predicate Open(state: VersionState) { state == Pending || state == Importing }

  /** The join MarkModelVersionReady asks for. */
  predicate Backed(db: Db, v: VersionId, row: Version) {
    && v in db.artifacts
    && db.artifacts[v].reference != ""
    && db.artifacts[v].sha == row.checksum
    && db.artifacts[v].sha != ""
  }

  predicate ModelLive(db: Db, m: ModelId) {
    m in db.models && db.models[m].state != ModelDeleted
  }

  /** (tenant, name) is unique, deleted rows included. */
  predicate ModelNameFree(db: Db, name: string) {
    forall m <- db.models :: db.models[m].name != name
  }

  /** (tenant, model_id) is unique where it is not empty, deleted rows included. */
  predicate ExternalIdFree(db: Db, external: string) {
    external == "" || forall m <- db.models :: db.models[m].external != external
  }

  /** (tenant, model, version) is unique, deleted rows included. */
  predicate VersionNameFree(db: Db, m: ModelId, name: string) {
    forall v <- db.versions :: !(db.versions[v].model == m && db.versions[v].name == name)
  }

  /** GetReadyModelVersion: the row a reader may deploy. */
  predicate Deployable(db: Db, v: VersionId) {
    && v in db.versions && db.versions[v].state == Ready && ModelLive(db, db.versions[v].model)
    && v in db.artifacts && db.artifacts[v].sha != ""
  }

  /** MarkReady succeeds: it changes the tables, or finds the version deployable. */
  predicate MarksReady(db: Db, v: VersionId) { Allowed(db, MarkReady(v)) || Deployable(db, v) }

  predicate HasReady(db: Db, m: ModelId) {
    exists v <- db.versions :: db.versions[v].model == m && db.versions[v].state == Ready
  }

  /** The writers, each as it stands when it commits. */
  datatype Op =
    | CreateModel(m: ModelId, name: string, external: string)
    | CreateVersion(v: VersionId, m: ModelId, name: string, checksum: string, size: nat)
    | CreateArtifact(v: VersionId, artifact: Artifact)
    | SetChecksum(v: VersionId, checksum: string, bytes: int)
    | MarkReady(v: VersionId)
    | MarkError(v: VersionId)
    | MarkErrorAndModel(v: VersionId)
    | ResetVersion(v: VersionId)
    | DeleteVersion(v: VersionId)
    | DeleteModel(m: ModelId)
    | Register(v: VersionId, m: ModelId, trained: Trained)

  predicate Allowed(db: Db, op: Op) {
    match op
    case CreateModel(m, name, external) =>
      m !in db.models && ModelNameFree(db, name) && ExternalIdFree(db, external)
    case CreateVersion(v, m, name, _, _) => v !in db.versions && ModelLive(db, m) && VersionNameFree(db, m, name)
    case CreateArtifact(v, a) => v in db.versions && v !in db.artifacts && ValidArtifact(a)
    case SetChecksum(v, checksum, size) =>
      && v in db.versions
      && (db.versions[v].checksum == "" || db.versions[v].checksum == checksum)
      && (Open(db.versions[v].state)
          || (db.versions[v].state == Ready && db.versions[v].checksum == checksum
              && (size < 0 || db.versions[v].size == size)))
    case MarkReady(v) =>
      && v in db.versions && Open(db.versions[v].state)
      && Backed(db, v, db.versions[v]) && ModelLive(db, db.versions[v].model)
    case MarkError(v) => v in db.versions && Open(db.versions[v].state)
    case MarkErrorAndModel(v) => v in db.versions && Open(db.versions[v].state)
    case ResetVersion(v) => v in db.versions && db.versions[v].state == Error
    case DeleteVersion(v) =>
      v in db.versions && db.versions[v].state != Deleted && ModelLive(db, db.versions[v].model)
    case DeleteModel(m) => ModelLive(db, m)
    case Register(v, m, t) =>
      && v !in db.versions && v !in db.artifacts
      && (match t.target
          case Some(target) => m == target && ModelLive(db, m) && db.models[m].total + t.size <= MAX_INT64
          case None =>
            && m !in db.models && ModelNameFree(db, t.modelName) && ExternalIdFree(db, t.modelName)
            && t.size <= MAX_INT64)
      && VersionNameFree(db, m, t.versionName)
      && t.path != "" && HexDigest(t.sha) && t.size > 0
  }

  function WithVersionState(db: Db, v: VersionId, state: VersionState): Db
    requires v in db.versions
  {
    db.(versions := db.versions[v := db.versions[v].(state := state)])
  }

  function WithModelState(db: Db, m: ModelId, state: ModelState): Db
    requires m in db.models
  {
    db.(models := db.models[m := db.models[m].(state := state)])
  }

  /** MarkModelErrorIfNoReady. */
  function ModelErrorIfNoReady(db: Db, m: ModelId): Db {
    if m in db.models && db.models[m].state in {ModelPending, ModelDownloading, ModelError} && !HasReady(db, m)
    then WithModelState(db, m, ModelError)
    else db
  }

  function Effect(db: Db, op: Op): Db
    requires Allowed(db, op)
  {
    match op
    case CreateModel(m, name, external) =>
      db.(models := db.models[m := Model(name, external, ModelPending, 0)])
    case CreateVersion(v, m, name, checksum, size) =>
      db.(versions := db.versions[v := Version(m, name, Pending, checksum, size)])
    case CreateArtifact(v, a) => db.(artifacts := db.artifacts[v := a])
    case SetChecksum(v, checksum, size) =>
      var row := db.versions[v];
      db.(versions := db.versions[v := row.(checksum := checksum, size := if size >= 0 then size else row.size)])
    case MarkReady(v) =>
      WithModelState(WithVersionState(db, v, Ready), db.versions[v].model, ModelReady)
    case MarkError(v) => WithVersionState(db, v, Error)
    case MarkErrorAndModel(v) => ModelErrorIfNoReady(WithVersionState(db, v, Error), db.versions[v].model)
    case ResetVersion(v) => WithVersionState(db, v, Pending)
    case DeleteVersion(v) => WithVersionState(db, v, Deleted)
    case DeleteModel(m) => WithModelState(db, m, ModelDeleted)
    case Register(v, m, t) =>
      var total := if t.target.Some? then db.models[m].total else 0;
      var name := if t.target.Some? then db.models[m].name else t.modelName;
      var external := if t.target.Some? then db.models[m].external else t.modelName;
      Db(db.models[m := Model(name, external, ModelReady, total + t.size)],
         db.versions[v := Version(m, t.versionName, Ready, t.sha, t.size)],
         db.artifacts[v := Artifact(t.path, t.format, t.sha, t.size)])
  }

  function Apply(db: Db, op: Op): Db {
    if Allowed(db, op) then Effect(db, op) else db
  }

  /** Foreign keys, plus the two promises about ready versions: each has an
      artifact whose digest is its own non-empty checksum, and its model is ready
      unless it was deleted. */
  ghost predicate Sound(db: Db) {
    && (forall v <- db.versions :: db.versions[v].model in db.models)
    && (forall v <- db.artifacts :: v in db.versions)
    && (forall v <- db.versions :: db.versions[v].state == Ready ==> Backed(db, v, db.versions[v]))
    && (forall v <- db.versions :: db.versions[v].state == Ready ==>
          db.models[db.versions[v].model].state in {ModelReady, ModelDeleted})
  }

  lemma EveryWriterKeepsSound(db: Db, op: Op)
    requires Sound(db)
    ensures Sound(Apply(db, op))
  {
    if Allowed(db, op) {
      match op
      case MarkErrorAndModel(v) => MarkErrorKeepsSound(db, v);
      case Register(v, m, t) => RegisterKeepsSound(db, v, m, t);
      case CreateModel(_, _, _) => InsertKeepsSound(db, op);
      case CreateVersion(_, _, _, _, _) => InsertKeepsSound(db, op);
      case CreateArtifact(_, _) => InsertKeepsSound(db, op);
      case MarkReady(v) => MarkReadyKeepsSound(db, v);
      case _ => UpdateKeepsSound(db, op);
    }
  }

  lemma InsertKeepsSound(db: Db, op: Op)
    requires Sound(db) && Allowed(db, op) && (op.CreateModel? || op.CreateVersion? || op.CreateArtifact?)
    ensures Sound(Effect(db, op))
  {
  }

  lemma MarkReadyKeepsSound(db: Db, v: VersionId)
    requires Sound(db) && Allowed(db, MarkReady(v))
    ensures Sound(Effect(db, MarkReady(v)))
  {
  }

  lemma UpdateKeepsSound(db: Db, op: Op)
    requires Sound(db) && Allowed(db, op)
    requires op.SetChecksum? || op.MarkError? || op.ResetVersion? || op.DeleteVersion? || op.DeleteModel?
    ensures Sound(Effect(db, op))
  {
  }

  lemma MarkErrorKeepsSound(db: Db, v: VersionId)
    requires Sound(db) && Allowed(db, MarkErrorAndModel(v))
    ensures Sound(Effect(db, MarkErrorAndModel(v)))
  {
    var m := db.versions[v].model;
    var db1 := WithVersionState(db, v, Error);
    assert Sound(db1);
    forall w | w in db1.versions && db1.versions[w].state == Ready
      ensures ModelErrorIfNoReady(db1, m).models[db1.versions[w].model].state in {ModelReady, ModelDeleted}
    {
      if db1.versions[w].model == m {
        assert HasReady(db1, m);
      }
    }
  }

  lemma RegisterKeepsSound(db: Db, v: VersionId, m: ModelId, t: Trained)
    requires Sound(db) && Allowed(db, Register(v, m, t))
    ensures Sound(Effect(db, Register(v, m, t)))
  {
  }

  /** How one version row and its artifact may change over time: rows and
      artifacts are never removed, a non-empty checksum is never replaced, a ready
      row is frozen and only ever becomes deleted, and deleted is final. */
  ghost predicate Evolves(db: Db, db': Db) {
    && (forall v <- db.artifacts :: v in db'.artifacts && db'.artifacts[v] == db.artifacts[v])
    && (forall m <- db.models :: m in db'.models && db'.models[m].name == db.models[m].name
                            && db'.models[m].external == db.models[m].external)
    && (forall v <- db.versions ::
          && v in db'.versions
          && db'.versions[v].model == db.versions[v].model
          && db'.versions[v].name == db.versions[v].name
          && (db.versions[v].checksum != "" ==> db'.versions[v].checksum == db.versions[v].checksum)
          && (db.versions[v].state == Ready ==>
                db'.versions[v] == db.versions[v] || db'.versions[v] == db.versions[v].(state := Deleted))
          && (db.versions[v].state == Deleted ==> db'.versions[v] == db.versions[v]))
  }

  lemma EveryWriterEvolves(db: Db, op: Op)
    ensures Evolves(db, Apply(db, op))
  {
    if Allowed(db, op) {
      if op.CreateModel? || op.CreateVersion? || op.CreateArtifact? || op.Register? {
        InsertEvolves(db, op);
      } else {
        UpdateEvolves(db, op);
      }
    }
  }

  lemma InsertEvolves(db: Db, op: Op)
    requires Allowed(db, op) && (op.CreateModel? || op.CreateVersion? || op.CreateArtifact? || op.Register?)
    ensures Evolves(db, Effect(db, op))
  {
  }

  lemma UpdateEvolves(db: Db, op: Op)
    requires Allowed(db, op)
    requires !op.CreateModel? && !op.CreateVersion? && !op.CreateArtifact? && !op.Register?
    ensures Evolves(db, Effect(db, op))
  {
  }

  lemma EvolvesTransitive(a: Db, b: Db, c: Db)
    requires Evolves(a, b) && Evolves(b, c)
    ensures Evolves(a, c)
  {
    forall v | v in a.versions
      ensures v in c.versions && c.versions[v].model == a.versions[v].model
              && c.versions[v].name == a.versions[v].name
      ensures a.versions[v].checksum != "" ==> c.versions[v].checksum == a.versions[v].checksum
      ensures a.versions[v].state == Ready ==>
                c.versions[v] == a.versions[v] || c.versions[v] == a.versions[v].(state := Deleted)
      ensures a.versions[v].state == Deleted ==> c.versions[v] == a.versions[v]
    {
      assert v in b.versions;
    }
  }

  /** dbs[i] is the catalog before ops[i]; ops may come from any callers in any order. */
  ghost predicate IsHistory(dbs: seq<Db>, ops: seq<Op>) {
    && |dbs| == |ops| + 1
    && forall i :: 0 <= i < |ops| ==> dbs[i + 1] == Apply(dbs[i], ops[i])
  }

  ghost predicate AllAllowed(dbs: seq<Db>, ops: seq<Op>)
    requires |dbs| == |ops| + 1
  {
    forall i :: 0 <= i < |ops| ==> Allowed(dbs[i], ops[i])
  }

  /** db' is db after the writer, which was allowed, or db itself if there is none. */
  predicate Wrote(db: Db, op: Option<Op>, db': Db) {
    match op
    case Some(writer) => Allowed(db, writer) && db' == Effect(db, writer)
    case None => db' == db
  }

  function Listing(op: Option<Op>): seq<Op> { if op.Some? then [op.value] else [] }

  function Appended(dbs: seq<Db>, op: Option<Op>, db: Db): seq<Db> { if op.Some? then dbs + [db] else dbs }

  lemma HistoryOn(dbs: seq<Db>, ops: seq<Op>, op: Option<Op>, db: Db)
    requires IsHistory(dbs, ops) && AllAllowed(dbs, ops) && Wrote(dbs[|ops|], op, db)
    ensures IsHistory(Appended(dbs, op, db), ops + Listing(op))
    ensures AllAllowed(Appended(dbs, op, db), ops + Listing(op))
    ensures Appended(dbs, op, db)[0] == dbs[0] && Appended(dbs, op, db)[|ops + Listing(op)|] == db
  {
  }

  /** Ready-version integrity over whole histories. */
  lemma {:induction false} HistoryKeepsIntegrity(dbs: seq<Db>, ops: seq<Op>, i: nat, j: nat)
    requires IsHistory(dbs, ops) && Sound(dbs[0]) && i <= j <= |ops|
    ensures Sound(dbs[j]) && Evolves(dbs[i], dbs[j])
    decreases j
  {
    if j > 0 {
      if i < j {
        HistoryKeepsIntegrity(dbs, ops, i, j - 1);
        EveryWriterEvolves(dbs[j - 1], ops[j - 1]);
        EvolvesTransitive(dbs[i], dbs[j - 1], dbs[j]);
      } else {
        HistoryKeepsIntegrity(dbs, ops, j - 1, j - 1);
      }
      EveryWriterKeepsSound(dbs[j - 1], ops[j - 1]);
    }
  }

  // ---- the stores ----------------------------------------------------------

  datatype StoreError = NoRows | UniqueViolation | CheckViolation | Mismatch

  /** The three tables as VersionStore and ArtifactStore update them. */
  class CatalogTables {
    var models: map<ModelId, Model>
    var versions: map<VersionId, Version>
    var artifacts: map<VersionId, Artifact>

    constructor (db: Db)
      ensures State() == db
    {
      models, versions, artifacts := db.models, db.versions, db.artifacts;
    }

    function State(): Db
      reads this
    {
      Db(models, versions, artifacts)
    }

    method CreateModel(m: ModelId, name: string, external: string) returns (r: Result<(), StoreError>)
      requires m !in models
      modifies this
      ensures State() == Apply(old(State()), Op.CreateModel(m, name, external))
      ensures r.Ok? <==>
              && (forall k <- old(models) :: old(models)[k].name != name)
              && (external != "" ==> forall k <- old(models) :: old(models)[k].external != external)
      ensures r.Ok? ==> models == old(models)[m := Model(name, external, ModelPending, 0)]
      ensures r.Err? ==> models == old(models)
      ensures versions == old(versions) && artifacts == old(artifacts)
    {
      if !ModelNameFree(State(), name) || !ExternalIdFree(State(), external) {
        return Err(UniqueViolation);
      }
      models := models[m := Model(name, external, ModelPending, 0)];
      r := Ok(());
    }

    method CreateVersion(v: VersionId, m: ModelId, name: string, checksum: string, size: nat)
      returns (r: Result<(), StoreError>)
      requires v !in versions
      modifies this
      ensures State() == Apply(old(State()), Op.CreateVersion(v, m, name, checksum, size))
      ensures r == Err(NoRows) <==> m !in models || models[m].state == ModelDeleted
      ensures r.Ok? <==>
              && m in models && models[m].state != ModelDeleted
              && forall k <- old(versions) :: old(versions)[k].model == m ==> old(versions)[k].name != name
      ensures r.Ok? ==> versions == old(versions)[v := Version(m, name, Pending, checksum, size)]
      ensures r.Err? ==> versions == old(versions)
      ensures models == old(models) && artifacts == old(artifacts)
    {
      if !ModelLive(State(), m) {
        return Err(NoRows);
      }
      if !VersionNameFree(State(), m, name) {
        return Err(UniqueViolation);
      }
      versions := versions[v := Version(m, name, Pending, checksum, size)];
      r := Ok(());
    }

    method SetChecksum(v: VersionId, checksum: string, size: int) returns (r: Result<(), StoreError>)
      modifies this
      ensures State() == Apply(old(State()), Op.SetChecksum(v, checksum, size))
      ensures r.Ok? <==> v in old(versions) && var row := old(versions)[v];
              || (row.state in {Pending, Importing} && row.checksum in {"", checksum})
              || (row.state == Ready && row.checksum == checksum && (size < 0 || row.size == size))
      ensures r.Ok? ==> versions == old(versions)[v := old(versions)[v].(
                          checksum := checksum, size := if size < 0 then old(versions)[v].size else size)]
      ensures r.Err? ==> versions == old(versions)
      ensures models == old(models) && artifacts == old(artifacts)
    {
      if v !in versions {
        return Err(NoRows);
      }
      var row := versions[v];
      if row.checksum != "" && row.checksum != checksum {
        return Err(NoRows);
      }
      if Open(row.state) || (row.state == Ready && row.checksum == checksum && (size < 0 || row.size == size)) {
        row := row.(checksum := checksum);
        if size >= 0 {
          row := row.(size := size);
        }
        versions := versions[v := row];
        return Ok(());
      }
      r := Err(NoRows);
    }

    method MarkReady(v: VersionId) returns (r: Result<(), StoreError>)
      modifies this
      ensures State() == Apply(old(State()), Op.MarkReady(v))
      ensures r.Ok? <==> MarksReady(old(State()), v)
      ensures r.Ok? <==>
              && v in old(versions) && v in old(artifacts) && old(artifacts)[v].sha != ""
              && old(versions)[v].model in old(models) && old(models)[old(versions)[v].model].state != ModelDeleted
              && (|| old(versions)[v].state == Ready
                  || (old(versions)[v].state in {Pending, Importing} && old(artifacts)[v].reference != ""
                      && old(artifacts)[v].sha == old(versions)[v].checksum))
      ensures r.Ok? ==> versions == old(versions)[v := old(versions)[v].(state := Ready)]
      ensures r.Ok? ==> var m := old(versions)[v].model;
              models == if old(versions)[v].state == Ready then old(models)
                        else old(models)[m := old(models)[m].(state := ModelReady)]
      ensures r.Err? ==> versions == old(versions) && models == old(models)
      ensures artifacts == old(artifacts)
    {
      if v in versions && Open(versions[v].state) && Backed(State(), v, versions[v])
         && ModelLive(State(), versions[v].model) {
        var m := versions[v].model;
        versions := versions[v := versions[v].(state := Ready)];
        models := models[m := models[m].(state := ModelReady)];
        return Ok(());
      }
      r := if Deployable(State(), v) then Ok(()) else Err(NoRows);
    }

    method MarkError(v: VersionId) returns (r: Result<(), StoreError>)
      modifies this
      ensures State() == Apply(old(State()), Op.MarkError(v))
      ensures r.Ok? <==> v in old(versions) && old(versions)[v].state in {Pending, Importing}
      ensures versions == if r.Ok? then old(versions)[v := old(versions)[v].(state := Error)] else old(versions)
      ensures models == old(models) && artifacts == old(artifacts)
    {
      if v !in versions || !Open(versions[v].state) {
        return Err(NoRows);
      }
      versions := versions[v := versions[v].(state := Error)];
      r := Ok(());
    }

    /** The three statements of the transaction; `at` is the clock reading of the
        lease check. */
    method MarkErrorAndMaybeModel(tasks: R.TaskTable, task: T.TaskId, v: VersionId, owner: string, epoch: int, at: nat)
      returns (r: Result<(), StoreError>)
      modifies this
      ensures var leased := task in tasks.rows && tasks.rows[task].version == Some(v)
                            && R.Live(tasks.rows[task], owner, epoch, at);
              && State() == (if leased then Apply(old(State()), MarkErrorAndModel(v)) else old(State()))
              && (r.Ok? <==> leased && Allowed(old(State()), MarkErrorAndModel(v)))
      ensures r.Ok? <==>
              && v in old(versions) && old(versions)[v].state in {Pending, Importing}
              && task in tasks.rows && var row := tasks.rows[task];
                 row.version == Some(v) && row.status == T.Importing && row.owner == owner && row.epoch == epoch
                 && row.lease.Some? && row.lease.value > at
      ensures r.Ok? ==> versions == old(versions)[v := old(versions)[v].(state := Error)]
      ensures r.Ok? ==> var m := old(versions)[v].model;
              if && m in old(models) && old(models)[m].state in {ModelPending, ModelDownloading, ModelError}
                 && (forall w <- versions :: versions[w].model == m ==> versions[w].state != Ready)
              then models == old(models)[m := old(models)[m].(state := ModelError)]
              else models == old(models)
      ensures r.Err? ==> versions == old(versions) && models == old(models)
      ensures artifacts == old(artifacts)
    {
      if task !in tasks.rows || tasks.rows[task].version != Some(v) || !R.Live(tasks.rows[task], owner, epoch, at) {
        return Err(NoRows);
      }
      if v !in versions || !Open(versions[v].state) {
        return Err(NoRows);
      }
      var m := versions[v].model;
      versions := versions[v := versions[v].(state := Error)];
      if m !in models {
        return Ok(());
      }
      if models[m].state in {ModelPending, ModelDownloading, ModelError} && !HasReady(State(), m) {
        models := models[m := models[m].(state := ModelError)];
      }
      r := Ok(());
    }

    /** RetryFailed, the one statement in full: with the task, its bound version restarts
        if the failure had put it in error, and otherwise stays as it is. */
    method RetryFailedAndResetVersion(tasks: R.TaskTable, task: T.TaskId, at: nat, stamp: nat)
      returns (r: Result<R.Row, R.StoreError>)
      modifies this, tasks
      ensures tasks.rows == R.Updated(old(tasks.rows), task, R.Step(R.Event.RetryFailed, at, stamp))
      ensures r.Ok? <==> task in old(tasks.rows) && old(tasks.rows)[task].status == T.Failed
      ensures r.Ok? ==> r.value == tasks.rows[task] && r.value.version == old(tasks.rows)[task].version
      ensures State() ==
              if r.Ok? && r.value.version.Some? then Apply(old(State()), ResetVersion(r.value.version.value))
              else old(State())
      ensures models == old(models) && artifacts == old(artifacts)
      ensures versions ==
              if r.Ok? && r.value.version.Some? && r.value.version.value in old(versions)
                 && old(versions)[r.value.version.value].state == Error
              then old(versions)[r.value.version.value := old(versions)[r.value.version.value].(state := Pending)]
              else old(versions)
    {
      r := tasks.RetryFailed(task, at, stamp);
      if r.Ok? && r.value.version.Some? && r.value.version.value in versions {
        var v := r.value.version.value;
        if versions[v].state == Error {
          versions := versions[v := versions[v].(state := Pending)];
        }
      }
    }

    method CreateArtifact(v: VersionId, artifact: Artifact) returns (r: Result<(), StoreError>)
      modifies this
      ensures State() == Apply(old(State()), Op.CreateArtifact(v, artifact))
      ensures r.Ok? <==>
              && v in versions && v !in old(artifacts) && artifact.reference != ""
              && artifact.format in {"safetensors", "gguf", "pytorch"} && HexDigest(artifact.sha)
      ensures r == Err(UniqueViolation) <==> v in versions && ValidArtifact(artifact) && v in old(artifacts)
      ensures artifacts == if r.Ok? then old(artifacts)[v := artifact] else old(artifacts)
      ensures models == old(models) && versions == old(versions)
    {
      if v !in versions || !ValidArtifact(artifact) {
        return Err(CheckViolation);
      }
      if v in artifacts {
        return Err(UniqueViolation);
      }
      artifacts := artifacts[v := artifact];
      r := Ok(());
    }

    /** persistArtifact: insert, or accept an earlier insert that matches. After
        success the stored artifact is the one asked for; a stored one that differs
        is never overwritten. */
    method PersistArtifact(v: VersionId, want: Artifact) returns (r: Result<(), StoreError>)
      modifies this
      ensures State() == Apply(old(State()), Op.CreateArtifact(v, want))
      ensures r.Ok? ==> v in artifacts && artifacts[v] == want
      ensures v in old(artifacts) && old(artifacts)[v] != want ==> r.Err? && artifacts == old(artifacts)
      ensures r.Ok? <==> v in versions && ValidArtifact(want) && (v in old(artifacts) ==> old(artifacts)[v] == want)
    {
      r := CreateArtifact(v, want);
      if r == Err(UniqueViolation) {
        r := if artifacts[v] == want then Ok(()) else Err(Mismatch);
      }
    }
  }

  /** An import that persisted its artifact and then set the checksum can be finalized:
      on an open version of a live model that had no other checksum yet, the checksum and
      the size given are stored, and MarkReady then takes effect. */
  lemma VerifiedImportBecomesReady(db: Db, v: VersionId, a: Artifact, size: int)
    requires v in db.versions && Open(db.versions[v].state) && ModelLive(db, db.versions[v].model)
    requires v in db.artifacts && db.artifacts[v] == a && ValidArtifact(a)
    requires db.versions[v].checksum == "" || db.versions[v].checksum == a.sha
    ensures var db1 := Apply(db, Op.SetChecksum(v, a.sha, size)); var db2 := Apply(db1, Op.MarkReady(v));
      && v in db1.versions && db1.versions[v].checksum == a.sha
      && db1.versions[v].size == (if size < 0 then db.versions[v].size else size)
      && v in db2.versions && db2.versions[v] == db1.versions[v].(state := Ready)
      && db2.versions[v].model in db2.models && db2.models[db2.versions[v].model].state == ModelReady
  {
  }

  // ---- replays of MarkReady ------------------------------------------------

  /** On sound tables MarkReady succeeds on every ready version of a model that is not
      deleted: its replay is success. */
  lemma ReadyReplays(db: Db, v: VersionId)
    requires Sound(db) && v in db.versions && db.versions[v].state == Ready
    requires db.models[db.versions[v].model].state != ModelDeleted
    ensures MarksReady(db, v)
  {
  }

  lemma {:induction false} ReadyStays(dbs: seq<Db>, ops: seq<Op>, i: nat, j: nat, v: VersionId)
    requires IsHistory(dbs, ops) && i <= j <= |ops| && v in dbs[i].versions && dbs[i].versions[v].state == Ready
    requires forall k :: i <= k < j ==> ops[k] != DeleteVersion(v)
    ensures v in dbs[j].versions && dbs[j].versions[v] == dbs[i].versions[v]
  {
    if i < j {
      ReadyStays(dbs, ops, i, j - 1, v);
      OnlyDeleteEndsReady(dbs[j - 1], ops[j - 1], v);
    }
  }

  lemma OnlyDeleteEndsReady(db: Db, op: Op, v: VersionId)
    requires v in db.versions && db.versions[v].state == Ready && op != DeleteVersion(v)
    ensures v in Apply(db, op).versions && Apply(db, op).versions[v] == db.versions[v]
  {
  }

  lemma {:induction false} LiveStays(dbs: seq<Db>, ops: seq<Op>, i: nat, j: nat, m: ModelId)
    requires IsHistory(dbs, ops) && i <= j <= |ops| && ModelLive(dbs[i], m)
    requires forall k :: i <= k < j ==> ops[k] != DeleteModel(m)
    ensures ModelLive(dbs[j], m)
  {
    if i < j {
      LiveStays(dbs, ops, i, j - 1, m);
      OnlyDeleteEndsLife(dbs[j - 1], ops[j - 1], m);
    }
  }

  lemma OnlyDeleteEndsLife(db: Db, op: Op, m: ModelId)
    requires ModelLive(db, m) && op != DeleteModel(m)
    ensures ModelLive(Apply(db, op), m)
  {
  }

  /** In any history, a MarkReady that took effect succeeds again, whoever repeats it and
      whatever came in between, as long as neither the version nor its model was deleted. */
  lemma MarkReadyIsRepeatable(dbs: seq<Db>, ops: seq<Op>, i: nat, j: nat, v: VersionId)
    requires IsHistory(dbs, ops) && Sound(dbs[0]) && i < j <= |ops|
    requires ops[i] == MarkReady(v) && Allowed(dbs[i], ops[i])
    requires forall k :: i < k < j ==> ops[k] != DeleteVersion(v) && ops[k] != DeleteModel(dbs[i].versions[v].model)
    ensures MarksReady(dbs[j], v) && v in dbs[j].versions && dbs[j].versions[v].state == Ready
  {
    assert dbs[i + 1] == Apply(dbs[i], ops[i]);
    ReadyStays(dbs, ops, i + 1, j, v);
    LiveStays(dbs, ops, i + 1, j, dbs[i].versions[v].model);
    HistoryKeepsIntegrity(dbs, ops, j, j);
    ReadyReplays(dbs[j], v);
  }

  /** A digest is the two hexadecimal digits, in either case, of each of 32 bytes. */
  predicate HexOf(hi: char, lo: char, byte: nat) {
    HexValue(hi) == Some(byte / 16) && HexValue(lo) == Some(byte % 16)
  }

  function HexValue(c: char): (n: Option<nat>)
    ensures n.Some? ==> n.value < 16
  {
    if '0' <= c <= '9' then Some(c as int - '0' as int)
    else if 'a' <= c <= 'f' then Some(c as int - 'a' as int + 10)
    else if 'A' <= c <= 'F' then Some(c as int - 'A' as int + 10)
    else None
  }

  ghost predicate Spells(s: string, bytes: seq<nat>) {
    && |bytes| == 32 && |s| == 64
    && forall k :: 0 <= k < 32 ==> bytes[k] < 256 && HexOf(s[2 * k], s[2 * k + 1], bytes[k])
  }

  lemma DigestsSpellBytes(s: string)
    ensures HexDigest(s) <==> exists bytes :: Spells(s, bytes)
  {
    if HexDigest(s) {
      var bytes := seq(32, k requires 0 <= k < 32 => 16 * HexValue(s[2 * k]).value + HexValue(s[2 * k + 1]).value);
      assert Spells(s, bytes);
    }
    if bytes :| Spells(s, bytes) {
      forall i | 0 <= i < 64 ensures HexValue(s[i]).Some? {
        assert HexOf(s[2 * (i / 2)], s[2 * (i / 2) + 1], bytes[i / 2]);
        assert i == 2 * (i / 2) || i == 2 * (i / 2) + 1;
      }
    }
  }
}
