/** PrepareTrainedArtifact for one tenant: frozen defaults, the request
    fingerprint, and idempotent creation under any number of racing callers. */
module Prepare {
  import opened Wrappers
  import opened Transitions

  type CallId = nat
  type RegId = nat

  /** <tenant>/trained-artifacts/<id>/model.tar. */
  datatype Path = TarOf(id: RegId)

  datatype Runtime = Runtime(
    engineType: string, engineImage: string, startup: string, imageId: string, imageScope: string)

  /** The part of the request that goes into the fingerprint as it stands. */
  datatype Content = Content(
    target: string, modelName: string, displayName: string, description: string, version: string,
    format: string, checksum: string, source: string, execution: string, capabilities: seq<string>, size: int)

  /** A request that passed the field checks, with its target already resolved. */
  datatype Request = Request(key: string, content: Content, runtime: Runtime)

  /** What the handler hashes. Equal hashes are taken to mean equal payloads. */
  datatype Fingerprint = Fingerprint(content: Content, runtime: Runtime)

  /** A registration row; `origin` records the request that created it. */
  datatype Row = Row(id: RegId, path: Path, fingerprint: Fingerprint, runtime: Runtime, origin: Request)

  datatype SourceRead = Unconfigured | Missing | Found(ready: bool, runtime: Runtime)

  datatype Refusal = IncompleteRuntime | NoRuntime | StoreUnavailable | SourceMissing | SourceNotReady | InvalidRuntime

  /** unicode.IsSpace. */
  predicate IsSpace(c: char) {
    c in {'\t', '\n', '\U{0B}', '\U{0C}', '\r', ' ', '\U{85}', '\U{A0}',
          '\U{1680}', '\U{2028}', '\U{2029}', '\U{202F}', '\U{205F}', '\U{3000}'}
    || '\U{2000}' <= c <= '\U{200A}'
  }

  /** strings.TrimSpace(s) is empty. */
  predicate Blank(s: string) { forall c <- s :: IsSpace(c) }

  /** strings.TrimSpace(s) is s. */
  predicate Trimmed(s: string) { s != "" ==> !IsSpace(s[0]) && !IsSpace(s[|s| - 1]) }

  predicate EngineDefaultsValid(r: Runtime) {
    !Blank(r.engineType) && !Blank(r.engineImage) && !Blank(r.startup) && '\r' !in r.startup && '\n' !in r.startup
  }

  predicate RecommendedImageValid(r: Runtime) {
    (r.imageId == "" && r.imageScope == "")
    || (!Blank(r.imageId) && Trimmed(r.imageId) && (r.imageScope == "platform" || r.imageScope == "tenant"))
  }

  function Provided(r: Runtime): nat {
    (if Blank(r.engineType) then 0 else 1) + (if Blank(r.engineImage) then 0 else 1)
    + (if Blank(r.startup) then 0 else 1)
  }

  function ResolveRuntime(q: Request, frozen: Option<Row>, source: SourceRead): Result<Runtime, Refusal> {
    var provided := Provided(q.runtime);
    if provided != 0 && provided != 3 then Err(IncompleteRuntime)
    else if provided == 0 && (q.content.source == "" || q.runtime.imageId != "") then Err(NoRuntime)
    else if frozen.None? && q.content.source != "" && source.Unconfigured? then Err(StoreUnavailable)
    else if frozen.None? && q.content.source != "" && source.Missing? then Err(SourceMissing)
    else if frozen.None? && q.content.source != "" && !source.ready then Err(SourceNotReady)
    else if provided == 3 then
      if EngineDefaultsValid(q.runtime) then Ok(q.runtime) else Err(InvalidRuntime)
    else if frozen.Some? then Ok(frozen.value.runtime)
    else if source.Found? && EngineDefaultsValid(source.runtime) && RecommendedImageValid(source.runtime)
      then Ok(source.runtime)
    else Err(InvalidRuntime)
  }

  function Candidate(q: Request, runtime: Runtime, id: RegId): Row {
    Row(id, TarOf(id), Fingerprint(q.content, runtime), runtime, q)
  }

  datatype Outcome = Prepared(id: RegId, path: Path) | Conflict | Refused(reason: Refusal)

  /** What the store answers when it finds a row under the key. */
  function Matched(existing: Row, wanted: Row): Outcome {
    if existing.fingerprint != wanted.fingerprint then Conflict else Prepared(existing.id, existing.path)
  }

  /** TrainedArtifactStore.Prepare. `meanwhile` is what other callers commit between
      its lookup and its insert; rows are never removed, so the recursion after a
      unique violation finds a row at once. */
  class RegistrationRows {
    var rows: map<string, Row>

    method Prepare(wanted: Row, meanwhile: map<string, Row>) returns (r: Outcome, depth: nat)
      requires meanwhile.Keys !! rows.Keys
      modifies this
      ensures depth <= 1
      ensures wanted.origin.key in rows && r == Matched(rows[wanted.origin.key], wanted)
      ensures var row := rows[wanted.origin.key];
        r == if row.fingerprint == wanted.fingerprint then Prepared(row.id, row.path) else Conflict
      ensures wanted.origin.key in old(rows) ==> rows == old(rows) && depth == 0
      ensures wanted.origin.key in meanwhile ==> rows == old(rows) + meanwhile && depth == 1
      ensures wanted.origin.key !in old(rows) && wanted.origin.key !in meanwhile ==>
                rows == (old(rows) + meanwhile)[wanted.origin.key := wanted] && depth == 0
      decreases |meanwhile|
    {
      var key := wanted.origin.key;
      if key in rows {
        return Matched(rows[key], wanted), 0;
      }
      rows := rows + meanwhile;
      if key in rows {
        assert key in meanwhile;
        r, depth := Prepare(wanted, map[]);
        depth := depth + 1;
      } else {
        rows := rows[key := wanted];
        r, depth := Prepared(wanted.id, wanted.path), 0;
      }
    }
  }

  // ---- the runtime rules ----------------------------------------------------

  /** s without the spaces around it. */
  function Trim(s: string): string { TrimRight(TrimLeft(s)) }

  function TrimLeft(s: string): string { if s != "" && IsSpace(s[0]) then TrimLeft(s[1..]) else s }

  function TrimRight(s: string): string {
    if s != "" && IsSpace(s[|s| - 1]) then TrimRight(s[..|s| - 1]) else s
  }

  lemma {:induction false} TrimsToNothing(s: string)
    ensures TrimLeft(s) == "" <==> Blank(s)
  {
    if s != "" {
      assert s == [s[0]] + s[1..];
      TrimsToNothing(s[1..]);
    }
  }

  lemma {:induction false} LeftTrimmed(s: string)
    ensures var t := TrimLeft(s); |t| <= |s| && (t != "" ==> !IsSpace(t[0]) && t[|t| - 1] == s[|s| - 1])
  {
    if s != "" && IsSpace(s[0]) {
      LeftTrimmed(s[1..]);
    }
  }

  lemma {:induction false} RightTrimmed(s: string)
    ensures var t := TrimRight(s); |t| <= |s| && (s != "" && !IsSpace(s[0]) ==> t != "")
  {
    if s != "" && IsSpace(s[|s| - 1]) {
      RightTrimmed(s[..|s| - 1]);
    }
  }

  /** The two checks on spaces are those of strings.TrimSpace. */
  lemma BlankAndTrimmed(s: string)
    ensures Blank(s) <==> Trim(s) == ""
    ensures Trimmed(s) <==> Trim(s) == s
  {
    TrimsToNothing(s);
    LeftTrimmed(s);
    RightTrimmed(TrimLeft(s));
    if s != "" && IsSpace(s[0]) {
      LeftTrimmed(s[1..]);
    } else if s != "" && IsSpace(s[|s| - 1]) {
      RightTrimmed(s[..|s| - 1]);
    }
  }

  predicate Set(s: string) { Trim(s) != "" }

  predicate Full(r: Runtime) { Set(r.engineType) && Set(r.engineImage) && Set(r.startup) }

  /** Which refusal, or which runtime, a request gets, told case by case. A source version
      is only inherited from, or only accepted beside a full runtime, when it is ready. */
  lemma RuntimeRules(q: Request, frozen: Option<Row>, source: SourceRead)
    ensures var r := ResolveRuntime(q, frozen, source);
      var some := Set(q.runtime.engineType) || Set(q.runtime.engineImage) || Set(q.runtime.startup);
      var all := Full(q.runtime);
      var looks := frozen.None? && q.content.source != "";
      && (r == Err(IncompleteRuntime) <==> some && !all)
      && (r == Err(NoRuntime) <==> !some && (q.content.source == "" || q.runtime.imageId != ""))
      && (r == Err(StoreUnavailable) ==> looks && source == Unconfigured)
      && (r == Err(SourceMissing) ==> looks && source == Missing)
      && (r == Err(SourceNotReady) ==> looks && source.Found? && !source.ready)
      && (r.Ok? && looks ==> source.Found? && source.ready)
      && (r.Ok? ==> (r.value ==
            if all then q.runtime else if frozen.Some? then frozen.value.runtime else source.runtime))
      && (all && (looks ==> source.Found? && source.ready) ==>
            (r.Ok? <==> '\r' !in q.runtime.startup && '\n' !in q.runtime.startup))
      && (!some && q.content.source != "" && q.runtime.imageId == "" && frozen.Some? ==> r.Ok?)
      && (!some && looks && q.runtime.imageId == "" && source.Found? && source.ready ==>
            (r.Ok? <==> Inheritable(source.runtime)))
  {
    BlankAndTrimmed(q.runtime.engineType);
    BlankAndTrimmed(q.runtime.engineImage);
    BlankAndTrimmed(q.runtime.startup);
    if source.Found? {
      BlankAndTrimmed(source.runtime.engineType);
      BlankAndTrimmed(source.runtime.engineImage);
      BlankAndTrimmed(source.runtime.startup);
      BlankAndTrimmed(source.runtime.imageId);
    }
  }

  /** Complete engine defaults, and a recommended image that is named and scoped or absent. */
  predicate Inheritable(r: Runtime) {
    && Full(r) && '\r' !in r.startup && '\n' !in r.startup
    && (|| (r.imageId == "" && r.imageScope == "")
        || (r.imageId != "" && Trim(r.imageId) == r.imageId && r.imageScope in {"platform", "tenant"}))
  }

  // ---- racing callers -------------------------------------------------------

  /** Where a caller stands between its statements. `depth` counts how often a
      unique violation has sent it back into Prepare. */
  datatype Call =
    | Looked(q: Request, frozen: Option<Row>)  // GetByIdempotencyKey has answered
    | Entering(wanted: Row, depth: nat)        // about to look the key up
    | Absent(wanted: Row, depth: nat)          // found nothing; about to insert
    | Done(q: Request, outcome: Outcome)

  datatype World = World(rows: map<string, Row>, calls: map<CallId, Call>)

  datatype Action =
    | Arrive(c: CallId, q: Request)
    | Resolve(c: CallId, source: SourceRead, id: RegId)
    | Lookup(c: CallId)
    | Insert(c: CallId)

  function At(rows: map<string, Row>, key: string): Option<Row> {
    if key in rows then Some(rows[key]) else None
  }

  predicate Enabled(x: World, a: Action) {
    match a
    case Arrive(c, _) => c !in x.calls
    case Resolve(c, _, _) => c in x.calls && x.calls[c].Looked?
    case Lookup(c) => c in x.calls && x.calls[c].Entering?
    case Insert(c) => c in x.calls && x.calls[c].Absent?
  }

  function Next(x: World, a: Action): World
    requires Enabled(x, a)
  {
    match a
    case Arrive(c, q) => x.(calls := x.calls[c := Looked(q, At(x.rows, q.key))])
    case Resolve(c, source, id) =>
      var q := x.calls[c].q;
      (match ResolveRuntime(q, x.calls[c].frozen, source)
       case Ok(runtime) => x.(calls := x.calls[c := Entering(Candidate(q, runtime, id), 0)])
       case Err(reason) => x.(calls := x.calls[c := Done(q, Refused(reason))]))
    case Lookup(c) =>
      var wanted := x.calls[c].wanted;
      if wanted.origin.key in x.rows
      then x.(calls := x.calls[c := Done(wanted.origin, Matched(x.rows[wanted.origin.key], wanted))])
      else x.(calls := x.calls[c := Absent(wanted, x.calls[c].depth)])
    case Insert(c) =>
      var wanted := x.calls[c].wanted;
      if wanted.origin.key in x.rows
      then x.(calls := x.calls[c := Entering(wanted, x.calls[c].depth + 1)])
      else World(x.rows[wanted.origin.key := wanted],
                 x.calls[c := Done(wanted.origin, Prepared(wanted.id, wanted.path))])
  }

  /** A row holds the runtime it was fingerprinted with, which is the request's own
      when the request named one. */
  predicate RowOk(row: Row) {
    && row.path == TarOf(row.id)
    && row.fingerprint == Fingerprint(row.origin.content, row.runtime)
    && (Provided(row.origin.runtime) == 3 ==> row.runtime == row.origin.runtime)
  }

  ghost predicate CallOk(rows: map<string, Row>, call: Call) {
    match call
    case Looked(q, frozen) => frozen.Some? ==> q.key in rows && rows[q.key] == frozen.value
    case Entering(wanted, depth) => RowOk(wanted) && depth <= 1 && (depth == 1 ==> wanted.origin.key in rows)
    case Absent(wanted, depth) => RowOk(wanted) && depth == 0
    case Done(q, outcome) =>
      && (outcome.Prepared? ==>
            q.key in rows && rows[q.key].id == outcome.id && outcome.path == TarOf(outcome.id)
            && rows[q.key].origin.content == q.content)
      && (outcome.Conflict? ==> q.key in rows)
  }

  ghost predicate Inv(x: World) {
    && (forall k <- x.rows :: RowOk(x.rows[k]) && x.rows[k].origin.key == k)
    && (forall c <- x.calls :: CallOk(x.rows, x.calls[c]))
  }

  predicate Extends(rows: map<string, Row>, rows': map<string, Row>) {
    forall k <- rows :: k in rows' && rows'[k] == rows[k]
  }

  lemma CallStaysOk(rows: map<string, Row>, rows': map<string, Row>, call: Call)
    requires CallOk(rows, call) && Extends(rows, rows')
    ensures CallOk(rows', call)
  {
  }

  lemma EveryActionKeepsInv(x: World, a: Action)
    requires Inv(x) && Enabled(x, a)
    ensures Inv(Next(x, a)) && Extends(x.rows, Next(x, a).rows)
  {
    var y := Next(x, a);
    assert a.c in x.calls ==> CallOk(x.rows, x.calls[a.c]);
    forall c | c in y.calls ensures CallOk(y.rows, y.calls[c]) {
      if c != a.c {
        CallStaysOk(x.rows, y.rows, x.calls[c]);
      }
    }
  }

  ghost predicate Start(x: World) { x == World(map[], map[]) }

  ghost predicate Step(x: World, a: Action, y: World) { Enabled(x, a) && y == Next(x, a) }

  ghost predicate IsRun(worlds: seq<World>, actions: seq<Action>) {
    Transitions.IsRun(worlds, actions, Start, Step)
  }

  lemma RunKeepsInv(worlds: seq<World>, actions: seq<Action>, n: nat)
    requires IsRun(worlds, actions) && n < |worlds|
    ensures Inv(worlds[n])
  {
    forall x, a, y | Inv(x) && Step(x, a, y) ensures Inv(y) {
      EveryActionKeepsInv(x, a);
    }
    RunKeeps(worlds, actions, Start, Step, Inv, n);
  }

  lemma {:induction false} RowsOnlyGrow(worlds: seq<World>, actions: seq<Action>, i: nat, j: nat)
    requires IsRun(worlds, actions) && i <= j < |worlds|
    ensures Extends(worlds[i].rows, worlds[j].rows)
  {
    if i < j {
      RowsOnlyGrow(worlds, actions, i, j - 1);
      RunKeepsInv(worlds, actions, j - 1);
      EveryActionKeepsInv(worlds[j - 1], actions[j - 1]);
    }
  }

  // ---- what idempotent creation promises ------------------------------------

  /** All successful callers under one key, however they raced, got the same id and
      path, of the one row the key has. */
  lemma OneRegistrationPerKey(worlds: seq<World>, actions: seq<Action>, i: nat, j: nat, c: CallId, d: CallId)
    requires IsRun(worlds, actions) && i <= j < |worlds|
    requires c in worlds[i].calls && worlds[i].calls[c].Done? && worlds[i].calls[c].outcome.Prepared?
    requires d in worlds[j].calls && worlds[j].calls[d].Done? && worlds[j].calls[d].outcome.Prepared?
    requires worlds[i].calls[c].q.key == worlds[j].calls[d].q.key
    ensures worlds[i].calls[c].outcome == worlds[j].calls[d].outcome
    ensures worlds[i].calls[c].q.content == worlds[j].calls[d].q.content
  {
    RunKeepsInv(worlds, actions, i);
    RunKeepsInv(worlds, actions, j);
    RowsOnlyGrow(worlds, actions, i, j);
    assert CallOk(worlds[i].rows, worlds[i].calls[c]) && CallOk(worlds[j].rows, worlds[j].calls[d]);
  }

  /** A unique violation sends a caller back into Prepare at most once. */
  lemma RecursionIsOneDeep(worlds: seq<World>, actions: seq<Action>, n: nat, c: CallId)
    requires IsRun(worlds, actions) && n < |worlds| && c in worlds[n].calls
    ensures worlds[n].calls[c].Entering? ==> worlds[n].calls[c].depth <= 1
    ensures worlds[n].calls[c].Absent? ==> worlds[n].calls[c].depth == 0
  {
    RunKeepsInv(worlds, actions, n);
    assert CallOk(worlds[n].rows, worlds[n].calls[c]);
  }

  /** Whether the row that stands is the answer to request q, looked up in time. */
  predicate Agrees(row: Row, q: Request) {
    && q.content == row.origin.content
    && (Provided(q.runtime) == 3 ==> q.runtime == row.runtime)
  }

  /** What the store answers to q when row stands and q's caller knew it. */
  function Verdict(row: Row, q: Request): Outcome {
    if Agrees(row, q) then Prepared(row.id, row.path) else Conflict
  }

  /** A caller who knew the row gets that verdict, whatever the source's defaults are. */
  lemma KnownRowDecides(row: Row, q: Request, source: SourceRead, id: RegId)
    requires RowOk(row)
    ensures var r := ResolveRuntime(q, Some(row), source);
            r.Ok? ==> Matched(row, Candidate(q, r.value, id)) == Verdict(row, q)
  {
  }

  /** Where a caller with request q can be once it has seen row. */
  predicate Knows(call: Call, q: Request, row: Row) {
    match call
    case Looked(p, frozen) => p == q && frozen == Some(row)
    case Entering(wanted, _) => wanted.origin == q && Matched(row, wanted) == Verdict(row, q)
    case Absent(_, _) => false
    case Done(p, outcome) => p == q && (outcome.Refused? || outcome == Verdict(row, q))
  }

  lemma KnowsOn(x: World, a: Action, c: CallId, q: Request, row: Row)
    requires Enabled(x, a) && c in x.calls && q.key in x.rows && x.rows[q.key] == row && RowOk(row)
    requires Knows(x.calls[c], q, row)
    ensures c in Next(x, a).calls && Knows(Next(x, a).calls[c], q, row)
  {
    if a.c == c && a.Resolve? {
      KnownRowDecides(row, q, a.source, a.id);
    }
  }

  /** Every caller that arrives once its key has a row is refused before the store or gets
      exactly the verdict: a conflict when its content or its own runtime is another, and
      otherwise the registration's id and path. */
  lemma {:induction false} OtherRequestConflicts(
      worlds: seq<World>, actions: seq<Action>, i: nat, j: nat, c: CallId)
    requires IsRun(worlds, actions) && i < j < |worlds|
    requires actions[i].Arrive? && actions[i].c == c && actions[i].q.key in worlds[i].rows
    ensures c in worlds[j].calls
    ensures var q := actions[i].q; var row := worlds[i].rows[q.key];
      && Knows(worlds[j].calls[c], q, row)
      && (worlds[j].calls[c].Done? && !worlds[j].calls[c].outcome.Refused? ==>
            worlds[j].calls[c].outcome ==
              if q.content != row.origin.content || (Provided(q.runtime) == 3 && q.runtime != row.runtime)
              then Conflict else Prepared(row.id, row.path))
  {
    if j == i + 1 {
      assert worlds[j] == Next(worlds[i], actions[i]);
    } else {
      OtherRequestConflicts(worlds, actions, i, j - 1, c);
      RowsOnlyGrow(worlds, actions, i, j - 1);
      RunKeepsInv(worlds, actions, i);
      KnowsOn(worlds[j - 1], actions[j - 1], c, actions[i].q, worlds[i].rows[actions[i].q.key]);
    }
  }

  // ---- what a registration froze ------------------------------------------------

  /** Step k resolved this candidate for caller c, who had found no registration. */
  ghost predicate ResolvedAt(worlds: seq<World>, actions: seq<Action>, k: nat, c: CallId, wanted: Row)
    requires k < |actions| < |worlds|
  {
    && actions[k].Resolve? && actions[k].c == c && c in worlds[k].calls && worlds[k].calls[c].Looked?
    && worlds[k].calls[c].q == wanted.origin
    && ResolveRuntime(wanted.origin, worlds[k].calls[c].frozen, actions[k].source) == Ok(wanted.runtime)
    && (worlds[k].calls[c].frozen.Some? ==> wanted.origin.key in worlds[k].rows)
  }

  /** A call on its way into the store was resolved at some step. */
  lemma {:induction false} CallsAreResolved(worlds: seq<World>, actions: seq<Action>, n: nat, c: CallId, wanted: Row)
    requires IsRun(worlds, actions) && n < |worlds| && c in worlds[n].calls
    requires var call := worlds[n].calls[c]; (call.Entering? || call.Absent?) && call.wanted == wanted
    ensures exists k :: 0 <= k < n && ResolvedAt(worlds, actions, k, c, wanted)
  {
    var i := n - 1;
    assert worlds[n] == Next(worlds[i], actions[i]);
    RunKeepsInv(worlds, actions, i);
    if actions[i].Resolve? && actions[i].c == c {
      assert CallOk(worlds[i].rows, worlds[i].calls[c]);
      assert ResolvedAt(worlds, actions, i, c, wanted);
    } else {
      CallsAreResolved(worlds, actions, i, c, wanted);
    }
  }

  /** A registration for a source version froze what was read of that version when it was
      ready: its defaults, unless the request named a full runtime of its own. */
  lemma {:induction false} FrozenFromAReadySource(worlds: seq<World>, actions: seq<Action>, n: nat, key: string)
    requires IsRun(worlds, actions) && n < |worlds| && key in worlds[n].rows
    requires worlds[n].rows[key].origin.content.source != ""
    ensures exists k :: 0 <= k < n && ReadReady(actions, k, worlds[n].rows[key])
  {
    var i := n - 1;
    var row := worlds[n].rows[key];
    assert worlds[n] == Next(worlds[i], actions[i]);
    RunKeepsInv(worlds, actions, i);
    if key in worlds[i].rows {
      RowsOnlyGrow(worlds, actions, i, n);
      FrozenFromAReadySource(worlds, actions, i, key);
    } else {
      var c := actions[i].c;
      assert actions[i].Insert? && worlds[i].calls[c].wanted == row;
      CallsAreResolved(worlds, actions, i, c, row);
      var k :| 0 <= k < i && ResolvedAt(worlds, actions, k, c, row);
      RowsOnlyGrow(worlds, actions, k, i);
      RuntimeRules(row.origin, None, actions[k].source);
      assert ReadReady(actions, k, row);
    }
  }

  predicate ReadReady(actions: seq<Action>, k: nat, row: Row)
    requires k < |actions|
  {
    && actions[k].Resolve? && actions[k].source.Found? && actions[k].source.ready
    && row.runtime == if Full(row.origin.runtime) then row.origin.runtime else actions[k].source.runtime
  }

  // ---- when a caller looked too early -----------------------------------------

  /** A caller on its way with the row it wants, or answered by comparison with it. */
  predicate Compares(rows: map<string, Row>, call: Call, wanted: Row) {
    match call
    case Looked(_, _) => false
    case Entering(w, _) => w == wanted
    case Absent(w, _) => w == wanted
    case Done(p, outcome) =>
      p == wanted.origin && p.key in rows && outcome == Matched(rows[p.key], wanted)
  }

  lemma ComparesOn(x: World, a: Action, c: CallId, wanted: Row)
    requires Enabled(x, a) && c in x.calls && Compares(x.rows, x.calls[c], wanted)
    requires Extends(x.rows, Next(x, a).rows)
    ensures c in Next(x, a).calls && Compares(Next(x, a).rows, Next(x, a).calls[c], wanted)
  {
  }

  /** Whoever looked up whatever and when: once the runtime is resolved, the answer is the
      comparison of the fingerprint with the one row that stands. */
  lemma {:induction false} FingerprintDecides(
      worlds: seq<World>, actions: seq<Action>, i: nat, j: nat, c: CallId)
    requires IsRun(worlds, actions) && i < j < |worlds|
    requires actions[i].Resolve? && actions[i].c == c
    requires var call := worlds[i].calls[c];
      ResolveRuntime(call.q, call.frozen, actions[i].source).Ok?
    ensures var q := worlds[i].calls[c].q;
            var r := ResolveRuntime(q, worlds[i].calls[c].frozen, actions[i].source).value;
      && c in worlds[j].calls && Compares(worlds[j].rows, worlds[j].calls[c], Candidate(q, r, actions[i].id))
      && (worlds[j].calls[c].Done? ==>
            && q.key in worlds[j].rows
            && worlds[j].calls[c].outcome ==
                 if worlds[j].rows[q.key].fingerprint != Fingerprint(q.content, r) then Conflict
                 else Prepared(worlds[j].rows[q.key].id, worlds[j].rows[q.key].path))
  {
    if j == i + 1 {
      assert worlds[j] == Next(worlds[i], actions[i]);
    } else {
      FingerprintDecides(worlds, actions, i, j - 1, c);
      RowsOnlyGrow(worlds, actions, j - 1, j);
      var call := worlds[i].calls[c];
      var r := ResolveRuntime(call.q, call.frozen, actions[i].source).value;
      ComparesOn(worlds[j - 1], actions[j - 1], c, Candidate(call.q, r, actions[i].id));
    }
  }

  /** A caller with the content of the standing row, whose lookup came before the row,
      resolves the defaults afresh: it conflicts exactly when what it resolved is not the
      runtime that the row froze. */
  lemma EarlyLookupConflictsExactlyOnNewDefaults(
      worlds: seq<World>, actions: seq<Action>, i: nat, j: nat, c: CallId)
    requires IsRun(worlds, actions) && i < j < |worlds|
    requires actions[i].Resolve? && actions[i].c == c && worlds[i].calls[c].frozen.None?
    requires ResolveRuntime(worlds[i].calls[c].q, None, actions[i].source).Ok?
    requires c in worlds[j].calls && worlds[j].calls[c].Done?
    ensures var q := worlds[i].calls[c].q;
      && q.key in worlds[j].rows
      && var row := worlds[j].rows[q.key];
         (q.content == row.origin.content ==>
            (worlds[j].calls[c].outcome == Conflict
             <==> row.runtime != if Provided(q.runtime) == 3 then q.runtime else actions[i].source.runtime))
  {
    FingerprintDecides(worlds, actions, i, j, c);
    RunKeepsInv(worlds, actions, j);
  }

  // ---- a repeated request that conflicts ---------------------------------------

  lemma Extend(worlds: seq<World>, actions: seq<Action>, a: Action)
    returns (worlds': seq<World>, actions': seq<Action>)
    requires IsRun(worlds, actions) && Enabled(worlds[|actions|], a)
    ensures IsRun(worlds', actions') && actions' == actions + [a]
    ensures worlds' == worlds + [Next(worlds[|actions|], a)]
  {
    worlds', actions' := ExtendRun(worlds, actions, Start, Step, a, Next(worlds[|actions|], a));
  }

  /** Two callers send the same request, both look it up before either inserts, the source's
      defaults change between their reads, and the second conflicts with the first. */
  lemma SameRequestCanConflict(q: Request, before: SourceRead, after: SourceRead)
    returns (worlds: seq<World>, actions: seq<Action>)
    requires ResolveRuntime(q, None, before).Ok? && ResolveRuntime(q, None, after).Ok?
    requires ResolveRuntime(q, None, before) != ResolveRuntime(q, None, after)
    ensures IsRun(worlds, actions) && |actions| == 7
    ensures actions[0] == Arrive(0, q) && actions[1] == Arrive(1, q)
    ensures var last := worlds[7].calls;
      && 0 in last && last[0] == Done(q, Prepared(8, TarOf(8)))
      && 1 in last && last[1] == Done(q, Conflict)
  {
    var first := ResolveRuntime(q, None, before).value;
    var second := ResolveRuntime(q, None, after).value;
    worlds, actions := [World(map[], map[])], [];
    worlds, actions := Extend(worlds, actions, Arrive(0, q));
    worlds, actions := Extend(worlds, actions, Arrive(1, q));
    worlds, actions := Extend(worlds, actions, Resolve(0, before, 8));
    worlds, actions := Extend(worlds, actions, Lookup(0));
    worlds, actions := Extend(worlds, actions, Insert(0));
    worlds, actions := Extend(worlds, actions, Resolve(1, after, 9));
    worlds, actions := Extend(worlds, actions, Lookup(1));
  }

  /** A request that inherits its runtime from a source version, and two readings of that
      version that resolve it differently. */
  lemma DefaultsCanDiffer() returns (q: Request, before: SourceRead, after: SourceRead)
    ensures ResolveRuntime(q, None, before).Ok? && ResolveRuntime(q, None, after).Ok?
    ensures ResolveRuntime(q, None, before) != ResolveRuntime(q, None, after)
  {
    var content := Content("", "m", "", "", "1", "gguf", "c", "source", "e", [], 1);
    q := Request("key", content, Runtime("", "", "", "", ""));
    before := Found(true, Runtime("a", "a", "a", "", ""));
    after := Found(true, Runtime("b", "b", "b", "", ""));
    assert "a"[0] != "b"[0];
    assert !IsSpace("a"[0]) && !IsSpace("b"[0]);
  }

  /** So there is a run, from no registrations at all, in which the second of two callers
      with one request conflicts. */
  lemma RepeatedPrepareConflicts() returns (worlds: seq<World>, actions: seq<Action>)
    ensures IsRun(worlds, actions) && |actions| == 7
    ensures actions[0].Arrive? && actions[1].Arrive? && actions[0].q == actions[1].q && actions[0].c != actions[1].c
    ensures var q := actions[0].q; var first, second := actions[0].c, actions[1].c; var last := worlds[7].calls;
      && first in last && last[first].Done? && last[first].outcome.Prepared?
      && second in last && last[second] == Done(q, Conflict)
  {
    var q, before, after := DefaultsCanDiffer();
    worlds, actions := SameRequestCanConflict(q, before, after);
  }

  /** In particular the request that made the row never conflicts again, once its caller
      has seen the row. */
  lemma LateReplayNeverConflicts(worlds: seq<World>, actions: seq<Action>, i: nat, j: nat, c: CallId)
    requires IsRun(worlds, actions) && i < j < |worlds|
    requires actions[i].Arrive? && actions[i].c == c
    requires actions[i].q.key in worlds[i].rows && worlds[i].rows[actions[i].q.key].origin == actions[i].q
    ensures c in worlds[j].calls
    ensures var row := worlds[i].rows[actions[i].q.key]; var call := worlds[j].calls[c];
      call.Done? ==> call.outcome.Refused? || call.outcome == Prepared(row.id, TarOf(row.id))
  {
    OtherRequestConflicts(worlds, actions, i, j, c);
    RunKeepsInv(worlds, actions, i);
  }
}
