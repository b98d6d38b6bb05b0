/** ImportBundle: a model, a version and a task created under one idempotency key
    in one repeatable-read transaction, raced by any number of callers and by the
    other writers of the three tables. */
module BundleImport {
  import opened Wrappers
  import opened Transitions

  type CallId = nat
  type RowId = nat

  /** Who inserted a row: call c, as part of a bundle, or another API. */
  datatype Maker = Bundle(c: CallId) | Elsewhere

  datatype Row = Row(id: RowId, fingerprint: string, maker: Maker)

  /** Rows with a non-empty idempotency key, by key; each table's index is unique. */
  datatype Tables = Tables(models: map<string, Row>, versions: map<string, Row>, tasks: map<string, Row>)

  datatype Ids = Ids(model: RowId, version: RowId, task: RowId)

  datatype Outcome = Imported(ids: Ids) | Conflict | Failed

  datatype Call =
    | Started(key: string, fingerprint: string)     // about to replay
    | Missing(key: string, fingerprint: string)     // nothing there; about to open the write transaction
    | InTx(key: string, fingerprint: string, snapshot: Tables, ids: Ids) // snapshot taken; about to read it
    | Inserting(key: string, fingerprint: string, ids: Ids, stage: nat)  // that many rows inserted, uncommitted
    | Violated(key: string, fingerprint: string)    // rolled back on a unique violation; about to replay
    | Done(key: string, fingerprint: string, outcome: Outcome)

  datatype World = World(tables: Tables, calls: map<CallId, Call>)

  datatype Action =
    | Start(c: CallId, key: string, fingerprint: string)
    | Replay(c: CallId)
    | Open(c: CallId, ids: Ids)
    | Read(c: CallId)
    | Insert(c: CallId, clash: bool)  // clash: some other unique index refuses the row
    | Commit(c: CallId, acked: bool)
    | Abort(c: CallId)
    | Other(table: nat, key: string, row: Row)

  function Table(t: Tables, i: nat): map<string, Row> {
    if i == 0 then t.models else if i == 1 then t.versions else t.tasks
  }

  predicate None3(t: Tables, key: string) { key !in t.models && key !in t.versions && key !in t.tasks }

  predicate All3(t: Tables, key: string) { key in t.models && key in t.versions && key in t.tasks }

  predicate Matches(t: Tables, key: string, fingerprint: string) {
    All3(t, key) && t.models[key].fingerprint == fingerprint
    && t.versions[key].fingerprint == fingerprint && t.tasks[key].fingerprint == fingerprint
  }

  function IdsOf(t: Tables, key: string): Ids
    requires All3(t, key)
  {
    Ids(t.models[key].id, t.versions[key].id, t.tasks[key].id)
  }

  /** replayBundle: None when the aggregate is missing altogether. */
  function ReplayBundle(t: Tables, key: string, fingerprint: string): Option<Outcome> {
    if None3(t, key) then None
    else if Matches(t, key, fingerprint) then Some(Imported(IdsOf(t, key)))
    else Some(Conflict)
  }

  /** Another transaction has an uncommitted row with this key in table i. */
  predicate Reserved(x: World, c: CallId, key: string, i: nat) {
    exists d <- x.calls :: d != c && x.calls[d].Inserting? && x.calls[d].key == key && x.calls[d].stage > i
  }

  predicate Enabled(x: World, a: Action) {
    match a
    case Start(c, _, _) => c !in x.calls
    case Replay(c) => c in x.calls && (x.calls[c].Started? || x.calls[c].Violated?)
    case Open(c, _) => c in x.calls && x.calls[c].Missing?
    case Read(c) => c in x.calls && x.calls[c].InTx?
    case Insert(c, _) =>
      && c in x.calls && x.calls[c].Inserting? && x.calls[c].stage < 3
      && !Reserved(x, c, x.calls[c].key, x.calls[c].stage)
    case Commit(c, _) => c in x.calls && x.calls[c].Inserting? && x.calls[c].stage == 3
    case Abort(c) => c in x.calls && !x.calls[c].Done?
    case Other(i, key, row) =>
      i < 3 && key !in Table(x.tables, i) && row.maker == Elsewhere
      && !(exists d <- x.calls :: x.calls[d].Inserting? && x.calls[d].key == key && x.calls[d].stage > i)
  }

  function Put(t: Tables, i: nat, key: string, row: Row): Tables {
    if i == 0 then t.(models := t.models[key := row])
    else if i == 1 then t.(versions := t.versions[key := row])
    else t.(tasks := t.tasks[key := row])
  }

  function Committed(t: Tables, c: CallId, call: Call): Tables
    requires call.Inserting?
  {
    var k, fp := call.key, call.fingerprint;
    Tables(t.models[k := Row(call.ids.model, fp, Bundle(c))],
           t.versions[k := Row(call.ids.version, fp, Bundle(c))],
           t.tasks[k := Row(call.ids.task, fp, Bundle(c))])
  }

  /** The call's next position; only Commit and Other write the tables. */
  function Moved(x: World, a: Action): Call
    requires Enabled(x, a) && !a.Other?
  {
    match a
    case Start(_, key, fp) => Started(key, fp)
    case Replay(c) =>
      var k, fp := x.calls[c].key, x.calls[c].fingerprint;
      (match ReplayBundle(x.tables, k, fp)
       case Some(outcome) => Done(k, fp, outcome)
       case None => if x.calls[c].Started? then Missing(k, fp) else Done(k, fp, Failed))
    case Open(c, ids) => InTx(x.calls[c].key, x.calls[c].fingerprint, x.tables, ids)
    case Read(c) =>
      var call := x.calls[c];
      (match ReplayBundle(call.snapshot, call.key, call.fingerprint)
       case Some(Imported(ids)) => Done(call.key, call.fingerprint, Imported(ids))
       case Some(_) => Violated(call.key, call.fingerprint)
       case None => Inserting(call.key, call.fingerprint, call.ids, 0))
    case Insert(c, clash) =>
      var call := x.calls[c];
      if clash || call.key in Table(x.tables, call.stage) then Violated(call.key, call.fingerprint)
      else call.(stage := call.stage + 1)
    case Commit(c, acked) =>
      Done(x.calls[c].key, x.calls[c].fingerprint, if acked then Imported(x.calls[c].ids) else Failed)
    case Abort(c) => Done(x.calls[c].key, x.calls[c].fingerprint, Failed)
  }

  function Next(x: World, a: Action): World
    requires Enabled(x, a)
  {
    if a.Other? then x.(tables := Put(x.tables, a.table, a.key, a.row))
    else World(if a.Commit? then Committed(x.tables, a.c, x.calls[a.c]) else x.tables, x.calls[a.c := Moved(x, a)])
  }

  predicate Step(x: World, a: Action, y: World) { Enabled(x, a) && y == Next(x, a) }

  predicate Grows(t: Tables, t': Tables) {
    && (forall k <- t.models :: k in t'.models && t'.models[k] == t.models[k])
    && (forall k <- t.versions :: k in t'.versions && t'.versions[k] == t.versions[k])
    && (forall k <- t.tasks :: k in t'.tasks && t'.tasks[k] == t.tasks[k])
  }

  /** A bundle's row in one table means its rows in all three. */
  predicate WholeBundles(t: Tables) {
    forall i, k :: 0 <= i < 3 && k in Table(t, i) && Table(t, i)[k].maker != Elsewhere ==>
      All3(t, k) && t.models[k].maker == t.versions[k].maker == t.tasks[k].maker
  }

  ghost predicate CallOk(t: Tables, call: Call) {
    match call
    case InTx(_, _, snapshot, _) => Grows(snapshot, t)
    case Inserting(key, _, _, stage) => stage <= 3 && forall i :: 0 <= i < stage ==> key !in Table(t, i)
    case Done(key, fp, outcome) => outcome.Imported? ==> Matches(t, key, fp) && outcome.ids == IdsOf(t, key)
    case _ => true
  }

  /** Two write transactions for one key. */
  predicate Rivals(x: World, c: CallId, d: CallId) {
    && c in x.calls && d in x.calls && c != d
    && x.calls[c].Inserting? && x.calls[d].Inserting? && x.calls[c].key == x.calls[d].key
  }

  ghost predicate Inv(x: World) {
    && WholeBundles(x.tables)
    && (forall c <- x.calls :: CallOk(x.tables, x.calls[c]))
    && (forall c <- x.calls, d <- x.calls :: Rivals(x, c, d) ==>
          x.calls[c].stage == 0 || x.calls[d].stage == 0)
  }

  lemma EveryActionGrows(x: World, a: Action)
    requires Inv(x) && Enabled(x, a)
    ensures Grows(x.tables, Next(x, a).tables)
  {
    if a.Commit? {
      var call := x.calls[a.c];
      assert CallOk(x.tables, call);
      assert call.key !in Table(x.tables, 0) && call.key !in Table(x.tables, 1) && call.key !in Table(x.tables, 2);
    }
  }

  lemma EveryActionKeepsBundles(x: World, a: Action)
    requires Inv(x) && Enabled(x, a)
    ensures WholeBundles(Next(x, a).tables)
  {
    var t, t' := x.tables, Next(x, a).tables;
    EveryActionGrows(x, a);
    forall i, k | 0 <= i < 3 && k in Table(t', i) && Table(t', i)[k].maker != Elsewhere
      ensures All3(t', k) && t'.models[k].maker == t'.versions[k].maker == t'.tasks[k].maker
    {
      if k in Table(t, i) {
        assert Table(t, i)[k] == Table(t', i)[k];
      }
    }
  }

  lemma GrowthKeepsCall(t: Tables, t': Tables, call: Call)
    requires CallOk(t, call) && Grows(t, t')
    requires call.Inserting? ==> forall i :: 0 <= i < call.stage ==> call.key !in Table(t', i)
    ensures CallOk(t', call)
  {
  }

  lemma OtherCallsStayOk(x: World, a: Action, d: CallId)
    requires Inv(x) && Enabled(x, a) && d in x.calls && (a.Other? || d != a.c)
    ensures CallOk(Next(x, a).tables, x.calls[d])
  {
    EveryActionGrows(x, a);
    var call := x.calls[d];
    if call.Inserting? {
      forall i | 0 <= i < call.stage ensures call.key !in Table(Next(x, a).tables, i) {
        assert call.key !in Table(x.tables, i);
      }
    }
    GrowthKeepsCall(x.tables, Next(x, a).tables, call);
  }

  lemma MovedCallIsOk(x: World, a: Action)
    requires Inv(x) && Enabled(x, a) && !a.Other?
    ensures CallOk(Next(x, a).tables, Moved(x, a))
  {
    if !a.Start? {
      assert CallOk(x.tables, x.calls[a.c]);
    }
  }

  lemma EveryActionKeepsInv(x: World, a: Action)
    requires Inv(x) && Enabled(x, a)
    ensures Inv(Next(x, a))
  {
    var y := Next(x, a);
    EveryActionKeepsBundles(x, a);
    forall d | d in y.calls ensures CallOk(y.tables, y.calls[d]) {
      if a.Other? || d != a.c {
        OtherCallsStayOk(x, a, d);
      } else {
        MovedCallIsOk(x, a);
      }
    }
  }

  ghost predicate Initial(x: World) { x.calls == map[] && WholeBundles(x.tables) }

  ghost predicate IsRun(worlds: seq<World>, actions: seq<Action>) {
    Transitions.IsRun(worlds, actions, Initial, Step)
  }

  lemma RunKeepsInv(worlds: seq<World>, actions: seq<Action>, n: nat)
    requires IsRun(worlds, actions) && n < |worlds|
    ensures Inv(worlds[n])
  {
    forall x, a, y | Inv(x) && Step(x, a, y) ensures Inv(y) {
      EveryActionKeepsInv(x, a);
    }
    RunKeeps(worlds, actions, Initial, Step, Inv, n);
  }

  lemma {:induction false} TablesOnlyGrow(worlds: seq<World>, actions: seq<Action>, i: nat, j: nat)
    requires IsRun(worlds, actions) && i <= j < |worlds|
    ensures Grows(worlds[i].tables, worlds[j].tables)
  {
    if i < j {
      TablesOnlyGrow(worlds, actions, i, j - 1);
      RunKeepsInv(worlds, actions, j - 1);
      EveryActionGrows(worlds[j - 1], actions[j - 1]);
    }
  }

  /** No state of any race holds part of a bundle. */
  lemma NeverAPartialBundle(worlds: seq<World>, actions: seq<Action>, n: nat, i: nat, key: string)
    requires IsRun(worlds, actions) && n < |worlds| && i < 3
    requires key in Table(worlds[n].tables, i) && Table(worlds[n].tables, i)[key].maker != Elsewhere
    ensures var t := worlds[n].tables;
            All3(t, key) && t.models[key].maker == t.versions[key].maker == t.tasks[key].maker
  {
    RunKeepsInv(worlds, actions, n);
  }

  /** All callers that succeed under one key get the same three ids, asked for the
      same request, and those are the rows the key has. */
  lemma SuccessfulCallersAgree(worlds: seq<World>, actions: seq<Action>, i: nat, j: nat, c: CallId, d: CallId)
    requires IsRun(worlds, actions) && i <= j < |worlds|
    requires c in worlds[i].calls && worlds[i].calls[c].Done? && worlds[i].calls[c].outcome.Imported?
    requires d in worlds[j].calls && worlds[j].calls[d].Done? && worlds[j].calls[d].outcome.Imported?
    requires worlds[i].calls[c].key == worlds[j].calls[d].key
    ensures worlds[i].calls[c].outcome == worlds[j].calls[d].outcome
    ensures worlds[i].calls[c].fingerprint == worlds[j].calls[d].fingerprint
    ensures Matches(worlds[j].tables, worlds[j].calls[d].key, worlds[j].calls[d].fingerprint)
    ensures worlds[j].calls[d].outcome.ids == IdsOf(worlds[j].tables, worlds[j].calls[d].key)
  {
    RunKeepsInv(worlds, actions, i);
    RunKeepsInv(worlds, actions, j);
    TablesOnlyGrow(worlds, actions, i, j);
    assert CallOk(worlds[i].tables, worlds[i].calls[c]) && CallOk(worlds[j].tables, worlds[j].calls[d]);
  }

  /** A caller that lost the race finds the winner's bundle when it replays. */
  lemma LoserFindsTheWinner(x: World, c: CallId, d: CallId)
    requires Inv(x) && Enabled(x, Commit(d, true)) && c in x.calls && c != d
    requires x.calls[c].Inserting? && x.calls[c].key == x.calls[d].key
    requires x.calls[c].fingerprint == x.calls[d].fingerprint
    ensures var y := Next(x, Commit(d, true));
            && Enabled(y, Insert(c, false)) && Next(y, Insert(c, false)).calls[c].Violated?
            && var z := Next(y, Insert(c, false));
            Next(z, Replay(c)).calls[c] == Done(x.calls[c].key, x.calls[c].fingerprint, Imported(x.calls[d].ids))
  {
    assert CallOk(x.tables, x.calls[c]);
  }
}
