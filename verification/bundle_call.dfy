/** ImportBundle as a program: one caller's statements, while other callers and other
    writers act between them. Every step it takes is one of the race in BundleImport. */
module BundleCall {
  import opened Wrappers
  import opened Transitions
  import opened BundleImport

  /** Actions of anyone but caller c. */
  predicate Foreign(a: Action, c: CallId) { a.Other? || a.c != c }

  lemma StepsKeepInv(x: World, actions: seq<Action>, y: World)
    requires Inv(x) && Leads(x, actions, y, Step)
    ensures Inv(y)
  {
    forall u, a, v | Inv(u) && Step(u, a, v) ensures Inv(v) {
      EveryActionKeepsInv(u, a);
    }
    LeadsKeeps(x, actions, y, Step, Inv);
  }

  /** The tables with the bundle of caller c in them. */
  function WithBundle(t: Tables, c: CallId, key: string, fingerprint: string, ids: Ids): Tables {
    Committed(t, c, Inserting(key, fingerprint, ids, 3))
  }

  /** Nobody but c has a write transaction for this key. */
  predicate NoRival(x: World, c: CallId, key: string) {
    forall d <- x.calls :: d != c && x.calls[d].Inserting? ==> x.calls[d].key != key
  }

  /** Nothing happens between a caller's statements, and nothing goes wrong in them. */
  predicate Undisturbed(pauses: seq<seq<Action>>, clashes: seq<bool>, acked: bool) {
    acked && (forall k :: 0 <= k < |pauses| ==> pauses[k] == []) && forall k :: 0 <= k < |clashes| ==> !clashes[k]
  }

  /** What a call alone answers and does. */
  function Alone(t: Tables, key: string, fingerprint: string, ids: Ids): Outcome {
    match ReplayBundle(t, key, fingerprint)
    case Some(outcome) => outcome
    case None => Imported(ids)
  }

  class Caller {
    const c: CallId
    var world: World
    ghost var trace: seq<Action>
    ghost const first: World

    ghost predicate Valid() reads this { Leads(first, trace, world, Step) }

    /** The caller stands at this point of its call. */
    ghost predicate At(call: Call) reads this {
      Valid() && c in world.calls && world.calls[c] == call
    }

    constructor (c: CallId, world: World)
      ensures Valid() && this.c == c && this.world == world && first == world
    {
      this.c, this.world := c, world;
      first, trace := world, [];
    }

    method Act(a: Action)
      requires Valid() && Enabled(world, a)
      modifies this
      ensures Valid() && world == Next(old(world), a)
    {
      LeadsOn(first, trace, world, a, Next(world, a), Step);
      world, trace := Next(world, a), trace + [a];
    }

    /** What the others do meanwhile; an action that is not open to them is dropped. */
    method Meanwhile(others: seq<Action>)
      requires Valid()
      modifies this
      ensures Valid() && (c in world.calls <==> c in old(world).calls)
      ensures c in world.calls ==> world.calls[c] == old(world).calls[c]
      ensures others == [] ==> world == old(world)
    {
      for n := 0 to |others|
        invariant Valid() && (c in world.calls <==> c in old(world).calls)
        invariant c in world.calls ==> world.calls[c] == old(world).calls[c]
        invariant n == 0 ==> world == old(world)
      {
        if Foreign(others[n], c) && Enabled(world, others[n]) {
          Act(others[n]);
        }
      }
    }

    /** replayBundle, in a read-only transaction. */
    method Replay(call: Call) returns (after: Call)
      requires At(call) && (call.Started? || call.Violated?)
      modifies this
      ensures At(after) && after.key == call.key && after.fingerprint == call.fingerprint
      ensures after.Done? || (call.Started? && after == Missing(call.key, call.fingerprint))
      ensures world == old(world).(calls := old(world).calls[c := after])
      ensures var answer := ReplayBundle(old(world).tables, call.key, call.fingerprint);
        if answer.Some? then after == Done(call.key, call.fingerprint, answer.value)
        else after.Missing? == call.Started?
    {
      Act(Action.Replay(c));
      after := world.calls[c];
    }

    /** One insert. It waits for a rival's uncommitted row; one that would wait for ever
        is given up with the call. */
    method InsertRow(call: Call, pause: seq<Action>, clash: bool) returns (after: Call)
      requires At(call) && call.Inserting? && call.stage < 3
      modifies this
      ensures At(after) && after.key == call.key && after.fingerprint == call.fingerprint
      ensures after.Done? || after.Violated? || after == call.(stage := call.stage + 1)
      ensures pause == [] && !clash && None3(old(world).tables, call.key) && NoRival(old(world), c, call.key)
        ==> after.Inserting? && world.tables == old(world).tables && NoRival(world, c, call.key)
    {
      Meanwhile(pause);
      if Reserved(world, c, call.key, call.stage) {
        Act(Abort(c));
      } else {
        Act(Insert(c, clash));
      }
      after := world.calls[c];
    }

    /** importBundleTx: the three lookups on its snapshot, the three inserts, the commit. */
    method WriteTx(call: Call, ids: Ids, pauses: seq<seq<Action>>, clashes: seq<bool>, acked: bool)
      returns (after: Call)
      requires At(call) && call.Missing? && |pauses| == 5 && |clashes| == 3
      modifies this
      ensures At(after) && after.key == call.key && after.fingerprint == call.fingerprint
      ensures after.Done? || after.Violated?
      ensures Undisturbed(pauses, clashes, acked)
              && None3(old(world).tables, call.key) && NoRival(old(world), c, call.key)
        ==> after == Done(call.key, call.fingerprint, Imported(ids))
            && world.tables == WithBundle(old(world).tables, c, call.key, call.fingerprint, ids)
    {
      ghost var quiet := Undisturbed(pauses, clashes, acked)
        && None3(world.tables, call.key) && NoRival(world, c, call.key);
      Act(Open(c, ids));
      Meanwhile(pauses[0]);
      Act(Read(c));
      after := world.calls[c];
      if !after.Inserting? {
        return;
      }
      for stage := 0 to 3
        invariant At(after) && after == Inserting(call.key, call.fingerprint, ids, stage)
        invariant quiet ==> world.tables == old(world).tables && NoRival(world, c, call.key)
      {
        after := InsertRow(after, pauses[stage + 1], clashes[stage]);
        if !after.Inserting? {
          return;
        }
      }
      Meanwhile(pauses[4]);
      Act(Commit(c, acked));
      after := world.calls[c];
    }

    /** ImportBundle. Whatever the others do between its statements, an answer with ids
        names the three rows that stand under the key, all with this request's
        fingerprint. Undisturbed, the call inserts the three rows exactly when the key has
        none, and otherwise answers from the rows it has, changing nothing. */
    method ImportBundle(
        key: string, fingerprint: string, ids: Ids,
        before: seq<Action>, pauses: seq<seq<Action>>, clashes: seq<bool>, acked: bool, after: seq<Action>)
      returns (r: Outcome)
      requires Valid() && Inv(first) && c !in world.calls && |pauses| == 5 && |clashes| == 3
      modifies this
      ensures Valid() && Inv(world) && At(Done(key, fingerprint, r))
      ensures r.Imported? ==> Matches(world.tables, key, fingerprint) && r.ids == IdsOf(world.tables, key)
      ensures before == [] && Undisturbed(pauses, clashes, acked) && NoRival(old(world), c, key) ==>
        && r == Alone(old(world).tables, key, fingerprint, ids)
        && world.tables == if None3(old(world).tables, key) then WithBundle(old(world).tables, c, key, fingerprint, ids)
                           else old(world).tables
      ensures r.Imported? ==> var t := world.tables;
        && key in t.models && key in t.versions && key in t.tasks
        && t.models[key].fingerprint == t.versions[key].fingerprint == t.tasks[key].fingerprint == fingerprint
        && r.ids == Ids(t.models[key].id, t.versions[key].id, t.tasks[key].id)
      ensures before == [] && Undisturbed(pauses, clashes, acked) && NoRival(old(world), c, key) ==>
        var t := old(world).tables;
        if key !in t.models && key !in t.versions && key !in t.tasks then
          && r == Imported(ids)
          && world.tables.models == t.models[key := Row(ids.model, fingerprint, Bundle(c))]
          && world.tables.versions == t.versions[key := Row(ids.version, fingerprint, Bundle(c))]
          && world.tables.tasks == t.tasks[key := Row(ids.task, fingerprint, Bundle(c))]
        else
          && world.tables == t
          && (r.Imported? <==>
                && key in t.models && key in t.versions && key in t.tasks
                && t.models[key].fingerprint == t.versions[key].fingerprint == t.tasks[key].fingerprint == fingerprint)
          && (r.Imported? || r == Conflict)
    {
      Act(Start(c, key, fingerprint));
      var call := Replay(world.calls[c]);
      if call.Missing? {
        Meanwhile(before);
        call := WriteTx(call, ids, pauses, clashes, acked);
        if call.Violated? {
          Meanwhile(after);
          call := Replay(call);
        }
      }
      r := call.outcome;
      StepsKeepInv(first, trace, world);
      assert CallOk(world.tables, world.calls[c]);
    }
  }
}
