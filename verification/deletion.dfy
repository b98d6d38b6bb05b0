/** Protected deletion: the transaction body that asks the reference checker about
    every version, in batches, before it writes. Its steps under concurrency are in
    RowLocks. */
module Deletion {
  import opened Wrappers
  import opened Catalog
  import L = RowLocks

  datatype DeleteError = NotFound | InUse | CheckUnavailable

  /** The inference client refuses a request that is empty or names more than 256
      versions; otherwise it passes on the service's answer. */
  function ClientAnswer(batch: seq<VersionId>, service: L.Answer): L.Answer {
    if |batch| < 1 || |batch| > 256 then L.Unavailable else service
  }

  lemma {:induction false} LeastExists(s: set<VersionId>) returns (least: VersionId)
    requires s != {}
    ensures least in s && forall x <- s :: least <= x
  {
    var x :| x in s;
    if s == {x} {
      least := x;
    } else {
      var rest := s - {x};
      var y := LeastExists(rest);
      least := if x <= y then x else y;
      assert forall z <- s :: z == x || z in rest;
    }
  }

  /** SELECT id ... WHERE model_id = m ORDER BY id: no status filter. */
  method ListVersionIds(versions: map<VersionId, Version>, m: ModelId) returns (ids: seq<VersionId>)
    ensures L.Ascending(ids)
    ensures forall v :: v in ids <==> v in versions && versions[v].model == m
  {
    var todo := set v | v in versions && versions[v].model == m;
    ids := [];
    while todo != {}
      invariant L.Ascending(ids)
      invariant forall x <- ids, y <- todo :: x < y
      invariant forall v :: v in ids || v in todo <==> v in versions && versions[v].model == m
      decreases todo
    {
      ghost var w := LeastExists(todo);
      var v :| v in todo && forall x <- todo :: v <= x;
      forall i | 0 <= i < |ids| ensures ids[i] < v {
        assert ids[i] in ids;
      }
      ids, todo := ids + [v], todo - {v};
    }
  }

  /** Sends ids in batches until one is not known to be inactive. `service` is what
      the reference service answers to the k-th request. */
  method CheckReferences(ids: seq<VersionId>, service: (nat, seq<VersionId>) -> L.Answer)
    returns (verdict: L.Answer, asked: seq<seq<VersionId>>)
    ensures forall b <- asked :: 1 <= |b| <= 256
    ensures L.Flat(asked) <= ids
    ensures forall k :: 0 <= k < |asked| - 1 ==> service(k, asked[k]) == L.Inactive
    ensures verdict == L.Inactive ==>
              L.Flat(asked) == ids && forall k :: 0 <= k < |asked| ==> service(k, asked[k]) == L.Inactive
    ensures ids != [] ==> asked != []
    ensures verdict != L.Inactive ==> asked != [] && verdict == service(|asked| - 1, asked[|asked| - 1])
  {
    asked := [];
    var start := 0;
    while start < |ids|
      invariant 0 <= start <= |ids|
      invariant L.Flat(asked) == ids[..start]
      invariant forall b <- asked :: 1 <= |b| <= 256
      invariant forall k :: 0 <= k < |asked| ==> service(k, asked[k]) == L.Inactive
      decreases |ids| - start
    {
      var end := start + 256;
      if end > |ids| {
        end := |ids|;
      }
      var batch := ids[start..end];
      var answer := ClientAnswer(batch, service(|asked|, batch));
      assert (asked + [batch])[..|asked|] == asked;
      asked := asked + [batch];
      assert L.Flat(asked) == ids[..start] + batch == ids[..end];
      if answer != L.Inactive {
        return answer, asked;
      }
      start := end;
    }
    verdict := L.Inactive;
    assert ids[..start] == ids;
  }

  /** DeleteModel. A deleted model is left as it is without a check. */
  method DeleteModel(tables: CatalogTables, m: ModelId, service: (nat, seq<VersionId>) -> L.Answer)
    returns (r: Result<(), DeleteError>, asked: seq<seq<VersionId>>)
    modifies tables
    ensures r.Err? ==> tables.State() == old(tables.State())
    ensures r.Ok? ==> m in old(tables.models) && tables.State() == Apply(old(tables.State()), Op.DeleteModel(m))
    ensures r.Ok? ==> tables.models == old(tables.models)[m := old(tables.models)[m].(state := ModelDeleted)]
    ensures tables.versions == old(tables.versions) && tables.artifacts == old(tables.artifacts)
    ensures m in old(tables.models) && old(tables.models)[m].state == ModelDeleted ==> r.Ok? && asked == []
    ensures r == Err(NotFound) <==> m !in old(tables.models)
    ensures r.Ok? && ModelLive(old(tables.State()), m) ==>
              && tables.models[m].state == ModelDeleted
              && (forall v :: v in tables.versions && tables.versions[v].model == m <==> v in L.Flat(asked))
              && L.Ascending(L.Flat(asked))
              && (forall k :: 0 <= k < |asked| ==> 1 <= |asked[k]| <= 256 && service(k, asked[k]) == L.Inactive)
    ensures r == Err(InUse) ==> asked != [] && service(|asked| - 1, asked[|asked| - 1]) == L.Active
    ensures r == Err(CheckUnavailable) ==> asked != [] && service(|asked| - 1, asked[|asked| - 1]) == L.Unavailable
  {
    asked := [];
    if m !in tables.models {
      return Err(NotFound), asked;
    }
    if tables.models[m].state == ModelDeleted {
      return Ok(()), asked;
    }
    var ids := ListVersionIds(tables.versions, m);
    var verdict;
    verdict, asked := CheckReferences(ids, service);
    match verdict {
      case Unavailable => return Err(CheckUnavailable), asked;
      case Active => return Err(InUse), asked;
      case Inactive =>
    }
    tables.models := tables.models[m := tables.models[m].(state := ModelDeleted)];
    r := Ok(());
  }

  /** DeleteVersion: one version, one request; nothing to do under a deleted model. */
  method DeleteVersion(tables: CatalogTables, v: VersionId, service: (nat, seq<VersionId>) -> L.Answer)
    returns (r: Result<(), DeleteError>, asked: seq<seq<VersionId>>)
    modifies tables
    ensures r.Err? ==> tables.State() == old(tables.State())
    ensures r.Ok? ==> tables.State() == Apply(old(tables.State()), Op.DeleteVersion(v))
    ensures r.Ok? ==> v in old(tables.versions) && old(tables.versions)[v].model in old(tables.models)
    ensures r.Ok? ==> (tables.versions ==
              if old(tables.models)[old(tables.versions)[v].model].state == ModelDeleted then old(tables.versions)
              else old(tables.versions)[v := old(tables.versions)[v].(state := Deleted)])
    ensures tables.models == old(tables.models) && tables.artifacts == old(tables.artifacts)
    ensures r.Ok? && Allowed(old(tables.State()), Op.DeleteVersion(v)) ==>
              asked == [[v]] && service(0, [v]) == L.Inactive && tables.versions[v].state == Deleted
    ensures r == Err(NotFound) <==> v !in old(tables.versions) || old(tables.versions)[v].model !in old(tables.models)
    ensures r == Err(InUse) ==> service(0, [v]) == L.Active
    ensures r == Err(CheckUnavailable) ==> service(0, [v]) == L.Unavailable
  {
    asked := [];
    if v !in tables.versions || tables.versions[v].model !in tables.models {
      return Err(NotFound), asked;
    }
    if tables.models[tables.versions[v].model].state == ModelDeleted || tables.versions[v].state == Deleted {
      return Ok(()), asked;
    }
    var verdict;
    verdict, asked := CheckReferences([v], service);
    NoMoreBatchesThanIds(asked);
    assert asked[..0] == [] && L.Flat(asked[..0]) == [];
    assert L.Flat(asked) == [] + asked[0] == asked[0] && asked[0] in asked;
    assert asked[0] == [v] && asked == [asked[0]];
    match verdict {
      case Unavailable => return Err(CheckUnavailable), asked;
      case Active => return Err(InUse), asked;
      case Inactive =>
    }
    tables.versions := tables.versions[v := tables.versions[v].(state := Deleted)];
    r := Ok(());
  }

  lemma {:induction false} NoMoreBatchesThanIds(asked: seq<seq<VersionId>>)
    requires forall b <- asked :: 1 <= |b|
    ensures |asked| <= |L.Flat(asked)|
  {
    if asked != [] {
      assert asked[|asked| - 1] in asked;
      NoMoreBatchesThanIds(asked[..|asked| - 1]);
    }
  }
}
