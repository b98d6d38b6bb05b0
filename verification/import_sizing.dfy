/** How much storage an import asks for: the manifest total with headroom, in whole GiB. */
module ImportSizing {
  import opened Wrappers

  const GIB := 0x4000_0000
  const HEADROOM := 10 * GIB

  datatype ListedFile = ListedFile(path: string, size: int64)

  // ---- which files count ----------------------------------------------------

  /** What follows the first '#', if there is one: strings.Cut. */
  function AfterHash(s: string): Option<string> {
    if s == "" then None else if s[0] == '#' then Some(s[1..]) else AfterHash(s[1..])
  }

  function TrimLeft(s: string): string { if s != "" && s[0] == '/' then TrimLeft(s[1..]) else s }

  function TrimRight(s: string): string {
    if s != "" && s[|s| - 1] == '/' then TrimRight(s[..|s| - 1]) else s
  }

  /** The file a repository id singles out; "" singles out none. */
  function Wanted(repoId: string): string {
    match AfterHash(repoId)
    case None => ""
    case Some(file) => TrimRight(TrimLeft(file))
  }

  predicate Selected(f: ListedFile, wanted: string) { wanted == "" || f.path == wanted }

  function Sum(files: seq<ListedFile>, wanted: string): int {
    if files == [] then 0
    else Sum(files[..|files| - 1], wanted)
         + if Selected(files[|files| - 1], wanted) then files[|files| - 1].size as int else 0
  }

  function Max(a: int, b: int): int { if a < b then b else a }

  /** The estimate on unbounded integers. */
  function Padded(total: int): int { total + Max(total / 5, HEADROOM) }

  /** When an estimate can be given: a bound on each file, and one on the whole. */
  predicate Estimable(listing: Option<seq<ListedFile>>, repoId: string) {
    && listing.Some? && listing.value != []
    && var wanted := Wanted(repoId);
      && (forall f <- listing.value :: Selected(f, wanted) ==> 0 <= f.size as int <= MAX_INT64 - HEADROOM)
      && Sum(listing.value, wanted) > 0 && Padded(Sum(listing.value, wanted)) <= MAX_INT64
  }

  lemma {:induction false} SumGrows(files: seq<ListedFile>, wanted: string, n: nat)
    requires n <= |files| && forall f <- files :: Selected(f, wanted) ==> f.size >= 0
    ensures Sum(files[..n], wanted) <= Sum(files, wanted)
    decreases |files|
  {
    if n == |files| {
      assert files[..n] == files;
    } else {
      var front := files[..|files| - 1];
      assert forall f <- front :: f in files;
      assert files[|files| - 1] in files;
      SumGrows(front, wanted, n);
      assert front[..n] == files[..n];
    }
  }

  // ---- what is wanted and summed ----------------------------------------------

  predicate AllSlashes(s: string) { forall i :: 0 <= i < |s| ==> s[i] == '/' }

  predicate Bare(s: string) { s != "" ==> s[0] != '/' && s[|s| - 1] != '/' }

  lemma {:induction false} FirstHash(before: string, after: string)
    requires '#' !in before
    ensures AfterHash(before) == None && AfterHash(before + "#" + after) == Some(after)
  {
    if before == "" {
      assert before + "#" + after == "#" + after;
    } else {
      FirstHash(before[1..], after);
      assert (before + "#" + after)[1..] == before[1..] + "#" + after;
    }
  }

  lemma {:induction false} LeftTrim(slashes: string, s: string)
    requires AllSlashes(slashes) && (s != "" ==> s[0] != '/')
    ensures TrimLeft(slashes + s) == s
  {
    if slashes == "" {
      assert slashes + s == s;
    } else {
      LeftTrim(slashes[1..], s);
      assert (slashes + s)[1..] == slashes[1..] + s;
    }
  }

  lemma {:induction false} RightTrim(s: string, slashes: string)
    requires AllSlashes(slashes) && (s != "" ==> s[|s| - 1] != '/')
    ensures TrimRight(s + slashes) == s
  {
    if slashes == "" {
      assert s + slashes == s;
    } else {
      RightTrim(s, slashes[..|slashes| - 1]);
      assert (s + slashes)[..|s + slashes| - 1] == s + slashes[..|slashes| - 1];
    }
  }

  /** A repository id without '#' singles no file out; what follows the first '#', without
      the slashes around it, is the file singled out. */
  lemma WantedIsTheFile(repo: string, left: string, file: string, right: string)
    requires '#' !in repo && AllSlashes(left) && AllSlashes(right) && Bare(file)
    ensures Wanted(repo) == ""
    ensures Wanted(repo + "#" + (left + (file + right))) == file
  {
    FirstHash(repo, left + (file + right));
    if file == "" {
      assert left + (file + right) == (left + right) + "";
      LeftTrim(left + right, "");
    } else {
      LeftTrim(left, file + right);
    }
    RightTrim(file, right);
    assert file == "" ==> TrimRight("") == "";
  }

  /** Every file counts when none is singled out, and otherwise those at its path: the sum
      adds up over lists, and over one file it is its size or nothing. */
  lemma {:induction false} SumAddsUp(a: seq<ListedFile>, b: seq<ListedFile>, wanted: string)
    ensures Sum(a + b, wanted) == Sum(a, wanted) + Sum(b, wanted)
    ensures |b| == 1 ==>
      Sum(b, wanted) == if wanted == "" || b[0].path == wanted then b[0].size as int else 0
  {
    if b == [] {
      assert a + b == a;
    } else {
      var front := b[..|b| - 1];
      SumAddsUp(a, front, wanted);
      assert (a + b)[..|a + b| - 1] == a + front;
    }
  }

  // ---- the estimate -----------------------------------------------------------

  /** estimateManifestSize: the running checks refuse exactly when the true sum is out of
      bounds, and no step overflows. */
  method EstimateManifestSize(listing: Option<seq<ListedFile>>, repoId: string)
    returns (r: Option<int64>)
    ensures r.Some? <==> Estimable(listing, repoId)
    ensures r.Some? ==> r.value as int == Padded(Sum(listing.value, Wanted(repoId)))
    ensures listing.None? || listing.value == [] ==> r.None?
    ensures listing.Some? && listing.value != [] ==>
      var wanted := Wanted(repoId); var total := Sum(listing.value, wanted);
      var headroom := if total / 5 < 10_737_418_240 then 10_737_418_240 else total / 5;
      && (r.Some? <==>
            && (forall f <- listing.value ::
                  wanted == "" || f.path == wanted ==>
                    0 <= f.size as int <= 0x7fff_ffff_ffff_ffff - 10_737_418_240)
            && total > 0 && total + headroom <= 0x7fff_ffff_ffff_ffff)
      && (r.Some? ==> r.value as int == total + headroom)
  {
    if listing.None? || listing.value == [] {
      return None;
    }
    var files, wanted := listing.value, Wanted(repoId);
    var max: int64 := MAX_INT64 as int64;
    var total: int64 := 0;
    for n := 0 to |files|
      invariant 0 <= total && total as int == Sum(files[..n], wanted)
      invariant forall k :: 0 <= k < n && Selected(files[k], wanted)
                  ==> 0 <= files[k].size as int <= MAX_INT64 - HEADROOM
    {
      var file := files[n];
      assert files[..n + 1][..n] == files[..n] && file in files;
      if wanted != "" && file.path != wanted {
        continue;
      }
      if file.size < 0 || file.size > max - HEADROOM as int64 {
        return None;
      }
      if total > max - file.size {
        if Estimable(listing, repoId) {
          SumGrows(files, wanted, n + 1);
        }
        return None;
      }
      total := total + file.size;
    }
    assert files[..|files|] == files;
    if total <= 0 {
      return None;
    }
    var headroom := total / 5;
    if headroom < HEADROOM as int64 {
      headroom := HEADROOM as int64;
    }
    if total > max - headroom {
      return None;
    }
    return Some(total + headroom);
  }

  // ---- whole GiB ------------------------------------------------------------

  /** Go's division on integers, which truncates toward zero. */
  function Quo(a: int, b: int): int
    requires b > 0
  {
    if a >= 0 then a / b else -(-a / b)
  }

  /** The number before "Gi" in storageQuantity, where the addition wraps. */
  function StorageUnits(bytes: int64): int {
    Quo(Wrap64(Wrap64(bytes as int + GIB) - 1), GIB)
  }

  ghost predicate LeastCover(units: int, bytes: int) {
    units * GIB >= bytes && forall u: int :: u * GIB >= bytes ==> u >= units
  }

  /** The quantity is the least number of GiB that covers the estimate exactly when the
      estimate leaves room for the addition; above that it is not even positive. */
  lemma QuantityIsLeastCover(bytes: int64)
    requires bytes > 0
    ensures LeastCover(StorageUnits(bytes), bytes as int) <==> bytes as int <= MAX_INT64 - (GIB - 1)
    ensures bytes as int > MAX_INT64 - (GIB - 1) ==> StorageUnits(bytes) < 0
  {
    var b := bytes as int;
    if b <= MAX_INT64 - (GIB - 1) {
      var q := b + GIB - 1;
      assert Wrap64(Wrap64(b + GIB) - 1) == q;
      var units := q / GIB;
      assert units * GIB <= q < units * GIB + GIB;
    }
  }

  /** An estimate that overflows the quantity does come out of the estimator: one file of
      this size is accepted, and the claim asks for a negative volume. */
  lemma EstimateCanOverflow(path: string) returns (listing: seq<ListedFile>, bytes: int64)
    ensures Estimable(Some(listing), "a/b") && bytes as int == Padded(Sum(listing, Wanted("a/b")))
    ensures StorageUnits(bytes) < 0
  {
    listing := [ListedFile(path, 7686143364045646505)];
    bytes := 0x7fff_ffff_ffff_fffe;
    assert listing[..0] == [];
    assert Wanted("a/b") == "";
    assert Sum(listing, "") == listing[0].size as int;
    QuantityIsLeastCover(bytes);
  }
}
