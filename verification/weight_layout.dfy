/** The safetensors weight layout: which inventories have one standard entry point, and
    which shards an index names. */
module WeightLayout {
  import opened Wrappers
  import opened Orders
  import opened Paths
  import opened JsonFacts

  const MAX_FILES := 1024
  const MAX_CONFIG_BYTES := 0x80_0000
  const SINGLE := "model.safetensors"
  const INDEX := "model.safetensors.index.json"

  datatype File = File(path: string, size: int, sha: string)

  /** Library code: SHA-256 in lower-case hexadecimal, the JSON lexer, json.Valid, and
      the weight_map that json.Unmarshal finds (None: it fails). */
  datatype Library = Library(
    sha: string -> string, lex: string -> Lexed, validJson: string -> bool,
    weightMap: string -> Option<map<string, string>>)

  datatype Layout = Single | Sharded(shards: seq<string>)

  /** factsDigest. */
  predicate Digest(s: string) {
    |s| == 64 && forall c <- s :: '0' <= c <= '9' || 'a' <= c <= 'f'
  }

  function PathOf(f: Option<File>): string { if f.Some? then f.value.path else "" }

  predicate Weights(path: string) { HasSuffix(path, ".safetensors") }

  // ---- what is accepted -----------------------------------------------------

  predicate Fine(f: Option<File>) { f.Some? && WellFormed(f.value) }

  ghost predicate AllFine(files: seq<Option<File>>) {
    forall f {:trigger Fine(f)} :: f in files ==> Fine(f)
  }

  ghost predicate WellListed(files: seq<Option<File>>) {
    && 0 < |files| <= 1024
    && AllFine(files)
    && Distinct(Keys(files, PathOf))
  }

  predicate WellFormed(f: File) { FactsPath(f.path) && f.size >= 0 && Digest(f.sha) }

  ghost predicate Has(files: seq<Option<File>>, path: string) {
    exists f <- files :: f.Some? && f.value.path == path
  }

  /** One whole weight file, and nothing that belongs to the other layout. */
  ghost predicate IsSingle(files: seq<Option<File>>, index: string) {
    && index == "" && !Has(files, INDEX)
    && (exists f <- files :: f.Some? && f.value.path == SINGLE && f.value.size > 0)
    && forall f <- files :: f.Some? && Weights(f.value.path) ==> f.value.path == SINGLE
  }

  ghost predicate IsIndex(f: Option<File>, index: string, lib: Library) {
    f.Some? && f.value == File(INDEX, |index|, lib.sha(index))
  }

  /** The index bytes are the index member's, and the shards that they name are exactly
      the weight files present, none of them empty. */
  ghost predicate IsSharded(files: seq<Option<File>>, index: string, lib: Library) {
    && !Has(files, SINGLE)
    && 0 < |index| <= 8 * 0x10_0000 && JSONObject(index, lib.lex(index))
    && (exists f <- files :: IsIndex(f, index, lib))
    && lib.weightMap(index).Some? && Matches(files, lib.weightMap(index).value)
  }

  ghost predicate Matches(files: seq<Option<File>>, named: map<string, string>) {
    && named != map[] && "" !in named
    && (forall f <- files :: f.Some? && Weights(f.value.path) ==> f.value.size > 0 && f.value.path in named.Values)
    && (forall shard <- named.Values :: Weights(shard) && Has(files, shard))
  }

  ghost predicate Accepted(files: seq<Option<File>>, index: string, lib: Library) {
    WellListed(files) && (IsSingle(files, index) || IsSharded(files, index, lib))
  }

  /** The one right answer for an inventory. */
  ghost predicate Answers(r: Option<Layout>, files: seq<Option<File>>, index: string, lib: Library) {
    match r
    case None => !Accepted(files, index, lib)
    case Some(Single) => WellListed(files) && IsSingle(files, index)
    case Some(Sharded(shards)) =>
      && WellListed(files) && IsSharded(files, index, lib)
      && Increasing(shards) && Range(shards) == lib.weightMap(index).value.Values
  }

  // ---- digests and names ------------------------------------------------------

  /** The lower-case hexadecimal digit of n. */
  function HexDigitOf(n: nat): char
    requires n < 16
  {
    "0123456789abcdef"[n]
  }

  type Octet = n: nat | n < 0x100

  /** hex.EncodeToString. */
  function Hex(bytes: seq<Octet>): string {
    seq(2 * |bytes|, i requires 0 <= i < 2 * |bytes| =>
      HexDigitOf(if i % 2 == 0 then bytes[i / 2] / 16 else bytes[i / 2] % 16))
  }

  function DigitValue(c: char): (n: nat)
    requires '0' <= c <= '9' || 'a' <= c <= 'f'
    ensures n < 16 && HexDigitOf(n) == c
  {
    if c <= '9' then c as int - '0' as int else c as int - 'a' as int + 10
  }

  /** factsDigest accepts exactly the encodings of 32 bytes. */
  lemma DigestsAreEncodings(s: string)
    ensures Digest(s) <==> exists bytes: seq<Octet> :: |bytes| == 32 && s == Hex(bytes)
  {
    if Digest(s) {
      assert forall i :: 0 <= i < 64 ==> s[i] in s;
      var bytes: seq<Octet> := seq(32, k requires 0 <= k < 32 => OctetOf(s[2 * k], s[2 * k + 1]));
      var t := Hex(bytes);
      forall i | 0 <= i < 64 ensures t[i] == s[i] {
        OctetBack(s[2 * (i / 2)], s[2 * (i / 2) + 1]);
        assert i == 2 * (i / 2) || i == 2 * (i / 2) + 1;
      }
      assert s == t;
    }
    if bytes: seq<Octet> :| |bytes| == 32 && s == Hex(bytes) {
      forall i | 0 <= i < 64 ensures '0' <= s[i] <= '9' || 'a' <= s[i] <= 'f' {
        HexDigitsAre(if i % 2 == 0 then bytes[i / 2] / 16 else bytes[i / 2] % 16);
      }
    }
  }

  function OctetOf(hi: char, lo: char): Octet
    requires '0' <= hi <= '9' || 'a' <= hi <= 'f'
    requires '0' <= lo <= '9' || 'a' <= lo <= 'f'
  {
    16 * DigitValue(hi) + DigitValue(lo)
  }

  lemma OctetBack(hi: char, lo: char)
    requires '0' <= hi <= '9' || 'a' <= hi <= 'f'
    requires '0' <= lo <= '9' || 'a' <= lo <= 'f'
    ensures HexDigitOf(OctetOf(hi, lo) / 16) == hi && HexDigitOf(OctetOf(hi, lo) % 16) == lo
  {
    assert OctetOf(hi, lo) / 16 == DigitValue(hi) && OctetOf(hi, lo) % 16 == DigitValue(lo);
  }

  lemma HexDigitsAre(n: nat)
    requires n < 16
    ensures '0' <= HexDigitOf(n) <= '9' || 'a' <= HexDigitOf(n) <= 'f'
  {
  }

  /** Weight files are those with something, or nothing, before the suffix. */
  lemma WeightsEndInSafetensors(path: string)
    ensures Weights(path) <==> exists stem :: path == stem + ".safetensors"
  {
    if Weights(path) {
      assert path == path[..|path| - 12] + ".safetensors";
    }
    if stem :| path == stem + ".safetensors" {
      assert path[|path| - 12..] == ".safetensors";
    }
  }

  // ---- laws -----------------------------------------------------------------

  /** The verdict and the whole answer, shard list included, depend on the members only:
      any order of the inventory, and any order of visiting the weight map, gives the
      same. */
  lemma OrderDoesNotMatter(
      files: seq<Option<File>>, others: seq<Option<File>>, index: string, lib: Library,
      r: Option<Layout>, q: Option<Layout>)
    requires multiset(files) == multiset(others)
    requires Answers(r, files, index, lib) && Answers(q, others, index, lib)
    ensures r == q
  {
    SameVerdict(files, others, index, lib);
    if r.Some? && r.value.Sharded? && q.Some? && q.value.Sharded? {
      var s, t := r.value.shards, q.value.shards;
      assert forall x :: x in s <==> x in Range(s);
      assert forall x :: x in t <==> x in Range(t);
      IncreasingIsUnique(s, t);
    }
  }

  lemma SameVerdict(files: seq<Option<File>>, others: seq<Option<File>>, index: string, lib: Library)
    requires multiset(files) == multiset(others)
    ensures WellListed(files) <==> WellListed(others)
    ensures IsSingle(files, index) <==> IsSingle(others, index)
    ensures IsSharded(files, index, lib) <==> IsSharded(others, index, lib)
  {
    ReorderedKeys(files, others, PathOf);
    forall path ensures Has(files, path) <==> Has(others, path) {}
  }

  /** In a sharded layout the list is the weight files, sorted: nothing is missing from
      the index, nothing it names is missing from the inventory. */
  lemma ShardsAreTheWeightFiles(files: seq<Option<File>>, index: string, lib: Library, shards: seq<string>)
    requires Answers(Some(Sharded(shards)), files, index, lib)
    ensures forall path :: path in shards <==> Weights(path) && Has(files, path)
    ensures Distinct(shards) && |shards| > 0
  {
    assert forall path :: path in shards <==> path in Range(shards);
    IncreasingIsDistinct(shards);
    var named := lib.weightMap(index).value;
    var tensor :| tensor in named;
    assert named[tensor] in named.Values;
  }

  // ---- the inspection -------------------------------------------------------

  method Inspect(files: seq<Option<File>>, index: string, lib: Library) returns (r: Option<Layout>)
    ensures Answers(r, files, index, lib)
  {
    var seen := Collect(files);
    if seen.None? {
      return None;
    }
    var members := seen.value;
    SeenIsHad(members, files);
    if (SINGLE in members) == (INDEX in members) {
      return None;
    }
    if SINGLE in members {
      r := InspectSingle(members, files, index, lib);
    } else {
      r := InspectSharded(members, files, index, lib);
    }
  }

  method InspectSingle(
      members: map<string, File>, ghost files: seq<Option<File>>, index: string, ghost lib: Library)
    returns (r: Option<Layout>)
    requires WellListed(files) && Holds(members, files)
    requires SINGLE in members && INDEX !in members
    ensures Answers(r, files, index, lib)
  {
    SeenIsHad(members, files);
    assert Some(members[SINGLE]) in files;
    if members[SINGLE].size <= 0 || index != "" {
      return None;
    }
    var onlyOne := NoOtherWeights(members, {SINGLE});
    r := if onlyOne then Some(Single) else None;
  }

  method InspectSharded(
      members: map<string, File>, ghost files: seq<Option<File>>, index: string, lib: Library)
    returns (r: Option<Layout>)
    requires WellListed(files) && Holds(members, files)
    requires SINGLE !in members && INDEX in members
    ensures Answers(r, files, index, lib)
  {
    SeenIsHad(members, files);
    if index == "" || |index| > MAX_CONFIG_BYTES {
      return None;
    }
    var whole := CheckJSONObject(index, lib.lex(index));
    assert members[INDEX].size == |index| && members[INDEX].sha == lib.sha(index)
      <==> exists f <- files :: IsIndex(f, index, lib) by {
      assert Some(members[INDEX]) in files;
    }
    if !whole || members[INDEX].size != |index| || members[INDEX].sha != lib.sha(index) {
      return None;
    }
    var decoded := lib.weightMap(index);
    if decoded.None? || decoded.value == map[] {
      return None;
    }
    MatchedShards(members, files, decoded.value);
    var shards := CollectShards(decoded.value, members);
    if shards.None? {
      return None;
    }
    var complete := NoOtherWeights(members, shards.value);
    if !complete {
      return None;
    }
    var sorted := Sorted(shards.value);
    r := Some(Sharded(sorted));
  }

  lemma SeenIsHad(members: map<string, File>, files: seq<Option<File>>)
    requires Holds(members, files)
    ensures forall path :: path in members <==> Has(files, path)
  {
    forall path | path in members ensures Has(files, path) {
      assert Some(members[path]) in files;
    }
  }

  /** Both directions of the shard comparison, over the seen map. */
  lemma MatchedShards(members: map<string, File>, files: seq<Option<File>>, named: map<string, string>)
    requires WellListed(files) && Holds(members, files) && named != map[]
    ensures Matches(files, named) <==> Complete(named, members)
  {
    SeenIsHad(members, files);
    if Matches(files, named) {
      forall tensor | tensor in named ensures GoodEntry(tensor, named[tensor], members) {
        assert named[tensor] in named.Values;
        assert Fine(Some(members[named[tensor]]));
      }
      forall path | path in members && Weights(path) ensures path in named.Values {
        assert Some(members[path]) in files;
      }
    }
  }

  ghost predicate Complete(named: map<string, string>, members: map<string, File>) {
    && (forall tensor <- named :: GoodEntry(tensor, named[tensor], members))
    && (forall path <- members :: Weights(path) ==> path in named.Values)
  }

  /** The seen map: every member under its path. */
  ghost predicate Holds(members: map<string, File>, files: seq<Option<File>>) {
    && (forall path <- members :: members[path].path == path && Some(members[path]) in files)
    && (forall f <- files :: f.Some? && f.value.path in members && members[f.value.path] == f.value)
  }

  method Collect(files: seq<Option<File>>) returns (r: Option<map<string, File>>)
    ensures r.Some? <==> WellListed(files)
    ensures r.Some? ==> Holds(r.value, files)
  {
    if files == [] || |files| > MAX_FILES {
      return None;
    }
    var seen: map<string, File> := map[];
    for n := 0 to |files|
      invariant AllFine(files[..n])
      invariant Holds(seen, files[..n])
      invariant Distinct(Keys(files, PathOf)[..n])
    {
      var f := files[n];
      if f.None? || !FactsPath(f.value.path) || f.value.path in seen || f.value.size < 0 || !Digest(f.value.sha) {
        if f.Some? && f.value.path in seen {
          Repeated(seen, files, n);
        }
        assert f in files && (AllFine(files) ==> Fine(f));
        return None;
      }
      NotRepeated(seen, files, n);
      seen := seen[f.value.path := f.value];
      assert files[..n + 1] == files[..n] + [f];
      assert Fine(f);
    }
    assert files[..|files|] == files && Keys(files, PathOf)[..|files|] == Keys(files, PathOf);
    return Some(seen);
  }

  lemma Repeated(seen: map<string, File>, files: seq<Option<File>>, n: nat)
    requires n < |files| && files[n].Some? && files[n].value.path in seen && Holds(seen, files[..n])
    ensures !Distinct(Keys(files, PathOf))
  {
    var keys := Keys(files, PathOf);
    var k :| 0 <= k < n && files[..n][k] == Some(seen[files[n].value.path]);
    assert keys[k] == keys[n];
  }

  lemma NotRepeated(seen: map<string, File>, files: seq<Option<File>>, n: nat)
    requires n < |files| && files[n].Some? && files[n].value.path !in seen && Holds(seen, files[..n])
    requires Distinct(Keys(files, PathOf)[..n])
    ensures Distinct(Keys(files, PathOf)[..n + 1])
  {
    var keys := Keys(files, PathOf);
    forall k | 0 <= k < n ensures keys[k] != keys[n] { assert files[..n][k] in files[..n]; }
    assert keys[..n + 1] == keys[..n] + [keys[n]];
  }

  method NoOtherWeights(members: map<string, File>, allowed: set<string>) returns (ok: bool)
    ensures ok <==> forall path <- members :: Weights(path) ==> path in allowed
  {
    var rest := members.Keys;
    while rest != {}
      invariant rest <= members.Keys
      invariant forall path <- members.Keys - rest :: Weights(path) ==> path in allowed
    {
      var name :| name in rest;
      if Weights(name) && name !in allowed {
        return false;
      }
      rest := rest - {name};
    }
    return true;
  }

  ghost predicate GoodEntry(tensor: string, shard: string, members: map<string, File>) {
    tensor != "" && FactsPath(shard) && Weights(shard) && shard in members && members[shard].size > 0
  }

  /** Visits the weight map in any order. */
  method CollectShards(named: map<string, string>, members: map<string, File>)
    returns (r: Option<set<string>>)
    ensures r.Some? <==> forall tensor <- named :: GoodEntry(tensor, named[tensor], members)
    ensures r.Some? ==> r.value == named.Values
  {
    var shards: set<string> := {};
    var rest := named.Keys;
    while rest != {}
      invariant rest <= named.Keys
      invariant forall tensor <- named.Keys - rest :: GoodEntry(tensor, named[tensor], members)
      invariant shards == set tensor <- named.Keys - rest :: named[tensor]
    {
      var tensor :| tensor in rest;
      var reference := named[tensor];
      if tensor == "" || !FactsPath(reference) || !Weights(reference) {
        return None;
      }
      if reference !in members || members[reference].size <= 0 {
        return None;
      }
      shards := shards + {reference};
      rest := rest - {tensor};
    }
    return Some(shards);
  }

  /** Appended in any order, then sorted. */
  method Sorted(names: set<string>) returns (sorted: seq<string>)
    ensures Increasing(sorted) && Range(sorted) == names
  {
    var listed: seq<string> := [];
    var rest := names;
    while rest != {}
      invariant rest <= names && Range(listed) == names - rest && Distinct(listed)
    {
      var name :| name in rest;
      assert forall x <- listed :: x in Range(listed);
      assert Range(listed + [name]) == Range(listed) + {name};
      listed, rest := listed + [name], rest - {name};
    }
    var id := (x: string) => x;
    assert Keys(listed, id) == listed;
    SortReorders(listed, id);
    SortIncreases(listed, id);
    sorted := SortBy(listed, id);
    assert Range(sorted) == Range(listed);
  }
}
