/** The file clauses of the facts response validator, and its agreement with the archive
    pass that feeds it. */
module FactsValidation {
  import opened Wrappers
  import opened Orders
  import opened Paths
  import opened JsonFacts
  import opened WeightLayout
  import opened ArchiveFacts

  /** The member at name, with these bytes. */
  ghost predicate Matches(files: seq<Option<File>>, name: string, raw: string, lib: Library) {
    Some(File(name, |raw|, lib.sha(raw))) in files
  }

  predicate ShortObject(raw: string, lib: Library) {
    0 < |raw| <= MAX_CONFIG_BYTES && JSONObject(raw, lib.lex(raw))
  }

  /** What the file clauses of ValidateFor demand. */
  ghost predicate FilesValid(
      files: seq<Option<File>>, config: string, tokenizer: string, index: string, lib: Library)
  {
    && 0 < |files| <= MAX_FILES && ShortObject(config, lib) && ShortObject(tokenizer, lib)
    && Ordered(files)
    && Matches(files, CONFIG, config, lib) && Matches(files, TOKENIZER, tokenizer, lib)
    && Accepted(files, index, lib)
  }

  ghost predicate Ordered(files: seq<Option<File>>) {
    AllFine(files) && Increasing(Keys(files, PathOf))
  }

  // ---- the validator --------------------------------------------------------

  method ValidateFiles(
      files: seq<Option<File>>, config: string, tokenizer: string, index: string, lib: Library)
    returns (ok: bool)
    ensures ok <==> FilesValid(files, config, tokenizer, index, lib)
  {
    if files == [] || |files| > MAX_FILES || config == "" || |config| > MAX_CONFIG_BYTES
       || tokenizer == "" || |tokenizer| > MAX_CONFIG_BYTES {
      return false;
    }
    var first := CheckJSONObject(config, lib.lex(config));
    var second := CheckJSONObject(tokenizer, lib.lex(tokenizer));
    if !first || !second {
      return false;
    }
    var seen := CollectOrdered(files);
    if seen.None? {
      return false;
    }
    LookUp(seen.value, files, CONFIG);
    LookUp(seen.value, files, TOKENIZER);
    if CONFIG !in seen.value || seen.value[CONFIG] != File(CONFIG, |config|, lib.sha(config)) {
      return false;
    }
    if TOKENIZER !in seen.value || seen.value[TOKENIZER] != File(TOKENIZER, |tokenizer|, lib.sha(tokenizer)) {
      return false;
    }
    var layout := Inspect(files, index, lib);
    ok := layout.Some?;
  }

  lemma LookUp(seen: map<string, File>, files: seq<Option<File>>, name: string)
    requires Holds(seen, files)
    ensures forall f: File :: f.path == name ==> (Some(f) in files <==> name in seen && seen[name] == f)
  {
  }

  /** After n files: in order, and under their paths in seen. */
  ghost predicate OrderedSoFar(files: seq<Option<File>>, n: nat, seen: map<string, File>, previous: string)
    requires n <= |files|
  {
    && Holds(seen, files[..n]) && Increasing(Keys(files, PathOf)[..n])
    && previous == if n == 0 then "" else PathOf(files[n - 1])
  }

  method CollectOrdered(files: seq<Option<File>>) returns (r: Option<map<string, File>>)
    ensures r.Some? <==> Ordered(files)
    ensures r.Some? ==> Holds(r.value, files)
  {
    var seen: map<string, File> := map[];
    var previous := "";
    for n := 0 to |files|
      invariant AllFine(files[..n]) && OrderedSoFar(files, n, seen, previous)
    {
      var f := files[n];
      if f.None? || !WellFormed(f.value) || !Less(previous, f.value.path) {
        NotOrdered(files, n, seen, previous);
        return None;
      }
      FineOne(files[..n], f);
      assert files[..n + 1] == files[..n] + [f];
      OneMore(files, n, seen, previous);
      previous := f.value.path;
      seen := seen[f.value.path := f.value];
    }
    assert files[..|files|] == files && Keys(files, PathOf)[..|files|] == Keys(files, PathOf);
    return Some(seen);
  }

  lemma NotOrdered(files: seq<Option<File>>, n: nat, seen: map<string, File>, previous: string)
    requires n < |files| && OrderedSoFar(files, n, seen, previous)
    requires !Fine(files[n]) || !Less(previous, PathOf(files[n]))
    ensures !Ordered(files)
  {
    var keys := Keys(files, PathOf);
    assert files[n] in files && (AllFine(files) ==> Fine(files[n]));
    assert n > 0 && Increasing(keys) ==> Less(keys[n - 1], keys[n]);
  }

  /** A path above the last one is above them all, so it is new. */
  lemma OneMore(files: seq<Option<File>>, n: nat, seen: map<string, File>, previous: string)
    requires n < |files| && OrderedSoFar(files, n, seen, previous)
    requires files[n].Some? && Less(previous, PathOf(files[n]))
    ensures OrderedSoFar(files, n + 1, seen[PathOf(files[n]) := files[n].value], PathOf(files[n]))
  {
    Climb(Keys(files, PathOf), n);
    HoldOne(files, n, seen);
  }

  lemma FineOne(files: seq<Option<File>>, f: Option<File>)
    requires AllFine(files) && Fine(f)
    ensures AllFine(files + [f])
  {
    forall g | g in files + [f] ensures Fine(g) {
      assert g in files || g == f;
    }
  }

  lemma Climb(keys: seq<string>, n: nat)
    requires n < |keys| && Increasing(keys[..n]) && Less(if n == 0 then "" else keys[n - 1], keys[n])
    ensures Increasing(keys[..n + 1])
    ensures forall k :: 0 <= k < n ==> keys[k] != keys[n]
  {
    forall k | 0 <= k < n ensures Less(keys[k], keys[n]) && keys[k] != keys[n] {
      if k < n - 1 {
        assert Less(keys[..n][k], keys[..n][n - 1]);
        LessTransitive(keys[k], keys[n - 1], keys[n]);
      }
      LessTotal(keys[k], keys[n]);
    }
    assert keys[..n + 1] == keys[..n] + [keys[n]];
  }

  lemma HoldOne(files: seq<Option<File>>, n: nat, seen: map<string, File>)
    requires n < |files| && files[n].Some? && Holds(seen, files[..n])
    requires forall k :: 0 <= k < n ==> Keys(files, PathOf)[k] != PathOf(files[n])
    ensures Holds(seen[PathOf(files[n]) := files[n].value], files[..n + 1])
  {
    var path := PathOf(files[n]);
    assert files[..n + 1] == files[..n] + [files[n]];
    forall f | f in files[..n] ensures PathOf(f) != path {
      var k :| 0 <= k < n && files[k] == f;
      assert Keys(files, PathOf)[k] == PathOf(f);
    }
  }

  // ---- agreement with the archive pass --------------------------------------

  function Total(files: seq<File>): int {
    if files == [] then 0 else files[0].size + Total(files[1..])
  }

  lemma {:induction false} TotalSnoc(files: seq<File>, f: File)
    ensures Total(files + [f]) == Total(files) + f.size
  {
    if files != [] {
      TotalSnoc(files[1..], f);
      assert (files + [f])[1..] == files[1..] + [f];
    }
  }

  lemma {:induction false} InsertKeepsTotal(f: File, files: seq<File>)
    ensures Total(Insert(f, files, FilePath)) == f.size + Total(files)
  {
    if files != [] && !Less(f.path, files[0].path) {
      InsertKeepsTotal(f, files[1..]);
    }
  }

  lemma {:induction false} SortKeepsTotal(files: seq<File>)
    ensures Total(SortBy(files, FilePath)) == Total(files)
  {
    if files != [] {
      SortKeepsTotal(files[1..]);
      InsertKeepsTotal(files[0], SortBy(files[1..], FilePath));
    }
  }

  lemma {:induction false} TotalIsContent(es: seq<Entry>, lib: Library)
    requires AllPlain(es, lib)
    ensures Total(FilesOf(es, lib)) == Content(es)
  {
    if es != [] {
      var front, last := es[..|es| - 1], es[|es| - 1];
      FrontIsPlain(es, lib);
      TotalIsContent(front, lib);
      TotalSnoc(FilesOf(front, lib), File(Name(last), |last.payload|, lib.sha(last.payload)));
    }
  }

  lemma FrontIsPlain(es: seq<Entry>, lib: Library)
    requires AllPlain(es, lib) && es != []
    ensures AllPlain(es[..|es| - 1], lib) && Plain(es[|es| - 1], lib)
  {
    var front := es[..|es| - 1];
    assert Plain(es[|es| - 1], lib);
    forall k | 0 <= k < |front| ensures Plain(front[k], lib) {
      assert Plain(es[k], lib);
    }
  }

  /** Captured bytes are those of a listed file, at its recorded size and hash. */
  lemma {:induction false} CapturedIsListed(es: seq<Entry>, name: string, lib: Library)
    requires AllPlain(es, lib) && IsCaptured(name) && Captured(es, name) != ""
    ensures var raw := Captured(es, name);
      File(name, |raw|, lib.sha(raw)) in FilesOf(es, lib) && |raw| <= MAX_CONFIG_BYTES && ValidUtf8(raw)
  {
    var front, last := es[..|es| - 1], es[|es| - 1];
    FrontIsPlain(es, lib);
    if Name(last) != name || Skipped(last) {
      CapturedIsListed(front, name, lib);
    }
  }

  lemma {:induction false} PresentCounts(files: seq<File>, f: Option<File>)
    ensures multiset(Present(files))[f] == if f.Some? then multiset(files)[f.value] else 0
  {
    if files != [] {
      var first, others := files[0], files[1..];
      PresentCounts(others, f);
      assert files == [first] + others;
      assert Present(files) == [Some(first)] + Present(others);
      CountFirst(Some(first), Present(others), f);
      if f.Some? {
        CountFirst(first, others, f.value);
      }
    }
  }

  lemma CountFirst<T>(x: T, s: seq<T>, y: T)
    ensures multiset([x] + s)[y] == multiset(s)[y] + if x == y then 1 else 0
  {
    assert multiset([x] + s) == multiset{x} + multiset(s);
  }

  lemma PresentReordered(files: seq<File>, others: seq<File>)
    requires multiset(files) == multiset(others)
    ensures multiset(Present(files)) == multiset(Present(others))
  {
    forall f: Option<File> ensures multiset(Present(files))[f] == multiset(Present(others))[f] {
      PresentCounts(files, f);
      PresentCounts(others, f);
    }
  }

  /** The list that the pass reports is strictly increasing, every entry in it is well
      formed, its sizes add up to at most the limit, and the captured bytes have the
      recorded sizes and hashes. So of all the file clauses of the validator only the
      two that ask for a JSON object, where the pass asked for JSON, can still refuse. */
  lemma ReportsAreValid(a: Archive, size: int64, digest: string, limit: int64, lib: Library)
    requires Acceptable(a, size, digest, limit, lib)
    ensures var r := Report(a, size, digest, lib);
      && Ordered(Present(r.files)) && Total(r.files) == Content(a.entries) <= limit as int
      && (FilesValid(Present(r.files), r.config, r.tokenizer, r.index, lib)
          <==> JSONObject(r.config, lib.lex(r.config)) && JSONObject(r.tokenizer, lib.lex(r.tokenizer)))
  {
    var es := a.entries;
    var files := FilesOf(es, lib);
    var sorted := SortBy(files, FilePath);
    var r := Report(a, size, digest, lib);
    TotalIsContent(es, lib);
    SortKeepsTotal(files);
    SortReorders(files, FilePath);
    PresentReordered(files, sorted);
    SameVerdict(Present(files), Present(sorted), r.index, lib);
    SortedIsOrdered(files);
    CapturedIsListed(es, CONFIG, lib);
    CapturedIsListed(es, TOKENIZER, lib);
    InPresent(sorted, File(CONFIG, |r.config|, lib.sha(r.config)));
    InPresent(sorted, File(TOKENIZER, |r.tokenizer|, lib.sha(r.tokenizer)));
  }

  lemma InPresent(files: seq<File>, f: File)
    ensures f in files <==> Some(f) in Present(files)
  {
    if f in files {
      var k :| 0 <= k < |files| && files[k] == f;
      assert Present(files)[k] == Some(f);
    }
  }

  lemma SortedIsOrdered(files: seq<File>)
    requires WellListed(Present(files))
    ensures WellListed(Present(SortBy(files, FilePath))) && Ordered(Present(SortBy(files, FilePath)))
  {
    var sorted := SortBy(files, FilePath);
    SortReorders(files, FilePath);
    PresentReordered(files, sorted);
    SameVerdict(Present(files), Present(sorted), "", Library(x => x, x => Lexed([], Eof), x => false, x => None));
    assert Keys(files, FilePath) == Keys(Present(files), PathOf);
    SortIncreases(files, FilePath);
    assert Keys(sorted, FilePath) == Keys(Present(sorted), PathOf);
  }
}
