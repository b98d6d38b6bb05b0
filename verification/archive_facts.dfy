/** The one streaming pass over a tar archive that yields its inventory: int64 bounds,
    early refusals, capture of the configuration members, and the final sort. */
module ArchiveFacts {
  import opened Wrappers
  import opened Orders
  import opened Paths
  import opened JsonFacts
  import opened WeightLayout

  const MAX_INT: int64 := 0x7fff_ffff_ffff_ffff
  const MAX_METADATA_BYTES := 0x100_0000
  const MAX_ENTRIES := 4096
  const MAX_PATH_BYTES := 1024
  const OVERHEAD: int64 := 512 * 4096 + 511 * 1024 + 0x100_0000 + 1024

  const CONFIG := "config.json"
  const TOKENIZER := "tokenizer_config.json"

  // ---- what the tar reader hands over ---------------------------------------

  datatype Kind = Regular | RegularOld | Directory | Other

  /** Why a read failed: the caller gave up, the source broke, the bytes ran out inside
      a structure, or tar could not make sense of them. */
  datatype Cause = Cancelled | Source | ShortInput | Malformed

  /** One header. Before it the reader consumed envelope: the padding of the member
      before, and header blocks. After it come the payload bytes, and failure if
      reading them went wrong. */
  datatype Entry = Entry(
    envelope: string, name: string, kind: Kind, size: int64, linked: bool, sparse: bool,
    payload: string, failure: Option<Cause>)

  /** What follows the last header: the trailer that tar reads and the tail beyond it, or
      bytes that are not a header. */
  datatype Ending = Finished(trailer: string, tail: string, failure: Option<Cause>)
                  | NoHeader(trailer: string, cause: Cause)

  datatype Archive = Archive(entries: seq<Entry>, ending: Ending)

  predicate Skipped(e: Entry) { e.kind == Directory && e.size == 0 }

  function Name(e: Entry): string {
    if e.kind == Directory && HasSuffix(e.name, "/") then e.name[..|e.name| - 1] else e.name
  }

  function Body(e: Entry): string { if Skipped(e) then "" else e.payload }

  function Bytes(es: seq<Entry>): string {
    if es == [] then "" else Bytes(es[..|es| - 1]) + es[|es| - 1].envelope + Body(es[|es| - 1])
  }

  function EndBytes(end: Ending): string {
    if end.Finished? then end.trailer + end.tail else end.trailer
  }

  /** Every byte that went through the counting reader. */
  function Whole(a: Archive): string { Bytes(a.entries) + EndBytes(a.ending) }

  /** Sizes that the headers of members declare. */
  function Content(es: seq<Entry>): int {
    if es == [] then 0
    else Content(es[..|es| - 1]) + if Skipped(es[|es| - 1]) then 0 else es[|es| - 1].size as int
  }

  /** Bytes that are no member's payload. */
  function Envelope(es: seq<Entry>): nat {
    if es == [] then 0 else Envelope(es[..|es| - 1]) + |es[|es| - 1].envelope|
  }

  function Framing(a: Archive): nat { Envelope(a.entries) + |EndBytes(a.ending)| }

  function FilesOf(es: seq<Entry>, lib: Library): seq<File> {
    if es == [] then []
    else
      var last := es[|es| - 1];
      var before := FilesOf(es[..|es| - 1], lib);
      if Skipped(last) then before else before + [File(Name(last), |last.payload|, lib.sha(last.payload))]
  }

  /** The content of the last member with this name, or "". */
  function Captured(es: seq<Entry>, name: string): string {
    if es == [] then ""
    else
      var last := es[|es| - 1];
      if Name(last) == name && !Skipped(last) then last.payload else Captured(es[..|es| - 1], name)
  }

  function Present(files: seq<File>): (r: seq<Option<File>>)
    ensures |r| == |files| && forall i :: 0 <= i < |r| ==> r[i] == Some(files[i])
  {
    seq(|files|, i requires 0 <= i < |files| => Some(files[i]))
  }

  /** The limited reader under the counting one: at most one byte beyond size, and
      nothing after a failure. */
  ghost predicate Readable(a: Archive, size: int64) {
    && |Whole(a)| <= (if size < MAX_INT then size as int + 1 else size as int)
    && forall n :: 0 <= n < |a.entries| && a.entries[n].failure.Some? && !Skipped(a.entries[n])
         ==> n == |a.entries| - 1 && EndBytes(a.ending) == ""
  }

  // ---- what is accepted -----------------------------------------------------

  predicate IsCaptured(name: string) { name == CONFIG || name == TOKENIZER || name == INDEX }

  predicate AllZero(bytes: string) { forall b <- bytes :: b == '\0' }

  /** An entry that may stand in an archive, whatever stands around it. */
  predicate Plain(e: Entry, lib: Library) {
    && FactsPath(Name(e)) && !e.linked
    && (Skipped(e) || ((e.kind == Regular || e.kind == RegularOld) && !e.sparse && PayloadOk(e, lib)))
  }

  /** A payload that was read whole and, in a configuration member, is short UTF-8 JSON. */
  predicate PayloadOk(e: Entry, lib: Library) {
    && e.failure.None? && e.size as int == |e.payload|
    && (IsCaptured(Name(e)) ==>
          |e.payload| <= MAX_CONFIG_BYTES && ValidUtf8(e.payload) && lib.validJson(e.payload))
  }

  ghost predicate BoundsMakeSense(size: int64, limit: int64) {
    0 < limit && limit as int + OVERHEAD as int <= MAX_INT64 && size > 0
  }

  ghost predicate AllPlain(es: seq<Entry>, lib: Library) {
    forall k {:trigger Plain(es[k], lib)} :: 0 <= k < |es| ==> Plain(es[k], lib)
  }

  ghost predicate MembersOk(es: seq<Entry>, limit: int64, lib: Library) {
    && |es| <= 4096 && AllPlain(es, lib) && Distinct(Keys(es, Name))
    && |FilesOf(es, lib)| <= 1024 && Content(es) <= limit as int
  }

  predicate EndingOk(end: Ending) {
    end.Finished? && end.failure.None? && AllZero(end.tail)
  }

  ghost predicate TotalsOk(a: Archive, size: int64, digest: string, lib: Library) {
    && |Whole(a)| - Content(a.entries) <= OVERHEAD as int
    && |Whole(a)| == size as int && lib.sha(Whole(a)) == digest
  }

  ghost predicate ModelOk(es: seq<Entry>, lib: Library) {
    && Captured(es, CONFIG) != "" && Captured(es, TOKENIZER) != ""
    && Accepted(Present(FilesOf(es, lib)), Captured(es, INDEX), lib)
  }

  /** Accepted archives, told without any order of checks: each bound is on the whole. */
  ghost predicate Acceptable(a: Archive, size: int64, digest: string, limit: int64, lib: Library) {
    && BoundsMakeSense(size, limit) && size as int <= limit as int + OVERHEAD as int
    && MembersOk(a.entries, limit, lib) && EndingOk(a.ending)
    && TotalsOk(a, size, digest, lib) && ModelOk(a.entries, lib)
  }

  datatype Inventory = Inventory(
    size: int64, sha: string, files: seq<File>, config: string, tokenizer: string, index: string)

  function FilePath(f: File): string { f.path }

  function Report(a: Archive, size: int64, digest: string, lib: Library): Inventory {
    Inventory(size, digest, SortBy(FilesOf(a.entries, lib), FilePath),
              Captured(a.entries, CONFIG), Captured(a.entries, TOKENIZER), Captured(a.entries, INDEX))
  }

  datatype Refusal =
    | Invalid | Unavailable | GaveUp
    | ReadBound(actual: int64) | TooMuchOverhead(actual: int64) | TooManyEntries(actual: int64)
    | PathTooLong(length: int) | TooMuchContent(actual: int64) | TooManyFiles(actual: int64)
    | ConfigTooLong(actual: int64)

  /** A refusal that names a limit reports a real excess over it, and one that says the
      object was not observed is never given for an object read in full. */
  ghost predicate Justified(why: Refusal, a: Archive, size: int64, limit: int64, lib: Library) {
    match why
    case Invalid => true
    case GaveUp => Failed(a, Cancelled)
    case Unavailable => !BoundsMakeSense(size, limit) || |Whole(a)| != size as int || Failed(a, Source)
    case ReadBound(actual) => actual == size && size as int > limit as int + OVERHEAD as int
    case TooMuchOverhead(actual) => OVERHEAD as int < actual as int <= Framing(a)
    case TooManyEntries(actual) => MAX_ENTRIES < actual as int <= |a.entries|
    case PathTooLong(actual) => actual > MAX_PATH_BYTES && exists e <- a.entries :: |Name(e)| == actual
    case TooMuchContent(actual) =>
      actual > limit && exists n | 0 <= n <= |a.entries| :: Content(a.entries[..n]) == actual as int
    case TooManyFiles(actual) => MAX_FILES < actual as int <= |FilesOf(a.entries, lib)|
    case ConfigTooLong(actual) =>
      actual as int > MAX_CONFIG_BYTES && exists e <- a.entries :: IsCaptured(Name(e)) && e.size == actual
  }

  ghost predicate Failed(a: Archive, cause: Cause) {
    || a.ending == NoHeader(a.ending.trailer, cause)
    || (a.ending.Finished? && a.ending.failure == Some(cause))
    || exists e <- a.entries :: e.failure == Some(cause)
  }

  // ---- sums over a prefix ---------------------------------------------------

  lemma Extend(es: seq<Entry>, n: nat, lib: Library)
    requires n < |es|
    ensures es[..n + 1][..n] == es[..n]
    ensures Bytes(es[..n + 1]) == Bytes(es[..n]) + es[n].envelope + Body(es[n])
    ensures Content(es[..n + 1]) == Content(es[..n]) + if Skipped(es[n]) then 0 else es[n].size as int
    ensures Envelope(es[..n + 1]) == Envelope(es[..n]) + |es[n].envelope|
    ensures FilesOf(es[..n + 1], lib) == FilesOf(es[..n], lib)
      + if Skipped(es[n]) then [] else [File(Name(es[n]), |es[n].payload|, lib.sha(es[n].payload))]
  {
    assert es[..n + 1][..n] == es[..n];
    assert es[..n + 1][n] == es[n];
  }

  /** At the header points, bytes read minus payload accounted for never decreases, and
      neither do the bytes read or the files found. */
  lemma {:induction false} EnvelopeGrows(es: seq<Entry>, m: nat, n: nat, lib: Library)
    requires m <= n <= |es|
    ensures Envelope(es[..m]) <= Envelope(es[..n]) && |Bytes(es[..m])| <= |Bytes(es[..n])|
    ensures |FilesOf(es[..m], lib)| <= |FilesOf(es[..n], lib)|
    decreases n - m
  {
    if m < n {
      Extend(es, m, lib);
      EnvelopeGrows(es, m + 1, n, lib);
    }
  }

  lemma {:induction false} ContentGrows(es: seq<Entry>, m: nat, n: nat, lib: Library)
    requires m <= n <= |es| && forall k {:trigger Plain(es[k], lib)} :: m <= k < n ==> Plain(es[k], lib)
    ensures Content(es[..m]) <= Content(es[..n])
    decreases n - m
  {
    if m < n {
      assert Plain(es[m], lib);
      Extend(es, m, lib);
      ContentGrows(es, m + 1, n, lib);
    }
  }

  /** Bytes read are payload and envelope: nothing is counted twice or missed. */
  lemma {:induction false} BytesSplit(es: seq<Entry>, n: nat, lib: Library)
    requires n <= |es| && forall k {:trigger Plain(es[k], lib)} :: 0 <= k < n ==> Plain(es[k], lib)
    ensures |Bytes(es[..n])| == Envelope(es[..n]) + Content(es[..n])
    ensures |FilesOf(es[..n], lib)| <= n
  {
    if n > 0 {
      assert Plain(es[n - 1], lib);
      BytesSplit(es, n - 1, lib);
      Extend(es, n - 1, lib);
    }
  }

  lemma WholeSplit(a: Archive, lib: Library)
    requires AllPlain(a.entries, lib)
    ensures |Whole(a)| == Framing(a) + Content(a.entries)
  {
    var es := a.entries;
    assert es[..|es|] == es;
    BytesSplit(es, |es|, lib);
  }

  /** So a refusal for overhead at a header is one that the final check would have
      given: no archive that would pass in the end is refused early. */
  lemma EarlyRefusalIsSound(a: Archive, n: nat, size: int64, digest: string, limit: int64, lib: Library)
    requires n <= |a.entries| && Envelope(a.entries[..n]) > OVERHEAD as int
    ensures !Acceptable(a, size, digest, limit, lib) && Framing(a) >= Envelope(a.entries[..n])
  {
    var es := a.entries;
    EnvelopeGrows(es, n, |es|, lib);
    assert es[..|es|] == es;
    if AllPlain(es, lib) {
      WholeSplit(a, lib);
    }
  }

  // ---- the envelope allowance -----------------------------------------------

  /** Zero bytes up to the next 512-byte block. */
  function Padding(size: int): (p: int)
    ensures 0 <= p < 512 && (size + p) % 512 == 0
  {
    (512 - size % 512) % 512
  }

  /** What a plain ustar archive spends: a header block an entry, padding after each
      payload, and two zero blocks. */
  function UstarBytes(es: seq<Entry>): int {
    if es == [] then 1024
    else UstarBytes(es[..|es| - 1]) + 512
         + if Skipped(es[|es| - 1]) then 0 else Padding(es[|es| - 1].size as int)
  }

  lemma {:induction false} UstarFits(es: seq<Entry>, n: nat, lib: Library)
    requires n <= |es|
    ensures UstarBytes(es[..n]) <= 1024 + 512 * n + 511 * |FilesOf(es[..n], lib)|
  {
    if n > 0 {
      UstarFits(es, n - 1, lib);
      Extend(es, n - 1, lib);
    }
  }

  /** Within the entry and file limits, an archive whose framing exceeds plain ustar by at
      most the metadata allowance meets neither envelope bound. */
  lemma AllowanceSuffices(a: Archive, size: int64, limit: int64, why: Refusal, lib: Library)
    requires |a.entries| <= 4096 && |FilesOf(a.entries, lib)| <= 1024
    requires Framing(a) <= UstarBytes(a.entries) + 16 * 0x10_0000
    requires size as int == Framing(a) + Content(a.entries) && Content(a.entries) <= limit as int
    requires Justified(why, a, size, limit, lib)
    ensures !why.ReadBound? && !why.TooMuchOverhead?
  {
    var es := a.entries;
    assert es[..|es|] == es;
    UstarFits(es, |es|, lib);
  }

  // ---- the pass -------------------------------------------------------------

  /** inventoryCountingReader over the hashing tee. */
  class CountingReader {
    var count: int64
    var hashed: string

    ghost predicate Valid() reads this { count as int == |hashed| }

    constructor ()
      ensures Valid() && hashed == ""
    {
      count, hashed := 0, "";
    }

    method Read(bytes: string)
      requires Valid() && |hashed| + |bytes| <= MAX_INT64
      modifies this
      ensures Valid() && hashed == old(hashed) + bytes
    {
      count := count + |bytes| as int64;
      hashed := hashed + bytes;
    }

    method ReadError(cause: Cause, size: int64) returns (why: Refusal)
      requires Valid()
      ensures ReadReason(why, cause, |hashed|, size)
    {
      if cause == Cancelled {
        return GaveUp;
      }
      if cause == Source || (count < size && cause == ShortInput) {
        return Unavailable;
      }
      return Invalid;
    }
  }

  /** The variables of the pass. */
  datatype Pass = Pass(
    seen: set<string>, expanded: int64, files: seq<File>, config: string, tokenizer: string, index: string)

  /** Where the pass stands after n entries. */
  ghost predicate Reached(es: seq<Entry>, n: nat, hashed: string, p: Pass, limit: int64, lib: Library) {
    && n <= |es| && n <= MAX_ENTRIES && PlainUpTo(es, n, lib)
    && Named(es, n, p.seen) && Tallied(es[..n], hashed, p, lib) && Kept(es[..n], p)
    && 0 <= p.expanded <= limit && |p.files| <= MAX_FILES
  }

  ghost predicate PlainUpTo(es: seq<Entry>, n: nat, lib: Library)
    requires n <= |es|
  {
    forall k {:trigger Plain(es[k], lib)} :: 0 <= k < n ==> Plain(es[k], lib)
  }

  lemma OneMorePlain(es: seq<Entry>, n: nat, p: Pass, limit: int64, lib: Library)
    requires n < |es| && PlainUpTo(es, n, lib)
    requires Admitted(es[n], p, limit) && (Skipped(es[n]) || PayloadOk(es[n], lib))
    ensures PlainUpTo(es, n + 1, lib)
  {
    assert Plain(es[n], lib);
  }

  ghost predicate Named(es: seq<Entry>, n: nat, seen: set<string>)
    requires n <= |es|
  {
    seen == Range(Keys(es, Name)[..n]) && Distinct(Keys(es, Name)[..n]) && |seen| == n
  }

  ghost predicate Tallied(es: seq<Entry>, hashed: string, p: Pass, lib: Library) {
    hashed == Bytes(es) && p.expanded as int == Content(es) && p.files == FilesOf(es, lib)
  }

  ghost predicate Kept(es: seq<Entry>, p: Pass) {
    p.config == Captured(es, CONFIG) && p.tokenizer == Captured(es, TOKENIZER) && p.index == Captured(es, INDEX)
  }

  /** Whether a header may come next, from what the pass has kept so far. */
  ghost predicate Admitted(e: Entry, p: Pass, limit: int64) {
    && |p.seen| < MAX_ENTRIES && FactsPath(Name(e)) && Name(e) !in p.seen && !e.linked
    && (Skipped(e) || (
          && (e.kind == Regular || e.kind == RegularOld) && !e.sparse
          && 0 <= e.size as int <= limit as int - p.expanded as int
          && |p.files| < MAX_FILES && (IsCaptured(Name(e)) ==> e.size as int <= MAX_CONFIG_BYTES)))
  }

  ghost predicate HeaderReason(why: Refusal, e: Entry, p: Pass, limit: int64) {
    match why
    case Invalid => true
    case TooManyEntries(actual) => |p.seen| >= MAX_ENTRIES && actual as int == |p.seen| + 1
    case PathTooLong(actual) => actual == |Name(e)| > MAX_PATH_BYTES
    case TooMuchContent(actual) =>
      !Skipped(e) && actual > limit && actual as int == p.expanded as int + e.size as int
    case TooManyFiles(actual) => !Skipped(e) && |p.files| >= MAX_FILES && actual as int == |p.files| + 1
    case ConfigTooLong(actual) => IsCaptured(Name(e)) && actual == e.size && actual as int > MAX_CONFIG_BYTES
    case _ => false
  }

  method CheckHeader(e: Entry, p: Pass, limit: int64) returns (r: Option<Refusal>)
    requires 0 <= p.expanded <= limit && |p.seen| <= MAX_ENTRIES && |p.files| <= MAX_FILES
    ensures r.None? <==> Admitted(e, p, limit)
    ensures r.Some? ==> HeaderReason(r.value, e, p, limit)
  {
    var name := Name(e);
    if |p.seen| >= MAX_ENTRIES {
      return Some(TooManyEntries(|p.seen| as int64 + 1));
    }
    if |name| > MAX_PATH_BYTES {
      return Some(PathTooLong(|name|));
    }
    if !FactsPath(name) || name in p.seen || e.linked {
      return Some(Invalid);
    }
    if Skipped(e) {
      return None;
    }
    if e.sparse {
      return Some(Invalid);
    }
    if e.size > MAX_INT - p.expanded {
      return Some(Invalid);
    }
    if e.size > limit - p.expanded {
      return Some(TooMuchContent(p.expanded + e.size));
    }
    if |p.files| >= MAX_FILES {
      return Some(TooManyFiles(|p.files| as int64 + 1));
    }
    if (e.kind != Regular && e.kind != RegularOld) || e.size < 0
       || e.size > limit - p.expanded || |p.files| >= MAX_FILES {
      return Some(Invalid);
    }
    if IsCaptured(name) && e.size as int > MAX_CONFIG_BYTES {
      return Some(ConfigTooLong(e.size));
    }
    return None;
  }

  lemma StreamBound(a: Archive, n: nat, size: int64, lib: Library)
    requires n < |a.entries| && Readable(a, size)
    ensures |Bytes(a.entries[..n]) + a.entries[n].envelope| <= MAX_INT64
    ensures |Bytes(a.entries[..n]) + a.entries[n].envelope + Body(a.entries[n])| <= |Whole(a)| <= MAX_INT64
  {
    var es := a.entries;
    assert es[..|es|] == es;
    Extend(es, n, lib);
    EnvelopeGrows(es, n + 1, |es|, lib);
  }

  /** In an acceptable archive every next header is admitted. */
  lemma AcceptableIsAdmitted(es: seq<Entry>, n: nat, hashed: string, p: Pass, limit: int64, lib: Library)
    requires n < |es| && Reached(es, n, hashed, p, limit, lib) && MembersOk(es, limit, lib)
    ensures Admitted(es[n], p, limit)
  {
    assert Plain(es[n], lib);
    if !Skipped(es[n]) {
      RoomForOne(es, n, limit, lib);
    }
    NewName(es, n, p.seen);
  }

  /** Bounds on the whole leave room for every member in turn. */
  lemma RoomForOne(es: seq<Entry>, n: nat, limit: int64, lib: Library)
    requires n < |es| && MembersOk(es, limit, lib) && !Skipped(es[n])
    ensures Content(es[..n]) + es[n].size as int <= limit as int && |FilesOf(es[..n], lib)| < MAX_FILES
  {
    assert es[..|es|] == es;
    Extend(es, n, lib);
    EnvelopeGrows(es, n + 1, |es|, lib);
    ContentGrows(es, n + 1, |es|, lib);
  }

  /** Where names do not repeat, the next one is not among those before it. */
  lemma NewName(es: seq<Entry>, n: nat, seen: set<string>)
    requires n < |es| && Named(es, n, seen)
    ensures Distinct(Keys(es, Name)) ==> Name(es[n]) !in seen
    ensures Name(es[n]) !in seen ==> Named(es, n + 1, seen + {Name(es[n])})
  {
    var keys := Keys(es, Name);
    assert keys[..n + 1] == keys[..n] + [keys[n]];
    if Distinct(keys) {
      forall k | 0 <= k < n ensures keys[..n][k] != keys[n] {}
    }
    if keys[n] !in seen {
      forall k | 0 <= k < n ensures keys[k] != keys[n] { assert keys[..n][k] in keys[..n]; }
    }
  }

  /** The reason given for refusing a header is true of the archive. */
  lemma HeaderReasonHolds(
      a: Archive, n: nat, p: Pass, why: Refusal, size: int64, limit: int64, lib: Library)
    requires n < |a.entries| && |p.seen| == n
    requires p.expanded as int == Content(a.entries[..n]) && p.files == FilesOf(a.entries[..n], lib)
    requires HeaderReason(why, a.entries[n], p, limit)
    ensures Justified(why, a, size, limit, lib)
  {
    var es := a.entries;
    assert es[n] in es;
    assert es[..|es|] == es;
    match why
    case TooMuchContent(actual) =>
      Extend(es, n, lib);
      assert Content(es[..n + 1]) == actual as int;
    case TooManyFiles(actual) =>
      Extend(es, n, lib);
      EnvelopeGrows(es, n + 1, |es|, lib);
    case _ =>
  }

  lemma HeaderRefused(
      a: Archive, n: nat, hashed: string, p: Pass, why: Refusal,
      size: int64, digest: string, limit: int64, lib: Library)
    requires n < |a.entries| && Reached(a.entries, n, hashed, p, limit, lib) && |p.seen| == n
    requires !Admitted(a.entries[n], p, limit) && HeaderReason(why, a.entries[n], p, limit)
    ensures Justified(why, a, size, limit, lib) && !Acceptable(a, size, digest, limit, lib)
  {
    HeaderReasonHolds(a, n, p, why, size, limit, lib);
    if MembersOk(a.entries, limit, lib) {
      AcceptableIsAdmitted(a.entries, n, hashed, p, limit, lib);
    }
  }

  /** What visiting one good member does to the variables. */
  function Visited(p: Pass, e: Entry, lib: Library): Pass
    requires Skipped(e) || 0 <= p.expanded as int + e.size as int <= MAX_INT64
  {
    var q := p.(seen := p.seen + {Name(e)});
    if Skipped(e) then q
    else q.(expanded := p.expanded + e.size,
            files := p.files + [File(Name(e), |e.payload|, lib.sha(e.payload))],
            config := if Name(e) == CONFIG then e.payload else p.config,
            tokenizer := if Name(e) == TOKENIZER then e.payload else p.tokenizer,
            index := if Name(e) == INDEX then e.payload else p.index)
  }

  /** A plain member whose header was admitted takes the pass one entry further. */
  lemma Proceed(es: seq<Entry>, n: nat, hashed: string, p: Pass, limit: int64, lib: Library)
    requires n < |es| && Reached(es, n, hashed, p, limit, lib) && limit < MAX_INT
    requires Admitted(es[n], p, limit) && (Skipped(es[n]) || PayloadOk(es[n], lib))
    ensures Reached(es, n + 1, hashed + es[n].envelope + Body(es[n]), Visited(p, es[n], lib), limit, lib)
  {
    Extend(es, n, lib);
    NewName(es, n, p.seen);
    KeepOne(es, n, p, lib);
    OneMorePlain(es, n, p, limit, lib);
  }

  lemma KeepOne(es: seq<Entry>, n: nat, p: Pass, lib: Library)
    requires n < |es| && Kept(es[..n], p)
    requires Skipped(es[n]) || 0 <= p.expanded as int + es[n].size as int <= MAX_INT64
    ensures Kept(es[..n + 1], Visited(p, es[n], lib))
  {
    assert es[..n + 1][..n] == es[..n] && es[..n + 1][n] == es[n];
  }

  lemma NamesDiffer()
    ensures CONFIG != TOKENIZER && CONFIG != INDEX && TOKENIZER != INDEX
  {
    assert |CONFIG| == 11 && |TOKENIZER| == 21 && |INDEX| == 28;
  }

  ghost predicate ReadReason(why: Refusal, cause: Cause, count: nat, size: int64) {
    || why == Invalid
    || (why == GaveUp && cause == Cancelled)
    || (why == Unavailable && (cause == Source || count < size as int))
  }

  /** A payload that failed to be read is the end of the stream. */
  lemma FailedMember(a: Archive, n: nat, why: Refusal, size: int64, limit: int64, lib: Library)
    requires n < |a.entries| && Readable(a, size)
    requires a.entries[n].failure.Some? && !Skipped(a.entries[n])
    requires ReadReason(why, a.entries[n].failure.value, |Bytes(a.entries[..n + 1])|, size)
    ensures Justified(why, a, size, limit, lib)
  {
    assert a.entries[..n + 1] == a.entries;
  }

  /** The pass. It accepts exactly the acceptable archives, reports what is in them, and
      its refusals are justified; nothing in it leaves the int64 range. */
  method InspectArchive(a: Archive, size: int64, digest: string, limit: int64, lib: Library)
    returns (r: Result<Inventory, Refusal>)
    requires Readable(a, size)
    ensures r.Ok? <==> Acceptable(a, size, digest, limit, lib)
    ensures r.Ok? ==> r.value == Report(a, size, digest, lib)
    ensures r.Err? ==> Justified(r.error, a, size, limit, lib)
  {
    if limit <= 0 || limit > MAX_INT - OVERHEAD || size <= 0 {
      return Err(Unavailable);
    }
    if size > limit + OVERHEAD {
      return Err(ReadBound(size));
    }
    var measured := new CountingReader();
    var entries := ReadEntries(a, size, digest, limit, lib, measured);
    if entries.Err? {
      return Err(entries.error);
    }
    r := Finish(a, size, digest, limit, lib, measured, entries.value);
  }

  lemma NothingRead(es: seq<Entry>, limit: int64, lib: Library)
    requires 0 <= limit
    ensures Reached(es, 0, "", Pass({}, 0, [], "", "", ""), limit, lib)
  {
  }

  /** The loop over the headers. */
  method ReadEntries(
      a: Archive, size: int64, ghost digest: string, limit: int64, lib: Library, measured: CountingReader)
    returns (r: Result<Pass, Refusal>)
    requires Readable(a, size) && BoundsMakeSense(size, limit) && measured.Valid() && measured.hashed == ""
    modifies measured
    ensures r.Ok? ==> measured.Valid() && Reached(a.entries, |a.entries|, measured.hashed, r.value, limit, lib)
    ensures r.Err? ==> Justified(r.error, a, size, limit, lib) && !Acceptable(a, size, digest, limit, lib)
  {
    var pass := Pass({}, 0, [], "", "", "");
    NothingRead(a.entries, limit, lib);
    for n := 0 to |a.entries|
      invariant measured.Valid()
      invariant Reached(a.entries, n, measured.hashed, pass, limit, lib)
    {
      var next := Visit(a, n, pass, measured, size, digest, limit, lib);
      if next.Err? {
        return Err(next.error);
      }
      pass := next.value;
    }
    return Ok(pass);
  }

  /** Next, and the checks on the header that it returns. */
  method ReadHeader(
      a: Archive, n: nat, p: Pass, measured: CountingReader,
      size: int64, ghost digest: string, limit: int64, ghost lib: Library)
    returns (bad: Option<Refusal>)
    requires n < |a.entries| && Readable(a, size) && BoundsMakeSense(size, limit)
    requires measured.Valid() && Reached(a.entries, n, measured.hashed, p, limit, lib)
    modifies measured
    ensures measured.Valid() && measured.hashed == old(measured.hashed) + a.entries[n].envelope
    ensures bad.None? ==> Admitted(a.entries[n], p, limit)
    ensures bad.Some? ==> Justified(bad.value, a, size, limit, lib) && !Acceptable(a, size, digest, limit, lib)
  {
    ghost var before := measured.hashed;
    StreamBound(a, n, size, lib);
    CountAtHeader(a.entries, n, before, p, limit, lib);
    measured.Read(a.entries[n].envelope);
    if measured.count - p.expanded > OVERHEAD {
      EarlyRefusalIsSound(a, n + 1, size, digest, limit, lib);
      return Some(TooMuchOverhead(measured.count - p.expanded));
    }
    bad := CheckHeader(a.entries[n], p, limit);
    if bad.Some? {
      HeaderRefused(a, n, before, p, bad.value, size, digest, limit, lib);
    }
  }

  /** One turn of the loop. */
  method Visit(
      a: Archive, n: nat, p: Pass, measured: CountingReader,
      size: int64, ghost digest: string, limit: int64, lib: Library)
    returns (r: Result<Pass, Refusal>)
    requires n < |a.entries| && Readable(a, size) && BoundsMakeSense(size, limit)
    requires measured.Valid() && Reached(a.entries, n, measured.hashed, p, limit, lib)
    modifies measured
    ensures r.Ok? ==> measured.Valid() && Reached(a.entries, n + 1, measured.hashed, r.value, limit, lib)
    ensures r.Err? ==> Justified(r.error, a, size, limit, lib) && !Acceptable(a, size, digest, limit, lib)
  {
    var e := a.entries[n];
    ghost var before := measured.hashed;
    StreamBound(a, n, size, lib);
    var bad := ReadHeader(a, n, p, measured, size, digest, limit, lib);
    if bad.Some? {
      return Err(bad.value);
    }
    if Skipped(e) {
      Proceed(a.entries, n, before, p, limit, lib);
      return Ok(p.(seen := p.seen + {Name(e)}));
    }
    var member := ReadMember(e, measured, size, lib);
    if member.Err? {
      MemberRefusal(a, n, before, p, member.error, size, limit, lib);
      return Err(member.error);
    }
    Proceed(a.entries, n, before, p, limit, lib);
    var q := Keep(p, e, member.value, lib);
    return Ok(q);
  }

  /** Keeps one member: in the list, and its bytes if they are captured. */
  method Keep(p: Pass, e: Entry, file: File, ghost lib: Library) returns (q: Pass)
    requires !Skipped(e) && 0 <= p.expanded as int + e.size as int <= MAX_INT64
    requires file == File(Name(e), |e.payload|, lib.sha(e.payload))
    ensures q == Visited(p, e, lib)
  {
    NamesDiffer();
    q := p.(seen := p.seen + {Name(e)}, expanded := p.expanded + e.size, files := p.files + [file]);
    if Name(e) == CONFIG {
      q := q.(config := e.payload);
    } else if Name(e) == TOKENIZER {
      q := q.(tokenizer := e.payload);
    } else if Name(e) == INDEX {
      q := q.(index := e.payload);
    }
  }

  lemma MemberRefusal(
      a: Archive, n: nat, hashed: string, p: Pass, why: Refusal, size: int64, limit: int64, lib: Library)
    requires n < |a.entries| && Readable(a, size) && Reached(a.entries, n, hashed, p, limit, lib)
    requires !Skipped(a.entries[n]) && !PayloadOk(a.entries[n], lib)
    requires var e := a.entries[n];
      why == Invalid
      || (e.failure.Some? && ReadReason(why, e.failure.value, |hashed + e.envelope + e.payload|, size))
    ensures Justified(why, a, size, limit, lib) && !MembersOk(a.entries, limit, lib)
  {
    assert AllPlain(a.entries, lib) ==> Plain(a.entries[n], lib);
    if why != Invalid {
      Extend(a.entries, n, lib);
      FailedMember(a, n, why, size, limit, lib);
    }
  }

  lemma CountAtHeader(es: seq<Entry>, n: nat, hashed: string, p: Pass, limit: int64, lib: Library)
    requires n < |es| && Reached(es, n, hashed, p, limit, lib)
    ensures |hashed| + |es[n].envelope| - p.expanded as int == Envelope(es[..n + 1])
  {
    Extend(es, n, lib);
    BytesSplit(es, n, lib);
  }

  /** Reads one payload and checks it. */
  method ReadMember(e: Entry, measured: CountingReader, size: int64, lib: Library)
    returns (r: Result<File, Refusal>)
    requires measured.Valid() && |measured.hashed| + |e.payload| <= MAX_INT64
    requires IsCaptured(Name(e)) ==> e.size as int <= MAX_CONFIG_BYTES
    modifies measured
    ensures measured.Valid() && measured.hashed == old(measured.hashed) + e.payload
    ensures r.Ok? <==> PayloadOk(e, lib)
    ensures r.Ok? ==> r.value == File(Name(e), |e.payload|, lib.sha(e.payload))
    ensures r.Err? && r.error != Invalid
      ==> e.failure.Some? && ReadReason(r.error, e.failure.value, |measured.hashed|, size)
    ensures r.Err? ==> r.error == Invalid || r.error == GaveUp || r.error == Unavailable
  {
    measured.Read(e.payload);
    if e.failure.Some? {
      var why := measured.ReadError(e.failure.value, size);
      return Err(why);
    }
    if |e.payload| != e.size as int {
      return Err(Invalid);
    }
    if IsCaptured(Name(e)) && (!ValidUtf8(e.payload) || !lib.validJson(e.payload)) {
      return Err(Invalid);
    }
    return Ok(File(Name(e), |e.payload|, lib.sha(e.payload)));
  }

  /** What comes after the last header: the tail must be zero, and the totals right. */
  method Finish(
      a: Archive, size: int64, digest: string, limit: int64, lib: Library,
      measured: CountingReader, p: Pass)
    returns (r: Result<Inventory, Refusal>)
    requires BoundsMakeSense(size, limit) && size as int <= limit as int + OVERHEAD as int && Readable(a, size)
    requires measured.Valid() && Reached(a.entries, |a.entries|, measured.hashed, p, limit, lib)
    modifies measured
    ensures r.Ok? <==> Acceptable(a, size, digest, limit, lib)
    ensures r.Ok? ==> r.value == Report(a, size, digest, lib)
    ensures r.Err? ==> Justified(r.error, a, size, limit, lib)
  {
    AllVisited(a, measured.hashed, p, limit, lib);
    var bad := ReadEnding(a, size, limit, lib, measured);
    if bad.Some? {
      return Err(bad.value);
    }
    r := CheckTotals(a, size, digest, limit, lib, measured, p);
  }

  /** Reads to the end of the stream: the trailer, and a tail that must be zero. */
  method ReadEnding(a: Archive, size: int64, ghost limit: int64, ghost lib: Library, measured: CountingReader)
    returns (bad: Option<Refusal>)
    requires Readable(a, size) && measured.Valid() && measured.hashed == Bytes(a.entries)
    modifies measured
    ensures measured.Valid() && (bad.None? <==> EndingOk(a.ending))
    ensures bad.None? ==> measured.hashed == Whole(a)
    ensures bad.Some? ==> Justified(bad.value, a, size, limit, lib)
  {
    measured.Read(a.ending.trailer);
    if a.ending.NoHeader? {
      var why := measured.ReadError(a.ending.cause, size);
      return Some(why);
    }
    var zero := DrainTail(a.ending.tail, measured);
    if !zero {
      return Some(Invalid);
    }
    assert measured.hashed == Whole(a);
    if a.ending.failure.Some? {
      var why := measured.ReadError(a.ending.failure.value, size);
      return Some(why);
    }
    return None;
  }

  /** The checks on the whole stream. */
  method CheckTotals(
      a: Archive, size: int64, digest: string, limit: int64, lib: Library,
      measured: CountingReader, p: Pass)
    returns (r: Result<Inventory, Refusal>)
    requires measured.Valid() && measured.hashed == Whole(a)
    requires 0 <= p.expanded && p.expanded as int == Content(a.entries)
    requires Kept(a.entries, p) && p.files == FilesOf(a.entries, lib)
    requires |Whole(a)| == Framing(a) + Content(a.entries)
    ensures r.Ok? <==> TotalsOk(a, size, digest, lib) && ModelOk(a.entries, lib)
    ensures r.Ok? ==> r.value == Report(a, size, digest, lib)
    ensures r.Err? ==> Justified(r.error, a, size, limit, lib)
  {
    if measured.count - p.expanded > OVERHEAD {
      return Err(TooMuchOverhead(measured.count - p.expanded));
    }
    if measured.count != size {
      return Err(Unavailable);
    }
    if lib.sha(measured.hashed) != digest || p.config == "" || p.tokenizer == "" {
      return Err(Invalid);
    }
    var layout := Inspect(Present(p.files), p.index, lib);
    if layout.None? {
      return Err(Invalid);
    }
    return Ok(Inventory(size, digest, SortBy(p.files, FilePath), p.config, p.tokenizer, p.index));
  }

  lemma AllVisited(a: Archive, hashed: string, p: Pass, limit: int64, lib: Library)
    requires Reached(a.entries, |a.entries|, hashed, p, limit, lib)
    ensures MembersOk(a.entries, limit, lib) && Kept(a.entries, p) && p.files == FilesOf(a.entries, lib)
    ensures hashed == Bytes(a.entries) && p.expanded as int == Content(a.entries)
    ensures |Whole(a)| == Framing(a) + Content(a.entries)
  {
    var keys := Keys(a.entries, Name);
    assert keys[..|keys|] == keys && a.entries[..|a.entries|] == a.entries;
    WholeSplit(a, lib);
  }

  /** Reads to the end of the stream in buffers, as long as all bytes are zero. */
  method DrainTail(tail: string, measured: CountingReader) returns (zero: bool)
    requires measured.Valid() && |measured.hashed| + |tail| <= MAX_INT64
    modifies measured
    ensures measured.Valid() && zero == AllZero(tail)
    ensures zero ==> measured.hashed == old(measured.hashed) + tail
  {
    var at := 0;
    while at < |tail|
      invariant at <= |tail| && measured.Valid() && AllZero(tail[..at])
      invariant measured.hashed == old(measured.hashed) + tail[..at]
    {
      var n := if |tail| - at < 0x8000 then |tail| - at else 0x8000;
      var padding := tail[at..at + n];
      measured.Read(padding);
      assert tail[..at + n] == tail[..at] + padding;
      if !AllZero(padding) {
        ghost var k :| 0 <= k < n && padding[k] != '\0';
        assert tail[at + k] in tail;
        return false;
      }
      at := at + n;
    }
    assert tail[..at] == tail;
    return true;
  }
}
