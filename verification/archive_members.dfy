/** What the archive pass makes of the names and kinds that headers carry, told over the
    headers themselves. */
module ArchiveMembers {
  import opened Wrappers
  import opened Orders
  import opened Paths
  import opened WeightLayout
  import opened ArchiveFacts

  // ---- names ------------------------------------------------------------------

  lemma {:induction false} SplitOfSlash(q: string)
    ensures |Split(q + "/")| >= 2 && Split(q + "/")[|Split(q + "/")| - 1] == ""
  {
    if q == "" {
      assert "/"[1..] == "";
      assert Split("/") == [""] + Split("");
    } else {
      SplitOfSlash(q[1..]);
      assert (q + "/")[1..] == q[1..] + "/";
    }
  }

  lemma SafePathsEndInNoSlash(p: string)
    ensures HasSuffix(p, "/") ==> !SafeRelative(p)
  {
    if HasSuffix(p, "/") {
      SplitOfSlash(p[..|p| - 1]);
      assert p == p[..|p| - 1] + "/";
      assert Split(p)[|Split(p)| - 1] in Split(p);
    }
  }

  /** The header of an entry at path p: the path itself, or, as tar writes directories, the
      path and a slash. */
  predicate HeaderFor(name: string, kind: Kind, p: string) {
    name == p || (kind == Directory && name == p + "/")
  }

  /** The names that the pass lets through are exactly those of headers for a safe path, and
      it goes on with that path. */
  lemma NamesLetThrough(e: Entry)
    ensures FactsPath(Name(e)) <==> exists p :: SafeRelative(p) && HeaderFor(e.name, e.kind, p)
    ensures forall p :: SafeRelative(p) && HeaderFor(e.name, e.kind, p) ==> Name(e) == p
  {
    FactsPathMeansSafe(Name(e));
    assert HasSuffix(e.name, "/") ==> e.name == e.name[..|e.name| - 1] + "/";
    forall p | SafeRelative(p) && HeaderFor(e.name, e.kind, p) ensures Name(e) == p {
      SafePathsEndInNoSlash(p);
      assert HasSuffix(p + "/", "/") && (p + "/")[..|p|] == p;
    }
    if FactsPath(Name(e)) {
      assert HeaderFor(e.name, e.kind, Name(e));
    }
  }

  /** Which entries may stand in an archive: unlinked headers for a safe path, of empty
      directories or of whole regular files, and those that carry configuration short
      UTF-8 JSON. */
  lemma PlainExactly(e: Entry, lib: Library)
    ensures Plain(e, lib) <==>
      && !e.linked && (exists p :: SafeRelative(p) && HeaderFor(e.name, e.kind, p))
      && (|| (e.kind == Directory && e.size == 0)
          || (&& e.kind in {Regular, RegularOld} && !e.sparse
              && e.failure.None? && |e.payload| == e.size as int
              && (e.name in {"config.json", "tokenizer_config.json", "model.safetensors.index.json"} ==>
                    |e.payload| <= 8 * 0x10_0000 && ValidUtf8(e.payload) && lib.validJson(e.payload))))
  {
    NamesLetThrough(e);
    if e.kind in {Regular, RegularOld} {
      assert Name(e) == e.name;
    }
  }

  // ---- files ------------------------------------------------------------------

  /** f is the file that entry e is. */
  predicate IsFileOf(e: Entry, f: File, lib: Library) {
    e.kind in {Regular, RegularOld} && f == File(e.name, e.size as int, lib.sha(e.payload))
  }

  ghost predicate Listed(es: seq<Entry>, f: File, lib: Library) {
    exists k :: 0 <= k < |es| && IsFileOf(es[k], f, lib)
  }

  lemma ListedFront(es: seq<Entry>, f: File, lib: Library)
    requires es != []
    ensures Listed(es, f, lib) <==> Listed(es[..|es| - 1], f, lib) || IsFileOf(es[|es| - 1], f, lib)
  {
    var front := es[..|es| - 1];
    if k :| 0 <= k < |es| && IsFileOf(es[k], f, lib) {
      assert k < |front| ==> front[k] == es[k];
    }
    if k :| 0 <= k < |front| && IsFileOf(front[k], f, lib) {
      assert es[k] == front[k];
    }
  }

  /** The files reported are the regular members, and each stands under the name in its
      header, at its size, with the digest of its own bytes. */
  lemma {:induction false} FilesAreTheMembers(es: seq<Entry>, f: File, lib: Library)
    requires AllPlain(es, lib)
    ensures f in FilesOf(es, lib) <==> Listed(es, f, lib)
  {
    if es != [] {
      PlainFront(es, lib);
      ListedFront(es, f, lib);
      FilesAreTheMembers(es[..|es| - 1], f, lib);
      PlainExactly(es[|es| - 1], lib);
      assert Skipped(es[|es| - 1]) || Name(es[|es| - 1]) == es[|es| - 1].name;
    }
  }

  lemma PlainFront(es: seq<Entry>, lib: Library)
    requires AllPlain(es, lib) && es != []
    ensures AllPlain(es[..|es| - 1], lib) && Plain(es[|es| - 1], lib)
  {
    var front := es[..|es| - 1];
    assert Plain(es[|es| - 1], lib);
    forall k | 0 <= k < |front| ensures Plain(front[k], lib) {
      assert Plain(es[k], lib);
    }
  }

  /** Captured bytes are those of the one member with that name in its header. */
  lemma {:induction false} CapturedIsTheMember(es: seq<Entry>, k: nat, lib: Library)
    requires AllPlain(es, lib) && Distinct(Keys(es, Name)) && k < |es| && es[k].kind in {Regular, RegularOld}
    ensures Captured(es, es[k].name) == es[k].payload
  {
    var last := |es| - 1;
    if k < last {
      PlainFront(es, lib);
      assert Keys(es[..last], Name) == Keys(es, Name)[..last];
      assert Keys(es, Name)[k] != Keys(es, Name)[last];
      CapturedIsTheMember(es[..last], k, lib);
    }
  }

  // ---- directories --------------------------------------------------------------

  /** A directory entry for path d, as tar writes it, with its own envelope. */
  predicate EmptyDirectory(e: Entry, d: string) {
    e.kind == Directory && e.size == 0 && e.name == d + "/" && !e.linked
  }

  function Inserted(es: seq<Entry>, i: nat, e: Entry): seq<Entry>
    requires i <= |es|
  {
    es[..i] + [e] + es[i..]
  }

  lemma {:induction false} DirectoryAddsNothing(front: seq<Entry>, e: Entry, back: seq<Entry>, lib: Library)
    requires Skipped(e)
    ensures FilesOf(front + [e] + back, lib) == FilesOf(front + back, lib)
    ensures Content(front + [e] + back) == Content(front + back)
    ensures forall name :: Captured(front + [e] + back, name) == Captured(front + back, name)
  {
    var all, without := front + [e] + back, front + back;
    if back == [] {
      assert all[..|all| - 1] == front && without == front;
    } else {
      var shorter := back[..|back| - 1];
      DirectoryAddsNothing(front, e, shorter, lib);
      assert all[..|all| - 1] == front + [e] + shorter && without[..|without| - 1] == front + shorter;
      assert all[|all| - 1] == without[|without| - 1] == back[|back| - 1];
    }
  }

  lemma {:induction false} DirectoryAddsItsEnvelope(front: seq<Entry>, e: Entry, back: seq<Entry>)
    requires Skipped(e)
    ensures |Bytes(front + [e] + back)| == |Bytes(front + back)| + |e.envelope|
  {
    var all, without := front + [e] + back, front + back;
    if back == [] {
      assert all[..|all| - 1] == front && without == front;
    } else {
      var shorter := back[..|back| - 1];
      DirectoryAddsItsEnvelope(front, e, shorter);
      assert all[..|all| - 1] == front + [e] + shorter && without[..|without| - 1] == front + shorter;
      assert all[|all| - 1] == without[|without| - 1] == back[|back| - 1];
    }
  }

  lemma DirectoryIsNew(es: seq<Entry>, i: nat, e: Entry, d: string, lib: Library)
    requires i <= |es| && AllPlain(es, lib) && Distinct(Keys(es, Name)) && EmptyDirectory(e, d) && SafeRelative(d)
    requires forall k :: 0 <= k < |es| ==> es[k].name != d && es[k].name != d + "/"
    ensures AllPlain(Inserted(es, i, e), lib) && Distinct(Keys(Inserted(es, i, e), Name))
  {
    assert HeaderFor(e.name, e.kind, d);
    NamesLetThrough(e);
    PlainExactly(e, lib);
    PlainInsert(es, i, e, lib);
    forall k | 0 <= k < |es| ensures Keys(es, Name)[k] != d {
      assert HasSuffix(es[k].name, "/") ==> es[k].name == es[k].name[..|es[k].name| - 1] + "/";
    }
    assert Keys(Inserted(es, i, e), Name) == Keys(es, Name)[..i] + [d] + Keys(es, Name)[i..];
    DistinctInsert(Keys(es, Name), i, d);
  }

  lemma PlainInsert(es: seq<Entry>, i: nat, e: Entry, lib: Library)
    requires i <= |es| && AllPlain(es, lib) && Plain(e, lib)
    ensures AllPlain(Inserted(es, i, e), lib)
  {
    var all := Inserted(es, i, e);
    forall k | 0 <= k < |all| ensures Plain(all[k], lib) {
      if k != i {
        assert Plain(es[if k < i then k else k - 1], lib);
      }
    }
  }

  /** An acceptable archive stays acceptable, and its report the same but for size and
      digest, when an empty directory is added anywhere, as tar adds one for every
      subdirectory: under a safe path that no other header names, within the limits on
      entries and on the envelope. */
  lemma DirectoriesAreWelcome(
      a: Archive, i: nat, e: Entry, d: string, size: int64, digest: string, limit: int64,
      size': int64, digest': string, lib: Library)
    requires Acceptable(a, size, digest, limit, lib) && i <= |a.entries| < 4096
    requires EmptyDirectory(e, d) && SafeRelative(d)
    requires forall k :: 0 <= k < |a.entries| ==> a.entries[k].name != d && a.entries[k].name != d + "/"
    requires Framing(a) + |e.envelope| <= 512 * 4096 + 511 * 1024 + 16 * 0x10_0000 + 1024
    requires size' as int == size as int + |e.envelope| <= limit as int + OVERHEAD as int
    requires digest' == lib.sha(Whole(a.(entries := Inserted(a.entries, i, e))))
    ensures var a' := a.(entries := Inserted(a.entries, i, e));
      && Acceptable(a', size', digest', limit, lib)
      && Report(a', size', digest', lib) == Report(a, size, digest, lib).(size := size', sha := digest')
  {
    WholeSplit(a, lib);
    DirectoryIsNew(a.entries, i, e, d, lib);
    DirectoryKeepsReport(a.entries, i, e, lib);
    DirectoryKeepsTotals(a, i, e);
  }

  lemma DirectoryKeepsReport(es: seq<Entry>, i: nat, e: Entry, lib: Library)
    requires i <= |es| && Skipped(e)
    ensures var all := Inserted(es, i, e);
      && FilesOf(all, lib) == FilesOf(es, lib) && Content(all) == Content(es)
      && Captured(all, CONFIG) == Captured(es, CONFIG) && Captured(all, TOKENIZER) == Captured(es, TOKENIZER)
      && Captured(all, INDEX) == Captured(es, INDEX)
  {
    assert es[..i] + es[i..] == es;
    DirectoryAddsNothing(es[..i], e, es[i..], lib);
  }

  lemma DirectoryKeepsTotals(a: Archive, i: nat, e: Entry)
    requires i <= |a.entries| && Skipped(e)
    ensures |Whole(a.(entries := Inserted(a.entries, i, e)))| == |Whole(a)| + |e.envelope|
  {
    assert a.entries[..i] + a.entries[i..] == a.entries;
    DirectoryAddsItsEnvelope(a.entries[..i], e, a.entries[i..]);
  }
}
