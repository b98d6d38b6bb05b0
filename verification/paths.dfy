/** Member paths: Go strings, one char per byte, and the path rule that the archive
    reader and the facts validator share. */
module Paths {
  // ---- UTF-8 ----------------------------------------------------------------

  predicate Cont(c: char) { '\U{80}' <= c <= '\U{BF}' }

  /** Bytes of the rune that starts s, or 0 when it is malformed. */
  function RuneLen(s: string): (n: nat)
    ensures n <= |s|
  {
    if s == "" then 0
    else if s[0] < '\U{80}' then 1
    else if |s| >= 2 && '\U{C2}' <= s[0] <= '\U{DF}' && Cont(s[1]) then 2
    else if |s| >= 3 && Cont(s[2])
            && ((s[0] == '\U{E0}' && '\U{A0}' <= s[1] <= '\U{BF}')
                || (s[0] == '\U{ED}' && '\U{80}' <= s[1] <= '\U{9F}')
                || ('\U{E1}' <= s[0] <= '\U{EF}' && s[0] != '\U{ED}' && Cont(s[1]))) then 3
    else if |s| >= 4 && Cont(s[2]) && Cont(s[3])
            && ((s[0] == '\U{F0}' && '\U{90}' <= s[1] <= '\U{BF}')
                || ('\U{F1}' <= s[0] <= '\U{F3}' && Cont(s[1]))
                || (s[0] == '\U{F4}' && '\U{80}' <= s[1] <= '\U{8F}')) then 4
    else 0
  }

  predicate ValidUtf8(s: string) {
    s == "" || (RuneLen(s) > 0 && ValidUtf8(s[RuneLen(s)..]))
  }

  /** A Unicode scalar value, and its UTF-8 form as table 3-6 of the Unicode Standard has
      it. */
  predicate Scalar(n: int) { 0 <= n < 0xD800 || 0xE000 <= n < 0x11_0000 }

  function Byte(n: int): char
    requires 0 <= n < 0x100
  {
    n as char
  }

  function Encode(n: int): string
    requires Scalar(n)
  {
    if n < 0x80 then [Byte(n)]
    else if n < 0x800 then [Byte(0xC0 + n / 0x40), Byte(0x80 + n % 0x40)]
    else if n < 0x1_0000 then [Byte(0xE0 + n / 0x1000), Byte(0x80 + n / 0x40 % 0x40), Byte(0x80 + n % 0x40)]
    else [Byte(0xF0 + n / 0x4_0000), Byte(0x80 + n / 0x1000 % 0x40),
          Byte(0x80 + n / 0x40 % 0x40), Byte(0x80 + n % 0x40)]
  }

  function EncodeAll(runes: seq<int>): string
    requires forall n <- runes :: Scalar(n)
  {
    if runes == [] then "" else Encode(runes[0]) + EncodeAll(runes[1..])
  }

  /** The scalar value at the front of s. */
  function Decode(s: string): (n: int)
    requires RuneLen(s) > 0
    ensures Scalar(n)
  {
    var a := s[0] as int;
    if RuneLen(s) == 1 then a
    else if RuneLen(s) == 2 then Digits(0, 0, a - 0xC0, s[1] as int - 0x80)
    else if RuneLen(s) == 3 then Digits(0, a - 0xE0, s[1] as int - 0x80, s[2] as int - 0x80)
    else Digits(a - 0xF0, s[1] as int - 0x80, s[2] as int - 0x80, s[3] as int - 0x80)
  }

  /** The number with these digits to base 64. */
  function Digits(a: int, b: int, c: int, d: int): int { ((a * 0x40 + b) * 0x40 + c) * 0x40 + d }

  lemma DigitsBack(a: int, b: int, c: int, d: int)
    requires 0 <= b < 0x40 && 0 <= c < 0x40 && 0 <= d < 0x40
    ensures var n := Digits(a, b, c, d);
      n % 0x40 == d && n / 0x40 % 0x40 == c && n / 0x1000 % 0x40 == b && n / 0x4_0000 == a
      && n / 0x40 == (a * 0x40 + b) * 0x40 + c && n / 0x1000 == a * 0x40 + b
  {
  }

  lemma DecodeFourThenEncode(s: string)
    requires RuneLen(s) == 4
    ensures Encode(Decode(s)) == s[..4]
  {
    DigitsBack(s[0] as int - 0xF0, s[1] as int - 0x80, s[2] as int - 0x80, s[3] as int - 0x80);
  }

  lemma DecodeThenEncode(s: string)
    requires RuneLen(s) > 0
    ensures Encode(Decode(s)) == s[..RuneLen(s)]
  {
    var a := s[0] as int;
    if RuneLen(s) == 2 {
      DigitsBack(0, 0, a - 0xC0, s[1] as int - 0x80);
    } else if RuneLen(s) == 3 {
      DigitsBack(0, a - 0xE0, s[1] as int - 0x80, s[2] as int - 0x80);
    } else if RuneLen(s) == 4 {
      DecodeFourThenEncode(s);
    }
  }

  lemma EncodeHasItsLength(n: int, rest: string)
    requires Scalar(n)
    ensures RuneLen(Encode(n) + rest) == |Encode(n)| > 0
  {
  }

  /** utf8.ValidString accepts exactly the encodings of sequences of scalar values. */
  lemma {:induction false} ValidExactlyEncodings(s: string)
    ensures ValidUtf8(s) <==> exists runes :: Encodes(runes, s)
  {
    if ValidUtf8(s) {
      var runes := Runes(s);
    }
    if runes :| Encodes(runes, s) {
      EncodingsAreValid(runes);
    }
  }

  ghost predicate Encodes(runes: seq<int>, s: string) {
    (forall n <- runes :: Scalar(n)) && EncodeAll(runes) == s
  }

  lemma {:induction false} Runes(s: string) returns (runes: seq<int>)
    requires ValidUtf8(s)
    ensures Encodes(runes, s)
  {
    if s == "" {
      runes := [];
    } else {
      var others := Runes(s[RuneLen(s)..]);
      runes := [Decode(s)] + others;
      DecodeThenEncode(s);
      assert s == s[..RuneLen(s)] + s[RuneLen(s)..];
    }
  }

  lemma {:induction false} EncodingsAreValid(runes: seq<int>)
    requires forall n <- runes :: Scalar(n)
    ensures ValidUtf8(EncodeAll(runes))
  {
    if runes != [] {
      EncodingsAreValid(runes[1..]);
      var head, rest := Encode(runes[0]), EncodeAll(runes[1..]);
      EncodeHasItsLength(runes[0], rest);
      assert (head + rest)[|head|..] == rest;
    }
  }

  // ---- path.Clean -----------------------------------------------------------

  /** The slash-separated elements of p; "" has the one element "". */
  function Split(p: string): (parts: seq<string>)
    ensures |parts| >= 1
  {
    if p == "" then [""]
    else if p[0] == '/' then [""] + Split(p[1..])
    else var rest := Split(p[1..]); [[p[0]] + rest[0]] + rest[1..]
  }

  function Join(parts: seq<string>): string
    requires parts != []
  {
    if |parts| == 1 then parts[0] else parts[0] + "/" + Join(parts[1..])
  }

  /** Empty and "." elements go; ".." takes the element before it away, stays at the
      front of a relative path, and goes at the front of a rooted one. */
  function CleanParts(rooted: bool, done: seq<string>, rest: seq<string>): seq<string>
    decreases rest
  {
    if rest == [] then done
    else if rest[0] == "" || rest[0] == "." then CleanParts(rooted, done, rest[1..])
    else if rest[0] == ".." then
      if done != [] && done[|done| - 1] != ".." then CleanParts(rooted, done[..|done| - 1], rest[1..])
      else if rooted then CleanParts(rooted, done, rest[1..])
      else CleanParts(rooted, done + [".."], rest[1..])
    else CleanParts(rooted, done + [rest[0]], rest[1..])
  }

  predicate Rooted(p: string) { p != "" && p[0] == '/' }

  /** path.Clean, as its documentation defines it. */
  function Clean(p: string): string {
    var parts := CleanParts(Rooted(p), [], Split(p));
    if Rooted(p) then "/" + (if parts == [] then "" else Join(parts))
    else if parts == [] then "." else Join(parts)
  }

  predicate HasPrefix(s: string, prefix: string) { prefix <= s }

  predicate HasSuffix(s: string, suffix: string) {
    |suffix| <= |s| && s[|s| - |suffix|..] == suffix
  }

  predicate Printable(s: string) {
    forall c <- s :: c >= ' ' && c != '\U{7F}' && c != '\\'
  }

  /** factsPath. */
  predicate FactsPath(p: string) {
    && p != "" && |p| <= 1024 && ValidUtf8(p) && Clean(p) == p
    && p != "." && p != ".." && !HasPrefix(p, "../") && !HasPrefix(p, "/")
    && (forall c <- p :: c !in {'\\', '\0', '\r', '\n'})
    && (forall c <- p :: c >= ' ' && c != '\U{7F}')
  }

  predicate Proper(part: string) { part != "" && part != "." && part != ".." }

  /** What the rule amounts to: a short printable UTF-8 path of proper elements. */
  predicate SafeRelative(p: string) {
    |p| <= 1024 && ValidUtf8(p) && Printable(p) && forall part <- Split(p) :: Proper(part)
  }

  lemma {:induction false} JoinSplit(p: string)
    ensures Join(Split(p)) == p
  {
    if p != "" {
      JoinSplit(p[1..]);
      var rest := Split(p[1..]);
      assert p == [p[0]] + p[1..];
      if p[0] == '/' {
        assert Split(p)[1..] == rest;
      } else {
        assert Split(p)[1..] == rest[1..];
      }
    }
  }

  lemma {:induction false} SplitPart(part: string, rest: string)
    requires '/' !in part
    ensures Split(part) == [part] && Split(part + "/" + rest) == [part] + Split(rest)
  {
    if part == "" {
      assert part + "/" + rest == "/" + rest;
    } else {
      SplitPart(part[1..], rest);
      assert part == [part[0]] + part[1..];
      assert (part + "/" + rest)[1..] == part[1..] + "/" + rest;
    }
  }

  lemma {:induction false} SplitJoin(parts: seq<string>)
    requires parts != [] && forall part <- parts :: '/' !in part
    ensures Split(Join(parts)) == parts
  {
    assert parts[0] in parts;
    if |parts| == 1 {
      SplitPart(parts[0], "");
    } else {
      SplitJoin(parts[1..]);
      SplitPart(parts[0], Join(parts[1..]));
    }
  }

  lemma {:induction false} PartsHaveNoSlash(p: string)
    ensures forall part <- Split(p) :: '/' !in part
  {
    if p != "" {
      PartsHaveNoSlash(p[1..]);
      if p[0] != '/' {
        var rest := Split(p[1..]);
        forall part | part in Split(p) ensures '/' !in part {
          if part == [p[0]] + rest[0] {
            assert rest[0] in rest;
          } else {
            assert part in rest;
          }
        }
      }
    }
  }

  /** A relative path keeps ".." only in front. */
  predicate Tidy(parts: seq<string>) {
    && (forall part <- parts :: part != "" && part != "." && '/' !in part)
    && forall i :: 0 < i < |parts| && parts[i] == ".." ==> parts[i - 1] == ".."
  }

  lemma {:induction false} CleanPartsAreTidy(done: seq<string>, rest: seq<string>)
    requires Tidy(done) && forall part <- rest :: '/' !in part
    ensures Tidy(CleanParts(false, done, rest))
    decreases rest
  {
    if rest != [] {
      var tail := rest[1..];
      assert rest[0] in rest;
      if rest[0] == "" || rest[0] == "." {
        CleanPartsAreTidy(done, tail);
      } else if rest[0] == ".." && done != [] && done[|done| - 1] != ".." {
        CleanPartsAreTidy(done[..|done| - 1], tail);
      } else {
        CleanPartsAreTidy(done + [rest[0]], tail);
      }
    }
  }

  lemma {:induction false} ProperPartsStay(rooted: bool, done: seq<string>, rest: seq<string>)
    requires forall part <- rest :: Proper(part)
    ensures CleanParts(rooted, done, rest) == done + rest
    decreases rest
  {
    if rest != [] {
      assert rest[0] in rest;
      ProperPartsStay(rooted, done + [rest[0]], rest[1..]);
      assert done + [rest[0]] + rest[1..] == done + rest;
    }
  }

  lemma {:induction false} NoDotDotInFront(parts: seq<string>, n: nat)
    requires Tidy(parts) && n < |parts| && parts[0] != ".."
    ensures parts[n] != ".."
  {
    if n > 0 {
      NoDotDotInFront(parts, n - 1);
    }
  }

  lemma DotDotInFront(parts: seq<string>)
    requires parts != []
    ensures parts[0] == ".." ==> Join(parts) == ".." || HasPrefix(Join(parts), "../")
  {
    if |parts| > 1 && parts[0] == ".." {
      assert Join(parts) == "../" + Join(parts[1..]);
    }
  }

  /** factsPath accepts exactly the short printable UTF-8 paths whose elements are
      all proper: no empty, "." or ".." element anywhere. */
  lemma FactsPathMeansSafe(p: string)
    ensures FactsPath(p) <==> SafeRelative(p)
  {
    JoinSplit(p);
    PartsHaveNoSlash(p);
    var parts := CleanParts(false, [], Split(p));
    if FactsPath(p) {
      CleanPartsAreTidy([], Split(p));
      assert parts != [];
      SplitJoin(parts);
      assert Split(p) == parts;
      DotDotInFront(parts);
      forall part | part in Split(p) ensures Proper(part) {
        var n :| 0 <= n < |parts| && parts[n] == part;
        NoDotDotInFront(parts, n);
      }
    }
    if SafeRelative(p) {
      ProperPartsStay(false, [], Split(p));
      assert [] + Split(p) == Split(p);
      assert Split(p)[0] in Split(p);
      FrontPart(p);
    }
  }

  /** What the front of a path says about its first element. */
  lemma FrontPart(p: string)
    ensures p == "" || HasPrefix(p, "/") ==> Split(p)[0] == ""
    ensures p == "." ==> Split(p)[0] == "."
    ensures p == ".." || HasPrefix(p, "../") ==> Split(p)[0] == ".."
  {
    SplitPart(".", "");
    SplitPart("..", "");
    if HasPrefix(p, "../") {
      assert p == ".." + "/" + p[3..];
      SplitPart("..", p[3..]);
    }
  }
}
