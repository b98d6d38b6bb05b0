/** Go's order on strings, one char per byte, and sorting by a string key. */
module Orders {
  /** Go's < on strings. */
  predicate Less(a: string, b: string) {
    b != "" && (a == "" || a[0] < b[0] || (a[0] == b[0] && Less(a[1..], b[1..])))
  }

  lemma {:induction false} LessTransitive(a: string, b: string, c: string)
    requires Less(a, b) && Less(b, c)
    ensures Less(a, c)
  {
    if a != "" && a[0] == b[0] && b[0] == c[0] {
      LessTransitive(a[1..], b[1..], c[1..]);
    }
  }

  lemma {:induction false} LessTotal(a: string, b: string)
    ensures Less(a, b) || a == b || Less(b, a)
    ensures !(Less(a, b) && Less(b, a)) && !Less(a, a)
  {
    if a != "" && b != "" {
      if a[0] == b[0] {
        LessTotal(a[1..], b[1..]);
        assert a == [a[0]] + a[1..] && b == [b[0]] + b[1..];
      } else {
        LessTotal(a[1..], a[1..]);
      }
    } else if a != "" {
      LessTotal(a[1..], a[1..]);
    }
  }

  /** a and b agree up to k, and there a ends, or has the smaller byte. */
  predicate FirstDiffer(a: string, b: string, k: nat) {
    k <= |a| && k < |b| && a[..k] == b[..k] && (k == |a| || a[k] < b[k])
  }

  /** It is the order by the first difference, a string before its extensions. */
  lemma {:induction false} LessByFirstDifference(a: string, b: string)
    ensures Less(a, b) <==> exists k: nat :: FirstDiffer(a, b, k)
  {
    forall k: nat | 0 < k <= |a| && k <= |b| && a[..k] == b[..k] ensures a[0] == b[0] {
      assert a[..k][0] == b[..k][0];
    }
    if b != "" && a != "" && a[0] == b[0] {
      LessByFirstDifference(a[1..], b[1..]);
      if Less(a, b) {
        var k: nat :| FirstDiffer(a[1..], b[1..], k);
        assert a[..k + 1] == [a[0]] + a[1..][..k] && b[..k + 1] == [b[0]] + b[1..][..k];
        assert FirstDiffer(a, b, k + 1);
      }
      if k: nat :| FirstDiffer(a, b, k) {
        assert k > 0;
        assert a[1..][..k - 1] == a[..k][1..] && b[1..][..k - 1] == b[..k][1..];
        assert FirstDiffer(a[1..], b[1..], k - 1);
      }
    } else if b != "" && (a == "" || a[0] < b[0]) {
      assert FirstDiffer(a, b, 0);
    }
  }

  ghost predicate Increasing(s: seq<string>) {
    forall i, j :: 0 <= i < j < |s| ==> Less(s[i], s[j])
  }

  /** A strictly increasing sequence is determined by its elements. */
  lemma {:induction false} IncreasingIsUnique(s: seq<string>, t: seq<string>)
    requires Increasing(s) && Increasing(t) && forall x :: x in s <==> x in t
    ensures s == t
  {
    if s == [] {
      assert forall k :: 0 <= k < |t| ==> t[k] in t;
    } else {
      assert s[0] in s && s[0] in t;
      var j :| 0 <= j < |t| && t[j] == s[0];
      assert t[0] in s;
      var i :| 0 <= i < |s| && s[i] == t[0];
      LessTotal(s[0], t[0]);
      assert s[0] == t[0];
      forall x ensures x in s[1..] <==> x in t[1..] {
        LessTotal(x, s[0]);
        assert x in s <==> x == s[0] || x in s[1..];
        assert x in t <==> x == t[0] || x in t[1..];
        if x == s[0] {
          assert x !in s[1..] by {
            forall k | 1 <= k < |s| ensures s[k] != x { LessTotal(s[0], s[k]); }
          }
          assert x !in t[1..] by {
            forall k | 1 <= k < |t| ensures t[k] != x { LessTotal(t[0], t[k]); }
          }
        }
      }
      IncreasingIsUnique(s[1..], t[1..]);
      assert s == [s[0]] + s[1..] && t == [t[0]] + t[1..];
    }
  }

  // ---- keys -----------------------------------------------------------------

  ghost predicate Distinct(s: seq<string>) {
    forall i, j :: 0 <= i < j < |s| ==> s[i] != s[j]
  }

  function Range<T>(s: seq<T>): set<T> { set x <- s }

  function Keys<T>(s: seq<T>, key: T -> string): (keys: seq<string>)
    ensures |keys| == |s| && forall i :: 0 <= i < |s| ==> keys[i] == key(s[i])
  {
    seq(|s|, i requires 0 <= i < |s| => key(s[i]))
  }

  /** Nothing is repeated exactly when there are as many values as places. */
  lemma {:induction false} DistinctCount(s: seq<string>)
    ensures |Range(s)| <= |s| && (Distinct(s) <==> |Range(s)| == |s|)
  {
    if s != [] {
      var last := |s| - 1;
      var front := s[..last];
      DistinctCount(front);
      assert s == front + [s[last]];
      assert Range(s) == Range(front) + {s[last]};
      if s[last] in front {
        var i :| 0 <= i < last && front[i] == s[last];
        assert Range(s) == Range(front);
        assert s[i] == s[last];
      } else if Distinct(front) {
        forall i | 0 <= i < last ensures s[i] != s[last] { assert front[i] in front; }
      }
    }
  }

  /** A reordering keeps the values and whether they repeat. */
  lemma {:induction false} ReorderedKeys<T>(s: seq<T>, t: seq<T>, key: T -> string)
    requires multiset(s) == multiset(t)
    ensures |s| == |t| && (forall x :: x in s <==> x in t)
    ensures Distinct(Keys(s, key)) <==> Distinct(Keys(t, key))
  {
    assert |s| == |multiset(s)| == |multiset(t)| == |t|;
    assert forall x :: x in s <==> x in multiset(s);
    assert forall x :: x in t <==> x in multiset(t);
    DistinctCount(Keys(s, key));
    DistinctCount(Keys(t, key));
    var a, b := Range(Keys(s, key)), Range(Keys(t, key));
    forall k ensures k in a <==> k in b {
      if k in a {
        var i :| 0 <= i < |s| && key(s[i]) == k;
        assert s[i] in t;
      }
      if k in b {
        var i :| 0 <= i < |t| && key(t[i]) == k;
        assert t[i] in s;
      }
    }
    assert a == b;
  }

  ghost predicate IncreasingBy<T>(s: seq<T>, key: T -> string) {
    forall i, j :: 0 <= i < j < |s| ==> Less(key(s[i]), key(s[j]))
  }

  lemma DistinctInsert(s: seq<string>, i: nat, x: string)
    requires i <= |s| && Distinct(s) && forall k :: 0 <= k < |s| ==> s[k] != x
    ensures Distinct(s[..i] + [x] + s[i..])
  {
  }

  // ---- sorting --------------------------------------------------------------

  function Insert<T>(x: T, s: seq<T>, key: T -> string): seq<T> {
    if s == [] || Less(key(x), key(s[0])) then [x] + s
    else [s[0]] + Insert(x, s[1..], key)
  }

  function SortBy<T>(s: seq<T>, key: T -> string): seq<T> {
    if s == [] then [] else Insert(s[0], SortBy(s[1..], key), key)
  }

  lemma {:induction false} InsertAdds<T>(x: T, s: seq<T>, key: T -> string)
    ensures multiset(Insert(x, s, key)) == multiset{x} + multiset(s)
    ensures forall y :: y in Insert(x, s, key) <==> y == x || y in s
  {
    if s != [] {
      assert s == [s[0]] + s[1..];
      if !Less(key(x), key(s[0])) {
        InsertAdds(x, s[1..], key);
      }
    }
  }

  lemma Prepend<T>(x: T, s: seq<T>, key: T -> string)
    requires IncreasingBy(s, key) && forall y <- s :: Less(key(x), key(y))
    ensures IncreasingBy([x] + s, key)
  {
  }

  lemma {:induction false} InsertKeepsOrder<T>(x: T, s: seq<T>, key: T -> string)
    requires IncreasingBy(s, key) && forall y <- s :: key(y) != key(x)
    ensures IncreasingBy(Insert(x, s, key), key)
  {
    if s != [] {
      LessTotal(key(x), key(s[0]));
      assert s[0] in s;
      if Less(key(x), key(s[0])) {
        forall y | y in s ensures Less(key(x), key(y)) {
          if y != s[0] {
            LessTransitive(key(x), key(s[0]), key(y));
          }
        }
        Prepend(x, s, key);
      } else {
        InsertKeepsOrder(x, s[1..], key);
        InsertAdds(x, s[1..], key);
        forall y | y in s[1..] ensures Less(key(s[0]), key(y)) {
          var j :| 1 <= j < |s| && s[j] == y;
        }
        var t := Insert(x, s[1..], key);
        forall y | y in t ensures Less(key(s[0]), key(y)) {
          assert y in multiset(t);
          assert y == x || y in s[1..];
        }
        Prepend(s[0], t, key);
      }
    }
  }

  lemma DistinctTail<T>(s: seq<T>, key: T -> string)
    requires s != [] && Distinct(Keys(s, key))
    ensures Distinct(Keys(s[1..], key))
    ensures forall y <- s[1..] :: key(y) != key(s[0])
  {
    var keys := Keys(s, key);
    assert Keys(s[1..], key) == keys[1..];
    forall y | y in s[1..] ensures key(y) != key(s[0]) {
      var j :| 1 <= j < |s| && s[j] == y;
      assert keys[0] != keys[j];
    }
  }

  lemma {:induction false} SortReorders<T>(s: seq<T>, key: T -> string)
    ensures multiset(SortBy(s, key)) == multiset(s)
    ensures forall x :: x in SortBy(s, key) <==> x in s
  {
    if s != [] {
      assert s == [s[0]] + s[1..];
      SortReorders(s[1..], key);
      InsertAdds(s[0], SortBy(s[1..], key), key);
    }
  }

  /** Sorting by distinct keys leaves a strictly increasing list. */
  lemma {:induction false} SortIncreases<T>(s: seq<T>, key: T -> string)
    requires Distinct(Keys(s, key))
    ensures IncreasingBy(SortBy(s, key), key)
  {
    if s != [] {
      DistinctTail(s, key);
      SortIncreases(s[1..], key);
      SortReorders(s[1..], key);
      var t := SortBy(s[1..], key);
      forall y | y in t ensures key(y) != key(s[0]) {
        assert y in multiset(t);
        assert y in s[1..];
      }
      InsertKeepsOrder(s[0], t, key);
    }
  }

  lemma IncreasingIsDistinct(s: seq<string>)
    requires Increasing(s)
    ensures Distinct(s)
  {
    forall i, j | 0 <= i < j < |s| ensures s[i] != s[j] {
      LessTotal(s[i], s[j]);
    }
  }
}
