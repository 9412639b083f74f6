/** Python's `sorted(xs, key=k, reverse=True)`: a stable sort, largest key first,
    keeping the input order among elements whose keys are equal. An ascending
    stable sort is the same sort on the negated key. */
module Sorting {

  predicate SortedDesc<T>(s: seq<T>, key: T -> real) {
    forall i, j :: 0 <= i < j < |s| ==> key(s[i]) >= key(s[j])
  }

  /** The elements of `s` whose key equals `k`, in their order in `s`. */
  function WithKey<T>(s: seq<T>, key: T -> real, k: real): seq<T> {
    if s == [] then []
    else (if key(s[0]) == k then [s[0]] else []) + WithKey(s[1..], key, k)
  }

  /** Puts `x` in front of the first element whose key is not larger than its own. */
  function Insert<T>(x: T, s: seq<T>, key: T -> real): seq<T> {
    if s == [] || key(x) >= key(s[0]) then [x] + s
    else [s[0]] + Insert(x, s[1..], key)
  }

  function SortDesc<T>(s: seq<T>, key: T -> real): seq<T> {
    if s == [] then [] else Insert(s[0], SortDesc(s[1..], key), key)
  }

  function Negated<T>(key: T -> real): T -> real {
    x => -key(x)
  }

  /** Sorting by the negated key: `sorted(xs, key=k)`. */
  function SortAsc<T>(s: seq<T>, key: T -> real): seq<T> {
    SortDesc(s, Negated(key))
  }

  lemma {:induction false} InsertPerm<T>(x: T, s: seq<T>, key: T -> real)
    ensures multiset(Insert(x, s, key)) == multiset([x] + s)
    ensures |Insert(x, s, key)| == |s| + 1
    decreases |s|
  {
    if s == [] || key(x) >= key(s[0]) {
    } else {
      InsertPerm(x, s[1..], key);
      assert s == [s[0]] + s[1..];
    }
  }

  lemma {:induction false} InsertSorted<T>(x: T, s: seq<T>, key: T -> real)
    requires SortedDesc(s, key)
    ensures SortedDesc(Insert(x, s, key), key)
    ensures Insert(x, s, key) != [] && key(Insert(x, s, key)[0]) == HeadKey(x, s, key)
    decreases |s|
  {
    if s == [] || key(x) >= key(s[0]) {
    } else {
      InsertSorted(x, s[1..], key);
      InsertPerm(x, s[1..], key);
      var t := Insert(x, s[1..], key);
      forall j | 0 < j < |[s[0]] + t|
        ensures key(([s[0]] + t)[0]) >= key(([s[0]] + t)[j])
      {
        assert key(t[0]) >= key(t[j - 1]);
      }
    }
  }

  /** The key of the head of `Insert(x, s)` when `s` is sorted. */
  function HeadKey<T>(x: T, s: seq<T>, key: T -> real): real {
    if s == [] || key(x) >= key(s[0]) then key(x) else key(s[0])
  }

  lemma {:induction false} InsertKeepsKeyClass<T>(x: T, s: seq<T>, key: T -> real, k: real)
    ensures WithKey(Insert(x, s, key), key, k) == WithKey([x] + s, key, k)
    decreases |s|
  {
    if s == [] || key(x) >= key(s[0]) {
    } else {
      InsertKeepsKeyClass(x, s[1..], key, k);
      assert ([s[0]] + Insert(x, s[1..], key))[1..] == Insert(x, s[1..], key);
      assert ([x] + s)[1..] == s;
      assert s[1..] == ([x] + s[1..])[1..];
    }
  }

  /** `sorted` returns a rearrangement of its input ... */
  lemma {:induction false} SortDescPermutation<T>(s: seq<T>, key: T -> real)
    ensures multiset(SortDesc(s, key)) == multiset(s)
    ensures |SortDesc(s, key)| == |s|
  {
    if s != [] {
      SortDescPermutation(s[1..], key);
      InsertPerm(s[0], SortDesc(s[1..], key), key);
      assert s == [s[0]] + s[1..];
    }
  }

  /** ... ordered by decreasing key ... */
  lemma {:induction false} SortDescSorted<T>(s: seq<T>, key: T -> real)
    ensures SortedDesc(SortDesc(s, key), key)
  {
    if s != [] {
      SortDescSorted(s[1..], key);
      InsertSorted(s[0], SortDesc(s[1..], key), key);
    }
  }

  /** A prefix of a sorted list is sorted, drawn from it, and ranks no lower
      than anything after it. */
  lemma SortedPrefix<T>(s: seq<T>, key: T -> real, n: nat)
    requires SortedDesc(s, key) && n <= |s|
    ensures SortedDesc(s[..n], key) && multiset(s[..n]) <= multiset(s)
    ensures forall i, j :: 0 <= i < n <= j < |s| ==> key(s[i]) >= key(s[j])
  {
    assert s == s[..n] + s[n..];
    assert multiset(s) == multiset(s[..n]) + multiset(s[n..]);
  }

  /** ... and stable: the elements sharing any one key keep their input order. */
  lemma {:induction false} SortDescStable<T>(s: seq<T>, key: T -> real, k: real)
    ensures WithKey(SortDesc(s, key), key, k) == WithKey(s, key, k)
  {
    if s != [] {
      SortDescStable(s[1..], key, k);
      InsertKeepsKeyClass(s[0], SortDesc(s[1..], key), key, k);
    }
  }

  /** The ascending sort rearranges its input into non-decreasing key order. */
  lemma SortAscFacts<T>(s: seq<T>, key: T -> real)
    ensures multiset(SortAsc(s, key)) == multiset(s) && |SortAsc(s, key)| == |s|
    ensures forall i, j :: 0 <= i < j < |SortAsc(s, key)| ==> key(SortAsc(s, key)[i]) <= key(SortAsc(s, key)[j])
  {
    SortDescPermutation(s, Negated(key));
    SortDescSorted(s, Negated(key));
    var r := SortAsc(s, key);
    assert forall i :: 0 <= i < |r| ==> Negated(key)(r[i]) == -key(r[i]);
  }

  /** Two keys that agree on the elements sort them the same way. */
  lemma {:induction false} SortDescSameKeys<T>(s: seq<T>, k1: T -> real, k2: T -> real)
    requires forall x :: x in s ==> k1(x) == k2(x)
    ensures SortDesc(s, k1) == SortDesc(s, k2)
  {
    if s != [] {
      SortDescSameKeys(s[1..], k1, k2);
      SortDescPermutation(s[1..], k1);
      var t := SortDesc(s[1..], k1);
      forall y | y in t
        ensures k1(y) == k2(y)
      {
        assert y in multiset(t);
        assert y in s[1..];
      }
      InsertSameKeys(s[0], SortDesc(s[1..], k1), k1, k2);
    }
  }

  lemma {:induction false} InsertSameKeys<T>(x: T, s: seq<T>, k1: T -> real, k2: T -> real)
    requires k1(x) == k2(x) && forall y :: y in s ==> k1(y) == k2(y)
    ensures Insert(x, s, k1) == Insert(x, s, k2)
    decreases |s|
  {
    if s != [] && k1(x) < k1(s[0]) {
      InsertSameKeys(x, s[1..], k1, k2);
    }
  }

  // ------------------------------------------------------------ sorting by text

  /** Python's `a < b` on strings: code point by code point, a proper prefix
      before the longer string. */
  predicate TextLess(a: string, b: string)
    decreases |a|
  {
    |b| > 0 && (|a| == 0 || a[0] < b[0] || (a[0] == b[0] && TextLess(a[1..], b[1..])))
  }

  lemma {:induction false} TextLessIrreflexive(a: string)
    ensures !TextLess(a, a)
    decreases |a|
  {
    if |a| > 0 {
      TextLessIrreflexive(a[1..]);
    }
  }

  lemma {:induction false} TextLessTransitive(a: string, b: string, c: string)
    requires TextLess(a, b) && TextLess(b, c)
    ensures TextLess(a, c)
    decreases |a|
  {
    if |a| > 0 && a[0] == b[0] && b[0] == c[0] {
      TextLessTransitive(a[1..], b[1..], c[1..]);
    }
  }

  /** Any two different strings are ordered one way or the other. */
  lemma {:induction false} TextLessTotal(a: string, b: string)
    ensures a == b || TextLess(a, b) || TextLess(b, a)
    decreases |a|
  {
    if |a| > 0 && |b| > 0 && a[0] == b[0] {
      TextLessTotal(a[1..], b[1..]);
      if a[1..] == b[1..] {
        assert a == [a[0]] + a[1..] && b == [b[0]] + b[1..];
      }
    }
  }

  /** "Not after" is transitive. */
  lemma TextNotAfterTransitive(a: string, b: string, c: string)
    requires !TextLess(b, a) && !TextLess(c, b)
    ensures !TextLess(c, a)
  {
    TextLessTotal(a, b);
    if TextLess(c, a) && TextLess(a, b) {
      TextLessTransitive(c, a, b);
    }
  }

  predicate SortedText<T>(s: seq<T>, key: T -> string) {
    forall i, j :: 0 <= i < j < |s| ==> !TextLess(key(s[j]), key(s[i]))
  }

  /** Puts `x` in front of the first element whose key is not smaller than its own. */
  function InsertText<T>(x: T, s: seq<T>, key: T -> string): seq<T> {
    if s == [] || !TextLess(key(s[0]), key(x)) then [x] + s
    else [s[0]] + InsertText(x, s[1..], key)
  }

  /** `sorted(xs, key=k)` for a key `k` that gives strings. */
  function SortText<T>(s: seq<T>, key: T -> string): seq<T> {
    if s == [] then [] else InsertText(s[0], SortText(s[1..], key), key)
  }

  lemma {:induction false} InsertTextPerm<T>(x: T, s: seq<T>, key: T -> string)
    ensures multiset(InsertText(x, s, key)) == multiset([x] + s)
    ensures |InsertText(x, s, key)| == |s| + 1
    decreases |s|
  {
    if s != [] && TextLess(key(s[0]), key(x)) {
      InsertTextPerm(x, s[1..], key);
      assert s == [s[0]] + s[1..];
    }
  }

  lemma {:induction false} InsertTextSorted<T>(x: T, s: seq<T>, key: T -> string)
    requires SortedText(s, key)
    ensures SortedText(InsertText(x, s, key), key)
    ensures InsertText(x, s, key)[0] == x || (s != [] && InsertText(x, s, key)[0] == s[0])
    decreases |s|
  {
    if s == [] {
    } else if !TextLess(key(s[0]), key(x)) {
      var r := [x] + s;
      forall i, j | 0 <= i < j < |r|
        ensures !TextLess(key(r[j]), key(r[i]))
      {
        if i == 0 && j > 1 {
          TextNotAfterTransitive(key(x), key(s[0]), key(s[j - 1]));
        }
      }
    } else {
      InsertTextSorted(x, s[1..], key);
      InsertTextPerm(x, s[1..], key);
      var t := InsertText(x, s[1..], key);
      var r := [s[0]] + t;
      forall i, j | 0 <= i < j < |r|
        ensures !TextLess(key(r[j]), key(r[i]))
      {
        if i == 0 {
          assert r[j] in multiset([x] + s[1..]);
          if r[j] == x {
            TextLessTotal(key(s[0]), key(x));
            TextLessIrreflexive(key(x));
            if TextLess(key(x), key(s[0])) {
              TextLessTransitive(key(x), key(s[0]), key(x));
            }
          } else {
            assert r[j] in s[1..];
            var q :| 0 <= q < |s[1..]| && s[1..][q] == r[j];
            assert s[q + 1] == r[j];
          }
        }
      }
    }
  }

  /** `sorted` with a text key rearranges its input ... */
  lemma {:induction false} SortTextPermutation<T>(s: seq<T>, key: T -> string)
    ensures multiset(SortText(s, key)) == multiset(s)
    ensures |SortText(s, key)| == |s|
  {
    if s != [] {
      SortTextPermutation(s[1..], key);
      InsertTextPerm(s[0], SortText(s[1..], key), key);
      assert s == [s[0]] + s[1..];
    }
  }

  /** ... into order, no key after a larger one. */
  lemma {:induction false} SortTextSorted<T>(s: seq<T>, key: T -> string)
    ensures SortedText(SortText(s, key), key)
  {
    if s != [] {
      SortTextSorted(s[1..], key);
      InsertTextSorted(s[0], SortText(s[1..], key), key);
    }
  }

  /** Two text keys that agree on the elements sort them the same way. */
  lemma {:induction false} SortTextSameKeys<T>(s: seq<T>, k1: T -> string, k2: T -> string)
    requires forall x :: x in s ==> k1(x) == k2(x)
    ensures SortText(s, k1) == SortText(s, k2)
  {
    if s != [] {
      SortTextSameKeys(s[1..], k1, k2);
      SortTextPermutation(s[1..], k1);
      var t := SortText(s[1..], k1);
      forall y | y in t
        ensures k1(y) == k2(y)
      {
        assert y in multiset(t);
        assert y in s[1..];
      }
      InsertTextSameKeys(s[0], t, k1, k2);
    }
  }

  lemma {:induction false} InsertTextSameKeys<T>(x: T, s: seq<T>, k1: T -> string, k2: T -> string)
    requires k1(x) == k2(x) && forall y :: y in s ==> k1(y) == k2(y)
    ensures InsertText(x, s, k1) == InsertText(x, s, k2)
    decreases |s|
  {
    if s != [] && TextLess(k1(s[0]), k1(x)) {
      InsertTextSameKeys(x, s[1..], k1, k2);
    }
  }
}
