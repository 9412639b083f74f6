/** Helpers shared by every model in this project: optional values, the three
    states a dictionary field can be in, and the handful of string operations
    (strip, lower-case, substring search, split, join, number parsing) that the
    Python, Go and JavaScript sources use. */
module Util {

  datatype Option<+T> = None | Some(value: T)
  {
    function GetOr(default: T): T {
      if Some? then value else default
    }
  }

  /** What one call to the language model yields: the response text, or an
      exception (network error, blocked response, missing `.text`). */
  datatype Reply = Text(text: string) | Failure

  /** A key of a Python dict or JSON object: missing, present with `None`/`null`,
      or present with a value. `d.get(k)` is `None` for the first two. */
  datatype Field<+T> = Absent | Null | Val(value: T)
  {
    /** `d.get(k)` as an Option. */
    function Get(): Option<T> {
      if Val? then Some(value) else None
    }
  }

  /** `d.get(k)` for a string field, followed by Python truthiness. */
  predicate TruthyStr(f: Field<string>) {
    f.Val? && f.value != ""
  }

  // ---------------------------------------------------------------- characters

  predicate IsSpace(c: char) {
    c == ' ' || c == '\t' || c == '\n' || c == '\r' || c == '\U{000B}' || c == '\U{000C}'
  }

  predicate IsDigit(c: char) {
    '0' <= c <= '9'
  }

  /** ASCII lower-casing; Unicode case mapping is not modelled. */
  function LowerChar(c: char): (r: char)
    ensures IsDigit(c) <==> IsDigit(r)
  {
    if 'A' <= c <= 'Z' then (c as int + 32) as char else c
  }

  function Lower(s: string): (r: string)
    ensures |r| == |s|
    ensures forall i :: 0 <= i < |s| ==> r[i] == LowerChar(s[i])
  {
    seq(|s|, i requires 0 <= i < |s| => LowerChar(s[i]))
  }

  /** Lower-casing works character by character, so it commutes with slicing. */
  lemma LowerSlice(s: string, i: nat, j: nat)
    requires i <= j <= |s|
    ensures Lower(s)[i..j] == Lower(s[i..j])
  {
  }

  /** Text without capitals is its own lower case. */
  lemma LowerKeeps(s: string)
    requires forall i :: 0 <= i < |s| ==> !('A' <= s[i] <= 'Z')
    ensures Lower(s) == s
  {
  }

  /** A lower-case letter absent from a text in both cases is absent from its
      lower case. */
  lemma LowerKeepsOut(s: string, c: char)
    requires 'a' <= c <= 'z' && c !in s && (c as int - 32) as char !in s
    ensures c !in Lower(s)
  {
    forall i | 0 <= i < |s|
      ensures Lower(s)[i] != c
    {
      assert s[i] != c && s[i] != (c as int - 32) as char;
    }
  }

  /** A text that contains `sub` contains each of its characters. */
  lemma ContainsChar(s: string, sub: string, k: nat)
    requires Contains(s, sub) && k < |sub|
    ensures sub[k] in s
  {
    var i :| 0 <= i <= |s| && OccursAt(sub, s, i);
    assert s[i + k] == s[i..i + |sub|][k];
  }

  lemma LowerPrefix(p: string, s: string)
    requires IsPrefix(p, s)
    ensures IsPrefix(Lower(p), Lower(s))
  {
    assert Lower(s)[..|p|] == Lower(p);
  }

  // ---------------------------------------------------------------- strip

  function TrimLeft(s: string): (r: string)
    ensures |r| <= |s| && r == s[|s| - |r|..]
    ensures r == [] || !IsSpace(r[0])
    ensures forall i :: 0 <= i < |s| - |r| ==> IsSpace(s[i])
  {
    if s != [] && IsSpace(s[0]) then TrimLeft(s[1..]) else s
  }

  function TrimRight(s: string): (r: string)
    ensures |r| <= |s| && r == s[..|r|]
    ensures r == [] || !IsSpace(r[|r| - 1])
    ensures forall i :: |r| <= i < |s| ==> IsSpace(s[i])
  {
    if s != [] && IsSpace(s[|s| - 1]) then TrimRight(s[..|s| - 1]) else s
  }

  /** Python `str.strip()` with no argument. */
  function Strip(s: string): (r: string)
    ensures |r| <= |s|
    ensures r == [] || (!IsSpace(r[0]) && !IsSpace(r[|r| - 1]))
  {
    TrimRight(TrimLeft(s))
  }

  /** Stripping a text that starts with a non-space keeps its head up to any
      later non-space. */
  lemma StripKeepsHead(s: string, k: nat)
    requires k < |s| && !IsSpace(s[0]) && !IsSpace(s[k])
    ensures |Strip(s)| > k && Strip(s)[..k + 1] == s[..k + 1]
  {
    assert TrimLeft(s) == s;
  }

  /** Python `str.strip(chars)` for a set of characters. */
  function StripChars(s: string, chars: set<char>): (r: string)
    ensures |r| <= |s|
    ensures r == [] || (r[0] !in chars && r[|r| - 1] !in chars)
    decreases |s|
  {
    if s == [] then []
    else if s[0] in chars then StripChars(s[1..], chars)
    else if s[|s| - 1] in chars then StripChars(s[..|s| - 1], chars)
    else s
  }

  /** Stripping white space adds no occurrence of `sub`. */
  lemma StripKeepsOut(s: string, sub: string)
    requires !Contains(s, sub)
    ensures !Contains(Strip(s), sub)
  {
    var l := TrimLeft(s);
    var a := |s| - |l|;
    assert Strip(s) == l[..|Strip(s)|];
    assert l[..|Strip(s)|] == s[a..a + |Strip(s)|];
    NotInSlice(s, sub, a, a + |Strip(s)|);
  }

  /** Stripping characters adds no occurrence of `sub`. */
  lemma {:induction false} StripCharsKeepsOut(s: string, chars: set<char>, sub: string)
    requires !Contains(s, sub)
    ensures !Contains(StripChars(s, chars), sub)
    decreases |s|
  {
    if s != [] && s[0] in chars {
      NotInSlice(s, sub, 1, |s|);
      assert s[1..|s|] == s[1..];
      StripCharsKeepsOut(s[1..], chars, sub);
    } else if s != [] && s[|s| - 1] in chars {
      NotInSlice(s, sub, 0, |s| - 1);
      StripCharsKeepsOut(s[..|s| - 1], chars, sub);
    }
  }

  // ---------------------------------------------------------------- search

  predicate IsPrefix(p: string, s: string) {
    |p| <= |s| && s[..|p|] == p
  }

  predicate IsSuffix(p: string, s: string) {
    |p| <= |s| && s[|s| - |p|..] == p
  }

  /** The two halves of a concatenation are its prefix and its suffix. */
  lemma Affixes(a: string, b: string)
    ensures IsPrefix(a, a + b) && IsSuffix(b, a + b)
  {
    assert (a + b)[..|a|] == a;
    assert (a + b)[|a|..] == b;
  }

  predicate OccursAt(sub: string, s: string, i: nat) {
    i + |sub| <= |s| && s[i..i + |sub|] == sub
  }

  /** Python `sub in s`. */
  predicate Contains(s: string, sub: string) {
    exists i :: 0 <= i <= |s| && OccursAt(sub, s, i)
  }

  /** Index of the first occurrence of `sub` in `s` at or after `from`. */
  function FindFrom(s: string, sub: string, from: nat): (r: Option<nat>)
    requires from <= |s|
    ensures r.Some? ==> from <= r.value && OccursAt(sub, s, r.value)
    ensures r.Some? ==> forall j :: from <= j < r.value ==> !OccursAt(sub, s, j)
    ensures r.None? ==> forall j :: from <= j ==> !OccursAt(sub, s, j)
    decreases |s| - from
  {
    if OccursAt(sub, s, from) then Some(from)
    else if from == |s| then None
    else FindFrom(s, sub, from + 1)
  }

  lemma PrefixContained(p: string, s: string)
    requires IsPrefix(p, s)
    ensures Contains(s, p)
  {
    assert OccursAt(p, s, 0);
  }

  /** Python `s.find(sub)` as an Option. */
  function Find(s: string, sub: string): (r: Option<nat>)
    ensures r.Some? <==> Contains(s, sub)
    ensures r.Some? ==> OccursAt(sub, s, r.value)
    ensures r.Some? ==> forall j :: 0 <= j < r.value ==> !OccursAt(sub, s, j)
  {
    FindFrom(s, sub, 0)
  }

  /** A text without `sub` has no slice with `sub` either. */
  lemma NotInSlice(s: string, sub: string, a: nat, b: nat)
    requires !Contains(s, sub) && a <= b <= |s|
    ensures !Contains(s[a..b], sub)
  {
    if Contains(s[a..b], sub) {
      var j: nat :| j <= b - a && OccursAt(sub, s[a..b], j);
      forall k | 0 <= k < |sub|
        ensures s[a + j + k] == sub[k]
      {
        assert s[a..b][j..j + |sub|][k] == sub[k];
      }
      assert s[a + j..a + j + |sub|] == sub;
      assert OccursAt(sub, s, a + j);
    }
  }

  /** Python `s.split(sep)[0]`: the text before the first `sep`, all of `s`
      when there is none. */
  function SplitFirst(s: string, sep: string): (r: string)
    requires sep != []
    ensures IsPrefix(r, s)
    ensures Contains(s, sep) <==> |r| < |s|
  {
    match Find(s, sep)
    case None => s
    case Some(i) => s[..i]
  }

  /** The first piece of a split holds no separator. */
  lemma FirstHasNoSep(s: string, sep: string)
    requires sep != []
    ensures !Contains(SplitFirst(s, sep), sep)
  {
    var r := SplitFirst(s, sep);
    if Contains(r, sep) {
      var j :| 0 <= j <= |r| && OccursAt(sep, r, j);
      assert r[j..j + |sep|] == s[j..j + |sep|];
      assert OccursAt(sep, s, j);
    }
  }

  /** Python `s.split(sep)[1]` where `sep` occurs: the text after the first
      `sep`, up to the next one. */
  function SplitSecond(s: string, sep: string): (r: string)
    requires sep != [] && Contains(s, sep)
  {
    var i := Find(s, sep).value;
    SplitFirst(s[i + |sep|..], sep)
  }

  /** Index of the first occurrence of character `c`. */
  function IndexOf(s: string, c: char): (r: Option<nat>)
    ensures r.Some? ==> r.value < |s| && s[r.value] == c && c !in s[..r.value]
    ensures r.None? ==> c !in s
  {
    if s == [] then None
    else if s[0] == c then Some(0)
    else match IndexOf(s[1..], c)
      case None => None
      case Some(i) => Some(i + 1)
  }

  /** Index of the last occurrence of character `c`. */
  function LastIndexOf(s: string, c: char): (r: Option<nat>)
    ensures r.Some? ==> r.value < |s| && s[r.value] == c && c !in s[r.value + 1..]
    ensures r.None? ==> c !in s
  {
    if s == [] then None
    else if s[|s| - 1] == c then Some(|s| - 1)
    else LastIndexOf(s[..|s| - 1], c)
  }

  /** Python `s.replace(pat, "")`: every non-overlapping occurrence, left to right. */
  function RemoveAll(s: string, pat: string): (r: string)
    requires pat != []
    ensures |r| <= |s|
    decreases |s|
  {
    if |s| < |pat| then s
    else if s[..|pat|] == pat then RemoveAll(s[|pat|..], pat)
    else [s[0]] + RemoveAll(s[1..], pat)
  }

  /** Removing a one-character pattern leaves none of that character, and
      removing any pattern adds no character. */
  lemma {:induction false} RemoveAllChars(s: string, pat: string, c: char)
    requires pat != []
    ensures pat == [c] ==> c !in RemoveAll(s, pat)
    ensures c !in s ==> c !in RemoveAll(s, pat)
    decreases |s|
  {
    if |s| >= |pat| {
      if s[..|pat|] == pat {
        RemoveAllChars(s[|pat|..], pat, c);
        assert c !in s ==> c !in s[|pat|..];
      } else {
        RemoveAllChars(s[1..], pat, c);
        assert pat == [c] ==> s[0] != c;
        assert c !in s ==> c !in s[1..];
      }
    }
  }

  /** Characters of `s` that satisfy `keep`, in order. */
  function Filter(s: string, keep: char -> bool): (r: string)
    ensures |r| <= |s|
    ensures forall i :: 0 <= i < |r| ==> keep(r[i])
  {
    if s == [] then [] else (if keep(s[0]) then [s[0]] else []) + Filter(s[1..], keep)
  }

  // ---------------------------------------------------------------- split and join

  /** Python `s.split(c)` for a one-character separator. */
  function Split(s: string, c: char): (r: seq<string>)
    ensures |r| >= 1
    ensures forall k :: 0 <= k < |r| ==> c !in r[k]
    decreases |s|
  {
    match IndexOf(s, c)
    case None => [s]
    case Some(i) => [s[..i]] + Split(s[i + 1..], c)
  }

  function Join(sep: string, parts: seq<string>): (r: string)
    ensures parts == [] ==> r == []
    ensures |parts| == 1 ==> r == parts[0]
  {
    if parts == [] then []
    else if |parts| == 1 then parts[0]
    else parts[0] + sep + Join(sep, parts[1..])
  }

  lemma {:induction false} JoinStartsWithFirst(sep: string, parts: seq<string>)
    requires parts != []
    ensures IsPrefix(parts[0], Join(sep, parts))
  {
  }

  lemma {:induction false} JoinAppend(sep: string, parts: seq<string>, p: string)
    requires parts != []
    ensures Join(sep, parts + [p]) == Join(sep, parts) + sep + p
    decreases |parts|
  {
    if |parts| == 1 {
      assert parts + [p] == [parts[0], p];
    } else {
      assert (parts + [p])[1..] == parts[1..] + [p];
      JoinAppend(sep, parts[1..], p);
    }
  }

  // ---------------------------------------------------------------- numbers

  function DigitValue(c: char): nat
    requires IsDigit(c)
  {
    c as nat - '0' as nat
  }

  predicate AllDigits(s: string) {
    forall i :: 0 <= i < |s| ==> IsDigit(s[i])
  }

  function DigitsValue(s: string): nat
    requires AllDigits(s)
  {
    if s == [] then 0 else DigitsValue(s[..|s| - 1]) * 10 + DigitValue(s[|s| - 1])
  }

  function Pow10(n: nat): (r: nat)
    ensures r >= 1
  {
    if n == 0 then 1 else 10 * Pow10(n - 1)
  }

  function Pow2(n: nat): (r: nat)
    ensures r >= 1
  {
    if n == 0 then 1 else 2 * Pow2(n - 1)
  }

  /** Unsigned decimal `ddd`, `ddd.ddd`, `.ddd` or `ddd.` with at least one digit. */
  function ParseUnsigned(s: string): (r: Option<real>)
    ensures r.Some? ==> r.value >= 0.0
  {
    match IndexOf(s, '.')
    case None =>
      if s != [] && AllDigits(s) then Some(DigitsValue(s) as real) else None
    case Some(i) =>
      var whole, frac := s[..i], s[i + 1..];
      if AllDigits(whole) && AllDigits(frac) && |whole| + |frac| > 0 then
        Some(DigitsValue(whole) as real + DigitsValue(frac) as real / Pow10(|frac|) as real)
      else None
  }

  /** Python `float(s)` on decimal text: surrounding white space is ignored and an
      optional sign is accepted. Exponents, `inf`, `nan` and digit separators are
      not modelled; they are reported as unparsable. */
  function ParseFloat(s: string): (r: Option<real>)
  {
    var t := Strip(s);
    if t != [] && t[0] == '-' then
      match ParseUnsigned(t[1..])
      case None => None
      case Some(v) => Some(-v)
    else if t != [] && t[0] == '+' then ParseUnsigned(t[1..])
    else ParseUnsigned(t)
  }

  /** A character `float` can accept in decimal text. */
  predicate NumberChar(c: char) {
    IsSpace(c) || IsDigit(c) || c == '.' || c == '+' || c == '-'
  }

  /** Text that `float` reads holds only blanks, digits, a point and signs. */
  lemma ParseFloatChars(s: string)
    requires ParseFloat(s).Some?
    ensures forall c :: c in s ==> NumberChar(c)
  {
    var l := TrimLeft(s);
    var t := Strip(s);
    assert t == TrimRight(l);
    assert forall i :: 0 <= i < |t| ==> NumberChar(t[i]) by {
      var u := if t != [] && (t[0] == '-' || t[0] == '+') then t[1..] else t;
      assert ParseUnsigned(u).Some?;
      UnsignedChars(u);
      forall i | 0 <= i < |t|
        ensures NumberChar(t[i])
      {
        if u != t && i > 0 {
          assert t[i] == u[i - 1];
        }
      }
    }
    forall i | 0 <= i < |s|
      ensures NumberChar(s[i])
    {
      var a := |s| - |l|;
      if a <= i < a + |t| {
        assert s[i] == l[i - a] == t[i - a];
      }
    }
  }

  lemma UnsignedChars(u: string)
    requires ParseUnsigned(u).Some?
    ensures forall i :: 0 <= i < |u| ==> IsDigit(u[i]) || u[i] == '.'
  {
    match IndexOf(u, '.')
    case None =>
    case Some(k) =>
      forall i | 0 <= i < |u|
        ensures IsDigit(u[i]) || u[i] == '.'
      {
        if i < k {
          assert u[i] == u[..k][i];
        } else if i > k {
          assert u[i] == u[k + 1..][i - k - 1];
        }
      }
  }

  /** Removing a character that does not occur changes nothing. */
  lemma {:induction false} RemoveAbsent(s: string, c: char)
    requires c !in s
    ensures RemoveAll(s, [c]) == s
    decreases |s|
  {
    if |s| >= 1 {
      assert s[0] in s;
      assert s[..1] != [c] by {
        assert s[..1][0] == s[0];
      }
      RemoveAbsent(s[1..], c);
      assert s == [s[0]] + s[1..];
    }
  }

  function NatToString(n: nat): (r: string)
    ensures r != [] && AllDigits(r)
  {
    if n < 10 then [('0' as int + n) as char]
    else NatToString(n / 10) + [('0' as int + n % 10) as char]
  }

  /** Python `s[:k]` for a list: a negative `k` counts from the end. */
  function PyPrefix<T>(s: seq<T>, k: int): (r: seq<T>)
    ensures |r| <= |s| && r == s[..|r|]
    ensures k >= 0 ==> |r| == if k < |s| then k else |s|
    ensures k < 0 ==> |r| == if |s| + k > 0 then |s| + k else 0
  {
    if k >= 0 then (if k < |s| then s[..k] else s)
    else if |s| + k > 0 then s[..|s| + k] else []
  }

  /** Python `re.search(r'\[.*\]', t, re.DOTALL)`: the text from the first `[`
      to the last `]`, when that `]` comes after the `[`. */
  function BracketSpan(t: string): (r: Option<string>)
    ensures r.Some? ==> |r.value| >= 2 && r.value[0] == '[' && r.value[|r.value| - 1] == ']'
    ensures r.None? <==> IndexOf(t, '[').None? || LastIndexOf(t, ']').None?
                         || LastIndexOf(t, ']').value < IndexOf(t, '[').value
  {
    match (IndexOf(t, '['), LastIndexOf(t, ']'))
    case (Some(i), Some(j)) => if i < j then Some(t[i..j + 1]) else None
    case _ => None
  }

  function Max(a: int, b: int): int {
    if a < b then b else a
  }

  // ---------------------------------------------------------------- collecting

  /** The results of `f` that are present, in order: a loop that appends what a
      step yields and skips the rest. */
  function Collect<A, B>(xs: seq<A>, f: A -> Option<B>): seq<B> {
    if xs == [] then []
    else
      Collect(xs[..|xs| - 1], f) + match f(xs[|xs| - 1]) case None => [] case Some(y) => [y]
  }

  /** `y` is what `f` yields for an element of `xs`. */
  predicate CollectedFrom<A, B(==)>(xs: seq<A>, f: A -> Option<B>, y: B) {
    exists i :: 0 <= i < |xs| && f(xs[i]) == Some(y)
  }

  /** Everything collected comes from an element, everything an element yields
      is collected, and nothing is added. */
  lemma {:induction false} CollectSpec<A, B>(xs: seq<A>, f: A -> Option<B>)
    ensures var r := Collect(xs, f);
      |r| <= |xs|
      && (forall k :: 0 <= k < |r| ==> CollectedFrom(xs, f, r[k]))
      && (forall i :: 0 <= i < |xs| && f(xs[i]).Some? ==> f(xs[i]).value in r)
  {
    if xs != [] {
      var init := xs[..|xs| - 1];
      CollectSpec(init, f);
      var r0 := Collect(init, f);
      var tail := match f(xs[|xs| - 1]) case None => [] case Some(y) => [y];
      var r := r0 + tail;
      assert Collect(xs, f) == r;
      forall k | 0 <= k < |r|
        ensures CollectedFrom(xs, f, r[k])
      {
        if k < |r0| {
          assert r[k] == r0[k];
          assert CollectedFrom(init, f, r0[k]);
          var i :| 0 <= i < |init| && f(init[i]) == Some(r0[k]);
          assert xs[i] == init[i];
        } else {
          assert f(xs[|xs| - 1]) == Some(r[k]);
        }
      }
      forall i | 0 <= i < |xs| && f(xs[i]).Some?
        ensures f(xs[i]).value in r
      {
        if i < |init| {
          assert xs[i] == init[i];
        }
      }
    }
  }

  /** When every element yields, the collection is the element-wise image. */
  lemma {:induction false} CollectAll<A, B>(xs: seq<A>, f: A -> Option<B>)
    requires forall i :: 0 <= i < |xs| ==> f(xs[i]).Some?
    ensures var r := Collect(xs, f);
      |r| == |xs| && forall i :: 0 <= i < |xs| ==> r[i] == f(xs[i]).value
  {
    if xs != [] {
      CollectAll(xs[..|xs| - 1], f);
    }
  }

  /** Two steps that never both yield split the elements between them. */
  lemma {:induction false} CollectSplit<A, B, C>(xs: seq<A>, f: A -> Option<B>, g: A -> Option<C>)
    requires forall i :: 0 <= i < |xs| ==> (f(xs[i]).Some? <==> g(xs[i]).None?)
    ensures |Collect(xs, f)| + |Collect(xs, g)| == |xs|
  {
    if xs != [] {
      CollectSplit(xs[..|xs| - 1], f, g);
    }
  }

  /** `f` applied to each element and its position: a loop that appends one
      result per element. */
  function MapIndexed<A, B>(xs: seq<A>, f: (A, nat) -> B): seq<B> {
    if xs == [] then [] else MapIndexed(xs[..|xs| - 1], f) + [f(xs[|xs| - 1], |xs| - 1)]
  }

  lemma {:induction false} MapIndexedSpec<A, B>(xs: seq<A>, f: (A, nat) -> B)
    ensures |MapIndexed(xs, f)| == |xs|
    ensures forall k :: 0 <= k < |xs| ==> MapIndexed(xs, f)[k] == f(xs[k], k)
  {
    if xs != [] {
      var n := |xs| - 1;
      MapIndexedSpec(xs[..n], f);
      forall k | 0 <= k < n
        ensures MapIndexed(xs, f)[k] == f(xs[k], k)
      {
        assert xs[..n][k] == xs[k];
      }
    }
  }

  /** One more element of `xs` appends what it yields. */
  lemma CollectStep<A, B>(xs: seq<A>, i: nat, f: A -> Option<B>)
    requires i < |xs|
    ensures Collect(xs[..i + 1], f) == Collect(xs[..i], f) + match f(xs[i]) case None => [] case Some(y) => [y]
  {
    assert xs[..i + 1][..i] == xs[..i];
  }
}
