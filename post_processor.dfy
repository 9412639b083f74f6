/** `MenuItemPostProcessor` of the embedding service: the items extracted from a
    menu are refined in place, in four steps over one list of item records. A
    trailing parenthetical is split off each name; items are grouped by base name;
    the items of each group are given sizes in ascending price order; and
    suspicious prices are replaced by an inferred one or flagged for review.
    The groups hold positions in the item array, so an update made through a
    group is seen by every later step, as the shared dictionaries are in the
    source. The base-name regular expressions are the oracle `baseName`, and the
    three size-indicator searches are the `SizePatterns` oracles. */
module PostProcessor {
  import opened Util
  import opened Sorting

  /** The `price` key: a number, a string, `None`, or missing. */
  datatype Price = PNum(value: real) | PText(text: string) | PNull | PAbsent

  /** One item record. `priceInferred` and `requiresPriceReview` stand for the
      `price_inferred` and `requires_price_review` keys, false while missing. */
  datatype Item = Item(name: Field<string>, description: Field<string>, price: Price,
                       category: Field<string>, size: Field<string>, restaurantId: Field<string>,
                       priceInferred: bool, requiresPriceReview: bool)

  // ------------------------------------------------------------ trailing parenthetical

  /** Where the final `)` of `\(([^)]+)\)$` must be: the last character, or the
      one before a final newline, which `$` also accepts. */
  function CloseAt(name: string): (r: Option<nat>)
    ensures r.Some? ==> r.value < |name| && name[r.value] == ')'
  {
    if |name| >= 1 && name[|name| - 1] == ')' then Some(|name| - 1)
    else if |name| >= 2 && name[|name| - 1] == '\n' && name[|name| - 2] == ')' then Some(|name| - 2)
    else None
  }

  /** The pattern matches with its `(` at `p`: a non-empty run of characters other
      than `)` lies between `p` and the final `)`. */
  predicate OpensAt(name: string, p: int) {
    CloseAt(name).Some? && 0 <= p && p + 1 < CloseAt(name).value && name[p] == '('
    && forall j :: p < j < CloseAt(name).value ==> name[j] != ')'
  }

  /** The leftmost match position at or after `p`, as `re.search` finds it. */
  function OpenFrom(name: string, p: nat): (r: Option<nat>)
    ensures r.Some? ==> p <= r.value && OpensAt(name, r.value)
    ensures r.Some? ==> forall j :: p <= j < r.value ==> !OpensAt(name, j)
    ensures r.None? ==> forall j :: p <= j ==> !OpensAt(name, j)
    decreases |name| - p
  {
    if p >= |name| then None
    else if OpensAt(name, p) then Some(p)
    else OpenFrom(name, p + 1)
  }

  /** The name without its trailing parenthetical, and the stripped text inside it.
      The substitution removes the parenthetical with the blanks before it and
      keeps what follows the `)`; the final strip takes those blanks anyway. */
  function SplitParen(name: string): Option<(string, string)> {
    match OpenFrom(name, 0)
    case None => None
    case Some(p) =>
      var c := CloseAt(name).value;
      Some((Strip(name[..p] + name[c + 1..]), Strip(name[p + 1..c])))
  }

  /** A split exists exactly when the pattern matches somewhere; the text taken
      is the inside of that parenthetical, which holds no `)`, and the name left
      is shorter than the name given. */
  lemma {:induction false} SplitParenFacts(name: string)
    ensures SplitParen(name).Some? <==> exists p :: OpensAt(name, p)
    ensures SplitParen(name).Some? ==> ')' !in SplitParen(name).value.1
    ensures SplitParen(name).Some? ==> |SplitParen(name).value.0| < |name|
  {
    match OpenFrom(name, 0)
    case None =>
    case Some(p) =>
      var c := CloseAt(name).value;
      var inner := name[p + 1..c];
      StripInside(inner);
      assert forall x :: x in inner ==> x != ')';
  }

  /** Stripping keeps only characters that were there. */
  lemma StripInside(s: string)
    ensures forall x :: x in Strip(s) ==> x in s
  {
    var r := Strip(s);
    var l := TrimLeft(s);
    assert forall x :: x in r ==> x in l;
    assert forall x :: x in l ==> x in s;
  }

  /** A blank description: missing, `None`, empty, or only blanks. */
  predicate BlankDescription(d: Field<string>) {
    d.Val? ==> Strip(d.value) == ""
  }

  /** `_separate_name_description` on one item. */
  function Separated(it: Item): (r: Item)
    ensures r == it.(name := r.name, description := r.description)
    ensures !TruthyStr(it.name) || SplitParen(it.name.value).None? ==> r == it
    ensures TruthyStr(it.name) && SplitParen(it.name.value).Some? ==>
      r.name == Val(SplitParen(it.name.value).value.0)
      && r.description == (if BlankDescription(it.description) then Val(SplitParen(it.name.value).value.1)
                           else it.description)
  {
    if !TruthyStr(it.name) then it
    else
      match SplitParen(it.name.value)
      case None => it
      case Some((n, d)) =>
        it.(name := Val(n), description := if BlankDescription(it.description) then Val(d) else it.description)
  }

  method SeparateNameDescription(items: array<Item>)
    modifies items
    ensures forall i :: 0 <= i < items.Length ==> items[i] == Separated(old(items[i]))
  {
    for i := 0 to items.Length
      invariant forall j :: 0 <= j < i ==> items[j] == Separated(old(items[j]))
      invariant forall j :: i <= j < items.Length ==> items[j] == old(items[j])
    {
      items[i] := Separated(items[i]);
    }
  }

  // ------------------------------------------------------------ grouping

  /** The base name an item is grouped under; items without a name have none. */
  function BaseOf(it: Item, baseName: string -> string): Option<string> {
    if TruthyStr(it.name) then Some(baseName(it.name.value)) else None
  }

  /** Strictly increasing positions, all below `n`. */
  predicate Increasing(ms: seq<nat>, n: int) {
    (forall k, l :: 0 <= k < l < |ms| ==> ms[k] < ms[l]) && forall k :: 0 <= k < |ms| ==> ms[k] < n
  }

  /** The positions, among the first `n` items, of those with base name `b`. */
  function Members(items: seq<Item>, baseName: string -> string, b: string, n: nat): seq<nat>
    requires n <= |items|
  {
    if n == 0 then []
    else Members(items, baseName, b, n - 1) + (if BaseOf(items[n - 1], baseName) == Some(b) then [n - 1] else [])
  }

  /** The positions come in item order. */
  lemma {:induction false} MembersIncreasing(items: seq<Item>, baseName: string -> string, b: string, n: nat)
    requires n <= |items|
    ensures Increasing(Members(items, baseName, b, n), n)
  {
    if n > 0 {
      MembersIncreasing(items, baseName, b, n - 1);
    }
  }

  lemma {:induction false} MembersSpec(items: seq<Item>, baseName: string -> string, b: string, n: nat, m: nat)
    requires n <= |items|
    ensures m in Members(items, baseName, b, n) <==> m < n && BaseOf(items[m], baseName) == Some(b)
  {
    if n > 0 {
      MembersSpec(items, baseName, b, n - 1, m);
    }
  }

  /** The base names of the first `n` items, in order of first appearance. */
  function Bases(items: seq<Item>, baseName: string -> string, n: nat): seq<string>
    requires n <= |items|
  {
    if n == 0 then []
    else
      var bs := Bases(items, baseName, n - 1);
      match BaseOf(items[n - 1], baseName)
      case None => bs
      case Some(b) => if b in bs then bs else bs + [b]
  }

  /** A base name is listed exactly when some item carries it. */
  lemma {:induction false} BasesSpec(items: seq<Item>, baseName: string -> string, b: string, n: nat)
    requires n <= |items|
    ensures b in Bases(items, baseName, n) <==> Members(items, baseName, b, n) != []
  {
    if n > 0 {
      BasesSpec(items, baseName, b, n - 1);
      var ms0 := Members(items, baseName, b, n - 1);
      var bs0 := Bases(items, baseName, n - 1);
      match BaseOf(items[n - 1], baseName)
      case None =>
        assert Bases(items, baseName, n) == bs0;
        assert Members(items, baseName, b, n) == ms0;
      case Some(b') =>
        var bs := if b' in bs0 then bs0 else bs0 + [b'];
        assert Bases(items, baseName, n) == bs;
        assert b in bs <==> b in bs0 || b == b';
        if b' == b {
          assert Members(items, baseName, b, n) == ms0 + [n - 1];
        } else {
          assert Members(items, baseName, b, n) == ms0;
        }
    }
  }

  /** No base name is listed twice. */
  lemma {:induction false} BasesDistinct(items: seq<Item>, baseName: string -> string, n: nat)
    requires n <= |items|
    ensures forall k, l :: 0 <= k < l < |Bases(items, baseName, n)| ==>
      Bases(items, baseName, n)[k] != Bases(items, baseName, n)[l]
  {
    if n > 0 {
      BasesDistinct(items, baseName, n - 1);
    }
  }

  datatype Group = Group(base: string, members: seq<nat>)

  /** The groups of the listed base names that have more than one item. */
  function KeepMultiple(items: seq<Item>, baseName: string -> string, bs: seq<string>): seq<Group> {
    if bs == [] then []
    else
      var b := bs[|bs| - 1];
      var ms := Members(items, baseName, b, |items|);
      KeepMultiple(items, baseName, bs[..|bs| - 1]) + (if |ms| > 1 then [Group(b, ms)] else [])
  }

  /** `_group_by_base_name`. */
  function Groups(items: seq<Item>, baseName: string -> string): seq<Group> {
    KeepMultiple(items, baseName, Bases(items, baseName, |items|))
  }

  method GroupByBaseName(items: array<Item>, baseName: string -> string) returns (groups: seq<Group>)
    ensures groups == Groups(items[..], baseName)
  {
    ghost var s := items[..];
    var order: seq<string> := [];
    var lists: map<string, seq<nat>> := map[];
    for i := 0 to items.Length
      invariant order == Bases(s, baseName, i)
      invariant forall b :: b in lists <==> b in order
      invariant forall b :: b in lists ==> lists[b] == Members(s, baseName, b, i)
    {
      var it := items[i];
      if TruthyStr(it.name) {
        var b := baseName(it.name.value);
        if b !in lists {
          BasesSpec(s, baseName, b, i);
          lists := lists[b := []];
          order := order + [b];
        }
        lists := lists[b := lists[b] + [i]];
      }
    }
    groups := [];
    for k := 0 to |order|
      invariant groups == KeepMultiple(s, baseName, order[..k])
    {
      var b := order[k];
      if |lists[b]| > 1 {
        groups := groups + [Group(b, lists[b])];
      }
      assert order[..k + 1][..k] == order[..k];
    }
    assert order[..|order|] == order;
  }

  /** What every group of `bs` is: a base of `bs` with all its items, more than one. */
  lemma {:induction false} KeepMultipleSpec(items: seq<Item>, baseName: string -> string, bs: seq<string>)
    ensures forall k :: 0 <= k < |KeepMultiple(items, baseName, bs)| ==>
      var g := KeepMultiple(items, baseName, bs)[k];
      g.base in bs && |g.members| > 1 && g.members == Members(items, baseName, g.base, |items|)
    ensures forall b :: b in bs && |Members(items, baseName, b, |items|)| > 1 ==>
      exists k :: 0 <= k < |KeepMultiple(items, baseName, bs)| && KeepMultiple(items, baseName, bs)[k].base == b
  {
    if bs != [] {
      var init := bs[..|bs| - 1];
      KeepMultipleSpec(items, baseName, init);
      var r := KeepMultiple(items, baseName, bs);
      var r0 := KeepMultiple(items, baseName, init);
      assert forall k :: 0 <= k < |r0| ==> r[k] == r0[k];
      forall b | b in bs && |Members(items, baseName, b, |items|)| > 1
        ensures exists k :: 0 <= k < |r| && r[k].base == b
      {
        if b in init {
          var k :| 0 <= k < |r0| && r0[k].base == b;
          assert r[k].base == b;
        } else {
          assert r[|r0|].base == b;
        }
      }
    }
  }

  /** Keeping groups in the order of `bs` keeps their bases distinct. */
  lemma {:induction false} KeepMultipleDistinct(items: seq<Item>, baseName: string -> string, bs: seq<string>)
    requires forall k, l :: 0 <= k < l < |bs| ==> bs[k] != bs[l]
    ensures forall k, l :: 0 <= k < l < |KeepMultiple(items, baseName, bs)| ==>
      KeepMultiple(items, baseName, bs)[k].base != KeepMultiple(items, baseName, bs)[l].base
  {
    if bs != [] {
      var init := bs[..|bs| - 1];
      KeepMultipleDistinct(items, baseName, init);
      KeepMultipleSpec(items, baseName, init);
      var r0 := KeepMultiple(items, baseName, init);
      assert forall k :: 0 <= k < |r0| ==> r0[k].base != bs[|bs| - 1];
    }
  }

  /** The groups are the base names of more than one named item, each listed once
      with exactly the positions of its items, in item order. */
  lemma GroupsFacts(items: seq<Item>, baseName: string -> string)
    ensures var gs := Groups(items, baseName);
      (forall k :: 0 <= k < |gs| ==>
         |gs[k].members| > 1 && gs[k].members == Members(items, baseName, gs[k].base, |items|))
      && (forall k, l :: 0 <= k < l < |gs| ==> gs[k].base != gs[l].base)
    ensures forall b :: |Members(items, baseName, b, |items|)| > 1 ==>
      exists k :: 0 <= k < |Groups(items, baseName)| && Groups(items, baseName)[k].base == b
  {
    var bs := Bases(items, baseName, |items|);
    KeepMultipleSpec(items, baseName, bs);
    BasesDistinct(items, baseName, |items|);
    KeepMultipleDistinct(items, baseName, bs);
    forall b | |Members(items, baseName, b, |items|)| > 1
      ensures b in bs
    {
      BasesSpec(items, baseName, b, |items|);
    }
  }

  /** Different base names have no items in common. */
  lemma GroupsDisjoint(items: seq<Item>, baseName: string -> string)
    ensures Disjoint(Groups(items, baseName))
    ensures forall k :: 0 <= k < |Groups(items, baseName)| ==> Increasing(Groups(items, baseName)[k].members, |items|)
  {
    var gs := Groups(items, baseName);
    GroupsFacts(items, baseName);
    forall j, l, m | 0 <= j < |gs| && 0 <= l < |gs| && j != l && m in gs[j].members
      ensures m !in gs[l].members
    {
      MembersSpec(items, baseName, gs[j].base, |items|, m);
      MembersSpec(items, baseName, gs[l].base, |items|, m);
    }
    forall k | 0 <= k < |gs|
      ensures Increasing(gs[k].members, |items|)
    {
      MembersIncreasing(items, baseName, gs[k].base, |items|);
    }
  }

  /** No position belongs to two groups. */
  predicate Disjoint(gs: seq<Group>) {
    forall j, l, m :: 0 <= j < |gs| && 0 <= l < |gs| && j != l && m in gs[j].members ==> m !in gs[l].members
  }

  // ------------------------------------------------------------ size indicators

  /** The three searches of `_extract_size_indicators`, case-insensitive: a size
      letter and an inch number (`S 10"`), an inch number alone (`12"`), and a
      size word (`Small`, `Medium`, `Large`, `Regular`, `Half`, `Full`). */
  datatype SizePatterns = SizePatterns(
    inchPairs: string -> seq<(string, string)>,
    inchNumbers: string -> seq<string>,
    sizeWords: string -> seq<string>)

  /** The six size words, lower-cased. */
  const SizeWords: set<string> := {"small", "medium", "large", "regular", "half", "full"}

  function UpperChar(c: char): char {
    if 'a' <= c <= 'z' then (c as int - 32) as char else c
  }

  /** The text with its first character upper-cased. */
  function Capitalized(s: string): (r: string)
    ensures |r| == |s|
  {
    if s == [] then [] else [UpperChar(s[0])] + s[1..]
  }

  lemma LowerCapitalized(w: string)
    ensures Lower(Capitalized(Lower(w))) == Lower(w)
  {
    var l := Lower(w);
    var c := Capitalized(l);
    forall i | 0 <= i < |l|
      ensures LowerChar(c[i]) == l[i]
    {
      assert l[i] == LowerChar(w[i]);
    }
  }

  /** `size_map.get(word.lower(), word)`: a size word in any case comes out
      capitalised, any other word unchanged; either way its lower-cased form is
      kept. */
  function Canonical(w: string): (r: string)
    ensures Lower(r) == Lower(w)
    ensures Lower(w) in SizeWords ==> r == Capitalized(Lower(w))
  {
    var l := Lower(w);
    LowerCapitalized(w);
    if l in SizeWords then Capitalized(l) else w
  }

  /** The lower-cased forms of the words. */
  function LowerSet(words: seq<string>): set<string> {
    set w | w in words :: Lower(w)
  }

  /** The words whose lower-cased form was not seen before, capitalised. */
  function FirstByLower(words: seq<string>): seq<string> {
    if words == [] then []
    else
      var init := words[..|words| - 1];
      var w := words[|words| - 1];
      FirstByLower(init) + (if Lower(w) in LowerSet(init) then [] else [Canonical(w)])
  }

  lemma LowerSetAppend(words: seq<string>, w: string)
    ensures LowerSet(words + [w]) == LowerSet(words) + {Lower(w)}
  {
    assert forall x :: x in words + [w] <==> x in words || x == w;
  }

  /** No two words are the same ignoring case. */
  predicate DistinctLower(ws: seq<string>) {
    forall k, l :: 0 <= k < l < |ws| ==> Lower(ws[k]) != Lower(ws[l])
  }

  /** The unique sizes name each spelling once, ignoring case, and every word
      given is named. */
  lemma {:induction false} FirstByLowerFacts(words: seq<string>)
    ensures LowerSet(FirstByLower(words)) == LowerSet(words)
    ensures DistinctLower(FirstByLower(words))
  {
    if words != [] {
      var init := words[..|words| - 1];
      var w := words[|words| - 1];
      FirstByLowerFacts(init);
      assert words == init + [w];
      LowerSetAppend(init, w);
      var r0 := FirstByLower(init);
      if Lower(w) !in LowerSet(init) {
        var c := Canonical(w);
        var r := r0 + [c];
        LowerSetAppend(r0, c);
        forall k, l | 0 <= k < l < |r|
          ensures Lower(r[k]) != Lower(r[l])
        {
          if l == |r0| {
            assert r[k] in r0;
          } else {
            assert r[k] == r0[k] && r[l] == r0[l];
          }
        }
      }
    }
  }

  /** The comprehension with its `seen` set. */
  method UniqueSizes(words: seq<string>) returns (unique: seq<string>)
    ensures unique == FirstByLower(words)
  {
    var seen: set<string> := {};
    unique := [];
    for i := 0 to |words|
      invariant seen == LowerSet(words[..i])
      invariant unique == FirstByLower(words[..i])
    {
      var w := words[i];
      assert words[..i + 1] == words[..i] + [w];
      LowerSetAppend(words[..i], w);
      if Lower(w) !in seen {
        seen := seen + {Lower(w)};
        unique := unique + [Canonical(w)];
      }
    }
    assert words[..|words|] == words;
  }

  /** `[int(x) for x in inch_numbers if x.isdigit()]`. */
  function InchValues(nums: seq<string>): seq<nat> {
    if nums == [] then []
    else
      var x := nums[|nums| - 1];
      InchValues(nums[..|nums| - 1]) + (if x != "" && AllDigits(x) then [DigitsValue(x)] else [])
  }

  function InchLabel(x: nat): string {
    NatToString(x) + "\""
  }

  function NatReal(x: nat): real {
    x as real
  }

  /** The inch numbers in ascending order. */
  function SortedInches(nums: seq<string>): seq<nat> {
    SortAsc(InchValues(nums), NatReal)
  }

  /** `_extract_size_indicators`. */
  function Indicators(text: string, pats: SizePatterns): seq<string> {
    var pairs := pats.inchPairs(text);
    if |pairs| >= 2 then seq(|pairs|, k requires 0 <= k < |pairs| => pairs[k].0 + " " + pairs[k].1 + "\"")
    else
      var nums := pats.inchNumbers(text);
      if |nums| >= 2 then
        var sorted := SortedInches(nums);
        seq(|sorted|, k requires 0 <= k < |sorted| => InchLabel(sorted[k]))
      else
        var words := pats.sizeWords(text);
        if words != [] && |set w | w in words| >= 2 then
          var unique := FirstByLower(words);
          if |unique| >= 2 then unique else []
        else []
  }

  method ExtractSizeIndicators(text: string, pats: SizePatterns) returns (r: seq<string>)
    ensures r == Indicators(text, pats)
  {
    var pairs := pats.inchPairs(text);
    if |pairs| >= 2 {
      return seq(|pairs|, k requires 0 <= k < |pairs| => pairs[k].0 + " " + pairs[k].1 + "\"");
    }
    var nums := pats.inchNumbers(text);
    if |nums| >= 2 {
      var sorted := SortedInches(nums);
      return seq(|sorted|, k requires 0 <= k < |sorted| => InchLabel(sorted[k]));
    }
    var words := pats.sizeWords(text);
    r := [];
    if words != [] && |set w | w in words| >= 2 {
      var unique := UniqueSizes(words);
      if |unique| >= 2 {
        r := unique;
      }
    }
  }

  /** Inch sizes come out in ascending numeric order, one per inch number found. */
  lemma SortedInchesFacts(nums: seq<string>)
    ensures multiset(SortedInches(nums)) == multiset(InchValues(nums))
    ensures forall k, l :: 0 <= k < l < |SortedInches(nums)| ==> SortedInches(nums)[k] <= SortedInches(nums)[l]
  {
    SortAscFacts(InchValues(nums), NatReal);
  }

  /** Word sizes are either absent or at least two, each spelling once ignoring
      case, covering every size word found. */
  lemma WordSizesFacts(text: string, pats: SizePatterns)
    requires |pats.inchPairs(text)| < 2 && |pats.inchNumbers(text)| < 2
    ensures var r := Indicators(text, pats);
      r == [] || (|r| >= 2 && LowerSet(r) == LowerSet(pats.sizeWords(text))
                  && forall k, l :: 0 <= k < l < |r| ==> Lower(r[k]) != Lower(r[l]))
  {
    FirstByLowerFacts(pats.sizeWords(text));
  }

  // ------------------------------------------------------------ generic sizes

  const SixSizes: seq<string> := ["Small", "Medium", "Large", "Extra Large", "Family", "Party"]

  /** The size name at position `k` of the long list. */
  function SizeLabel(k: nat): string {
    if k < 6 then SixSizes[k] else "Size " + NatToString(k + 1)
  }

  /** The size names `_assign_generic_sizes` picks for `n` items: enough for all. */
  function GenericNames(n: nat): (r: seq<string>)
    ensures |r| >= n
    ensures n == 2 ==> r == ["Regular", "Large"]
    ensures n == 3 ==> r == ["Small", "Medium", "Large"]
    ensures n != 2 && n != 3 && n != 0 ==>
      |r| == Max(6, n) && forall k :: 0 <= k < |r| ==> r[k] == SizeLabel(k)
  {
    if n == 0 then []
    else if n == 2 then ["Regular", "Large"]
    else if n == 3 then ["Small", "Medium", "Large"]
    else seq(Max(6, n), k requires k >= 0 => SizeLabel(k))
  }

  method GenericSizes(n: nat) returns (names: seq<string>)
    ensures names == GenericNames(n)
  {
    if n == 0 {
      return [];
    } else if n == 2 {
      names := ["Regular", "Large"];
    } else if n == 3 {
      names := ["Small", "Medium", "Large"];
    } else {
      names := SixSizes;
      while |names| < n
        invariant 6 <= |names| <= Max(6, n)
        invariant forall k :: 0 <= k < |names| ==> names[k] == SizeLabel(k)
        decreases n - |names|
      {
        names := names + ["Size " + NatToString(|names| + 1)];
      }
    }
  }

  // ------------------------------------------------------------ size assignment

  /** `x.get("price", 0)` as a sort key: a number (a missing price gives the
      int 0), a string, or `None`. */
  datatype SortKey = KNum(num: real) | KText(text: string) | KNone

  function KeyOf(p: Price): SortKey {
    match p
    case PNum(v) => KNum(v)
    case PText(t) => KText(t)
    case PNull => KNone
    case PAbsent => KNum(0.0)
  }

  /** The sort key of the item at a position. */
  function KeyAt(items: seq<Item>, m: nat): SortKey {
    if m < |items| then KeyOf(items[m].price) else KNum(0.0)
  }

  /** The numeric key, for a group whose keys are all numbers. */
  function PriceKey(p: Price): real {
    if p.PNum? then p.value else 0.0
  }

  /** Sorting a group raises exactly when it has two members or more and a key
      is `None`, or strings and numbers are mixed. A sort of two keys or more
      compares, with `<`, at least every two keys that end up next to each
      other, `None` compares with nothing and a string with no number; a single
      key is never compared. */
  predicate SortRaises(items: seq<Item>, ms: seq<nat>) {
    |ms| >= 2
    && ((exists m :: m in ms && KeyAt(items, m).KNone?)
        || ((exists m :: m in ms && KeyAt(items, m).KText?) && (exists m :: m in ms && KeyAt(items, m).KNum?)))
  }

  /** Every key of the group is a string: the sort orders them as strings. */
  predicate AllText(items: seq<Item>, ms: seq<nat>) {
    forall m :: m in ms ==> KeyAt(items, m).KText?
  }

  /** The members by ascending price key, ties in their group order: by string
      order when every key is a string, by number otherwise. */
  function ByPrice(items: seq<Item>, ms: seq<nat>): seq<nat> {
    if AllText(items, ms) then SortText(ms, TextIn(items)) else SortAsc(ms, KeyIn(items))
  }

  /** The numeric sort key of the item at a position. */
  function KeyIn(items: seq<Item>): nat -> real {
    (m: nat) => if m < |items| then PriceKey(items[m].price) else 0.0
  }

  /** The text sort key of the item at a position. */
  function TextIn(items: seq<Item>): nat -> string {
    (m: nat) => if KeyAt(items, m).KText? then KeyAt(items, m).text else ""
  }

  /** A group whose sort does not raise and whose keys are not all strings has
      only numeric keys, so the numeric order is Python's order. */
  lemma NumericWhenNotText(items: seq<Item>, ms: seq<nat>)
    requires |ms| >= 2 && !SortRaises(items, ms) && !AllText(items, ms)
    ensures forall m :: m in ms ==> KeyAt(items, m).KNum? && KeyIn(items)(m) == KeyAt(items, m).num
  {
    var t :| t in ms && !KeyAt(items, t).KText?;
    assert KeyAt(items, t).KNum?;
  }

  /** Two items priced only in text, such as two `""` prices, sort as strings
      and are sized, the smaller string first; a text price beside a numeric
      one makes the sort raise. */
  lemma TextPricedPair(a: Item, b: Item)
    requires a.price.PText? && b.price.PText?
    ensures var r := SizeGroup([a, b], Group("", [0, 1]), []);
      r.Some? && r.value[0] == a.(size := Val(if TextLess(b.price.text, a.price.text) then "Large" else "Regular"))
      && r.value[1] == b.(size := Val(if TextLess(b.price.text, a.price.text) then "Regular" else "Large"))
    ensures SizeGroup([a, b.(price := PNum(12.0))], Group("", [0, 1]), []).None?
  {
    var items := [a, b];
    assert !SortRaises(items, [0, 1]) by {
      assert KeyAt(items, 0).KText? && KeyAt(items, 1).KText?;
    }
    assert AllText(items, [0, 1]);
    var key := TextIn(items);
    assert key(0) == a.price.text && key(1) == b.price.text;
    var one: seq<nat> := [1];
    assert SortText(one, key) == one;
    var order := ByPrice(items, [0, 1]);
    assert order == if TextLess(b.price.text, a.price.text) then [1, 0] else [0, 1];
    var names := SizeNames(2, []);
    assert names == ["Regular", "Large"];
    assert Labelled(items, order, names, 1) == items[order[0] := items[order[0]].(size := Val("Regular"))];
    var mixed := [a, b.(price := PNum(12.0))];
    assert KeyAt(mixed, 0).KText? && KeyAt(mixed, 1).KNum?;
    assert SortRaises(mixed, [0, 1]);
  }

  /** The items once the first `n` positions of `order` are given the sizes of
      `labels`, position by position. */
  function Labelled(items: seq<Item>, order: seq<nat>, labels: seq<string>, n: nat): (r: seq<Item>)
    requires n <= |order|
    ensures |r| == |items|
  {
    if n == 0 then items
    else
      var cur := Labelled(items, order, labels, n - 1);
      var m := order[n - 1];
      if n - 1 < |labels| && m < |cur| then cur[m := cur[m].(size := Val(labels[n - 1]))] else cur
  }

  /** The sizes a group of `n` items draws from: the indicators when there are
      enough of them, generic names otherwise. */
  function SizeNames(n: nat, indicators: seq<string>): (r: seq<string>)
    ensures |r| >= n
  {
    if n <= |indicators| then indicators else GenericNames(n)
  }

  /** One group of `_assign_sizes`, or None when its sort raises. */
  function SizeGroup(items: seq<Item>, g: Group, indicators: seq<string>): Option<seq<Item>> {
    if SortRaises(items, g.members) then None
    else
      var order := ByPrice(items, g.members);
      Some(Labelled(items, order, SizeNames(|order|, indicators), |order|))
  }

  /** One step of a pass over the groups: the items after sizing one group, or
      None when it raises. */
  type Sizer = (seq<Item>, Group) -> Option<seq<Item>>

  /** The step `_assign_sizes` takes for each group. */
  function GroupSizer(indicators: seq<string>): Sizer {
    (cur: seq<Item>, g: Group) => SizeGroup(cur, g, indicators)
  }

  /** `step` applied to the first `n` groups in turn; None once a step raises. */
  function Chain(items: seq<Item>, groups: seq<Group>, step: Sizer, n: nat): Option<seq<Item>>
    requires n <= |groups|
  {
    if n == 0 then Some(items)
    else
      match Chain(items, groups, step, n - 1)
      case None => None
      case Some(cur) => step(cur, groups[n - 1])
  }

  /** `_assign_sizes` over the first `n` groups. */
  function SizeGroups(items: seq<Item>, groups: seq<Group>, indicators: seq<string>, n: nat): Option<seq<Item>>
    requires n <= |groups|
  {
    Chain(items, groups, GroupSizer(indicators), n)
  }

  /** Once a step raises, the pass raises. */
  lemma {:induction false} ChainStaysNone(items: seq<Item>, groups: seq<Group>, step: Sizer, n: nat, m: nat)
    requires n <= m <= |groups| && Chain(items, groups, step, n).None?
    ensures Chain(items, groups, step, m).None?
    decreases m
  {
    if m > n {
      ChainStaysNone(items, groups, step, n, m - 1);
    }
  }

  /** A pass that succeeds succeeded on every group before the last. */
  lemma ChainBack(items: seq<Item>, groups: seq<Group>, step: Sizer, n: nat)
    requires 0 < n <= |groups| && Chain(items, groups, step, n).Some?
    ensures Chain(items, groups, step, n - 1).Some?
    ensures step(Chain(items, groups, step, n - 1).value, groups[n - 1]) == Chain(items, groups, step, n)
  {
  }

  lemma SizeGroupsStaysNone(items: seq<Item>, groups: seq<Group>, indicators: seq<string>, n: nat, m: nat)
    requires n <= m <= |groups| && SizeGroups(items, groups, indicators, n).None?
    ensures SizeGroups(items, groups, indicators, m).None?
  {
    ChainStaysNone(items, groups, GroupSizer(indicators), n, m);
  }

  /** The sizing of the first `m` groups is that of group `m - 1` applied to
      the sizing of the ones before it. */
  lemma SizeGroupsStep(items: seq<Item>, groups: seq<Group>, indicators: seq<string>, m: nat, cur: seq<Item>)
    requires 0 < m <= |groups| && SizeGroups(items, groups, indicators, m - 1) == Some(cur)
    ensures SizeGroups(items, groups, indicators, m) == SizeGroup(cur, groups[m - 1], indicators)
  {
    assert GroupSizer(indicators)(cur, groups[m - 1]) == SizeGroup(cur, groups[m - 1], indicators);
  }

  /** A group whose sort does not raise gets the labels of its price order. */
  lemma SizeGroupLabels(cur: seq<Item>, g: Group, indicators: seq<string>, order: seq<nat>, names: seq<string>)
    requires !SortRaises(cur, g.members) && order == ByPrice(cur, g.members)
    requires names == SizeNames(|order|, indicators)
    ensures SizeGroup(cur, g, indicators) == Some(Labelled(cur, order, names, |order|))
  {
  }

  /** Gives the items at the positions of `order` the sizes of `names`, in turn. */
  method LabelGroup(items: array<Item>, order: seq<nat>, names: seq<string>)
    modifies items
    ensures items[..] == Labelled(old(items[..]), order, names, |order|)
  {
    for k := 0 to |order|
      invariant items[..] == Labelled(old(items[..]), order, names, k)
    {
      if k < |names| && order[k] < items.Length {
        items[order[k]] := items[order[k]].(size := Val(names[k]));
      }
    }
  }

  method AssignSizes(items: array<Item>, groups: seq<Group>, indicators: seq<string>) returns (ok: bool)
    modifies items
    ensures ok == SizeGroups(old(items[..]), groups, indicators, |groups|).Some?
    ensures ok ==> items[..] == SizeGroups(old(items[..]), groups, indicators, |groups|).value
  {
    for gi := 0 to |groups|
      invariant SizeGroups(old(items[..]), groups, indicators, gi) == Some(items[..])
    {
      var g := groups[gi];
      ghost var cur := items[..];
      SizeGroupsStep(old(items[..]), groups, indicators, gi + 1, cur);
      if SortRaises(items[..], g.members) {
        SizeGroupsStaysNone(old(items[..]), groups, indicators, gi + 1, |groups|);
        return false;
      }
      var order := ByPrice(items[..], g.members);
      var names: seq<string>;
      if |order| <= |indicators| {
        names := indicators;
      } else {
        names := GenericSizes(|order|);
      }
      assert names == SizeNames(|order|, indicators);
      SizeGroupLabels(cur, g, indicators, order, names);
      LabelGroup(items, order, names);
    }
    return true;
  }

  /** No position is listed twice. */
  predicate Distinct(s: seq<nat>) {
    forall k, l :: 0 <= k < l < |s| ==> s[k] != s[l]
  }

  lemma {:induction false} DistinctCounts(s: seq<nat>)
    requires Distinct(s)
    ensures forall x :: multiset(s)[x] <= 1
  {
    if s != [] {
      var init := s[..|s| - 1];
      DistinctCounts(init);
      assert s == init + [s[|s| - 1]];
      assert s[|s| - 1] !in init;
    }
  }

  lemma CountsDistinct(s: seq<nat>)
    requires forall x :: multiset(s)[x] <= 1
    ensures Distinct(s)
  {
    forall k, l | 0 <= k < l < |s|
      ensures s[k] != s[l]
    {
      TwoCopies(s, k, l);
    }
  }

  lemma TwoCopies(s: seq<nat>, k: nat, l: nat)
    requires k < l < |s|
    ensures s[k] == s[l] ==> multiset(s)[s[l]] >= 2
  {
    assert s == s[..l] + [s[l]] + s[l + 1..];
    assert s[k] in s[..l];
  }

  /** Giving sizes along distinct positions sets exactly those positions' sizes. */
  lemma {:induction false} LabelledSpec(items: seq<Item>, order: seq<nat>, labels: seq<string>, n: nat)
    requires n <= |order| <= |labels| && Distinct(order)
    requires forall k :: 0 <= k < |order| ==> order[k] < |items|
    ensures forall k :: 0 <= k < n ==>
      Labelled(items, order, labels, n)[order[k]] == items[order[k]].(size := Val(labels[k]))
    ensures forall i :: 0 <= i < |items| && i !in order[..n] ==> Labelled(items, order, labels, n)[i] == items[i]
  {
    if n > 0 {
      LabelledSpec(items, order, labels, n - 1);
      assert order[..n] == order[..n - 1] + [order[n - 1]];
      assert forall k :: 0 <= k < n - 1 ==> order[k] != order[n - 1];
    }
  }

  /** Only the sizes differ. */
  predicate OnlySizes(items: seq<Item>, r: seq<Item>) {
    |r| == |items| && forall i :: 0 <= i < |r| ==> r[i] == items[i].(size := r[i].size)
  }

  lemma {:induction false} LabelledOnlySizes(items: seq<Item>, order: seq<nat>, labels: seq<string>, n: nat)
    requires n <= |order|
    ensures OnlySizes(items, Labelled(items, order, labels, n))
  {
    if n > 0 {
      LabelledOnlySizes(items, order, labels, n - 1);
    }
  }

  /** Sizing leaves the prices, so the sort and its failure, as they were. */
  lemma ByPriceSizes(items: seq<Item>, cur: seq<Item>, ms: seq<nat>)
    requires OnlySizes(items, cur)
    ensures ByPrice(cur, ms) == ByPrice(items, ms)
    ensures SortRaises(cur, ms) == SortRaises(items, ms)
  {
    assert forall m :: KeyAt(cur, m) == KeyAt(items, m);
    forall x | x in ms
      ensures Negated(KeyIn(cur))(x) == Negated(KeyIn(items))(x)
      ensures TextIn(cur)(x) == TextIn(items)(x)
    {
    }
    SortDescSameKeys(ms, Negated(KeyIn(cur)), Negated(KeyIn(items)));
    SortTextSameKeys(ms, TextIn(cur), TextIn(items));
  }

  /** The group sort rearranges the members, which stay in range and distinct,
      into ascending order of their keys: string order when all are strings,
      numeric order otherwise. */
  lemma ByPriceFacts(items: seq<Item>, ms: seq<nat>)
    requires Increasing(ms, |items|)
    ensures var order := ByPrice(items, ms);
      multiset(order) == multiset(ms) && Distinct(order)
      && (forall k :: 0 <= k < |order| ==> order[k] < |items|)
      && (AllText(items, ms) ==> forall k, l :: 0 <= k < l < |order| ==>
            !TextLess(TextIn(items)(order[l]), TextIn(items)(order[k])))
      && (!AllText(items, ms) ==> forall k, l :: 0 <= k < l < |order| ==>
            PriceKey(items[order[k]].price) <= PriceKey(items[order[l]].price))
  {
    var order := ByPrice(items, ms);
    ByPriceOrdered(items, ms);
    DistinctCounts(ms);
    CountsDistinct(order);
    forall k | 0 <= k < |order|
      ensures order[k] < |items|
    {
      assert order[k] in multiset(ms);
    }
  }

  lemma ByPriceOrdered(items: seq<Item>, ms: seq<nat>)
    ensures var order := ByPrice(items, ms);
      multiset(order) == multiset(ms)
      && (AllText(items, ms) ==> SortedText(order, TextIn(items)))
      && (!AllText(items, ms) ==> forall k, l :: 0 <= k < l < |order| ==> KeyIn(items)(order[k]) <= KeyIn(items)(order[l]))
  {
    if AllText(items, ms) {
      SortTextPermutation(ms, TextIn(items));
      SortTextSorted(ms, TextIn(items));
    } else {
      SortAscFacts(ms, KeyIn(items));
    }
  }

  /** For one group: the item of price rank `k` gets size `k` of the names drawn
      from, and no item outside the group changes. */
  lemma SizeGroupFacts(items: seq<Item>, g: Group, indicators: seq<string>)
    requires Increasing(g.members, |items|) && SizeGroup(items, g, indicators).Some?
    ensures var order := ByPrice(items, g.members);
      var r := SizeGroup(items, g, indicators).value;
      (forall k :: 0 <= k < |order| ==>
         order[k] < |items| && r[order[k]] == items[order[k]].(size := Val(SizeNames(|order|, indicators)[k])))
      && (forall i :: 0 <= i < |items| && i !in g.members ==> r[i] == items[i])
  {
    var ms := g.members;
    var order := ByPrice(items, ms);
    ByPriceFacts(items, ms);
    LabelledSpec(items, order, SizeNames(|order|, indicators), |order|);
    assert order[..|order|] == order;
    assert forall i :: i in order ==> i in multiset(ms);
  }

  /** Every item of group `g` carries the size of its price rank. */
  predicate GroupSized(items: seq<Item>, r: seq<Item>, g: Group, indicators: seq<string>) {
    var order := ByPrice(items, g.members);
    forall k :: 0 <= k < |order| && order[k] < |r| ==> r[order[k]].size == Val(SizeNames(|order|, indicators)[k])
  }

  /** Position `i` belongs to one of the first `n` groups. */
  predicate InGroups(groups: seq<Group>, n: int, i: nat) {
    exists j :: 0 <= j < n && j < |groups| && i in groups[j].members
  }

  /** Nothing outside the positions `ms` differs. */
  predicate SameOutside(cur: seq<Item>, r: seq<Item>, ms: seq<nat>) {
    |r| == |cur| && forall i :: 0 <= i < |cur| && i !in ms ==> r[i] == cur[i]
  }

  /** Sizing a group leaves the groups sized before it as they were. */
  lemma OtherGroupsKept(items: seq<Item>, cur: seq<Item>, r: seq<Item>, groups: seq<Group>,
                        indicators: seq<string>, n: nat)
    requires 0 < n <= |groups| && Disjoint(groups) && |items| == |cur|
    requires forall j :: 0 <= j < |groups| ==> Increasing(groups[j].members, |items|)
    requires SameOutside(cur, r, groups[n - 1].members)
    requires forall j :: 0 <= j < n - 1 ==> GroupSized(items, cur, groups[j], indicators)
    ensures forall j :: 0 <= j < n - 1 ==> GroupSized(items, r, groups[j], indicators)
  {
    forall j | 0 <= j < n - 1
      ensures GroupSized(items, r, groups[j], indicators)
    {
      var order := ByPrice(items, groups[j].members);
      ByPriceFacts(items, groups[j].members);
      forall k | 0 <= k < |order| && order[k] < |r|
        ensures r[order[k]].size == Val(SizeNames(|order|, indicators)[k])
      {
        assert order[k] in multiset(groups[j].members);
        assert order[k] !in groups[n - 1].members;
      }
    }
  }

  /** What a step does to items of length `n`, for every group: only sizes
      change, only at the group's positions, and the group gets the sizes of its
      price ranks. */
  ghost predicate SizerFacts(step: Sizer, groups: seq<Group>, n: nat, indicators: seq<string>) {
    forall cur: seq<Item>, j :: 0 <= j < |groups| && |cur| == n && step(cur, groups[j]).Some? ==>
      OnlySizes(cur, step(cur, groups[j]).value) && SameOutside(cur, step(cur, groups[j]).value, groups[j].members)
      && GroupSized(cur, step(cur, groups[j]).value, groups[j], indicators)
  }

  /** The step of `_assign_sizes` has those facts. */
  lemma GroupSizerFacts(items: seq<Item>, groups: seq<Group>, indicators: seq<string>)
    requires forall j :: 0 <= j < |groups| ==> Increasing(groups[j].members, |items|)
    ensures SizerFacts(GroupSizer(indicators), groups, |items|, indicators)
  {
    forall cur: seq<Item>, j | 0 <= j < |groups| && |cur| == |items| && GroupSizer(indicators)(cur, groups[j]).Some?
      ensures var r := GroupSizer(indicators)(cur, groups[j]).value;
        OnlySizes(cur, r) && SameOutside(cur, r, groups[j].members) && GroupSized(cur, r, groups[j], indicators)
    {
      var g := groups[j];
      assert GroupSizer(indicators)(cur, g) == SizeGroup(cur, g, indicators);
      var order := ByPrice(cur, g.members);
      var names := SizeNames(|order|, indicators);
      SizeGroupLabels(cur, g, indicators, order, names);
      LabelledOnlySizes(cur, order, names, |order|);
      SizeGroupFacts(cur, g, indicators);
    }
  }

  lemma {:induction false} ChainOnlySizes(items: seq<Item>, groups: seq<Group>, step: Sizer, indicators: seq<string>, n: nat)
    requires n <= |groups| && SizerFacts(step, groups, |items|, indicators)
    requires Chain(items, groups, step, n).Some?
    ensures OnlySizes(items, Chain(items, groups, step, n).value)
  {
    if n > 0 {
      ChainBack(items, groups, step, n);
      ChainOnlySizes(items, groups, step, indicators, n - 1);
    }
  }

  lemma {:induction false} ChainOutside(items: seq<Item>, groups: seq<Group>, step: Sizer, indicators: seq<string>, n: nat)
    requires n <= |groups| && SizerFacts(step, groups, |items|, indicators)
    requires Chain(items, groups, step, n).Some?
    ensures var r := Chain(items, groups, step, n).value;
      |r| == |items| && forall i :: 0 <= i < |items| && !InGroups(groups, n, i) ==> r[i] == items[i]
  {
    ChainOnlySizes(items, groups, step, indicators, n);
    if n > 0 {
      ChainBack(items, groups, step, n);
      ChainOutside(items, groups, step, indicators, n - 1);
      ChainOnlySizes(items, groups, step, indicators, n - 1);
      var cur := Chain(items, groups, step, n - 1).value;
      var r := Chain(items, groups, step, n).value;
      assert SameOutside(cur, r, groups[n - 1].members);
      forall i | 0 <= i < |items| && !InGroups(groups, n, i)
        ensures r[i] == items[i]
      {
        assert i !in groups[n - 1].members;
        assert !InGroups(groups, n - 1, i);
      }
    }
  }

  lemma {:induction false} ChainSized(items: seq<Item>, groups: seq<Group>, step: Sizer, indicators: seq<string>, n: nat)
    requires n <= |groups| && Disjoint(groups) && SizerFacts(step, groups, |items|, indicators)
    requires forall j :: 0 <= j < |groups| ==> Increasing(groups[j].members, |items|)
    requires Chain(items, groups, step, n).Some?
    ensures forall j :: 0 <= j < n ==> GroupSized(items, Chain(items, groups, step, n).value, groups[j], indicators)
  {
    if n > 0 {
      ChainBack(items, groups, step, n);
      ChainSized(items, groups, step, indicators, n - 1);
      ChainOnlySizes(items, groups, step, indicators, n - 1);
      var cur := Chain(items, groups, step, n - 1).value;
      var r := Chain(items, groups, step, n).value;
      assert SameOutside(cur, r, groups[n - 1].members) && GroupSized(cur, r, groups[n - 1], indicators);
      ByPriceSizes(items, cur, groups[n - 1].members);
      OtherGroupsKept(items, cur, r, groups, indicators, n);
    }
  }

  /** Across all groups, as the source promises: only sizes change; each item of
      a group gets the size of its price rank within the group; an item in no
      group keeps its record. */
  lemma SizeGroupsFacts(items: seq<Item>, groups: seq<Group>, indicators: seq<string>, n: nat)
    requires n <= |groups| && Disjoint(groups)
    requires forall j :: 0 <= j < |groups| ==> Increasing(groups[j].members, |items|)
    requires SizeGroups(items, groups, indicators, n).Some?
    ensures var r := SizeGroups(items, groups, indicators, n).value;
      OnlySizes(items, r)
      && (forall j :: 0 <= j < n ==> GroupSized(items, r, groups[j], indicators))
      && (forall i :: 0 <= i < |items| && !InGroups(groups, n, i) ==> r[i] == items[i])
  {
    var step := GroupSizer(indicators);
    GroupSizerFacts(items, groups, indicators);
    ChainOnlySizes(items, groups, step, indicators, n);
    ChainSized(items, groups, step, indicators, n);
    ChainOutside(items, groups, step, indicators, n);
  }

  // ------------------------------------------------------------ price validation

  /** `item.get("category", "unknown")`: a missing key is "unknown", `None` a key
      of its own. */
  function CategoryKey(it: Item): Option<string> {
    match it.category
    case Absent => Some("unknown")
    case Null => None
    case Val(c) => Some(c)
  }

  /** A price that counts towards its category's average: `not price or price == 0`
      does not hold. */
  predicate Counted(p: Price) {
    (p.PNum? && p.value != 0.0) || (p.PText? && p.text != "")
  }

  /** `category_prices` after the first `n` items. */
  function CategoryPrices(items: seq<Item>, n: nat): (m: map<Option<string>, seq<Price>>)
    requires n <= |items|
    ensures forall c :: c in m ==> m[c] != []
  {
    if n == 0 then map[]
    else
      var m := CategoryPrices(items, n - 1);
      var it := items[n - 1];
      var c := CategoryKey(it);
      if Counted(it.price) then m[c := (if c in m then m[c] else []) + [it.price]] else m
  }

  /** The counted prices of category `c` among the first `n` items, in order. */
  function Collected(items: seq<Item>, c: Option<string>, n: nat): seq<Price>
    requires n <= |items|
  {
    if n == 0 then []
    else
      var it := items[n - 1];
      Collected(items, c, n - 1) + (if Counted(it.price) && CategoryKey(it) == c then [it.price] else [])
  }

  /** The dictionary holds, for each category with a counted price, exactly its
      counted prices in item order. */
  lemma {:induction false} CategoryPricesSpec(items: seq<Item>, n: nat, c: Option<string>)
    requires n <= |items|
    ensures c in CategoryPrices(items, n) <==> Collected(items, c, n) != []
    ensures c in CategoryPrices(items, n) ==> CategoryPrices(items, n)[c] == Collected(items, c, n)
  {
    if n > 0 {
      CategoryPricesSpec(items, n - 1, c);
    }
  }

  function SumOf(ps: seq<Price>): real {
    if ps == [] then 0.0
    else SumOf(ps[..|ps| - 1]) + (if ps[|ps| - 1].PNum? then ps[|ps| - 1].value else 0.0)
  }

  function Mean(ps: seq<Price>): real
    requires ps != []
  {
    SumOf(ps) / (|ps| as real)
  }

  predicate HasText(ps: seq<Price>) {
    exists k :: 0 <= k < |ps| && ps[k].PText?
  }

  /** `category_avg`, or None when a `sum` meets a string. */
  function Averages(items: seq<Item>): Option<map<Option<string>, real>> {
    var m := CategoryPrices(items, |items|);
    if exists c :: c in m && HasText(m[c]) then None
    else Some(map c | c in m :: Mean(m[c]))
  }

  method CategoryAverages(items: array<Item>) returns (avg: Option<map<Option<string>, real>>)
    ensures avg == Averages(items[..])
  {
    var prices: map<Option<string>, seq<Price>> := map[];
    for i := 0 to items.Length
      invariant prices == CategoryPrices(items[..], i)
    {
      var it := items[i];
      if Counted(it.price) {
        var c := CategoryKey(it);
        if c !in prices {
          prices := prices[c := []];
        }
        prices := prices[c := prices[c] + [it.price]];
      }
    }
    if exists c :: c in prices && HasText(prices[c]) {
      return None;
    }
    return Some(map c | c in prices :: Mean(prices[c]));
  }

  /** Python's `round` on a float: to the nearest integer, halves to the even one. */
  function RoundHalfEven(x: real): (r: int)
    ensures (r as real) - 0.5 <= x <= (r as real) + 0.5
    ensures x - (x.Floor as real) == 0.5 ==> r % 2 == 0
  {
    var f := x.Floor;
    var d := x - (f as real);
    if d < 0.5 then f else if d > 0.5 then f + 1 else if f % 2 == 0 then f else f + 1
  }

  function MaxOf(vs: seq<real>): (r: real)
    requires vs != []
    ensures r in vs && forall v :: v in vs ==> v <= r
  {
    if |vs| == 1 then vs[0]
    else
      var m := MaxOf(vs[..|vs| - 1]);
      assert forall v :: v in vs ==> v in vs[..|vs| - 1] || v == vs[|vs| - 1];
      if vs[|vs| - 1] > m then vs[|vs| - 1] else m
  }

  /** `[i["price"] for i in groups[base_name] if i.get("price", 0) > 0]` on the
      current records, or None when a comparison raises. */
  function ValidPrices(cur: seq<Item>, ms: seq<nat>): (r: Option<seq<real>>)
    ensures r.Some? ==> forall v :: v in r.value ==> v > 0.0
  {
    if ms == [] then Some([])
    else
      match ValidPrices(cur, ms[..|ms| - 1])
      case None => None
      case Some(vs) =>
        var m := ms[|ms| - 1];
        if m >= |cur| then Some(vs)
        else
          match cur[m].price
          case PNum(v) => Some(vs + (if v > 0.0 then [v] else []))
          case PAbsent => Some(vs)
          case PNull => None
          case PText(_) => None
  }

  /** `groups[base_name]` when the base name has a group. */
  function FindGroup(groups: seq<Group>, b: string): (r: Option<Group>)
    ensures r.Some? ==> r.value in groups && r.value.base == b
    ensures r.None? ==> forall g :: g in groups ==> g.base != b
  {
    if groups == [] then None
    else if groups[0].base == b then Some(groups[0])
    else FindGroup(groups[1..], b)
  }

  /** A number that is not positive, once `None` and a missing price read as 0. */
  predicate Suspicious(p: Price) {
    p.PNull? || p.PAbsent? || (p.PNum? && p.value <= 0.0)
  }

  /** The item at `i` once its price is checked, against the current records (a
      group member fixed earlier is seen fixed, and the item's own `None` is
      already 0), or None when a step raises: a string price, or a suspicious
      price on an item whose name is missing or `None`. */
  function FixItem(cur: seq<Item>, i: nat, groups: seq<Group>, avg: map<Option<string>, real>,
                   baseName: string -> string): Option<Item>
    requires i < |cur|
  {
    var it := cur[i];
    var it1 := if it.price.PNull? || it.price.PAbsent? then it.(price := PNum(0.0)) else it;
    if it1.price.PText? then None
    else if it1.price.PNum? && it1.price.value > 0.0 then Some(it1)
    else if !it1.name.Val? then None
    else
      var vs := match FindGroup(groups, baseName(it1.name.value))
                case None => Some([])
                case Some(g) => ValidPrices(cur[i := it1], g.members);
      if vs.None? then None
      else if vs.value != [] then Some(it1.(price := PNum(MaxOf(vs.value)), priceInferred := true))
      else
        var c := CategoryKey(it1);
        if c in avg then Some(it1.(price := PNum(RoundHalfEven(avg[c]) as real), priceInferred := true))
        else Some(it1.(requiresPriceReview := true))
  }

  /** The fix loop over the first `n` items. */
  function FixUpTo(items: seq<Item>, groups: seq<Group>, avg: map<Option<string>, real>,
                   baseName: string -> string, n: nat): (r: Option<seq<Item>>)
    requires n <= |items|
    ensures r.Some? ==> |r.value| == |items|
  {
    if n == 0 then Some(items)
    else
      match FixUpTo(items, groups, avg, baseName, n - 1)
      case None => None
      case Some(cur) =>
        match FixItem(cur, n - 1, groups, avg, baseName)
        case None => None
        case Some(it) => Some(cur[n - 1 := it])
  }

  /** `_validate_prices`. */
  function Validated(items: seq<Item>, groups: seq<Group>, baseName: string -> string): Option<seq<Item>> {
    match Averages(items)
    case None => None
    case Some(avg) => FixUpTo(items, groups, avg, baseName, |items|)
  }

  lemma {:induction false} FixUpToStaysNone(items: seq<Item>, groups: seq<Group>, avg: map<Option<string>, real>,
                                            baseName: string -> string, n: nat, m: nat)
    requires n <= m <= |items| && FixUpTo(items, groups, avg, baseName, n).None?
    ensures FixUpTo(items, groups, avg, baseName, m).None?
    decreases m
  {
    if m > n {
      FixUpToStaysNone(items, groups, avg, baseName, n, m - 1);
      assert FixUpTo(items, groups, avg, baseName, m - 1).None?;
    }
  }

  /** One turn of the fix loop. */
  method FixPrice(items: array<Item>, i: nat, groups: seq<Group>, avg: map<Option<string>, real>,
                  baseName: string -> string) returns (ok: bool)
    requires i < items.Length
    modifies items
    ensures ok == FixItem(old(items[..]), i, groups, avg, baseName).Some?
    ensures ok ==> items[..] == old(items[..])[i := FixItem(old(items[..]), i, groups, avg, baseName).value]
  {
    var it := items[i];
    if it.price.PNull? || it.price.PAbsent? {
      it := it.(price := PNum(0.0));
      items[i] := it;
    }
    assert items[..] == old(items[..])[i := it];
    if it.price.PText? {
      return false;
    }
    if it.price.value <= 0.0 {
      if !it.name.Val? {
        return false;
      }
      var g := FindGroup(groups, baseName(it.name.value));
      if g.Some? {
        var valid := ValidPrices(items[..], g.value.members);
        if valid.None? {
          return false;
        }
        if valid.value != [] {
          items[i] := it.(price := PNum(MaxOf(valid.value)), priceInferred := true);
          return true;
        }
      }
      var c := CategoryKey(it);
      if c in avg {
        items[i] := it.(price := PNum(RoundHalfEven(avg[c]) as real), priceInferred := true);
      } else {
        items[i] := it.(requiresPriceReview := true);
      }
    }
    return true;
  }

  method ValidatePrices(items: array<Item>, groups: seq<Group>, baseName: string -> string) returns (ok: bool)
    modifies items
    ensures ok == Validated(old(items[..]), groups, baseName).Some?
    ensures ok ==> items[..] == Validated(old(items[..]), groups, baseName).value
  {
    var averages := CategoryAverages(items);
    if averages.None? {
      return false;
    }
    var avg := averages.value;
    for i := 0 to items.Length
      invariant FixUpTo(old(items[..]), groups, avg, baseName, i) == Some(items[..])
    {
      var fixed := FixPrice(items, i, groups, avg, baseName);
      if !fixed {
        FixUpToStaysNone(old(items[..]), groups, avg, baseName, i + 1, items.Length);
        return false;
      }
    }
    return true;
  }

  /** What checking one price did to the record `x` of item `orig`: the price is
      a number afterwards (a string price raises); nothing for a positive price; otherwise only the price and the flags change, the price
      becomes a number, and the item is marked inferred (with a positive price
      from its group, or the rounded average of its category) or flagged for
      review with its non-positive price when its category has no average. */
  predicate PriceFixed(orig: Item, x: Item, avg: map<Option<string>, real>) {
    x.price.PNum?
    && (!Suspicious(orig.price) ==> x == orig)
    && (Suspicious(orig.price) ==>
          x == orig.(price := x.price, priceInferred := x.priceInferred, requiresPriceReview := x.requiresPriceReview)
          && x.price.PNum?
          && ((x.priceInferred && (x.price.value > 0.0
                                   || (CategoryKey(orig) in avg
                                       && x.price.value == RoundHalfEven(avg[CategoryKey(orig)]) as real)))
              || (x.requiresPriceReview && x.price.value <= 0.0 && CategoryKey(orig) !in avg)))
  }

  lemma FixItemFacts(cur: seq<Item>, i: nat, groups: seq<Group>, avg: map<Option<string>, real>,
                     baseName: string -> string)
    requires i < |cur| && FixItem(cur, i, groups, avg, baseName).Some?
    ensures PriceFixed(cur[i], FixItem(cur, i, groups, avg, baseName).value, avg)
  {
    var it := cur[i];
    var it1 := if it.price.PNull? || it.price.PAbsent? then it.(price := PNum(0.0)) else it;
    if Suspicious(it.price) && it1.name.Val? {
      var vs := match FindGroup(groups, baseName(it1.name.value))
                case None => Some([])
                case Some(g) => ValidPrices(cur[i := it1], g.members);
      if vs.Some? && vs.value != [] {
        assert MaxOf(vs.value) in vs.value;
      }
    }
  }

  /** After the first `n` turns of the fix loop, each of those items was fixed
      once, from its own record, and the rest are as given. */
  lemma {:induction false} FixUpToFacts(items: seq<Item>, groups: seq<Group>, avg: map<Option<string>, real>,
                                        baseName: string -> string, n: nat)
    requires n <= |items| && FixUpTo(items, groups, avg, baseName, n).Some?
    ensures var r := FixUpTo(items, groups, avg, baseName, n).value;
      (forall i :: 0 <= i < n ==> PriceFixed(items[i], r[i], avg))
      && (forall i :: n <= i < |items| ==> r[i] == items[i])
  {
    if n > 0 {
      FixUpToFacts(items, groups, avg, baseName, n - 1);
      var cur := FixUpTo(items, groups, avg, baseName, n - 1).value;
      FixItemFacts(cur, n - 1, groups, avg, baseName);
    }
  }

  /** What the source promises of `_validate_prices`: every price ends up a
      number (a string price raises); a positive price is left alone; every other price ends up a number and the item is marked
      `price_inferred` or `requires_price_review`; names, sizes and the rest of
      each record are kept. */
  lemma ValidatedFacts(items: seq<Item>, groups: seq<Group>, baseName: string -> string)
    requires Validated(items, groups, baseName).Some?
    ensures var r := Validated(items, groups, baseName).value;
      |r| == |items|
      && (forall i :: 0 <= i < |items| ==> r[i].price.PNum?)
      && (forall i :: 0 <= i < |items| && items[i].price.PNum? && items[i].price.value > 0.0 ==> r[i] == items[i])
      && (forall i :: 0 <= i < |items| && Suspicious(items[i].price) ==>
            r[i].price.PNum? && (r[i].priceInferred || r[i].requiresPriceReview)
            && r[i] == items[i].(price := r[i].price, priceInferred := r[i].priceInferred,
                                 requiresPriceReview := r[i].requiresPriceReview))
  {
    var avg := Averages(items).value;
    FixUpToFacts(items, groups, avg, baseName, |items|);
    var r := Validated(items, groups, baseName).value;
    assert forall i :: 0 <= i < |items| ==> PriceFixed(items[i], r[i], avg);
  }

  /** The average of a lone counted number is that number. */
  lemma AverageOfOne(it: Item)
    requires it.price.PNum? && it.price.value != 0.0
    ensures Averages([it]) == Some(map[CategoryKey(it) := it.price.value])
  {
    var items := [it];
    var c := CategoryKey(it);
    var m := CategoryPrices(items, 1);
    LonePrices(it);
    MeanOfOne(it.price);
    assert !HasText(m[c]);
    var avg := map c' | c' in m :: Mean(m[c']);
    assert forall k :: k in avg <==> k == c;
    assert avg[c] == it.price.value;
    assert avg == map[c := it.price.value];
  }

  lemma LonePrices(it: Item)
    requires it.price.PNum? && it.price.value != 0.0
    ensures CategoryPrices([it], 1) == map[CategoryKey(it) := [it.price]]
  {
    assert CategoryPrices([it], 0) == map[];
    assert [] + [it.price] == [it.price];
  }

  lemma MeanOfOne(p: Price)
    requires p.PNum?
    ensures Mean([p]) == p.value
  {
    assert [p][..0] == [];
    assert SumOf([p]) == SumOf([]) + p.value;
    assert |[p]| as real == 1.0;
  }

  /** Averages count negative prices too, and the item being fixed is one of them:
      a lone item with a negative price and a name is "inferred" at its own price
      rounded, which is still not positive, and is not flagged for review. */
  lemma LoneNegativePrice(it: Item, baseName: string -> string)
    requires it.price.PNum? && it.price.value < 0.0 && it.name.Val? && !it.requiresPriceReview
    ensures Validated([it], [], baseName).Some?
    ensures var r := Validated([it], [], baseName).value;
      |r| == 1 && r[0].priceInferred && !r[0].requiresPriceReview && r[0].price.PNum? && r[0].price.value <= 0.0
  {
    var items := [it];
    AverageOfOne(it);
    var avg := map[CategoryKey(it) := it.price.value];
    var x := it.(price := PNum(RoundHalfEven(it.price.value) as real), priceInferred := true);
    assert FixItem(items, 0, [], avg, baseName) == Some(x);
    assert FixUpTo(items, [], avg, baseName, 1) == Some(items[0 := x]);
  }

  // ------------------------------------------------------------ the whole pass

  /** `_separate_name_description` over the list. */
  function SeparatedAll(items: seq<Item>): (r: seq<Item>)
    ensures |r| == |items| && forall i :: 0 <= i < |items| ==> r[i] == Separated(items[i])
  {
    seq(|items|, i requires 0 <= i < |items| => Separated(items[i]))
  }

  /** The size indicators `_assign_sizes` uses: the menu text is only searched
      when there is a group to size. */
  function GroupIndicators(groups: seq<Group>, menuText: string, pats: SizePatterns): seq<string> {
    if groups == [] then [] else Indicators(menuText, pats)
  }

  /** `process_items`: the four steps in order, the groups found after the names
      are split serving both sizing and validation; None when a step raises. */
  function Processed(items: seq<Item>, menuText: string, pats: SizePatterns,
                     baseName: string -> string): Option<seq<Item>>
  {
    if items == [] then Some([])
    else
      var sep := SeparatedAll(items);
      var groups := Groups(sep, baseName);
      match SizeGroups(sep, groups, GroupIndicators(groups, menuText, pats), |groups|)
      case None => None
      case Some(sized) => Validated(sized, groups, baseName)
  }

  method ProcessItems(items: array<Item>, menuText: string, pats: SizePatterns,
                      baseName: string -> string) returns (ok: bool)
    modifies items
    ensures ok == Processed(old(items[..]), menuText, pats, baseName).Some?
    ensures ok ==> items[..] == Processed(old(items[..]), menuText, pats, baseName).value
  {
    if items.Length == 0 {
      return true;
    }
    SeparateNameDescription(items);
    assert items[..] == SeparatedAll(old(items[..]));
    var groups := GroupByBaseName(items, baseName);
    var indicators: seq<string> := [];
    if groups != [] {
      indicators := ExtractSizeIndicators(menuText, pats);
    }
    ok := AssignSizes(items, groups, indicators);
    if ok {
      ok := ValidatePrices(items, groups, baseName);
    }
  }

  /** Only the prices and the review flags differ. */
  predicate SameLabels(items: seq<Item>, r: seq<Item>) {
    |r| == |items|
    && forall i :: 0 <= i < |r| ==>
         r[i].name == items[i].name && r[i].description == items[i].description && r[i].size == items[i].size
  }

  lemma ValidatedLabels(items: seq<Item>, groups: seq<Group>, baseName: string -> string)
    requires Validated(items, groups, baseName).Some?
    ensures var r := Validated(items, groups, baseName).value;
      SameLabels(items, r) && forall i :: 0 <= i < |r| ==> r[i].price.PNum?
  {
    var avg := Averages(items).value;
    FixUpToFacts(items, groups, avg, baseName, |items|);
    var r := Validated(items, groups, baseName).value;
    forall i | 0 <= i < |r|
      ensures r[i].name == items[i].name && r[i].description == items[i].description && r[i].size == items[i].size
    {
      assert PriceFixed(items[i], r[i], avg);
    }
  }

  lemma SizedKept(items: seq<Item>, sized: seq<Item>, r: seq<Item>, g: Group, indicators: seq<string>)
    requires GroupSized(items, sized, g, indicators) && SameLabels(sized, r)
    ensures GroupSized(items, r, g, indicators)
  {
  }

  /** What the pass as a whole promises: one record per item; every price a
      number; names and descriptions as split; the sizes given by sizing, so a
      grouped item carries the size of its price rank in its group and any other
      item keeps its size. */
  lemma ProcessFacts(items: seq<Item>, menuText: string, pats: SizePatterns, baseName: string -> string)
    requires Processed(items, menuText, pats, baseName).Some?
    ensures var r := Processed(items, menuText, pats, baseName).value;
      var sep := SeparatedAll(items);
      var groups := Groups(sep, baseName);
      |r| == |items|
      && (forall i :: 0 <= i < |items| ==>
            (r[i].price.PNum? && r[i].name == sep[i].name && r[i].description == sep[i].description))
      && (forall j :: 0 <= j < |groups| ==>
            GroupSized(sep, r, groups[j], GroupIndicators(groups, menuText, pats)))
      && (forall i :: 0 <= i < |items| && !InGroups(groups, |groups|, i) ==> r[i].size == items[i].size)
  {
    if items != [] {
      var sep := SeparatedAll(items);
      var groups := Groups(sep, baseName);
      var ind := GroupIndicators(groups, menuText, pats);
      var sized := SizeGroups(sep, groups, ind, |groups|).value;
      var r := Validated(sized, groups, baseName).value;
      GroupsDisjoint(sep, baseName);
      SizeGroupsFacts(sep, groups, ind, |groups|);
      ValidatedLabels(sized, groups, baseName);
      forall j | 0 <= j < |groups|
        ensures GroupSized(sep, r, groups[j], ind)
      {
        SizedKept(sep, sized, r, groups[j], ind);
      }
    }
  }
}
