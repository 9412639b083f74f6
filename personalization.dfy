/** Rule-based personalisation of the main backend: a user profile built from the
    stored preferences, favourites and past orders; an additive boost and a hard
    suitability filter per menu item; and the two ways of turning the 30 nearest
    items into recommendations (the best `k`, or all above a threshold). The
    embedding model and the repositories are parameters. */
module Personalization {
  import opened Util
  import opened Sorting

  /** A user's stored preferences. A list attribute that is None or empty is
      falsy; it is an empty sequence here. */
  datatype Prefs = Prefs(
    preferredCuisines: seq<string>,
    dietaryRestrictions: seq<string>,
    spiceTolerance: Option<string>,
    allergies: seq<string>)

  /** A menu item as the repository returns it; `meta` is its JSON object with the
      string-valued keys that are read ("cuisine", "spice_level"). */
  datatype MenuItem = MenuItem(
    id: string, name: Option<string>, meta: map<string, string>,
    tags: seq<string>, allergens: seq<string>)

  /** One past order: the `name` of each entry of `meta["items"]` (None when the
      entry has no name). A missing meta or items list is an empty sequence. */
  datatype Order = Order(itemNames: seq<Option<string>>)

  datatype Profile = Profile(prefs: Option<Prefs>, favorites: set<string>, ordered: set<string>)

  /** `any(x in b for x in a)`. */
  predicate Overlaps(a: seq<string>, b: seq<string>) {
    exists i :: 0 <= i < |a| && a[i] in b
  }

  // ------------------------------------------------------------ the profile

  /** The lower-cased names of the named entries of `lines`. */
  function LineNames(lines: seq<Option<string>>): set<string> {
    if lines == [] then {}
    else
      var last := lines[|lines| - 1];
      LineNames(lines[..|lines| - 1]) + (if last.Some? && last.value != "" then {Lower(last.value)} else {})
  }

  /** `ordered_names`: the lower-cased names of every named entry of every order. */
  function OrderedNames(orders: seq<Order>): set<string> {
    if orders == [] then {}
    else OrderedNames(orders[..|orders| - 1]) + LineNames(orders[|orders| - 1].itemNames)
  }

  predicate NameOrdered(mi: MenuItem, names: set<string>) {
    mi.name.Some? && mi.name.value != "" && Lower(mi.name.value) in names
  }

  /** The ids of the menu items whose lower-cased name is among `names`. */
  function MatchingIds(menu: seq<MenuItem>, names: set<string>): set<string> {
    if menu == [] then {}
    else MatchingIds(menu[..|menu| - 1], names) + (if NameOrdered(menu[|menu| - 1], names) then {menu[|menu| - 1].id} else {})
  }

  predicate NamedLine(line: Option<string>, x: string) {
    line.Some? && line.value != "" && Lower(line.value) == x
  }

  lemma {:induction false} LineNamesSpec(lines: seq<Option<string>>, x: string)
    ensures x in LineNames(lines) <==> exists j :: 0 <= j < |lines| && NamedLine(lines[j], x)
  {
    if lines != [] {
      var init := lines[..|lines| - 1];
      assert forall j :: 0 <= j < |init| ==> init[j] == lines[j];
      LineNamesSpec(init, x);
    }
  }

  lemma {:induction false} OrderedNamesSpec(orders: seq<Order>, x: string)
    ensures x in OrderedNames(orders) <==> exists i :: 0 <= i < |orders| && x in LineNames(orders[i].itemNames)
  {
    if orders != [] {
      var init := orders[..|orders| - 1];
      assert forall i :: 0 <= i < |init| ==> init[i] == orders[i];
      OrderedNamesSpec(init, x);
    }
  }

  lemma {:induction false} MatchingIdsSpec(menu: seq<MenuItem>, names: set<string>, x: string)
    ensures x in MatchingIds(menu, names) <==> exists i :: 0 <= i < |menu| && NameOrdered(menu[i], names) && menu[i].id == x
  {
    if menu != [] {
      var init := menu[..|menu| - 1];
      assert forall i :: 0 <= i < |init| ==> init[i] == menu[i];
      MatchingIdsSpec(init, names, x);
    }
  }

  /** What `get_user_profile` returns for the given repository contents: the first
      stored preferences, the favourite item ids, and the ids of the menu items
      ordered before. */
  function UserProfile(prefsList: seq<Prefs>, favorites: seq<string>, orders: seq<Order>,
                       menu: seq<MenuItem>): Profile
  {
    var names := OrderedNames(orders);
    Profile(if prefsList == [] then None else Some(prefsList[0]),
            set i | 0 <= i < |favorites| :: favorites[i],
            if names == {} then {} else MatchingIds(menu, names))
  }

  method CollectLineNames(lines: seq<Option<string>>) returns (names: set<string>)
    ensures names == LineNames(lines)
  {
    names := {};
    for j := 0 to |lines|
      invariant names == LineNames(lines[..j])
    {
      assert lines[..j + 1][..j] == lines[..j];
      if lines[j].Some? && lines[j].value != "" {
        names := names + {Lower(lines[j].value)};
      }
    }
    assert lines[..|lines|] == lines;
  }

  method CollectOrderedNames(orders: seq<Order>) returns (names: set<string>)
    ensures names == OrderedNames(orders)
  {
    names := {};
    for i := 0 to |orders|
      invariant names == OrderedNames(orders[..i])
    {
      assert orders[..i + 1][..i] == orders[..i];
      var here := CollectLineNames(orders[i].itemNames);
      names := names + here;
    }
    assert orders[..|orders|] == orders;
  }

  method CollectMatchingIds(menu: seq<MenuItem>, names: set<string>) returns (ids: set<string>)
    ensures ids == MatchingIds(menu, names)
  {
    ids := {};
    for i := 0 to |menu|
      invariant ids == MatchingIds(menu[..i], names)
    {
      assert menu[..i + 1][..i] == menu[..i];
      if menu[i].name.Some? && menu[i].name.value != "" && Lower(menu[i].name.value) in names {
        ids := ids + {menu[i].id};
      }
    }
    assert menu[..|menu|] == menu;
  }

  method GetUserProfile(prefsList: seq<Prefs>, favorites: seq<string>, orders: seq<Order>,
                        menu: seq<MenuItem>) returns (p: Profile)
    ensures p == UserProfile(prefsList, favorites, orders, menu)
  {
    var names := CollectOrderedNames(orders);
    var ordered: set<string> := {};
    if names != {} {
      ordered := CollectMatchingIds(menu, names);
    }
    p := Profile(if prefsList == [] then None else Some(prefsList[0]),
                 set i | 0 <= i < |favorites| :: favorites[i], ordered);
  }

  /** Some past order has an entry whose lower-cased name is `x`. */
  predicate OrderedName(orders: seq<Order>, x: string) {
    exists o, j :: 0 <= o < |orders| && 0 <= j < |orders[o].itemNames| && NamedLine(orders[o].itemNames[j], x)
  }

  lemma OrderedNamesExactly(orders: seq<Order>, x: string)
    ensures x in OrderedNames(orders) <==> OrderedName(orders, x)
  {
    OrderedNamesSpec(orders, x);
    if x in OrderedNames(orders) {
      var o :| 0 <= o < |orders| && x in LineNames(orders[o].itemNames);
      LineNamesSpec(orders[o].itemNames, x);
    }
    if OrderedName(orders, x) {
      var o, j :| 0 <= o < |orders| && 0 <= j < |orders[o].itemNames| && NamedLine(orders[o].itemNames[j], x);
      LineNamesSpec(orders[o].itemNames, x);
    }
  }

  /** The profile's ordered ids are exactly the ids of the named menu items whose
      lower-cased name is the lower-cased name of an entry of some past order. */
  lemma OrderedExactly(prefsList: seq<Prefs>, favorites: seq<string>, orders: seq<Order>,
                       menu: seq<MenuItem>, x: string)
    ensures x in UserProfile(prefsList, favorites, orders, menu).ordered <==>
      exists i :: 0 <= i < |menu| && menu[i].id == x && menu[i].name.Some? && menu[i].name.value != ""
        && OrderedName(orders, Lower(menu[i].name.value))
  {
    var names := OrderedNames(orders);
    MatchingIdsSpec(menu, names, x);
    forall i | 0 <= i < |menu| && menu[i].name.Some? && menu[i].name.value != ""
      ensures NameOrdered(menu[i], names) <==> OrderedName(orders, Lower(menu[i].name.value))
    {
      OrderedNamesExactly(orders, Lower(menu[i].name.value));
    }
    if names == {} {
      forall i | 0 <= i < |menu| && menu[i].name.Some? && menu[i].name.value != ""
        ensures !OrderedName(orders, Lower(menu[i].name.value))
      {
        OrderedNamesExactly(orders, Lower(menu[i].name.value));
      }
    }
  }

  // ------------------------------------------------------------ boost and filter

  predicate CuisineMatch(mi: MenuItem, p: Prefs) {
    p.preferredCuisines != [] && "cuisine" in mi.meta && mi.meta["cuisine"] in p.preferredCuisines
  }

  predicate SpiceMatch(mi: MenuItem, p: Prefs) {
    p.spiceTolerance.Some? && p.spiceTolerance.value != ""
    && "spice_level" in mi.meta && mi.meta["spice_level"] == p.spiceTolerance.value
  }

  /** The weight a rule adds when it applies. */
  function Weight(applies: bool, w: real): real {
    if applies then w else 0.0
  }

  /** The personalisation boost: the sum of the weights of the rules that apply,
      and nothing at all for a user without stored preferences. */
  function Boost(mi: MenuItem, profile: Profile): real {
    match profile.prefs
    case None => 0.0
    case Some(p) =>
      Weight(CuisineMatch(mi, p), 0.2)
      + Weight(Overlaps(p.dietaryRestrictions, mi.tags), 0.1)
      + Weight(SpiceMatch(mi, p), 0.1)
      + Weight(mi.id in profile.favorites, 0.3)
      + Weight(mi.id in profile.ordered, 0.1)
  }

  /** `compute_boost`, accumulating one rule at a time. */
  method ComputeBoost(mi: MenuItem, profile: Profile) returns (boost: real)
    ensures boost == Boost(mi, profile)
    ensures 0.0 <= boost <= 0.8
  {
    boost := 0.0;
    if profile.prefs.None? {
      return;
    }
    var p := profile.prefs.value;
    if p.preferredCuisines != [] && "cuisine" in mi.meta && mi.meta["cuisine"] in p.preferredCuisines {
      boost := boost + 0.2;
    }
    if p.dietaryRestrictions != [] && mi.tags != [] {
      if Overlaps(p.dietaryRestrictions, mi.tags) {
        boost := boost + 0.1;
      }
    }
    if p.spiceTolerance.Some? && p.spiceTolerance.value != ""
       && "spice_level" in mi.meta && mi.meta["spice_level"] == p.spiceTolerance.value
    {
      boost := boost + 0.1;
    }
    if mi.id in profile.favorites {
      boost := boost + 0.3;
    }
    if mi.id in profile.ordered {
      boost := boost + 0.1;
    }
  }

  /** `is_suitable`: without preferences every item is; otherwise an item is
      unless one of the user's allergies is among its allergens or one of their
      dietary restrictions is among its tags. */
  function Suitable(mi: MenuItem, profile: Profile): (r: bool)
    ensures profile.prefs.None? ==> r
    ensures profile.prefs.Some? ==>
      (r <==> (forall a :: a in profile.prefs.value.allergies ==> a !in mi.allergens)
              && (forall d :: d in profile.prefs.value.dietaryRestrictions ==> d !in mi.tags))
  {
    match profile.prefs
    case None => true
    case Some(p) => !Overlaps(p.allergies, mi.allergens) && !Overlaps(p.dietaryRestrictions, mi.tags)
  }

  /** The boost lies in [0, 0.8]; without preferences it is 0, favourites and past
      orders notwithstanding. */
  lemma BoostBounds(mi: MenuItem, profile: Profile)
    ensures 0.0 <= Boost(mi, profile) <= 0.8
    ensures profile.prefs.None? ==> Boost(mi, profile) == 0.0
  {
  }

  /** The dietary-restriction rule is dead for every item that survives the
      filter: a suitable item's boost never includes it, so it is at most 0.7. */
  lemma SuitableBoostSkipsRestrictions(mi: MenuItem, profile: Profile)
    requires Suitable(mi, profile)
    ensures profile.prefs.Some? ==> !Overlaps(profile.prefs.value.dietaryRestrictions, mi.tags)
    ensures Boost(mi, profile) <= 0.7
  {
  }

  // ------------------------------------------------------------ resolution

  /** How many nearest items both resolvers start from. */
  const Nearest: int := 30

  datatype Scored = Scored(id: string, score: real)

  function ScoreOf(s: Scored): real {
    s.score
  }

  /** `scored_items`: the nearest items that have details and are suitable, each
      scored by similarity plus boost, in the order they were found. */
  function Candidates(nearest: seq<(string, real)>, details: map<string, MenuItem>,
                      profile: Profile): seq<Scored>
  {
    if nearest == [] then []
    else
      var rest := Candidates(nearest[..|nearest| - 1], details, profile);
      var (mid, sim) := nearest[|nearest| - 1];
      if mid in details && Suitable(details[mid], profile) then
        rest + [Scored(mid, sim + Boost(details[mid], profile))]
      else rest
  }

  /** The loop the two resolvers share. */
  method ScoreCandidates(nearest: seq<(string, real)>, details: map<string, MenuItem>,
                         profile: Profile) returns (scored: seq<Scored>)
    ensures scored == Candidates(nearest, details, profile)
  {
    scored := [];
    for i := 0 to |nearest|
      invariant scored == Candidates(nearest[..i], details, profile)
    {
      assert nearest[..i + 1][..i] == nearest[..i];
      var (mid, sim) := nearest[i];
      if mid !in details || !Suitable(details[mid], profile) {
        continue;
      }
      var boost := ComputeBoost(details[mid], profile);
      scored := scored + [Scored(mid, sim + boost)];
    }
    assert nearest[..|nearest|] == nearest;
  }

  /** `{str(mid): float(score) for mid, score in items}`: a later entry for an id
      overrides an earlier one. */
  function Confidences(items: seq<Scored>): (m: map<string, real>)
    ensures forall x :: x in m <==> exists i :: 0 <= i < |items| && items[i].id == x
  {
    if items == [] then map[]
    else
      var init := items[..|items| - 1];
      assert forall i :: 0 <= i < |init| ==> init[i] == items[i];
      Confidences(init)[items[|items| - 1].id := items[|items| - 1].score]
  }

  function IdList(items: seq<Scored>): (r: seq<string>)
    ensures |r| == |items| && forall i :: 0 <= i < |items| ==> r[i] == items[i].id
  {
    seq(|items|, i requires 0 <= i < |items| => items[i].id)
  }

  /** What a resolver returns: the ids in rank order and their scores. */
  datatype Resolution = Resolution(ids: seq<string>, confidences: map<string, real>, threshold: Option<real>)

  const MethodName: string := "embedding_similarity+personalization"

  /** `resolve_query_gemini_top_k`: the best `k` suitable items, highest score
      first (`sort` is stable, so equal scores keep the search order). */
  function TopK(query: string, k: int, embed: string -> seq<real>,
                nearest: (seq<real>, int) -> seq<(string, real)>,
                details: map<string, MenuItem>, profile: Profile): seq<Scored>
  {
    PyPrefix(SortDesc(Candidates(nearest(embed(query), Nearest), details, profile), ScoreOf), k)
  }

  /** `resolve_query_gemini_threshold`: every suitable item scoring at least the
      threshold, highest score first, with no truncation. */
  function AboveThreshold(query: string, threshold: real, embed: string -> seq<real>,
                          nearest: (seq<real>, int) -> seq<(string, real)>,
                          details: map<string, MenuItem>, profile: Profile): seq<Scored>
  {
    var c := Candidates(nearest(embed(query), Nearest), details, profile);
    SortDesc(KeepAtLeast(c, threshold), ScoreOf)
  }

  function KeepAtLeast(items: seq<Scored>, threshold: real): (r: seq<Scored>)
    ensures forall i :: 0 <= i < |r| ==> r[i].score >= threshold
    ensures multiset(r) <= multiset(items)
  {
    if items == [] then []
    else
      var init := items[..|items| - 1];
      assert items == init + [items[|items| - 1]];
      var rest := KeepAtLeast(init, threshold);
      if items[|items| - 1].score >= threshold then rest + [items[|items| - 1]] else rest
  }

  method ResolveTopK(query: string, k: int, embed: string -> seq<real>,
                     nearest: (seq<real>, int) -> seq<(string, real)>,
                     details: map<string, MenuItem>, profile: Profile) returns (r: Resolution)
    ensures var top := TopK(query, k, embed, nearest, details, profile);
      r == Resolution(IdList(top), Confidences(top), None)
  {
    var found := nearest(embed(query), Nearest);
    var scored := ScoreCandidates(found, details, profile);
    var sorted := SortDesc(scored, ScoreOf);
    var top := PyPrefix(sorted, k);
    r := Resolution(IdList(top), Confidences(top), None);
  }

  method ResolveThreshold(query: string, threshold: real, embed: string -> seq<real>,
                          nearest: (seq<real>, int) -> seq<(string, real)>,
                          details: map<string, MenuItem>, profile: Profile) returns (r: Resolution)
    ensures var kept := AboveThreshold(query, threshold, embed, nearest, details, profile);
      r == Resolution(IdList(kept), Confidences(kept), Some(threshold))
  {
    var found := nearest(embed(query), Nearest);
    var scored := ScoreCandidates(found, details, profile);
    var filtered := FilterAtLeast(scored, threshold);
    var sorted := SortDesc(filtered, ScoreOf);
    r := Resolution(IdList(sorted), Confidences(sorted), Some(threshold));
  }

  /** The threshold filter: the items scoring at least `threshold`, in order. */
  method FilterAtLeast(scored: seq<Scored>, threshold: real) returns (filtered: seq<Scored>)
    ensures filtered == KeepAtLeast(scored, threshold)
  {
    filtered := [];
    for i := 0 to |scored|
      invariant filtered == KeepAtLeast(scored[..i], threshold)
    {
      assert scored[..i + 1][..i] == scored[..i];
      if scored[i].score >= threshold {
        filtered := filtered + [scored[i]];
      }
    }
    assert scored[..|scored|] == scored;
  }

  // ------------------------------------------------------------ properties

  /** A candidate is exactly a nearest item that has details and passes the
      filter, scored by its similarity plus its boost. */
  lemma {:induction false} CandidatesExactly(nearest: seq<(string, real)>, details: map<string, MenuItem>,
                                             profile: Profile)
    ensures forall c :: c in Candidates(nearest, details, profile) <==>
      exists i :: 0 <= i < |nearest| && nearest[i].0 == c.id && c.id in details
        && Suitable(details[c.id], profile) && c.score == nearest[i].1 + Boost(details[c.id], profile)
    ensures |Candidates(nearest, details, profile)| <= |nearest|
  {
    if nearest != [] {
      var init := nearest[..|nearest| - 1];
      assert forall i :: 0 <= i < |init| ==> init[i] == nearest[i];
      CandidatesExactly(init, details, profile);
    }
  }

  /** The top-k list holds at most `k` items, best first, each of them a candidate,
      and no candidate left out scores above one kept. */
  lemma TopKShape(query: string, k: int, embed: string -> seq<real>,
                  nearest: (seq<real>, int) -> seq<(string, real)>,
                  details: map<string, MenuItem>, profile: Profile)
    ensures var c := Candidates(nearest(embed(query), Nearest), details, profile);
      var top := TopK(query, k, embed, nearest, details, profile);
      var sorted := SortDesc(c, ScoreOf);
      (k >= 0 ==> |top| <= k) && SortedDesc(top, ScoreOf) && multiset(top) <= multiset(c)
      && top == sorted[..|top|]
      && forall i, j :: 0 <= i < |top| <= j < |sorted| ==> top[i].score >= sorted[j].score
  {
    var c := Candidates(nearest(embed(query), Nearest), details, profile);
    var sorted := SortDesc(c, ScoreOf);
    var top := TopK(query, k, embed, nearest, details, profile);
    SortDescSorted(c, ScoreOf);
    SortDescPermutation(c, ScoreOf);
    assert top == sorted[..|top|];
    SortedPrefix(sorted, ScoreOf, |top|);
  }

  /** The threshold list holds exactly the candidates scoring at least the
      threshold, best first. */
  lemma ThresholdShape(query: string, threshold: real, embed: string -> seq<real>,
                       nearest: (seq<real>, int) -> seq<(string, real)>,
                       details: map<string, MenuItem>, profile: Profile)
    ensures var c := Candidates(nearest(embed(query), Nearest), details, profile);
      var kept := AboveThreshold(query, threshold, embed, nearest, details, profile);
      SortedDesc(kept, ScoreOf) && multiset(kept) == multiset(KeepAtLeast(c, threshold))
      && (forall x :: x in kept ==> x.score >= threshold && x in c)
      && (forall x :: x in c && x.score >= threshold ==> x in kept)
  {
    var c := Candidates(nearest(embed(query), Nearest), details, profile);
    var f := KeepAtLeast(c, threshold);
    var kept := SortDesc(f, ScoreOf);
    SortDescSorted(f, ScoreOf);
    SortDescPermutation(f, ScoreOf);
    forall x | x in kept ensures x.score >= threshold && x in c {
      assert x in multiset(kept);
      assert x in multiset(f);
      var i :| 0 <= i < |f| && f[i] == x;
      assert x in multiset(c);
    }
    forall x | x in c && x.score >= threshold ensures x in kept {
      KeepAtLeastKeeps(c, threshold, x);
      assert x in multiset(kept);
    }
  }

  lemma {:induction false} KeepAtLeastKeeps(items: seq<Scored>, threshold: real, x: Scored)
    requires x in items && x.score >= threshold
    ensures x in KeepAtLeast(items, threshold)
  {
    var init := items[..|items| - 1];
    if x != items[|items| - 1] {
      assert x in init by {
        var i :| 0 <= i < |items| && items[i] == x;
        assert init[i] == x;
      }
      KeepAtLeastKeeps(init, threshold, x);
    }
  }
}
