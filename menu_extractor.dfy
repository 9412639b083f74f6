/** `MenuItemExtractor` of the embedding service: the language model is asked for
    the items of a menu as a JSON array, each item is cleaned (name and
    description split, string prices turned into numbers, restaurant and size
    filled in), the list is post-processed, and a second, "emergency" request is
    made when the first yields nothing or fewer than half the items the menu
    seems to hold. The model is the oracle `ask(n, prompt)` for the n-th call,
    `json.loads` is `decode`, and the price-format search of the item estimate is
    `priceIn(pattern, line)`. */
module MenuExtractor {
  import opened Util
  import opened MenuAnalyzer
  import opened PostProcessor

  /** One element of the decoded JSON array: an object, or anything else. */
  datatype RawItem = Obj(fields: Item) | NotObject

  /** The two prompts: the one built from the detected price notation, and the
      emergency one of `_fallback_extraction`. */
  datatype Prompt = Structured(format: Format) | Emergency

  datatype Env = Env(
    ask: (nat, Prompt) -> Reply,
    decode: string -> Option<seq<RawItem>>,
    pats: Patterns,
    sizePats: SizePatterns,
    baseName: string -> string,
    priceIn: (string, string) -> bool)

  /** What `extract_items` returns: cleaned and post-processed items, or, when
      post-processing raised, the emergency extraction as the model gave it. */
  datatype Extraction = Cleaned(items: seq<Item>) | RawFallback(raw: seq<RawItem>)

  // ------------------------------------------------------------ the model's reply

  /** `_extract_json_from_response`: the span from the first `[` to the last `]`,
      decoded; no span, or text that does not decode, gives no items. */
  function JsonItems(response: string, decode: string -> Option<seq<RawItem>>): (r: seq<RawItem>)
    ensures r != [] ==> exists span :: BracketSpan(response) == Some(span) && decode(span) == Some(r)
    ensures BracketSpan(response).None? ==> r == []
    ensures forall span :: BracketSpan(response) == Some(span) && decode(span).None? ==> r == []
  {
    match BracketSpan(response)
    case None => []
    case Some(span) =>
      match decode(span)
      case None => []
      case Some(items) => items
  }

  /** `_call_llm`: an exception, or a reply without generations, gives no items. */
  function CallLlm(env: Env, n: nat, p: Prompt): (r: seq<RawItem>)
    ensures env.ask(n, p).Failure? ==> r == []
  {
    match env.ask(n, p)
    case Failure => []
    case Text(t) => JsonItems(t, env.decode)
  }

  // ------------------------------------------------------------ cleaning one item

  /** The characters `[^\d.]` does not remove. */
  predicate PriceChar(c: char) {
    IsDigit(c) || c == '.'
  }

  /** The price step of `_process_items`: a non-empty string keeps its digits and
      points and is parsed, an empty or unparsable result being 0; any other
      price is left as it is. */
  function CleanPrice(p: Price): (r: Price)
    ensures !p.PText? || p.text == "" ==> r == p
    ensures p.PText? && p.text != "" ==> r.PNum? && r.value >= 0.0
    ensures p.PText? && p.text != "" && Filter(p.text, PriceChar) == "" ==> r == PNum(0.0)
  {
    match p
    case PText(t) =>
      if t == "" then p
      else
        var digits := Filter(t, PriceChar);
        if digits == "" then PNum(0.0)
        else
          DigitsParse(digits);
          PNum(ParseFloat(digits).GetOr(0.0))
    case _ => p
  }

  /** A string of digits and points parses, if at all, to a non-negative number. */
  lemma DigitsParse(s: string)
    requires s != [] && forall i :: 0 <= i < |s| ==> PriceChar(s[i])
    ensures ParseFloat(s).Some? ==> ParseFloat(s).value >= 0.0
  {
    StripInside(s);
    var t := Strip(s);
    if t != [] {
      assert t[0] in s;
      assert t[0] != '-' && t[0] != '+';
    }
    assert ParseFloat(s) == ParseUnsigned(t);
  }

  /** The name, trimmed and without its trailing parenthetical. */
  function CleanName(name: string): string {
    match SplitParen(Strip(name))
    case None => Strip(name)
    case Some((n, _)) => n
  }

  /** The description: the parenthetical when there is one and the description
      is blank, then a missing or empty description becomes `""` and any other
      is trimmed. */
  function CleanDescription(name: string, d: Field<string>): Field<string> {
    var d1 := match SplitParen(Strip(name))
              case Some((_, inner)) => if BlankDescription(d) then Val(inner) else d
              case None => d;
    if TruthyStr(d1) then Val(Strip(d1.value)) else Val("")
  }

  /** `_process_items` on an item it keeps. */
  function CleanItem(it: Item, restaurantId: string): (r: Item)
    requires TruthyStr(it.name)
  {
    it.(name := Val(CleanName(it.name.value)),
        description := CleanDescription(it.name.value, it.description),
        price := CleanPrice(it.price),
        size := if it.size.Absent? then Val("") else it.size,
        restaurantId := Val(restaurantId))
  }

  /** Items `_process_items` keeps: objects with a non-empty name. */
  predicate Kept(x: RawItem) {
    x.Obj? && TruthyStr(x.fields.name)
  }

  /** `_process_items` over the whole list. */
  function CleanedItems(raw: seq<RawItem>, restaurantId: string): seq<Item> {
    if raw == [] then []
    else
      var last := raw[|raw| - 1];
      CleanedItems(raw[..|raw| - 1], restaurantId)
        + (if Kept(last) then [CleanItem(last.fields, restaurantId)] else [])
  }

  /** The steps of `_process_items` on one item it keeps, in the source's order. */
  method CleanOne(fields: Item, restaurantId: string) returns (it: Item)
    requires TruthyStr(fields.name)
    ensures it == CleanItem(fields, restaurantId)
  {
    it := fields.(restaurantId := Val(restaurantId));
    var name := Strip(it.name.value);
    var split := SplitParen(name);
    if split.Some? && BlankDescription(it.description) {
      it := it.(description := Val(split.value.1));
    }
    it := it.(name := Val(if split.Some? then split.value.0 else name));
    if !TruthyStr(it.description) {
      it := it.(description := Val(""));
    } else {
      it := it.(description := Val(Strip(it.description.value)));
    }
    it := it.(price := CleanPrice(it.price));
    if it.size.Absent? {
      it := it.(size := Val(""));
    }
  }

  method ProcessItems(raw: seq<RawItem>, restaurantId: string) returns (processed: seq<Item>)
    ensures processed == CleanedItems(raw, restaurantId)
  {
    processed := [];
    for i := 0 to |raw|
      invariant processed == CleanedItems(raw[..i], restaurantId)
    {
      var x := raw[i];
      if x.Obj? && TruthyStr(x.fields.name) {
        var it := CleanOne(x.fields, restaurantId);
        processed := processed + [it];
      }
      assert raw[..i + 1][..i] == raw[..i];
    }
    assert raw[..|raw|] == raw;
  }

  /** What cleaning promises of each kept item: it carries the restaurant id, a
      string description, a size, and no non-empty string price; a trailing
      parenthetical leaves the name, and becomes the description exactly when
      the description was blank. */
  lemma CleanItemFacts(it: Item, restaurantId: string)
    requires TruthyStr(it.name)
    ensures var r := CleanItem(it, restaurantId);
      var name := Strip(it.name.value);
      r.restaurantId == Val(restaurantId) && r.description.Val? && !r.size.Absent?
      && (r.price.PText? ==> r.price.text == "")
      && (it.price.PText? && it.price.text != "" ==> r.price.PNum? && r.price.value >= 0.0)
      && (SplitParen(name).Some? ==>
            r.name == Val(SplitParen(name).value.0) && |r.name.value| < |name|
            && (BlankDescription(it.description) ==> r.description == Val(Strip(SplitParen(name).value.1))))
      && (SplitParen(name).None? ==> r.name == Val(name))
      && (!BlankDescription(it.description) ==> r.description == Val(Strip(it.description.value)))
      && r == it.(name := r.name, description := r.description, price := r.price, size := r.size,
                  restaurantId := r.restaurantId)
  {
    var name := Strip(it.name.value);
    SplitParenFacts(name);
  }

  /** `x` is the cleaned form of a kept element of `raw`. */
  predicate CleanedFrom(raw: seq<RawItem>, x: Item, restaurantId: string) {
    exists i :: 0 <= i < |raw| && Kept(raw[i]) && x == CleanItem(raw[i].fields, restaurantId)
  }

  /** Every item that comes out is a kept element, cleaned. */
  lemma {:induction false} CleanedItemsSound(raw: seq<RawItem>, restaurantId: string)
    ensures var r := CleanedItems(raw, restaurantId);
      |r| <= |raw| && forall k :: 0 <= k < |r| ==> CleanedFrom(raw, r[k], restaurantId)
  {
    if raw != [] {
      var init := raw[..|raw| - 1];
      var last := raw[|raw| - 1];
      CleanedItemsSound(init, restaurantId);
      var r0 := CleanedItems(init, restaurantId);
      var tail := if Kept(last) then [CleanItem(last.fields, restaurantId)] else [];
      var r := r0 + tail;
      assert CleanedItems(raw, restaurantId) == r;
      forall k | 0 <= k < |r|
        ensures CleanedFrom(raw, r[k], restaurantId)
      {
        if k < |r0| {
          assert r[k] == r0[k];
          assert CleanedFrom(init, r0[k], restaurantId);
          var i :| 0 <= i < |init| && Kept(init[i]) && r0[k] == CleanItem(init[i].fields, restaurantId);
          assert raw[i] == init[i];
        } else {
          assert r[k] == CleanItem(raw[|raw| - 1].fields, restaurantId);
        }
      }
    }
  }

  /** Every kept element comes out, cleaned. */
  lemma {:induction false} CleanedItemsComplete(raw: seq<RawItem>, restaurantId: string)
    ensures forall i :: 0 <= i < |raw| && Kept(raw[i]) ==> CleanItem(raw[i].fields, restaurantId) in CleanedItems(raw, restaurantId)
  {
    if raw != [] {
      var init := raw[..|raw| - 1];
      var last := raw[|raw| - 1];
      CleanedItemsComplete(init, restaurantId);
      var r0 := CleanedItems(init, restaurantId);
      var tail := if Kept(last) then [CleanItem(last.fields, restaurantId)] else [];
      assert CleanedItems(raw, restaurantId) == r0 + tail;
      forall i | 0 <= i < |raw| && Kept(raw[i])
        ensures CleanItem(raw[i].fields, restaurantId) in r0 + tail
      {
        if i < |init| {
          assert raw[i] == init[i];
        }
      }
    }
  }

  /** A list without objects with a name cleans to nothing. */
  lemma {:induction false} NothingKept(raw: seq<RawItem>, restaurantId: string)
    requires forall i :: 0 <= i < |raw| ==> !Kept(raw[i])
    ensures CleanedItems(raw, restaurantId) == []
  {
    if raw != [] {
      NothingKept(raw[..|raw| - 1], restaurantId);
    }
  }

  // ------------------------------------------------------------ expected item count

  /** `_estimate_item_count`: the lines holding a price of the detected notation,
      scaled by 0.7 (rounded down) when more than one size column was found, and
      never below 10. */
  function EstimateItemCount(text: string, st: Structure, priceIn: (string, string) -> bool): (r: nat)
    ensures r >= 10
    ensures var c := PriceLines(text, st, priceIn);
      var scaled := if st.layout.hasSizeColumns && |st.layout.sizeColumns| > 1 then c * 7 / 10 else c;
      r >= scaled && (r == 10 || r == scaled)
  {
    var c := PriceLines(text, st, priceIn);
    var scaled := if st.layout.hasSizeColumns && |st.layout.sizeColumns| > 1 then c * 7 / 10 else c;
    if scaled < 10 then 10 else scaled
  }

  function PriceLines(text: string, st: Structure, priceIn: (string, string) -> bool): nat {
    CountWhere(Split(text, '\n'), PriceIn(st.priceFormat.pattern, priceIn))
  }

  function PriceIn(pattern: string, priceIn: (string, string) -> bool): string -> bool {
    line => priceIn(pattern, line)
  }

  /** Size columns only ever lower the estimate. */
  lemma EstimateWithColumns(text: string, st: Structure, priceIn: (string, string) -> bool)
    ensures EstimateItemCount(text, st, priceIn)
            <= EstimateItemCount(text, st.(layout := st.layout.(hasSizeColumns := false)), priceIn)
  {
  }

  // ------------------------------------------------------------ extraction

  /** A post-processed list of cleaned items, None when post-processing raises. */
  function Refined(raw: seq<RawItem>, text: string, restaurantId: string, env: Env): Option<seq<Item>> {
    Processed(CleanedItems(raw, restaurantId), text, env.sizePats, env.baseName)
  }

  /** The first extraction and the number of calls it took: the structured
      request, then the emergency one when it gave nothing. */
  function FirstAttempt(text: string, env: Env): (seq<RawItem>, nat) {
    var primary := CallLlm(env, 0, Structured(Analyze(text, env.pats).priceFormat.format));
    if primary == [] then (CallLlm(env, 1, Emergency), 2) else (primary, 1)
  }

  /** Below half the expected count. */
  predicate TooFew(n: nat, expected: nat) {
    (n as real) < (expected as real) * 0.5
  }

  /** `extract_items`. Without a model, or for blank text, nothing. Otherwise the
      first attempt is cleaned and post-processed; when that raises, the result is
      a fresh emergency extraction as given. When it holds too few items an
      emergency extraction is cleaned and processed too (its raising again leads
      to a raw one) and kept only if it holds more. */
  function Extracted(text: string, restaurantId: string, hasModel: bool, env: Env): Extraction {
    if !hasModel || Strip(text) == "" then Cleaned([])
    else
      var (raw, n) := FirstAttempt(text, env);
      match Refined(raw, text, restaurantId, env)
      case None => RawFallback(CallLlm(env, n, Emergency))
      case Some(items) =>
        var expected := EstimateItemCount(text, Analyze(text, env.pats), env.priceIn);
        Choose(items, expected, Refined(CallLlm(env, n, Emergency), text, restaurantId, env),
               CallLlm(env, n + 1, Emergency))
  }

  /** The quality check of `extract_items`, given the processed first attempt,
      the expected count, the processed emergency extraction (None when
      processing raised) and the raw extraction asked for then: the first
      attempt stands unless it holds fewer than half the expected items, and the
      emergency list replaces it only when it holds more; so the result never
      holds fewer items than the first attempt. */
  function Choose(items: seq<Item>, expected: nat, more: Option<seq<Item>>, raw: seq<RawItem>): (r: Extraction)
    ensures r.Cleaned? ==> |r.items| >= |items|
    ensures r.Cleaned? ==> r.items == items || (TooFew(|items|, expected) && more == Some(r.items) && |r.items| > |items|)
    ensures !TooFew(|items|, expected) ==> r == Cleaned(items)
    ensures r.RawFallback? <==> TooFew(|items|, expected) && more.None?
    ensures r.RawFallback? ==> r.raw == raw
  {
    if !TooFew(|items|, expected) then Cleaned(items)
    else
      match more
      case None => RawFallback(raw)
      case Some(m) => if |m| > |items| then Cleaned(m) else Cleaned(items)
  }

  /** No model, or blank text, yields no items and no request. */
  lemma NoModelOrBlank(text: string, restaurantId: string, hasModel: bool, env: Env)
    requires !hasModel || Strip(text) == ""
    ensures Extracted(text, restaurantId, hasModel, env) == Cleaned([])
  {
  }

  /** The first attempt is the structured request unless that gave nothing, and
      then the emergency request. */
  lemma FirstAttemptFacts(text: string, env: Env)
    ensures var (raw, n) := FirstAttempt(text, env);
      var primary := CallLlm(env, 0, Structured(Analyze(text, env.pats).priceFormat.format));
      (primary != [] ==> raw == primary && n == 1)
      && (primary == [] ==> raw == CallLlm(env, 1, Emergency) && n == 2)
  {
  }

  /** Fewer than half is twice the count below the estimate; the estimate is at
      least 10, so four items or fewer always send for the emergency request. */
  lemma TooFewExact(n: nat, expected: nat)
    requires expected >= 10
    ensures TooFew(n, expected) <==> 2 * n < expected
    ensures n <= 4 ==> TooFew(n, expected)
  {
  }

  /** When post-processing of the first attempt raises, the emergency request is
      returned as the model gave it, without cleaning. */
  lemma RaisingFallsBack(text: string, restaurantId: string, env: Env)
    requires Strip(text) != ""
    requires Refined(FirstAttempt(text, env).0, text, restaurantId, env).None?
    ensures Extracted(text, restaurantId, true, env)
            == RawFallback(CallLlm(env, FirstAttempt(text, env).1, Emergency))
  {
  }
}
