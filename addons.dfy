/** `validate_addons`: an add-on group needs a name and at least one option,
    and every option a positive price. The options column is a JSON list; a
    NULL column is `None`. */
module Addons {
  import opened Util
  import opened Json
  import opened Validation

  /** The columns of an add-on row that the validator reads. */
  datatype Addons = Addons(name: Option<string>, options: Option<seq<Value>>)

  const NameMissing: string := "Name must be provided"
  const OptionsMissing: string := "At least one option must be provided"
  const PriceNotPositive: string := "Each option must have a price greater than 0"

  /** What `option.get('price', 0) <= 0` makes of one option: the price it
      compares, or the exception it raises (an option that is not a dict has
      no `get`; text, `None`, a list or a dict cannot be compared with 0). */
  datatype PriceRead = Price(p: real) | Unreadable(exception: string)

  function ReadPrice(option: Value): PriceRead {
    if !option.Obj? then Unreadable("AttributeError")
    else
      match Get(option.fields, "price", Num(0.0))
      case Num(n) => Price(n)
      case Bool(b) => Price(if b then 1.0 else 0.0)
      case _ => Unreadable("TypeError")
  }

  /** An option the loop stops at. */
  predicate Stops(option: Value) {
    match ReadPrice(option)
    case Price(p) => p <= 0.0
    case Unreadable(_) => true
  }

  /** The position the loop over the options stops at, if any: the first
      option that raises or has no positive price. */
  function FirstStop(options: seq<Value>): (r: Option<nat>)
    ensures r.None? <==> forall k :: 0 <= k < |options| ==> !Stops(options[k])
    ensures r.Some? ==> r.value < |options| && Stops(options[r.value])
                        && forall j :: 0 <= j < r.value ==> !Stops(options[j])
  {
    if options == [] then None
    else if Stops(options[0]) then Some(0)
    else match FirstStop(options[1..])
      case None => None
      case Some(k) => Some(k + 1)
  }

  /** An add-on group that can be stored: a non-empty name and options, each
      with a positive price. */
  predicate Complete(addons: Addons) {
    addons.name.Some? && addons.name.value != ""
    && addons.options.Some? && addons.options.value != []
    && forall k :: 0 <= k < |addons.options.value| ==>
         ReadPrice(addons.options.value[k]).Price? && ReadPrice(addons.options.value[k]).p > 0.0
  }

  /** The checks in their order; a valid group comes back unchanged, and a
      price rejection names an option that exists and is not positive. */
  function ValidateAddons(addons: Addons): (r: Checked<Addons>)
    ensures r.Valid? <==> Complete(addons)
    ensures r.Valid? ==> r.value == addons
    ensures addons.name.None? || addons.name == Some("") ==> r == Rejected(NameMissing)
    ensures r == Rejected(PriceNotPositive) ==>
      addons.options.Some?
      && exists k :: 0 <= k < |addons.options.value| && ReadPrice(addons.options.value[k]).Price?
                                                      && ReadPrice(addons.options.value[k]).p <= 0.0
    ensures r.Raised? ==>
      addons.options.Some? && exists k :: 0 <= k < |addons.options.value| && ReadPrice(addons.options.value[k]).Unreadable?
  {
    if addons.name.None? || addons.name.value == "" then Rejected(NameMissing)
    else if addons.options.None? || addons.options.value == [] then Rejected(OptionsMissing)
    else
      match FirstStop(addons.options.value)
      case None => Valid(addons)
      case Some(k) =>
        match ReadPrice(addons.options.value[k])
        case Price(_) => Rejected(PriceNotPositive)
        case Unreadable(e) => Raised(e)
  }

  /** An option without a price counts as price 0 and is rejected. */
  lemma PricelessOption(name: string, before: seq<Value>, option: map<string, Value>, after: seq<Value>)
    requires name != "" && "price" !in option
    requires forall k :: 0 <= k < |before| ==> !Stops(before[k])
    ensures ValidateAddons(Addons(Some(name), Some(before + [Obj(option)] + after))) == Rejected(PriceNotPositive)
  {
    var options := before + [Obj(option)] + after;
    assert options[|before|] == Obj(option);
    assert Stops(options[|before|]);
  }
}
