/** The Gemini embedding helper of the main backend: the text embedded for a
    menu item, its parts joined with " | ", and the check that the model
    returned a 768-long vector before a row is stored. The model is the oracle
    `embed` (None where it raises), `stored` says whether writing the row
    succeeds, and the text of a number, list or dict is `render`. */
module AppEmbedding {
  import opened Util
  import opened Json

  /** A menu item as far as the text reads it; absent options, tags or
      allergens are the empty list. */
  datatype MenuItem = MenuItem(name: string, description: Option<string>, options: seq<Dict>,
                               tags: seq<string>, allergens: seq<string>)

  predicate HasDescription(item: MenuItem) {
    item.description.Some? && item.description.value != ""
  }

  /** An option key as the f-string shows it: `''` when it is missing. */
  function OptionField(option: Dict, k: string, render: Value -> string): string {
    PyStr(Get(option, k, Str("")), render)
  }

  /** `Option: name - description - price`. */
  function OptionLine(option: Dict, render: Value -> string): string {
    "Option: " + OptionField(option, "name", render) + " - " + OptionField(option, "description", render)
    + " - " + OptionField(option, "price", render)
  }

  /** One line per option, in order. */
  function OptionLines(options: seq<Dict>, render: Value -> string): (r: seq<string>)
    ensures |r| == |options|
    ensures forall k :: 0 <= k < |options| ==> r[k] == OptionLine(options[k], render)
  {
    if options == [] then []
    else OptionLines(options[..|options| - 1], render) + [OptionLine(options[|options| - 1], render)]
  }

  /** The parts in order: the name, the description, every option, the tags
      and the allergens, each only when there is one. */
  function Parts(item: MenuItem, render: Value -> string): seq<string> {
    [item.name]
    + (if HasDescription(item) then [item.description.value] else [])
    + OptionLines(item.options, render)
    + (if item.tags != [] then ["Tags: " + Join(", ", item.tags)] else [])
    + (if item.allergens != [] then ["Allergens: " + Join(", ", item.allergens)] else [])
  }

  /** The option loop: one line appended per option, in order. */
  method AppendOptionLines(parts: seq<string>, options: seq<Dict>, render: Value -> string)
    returns (r: seq<string>)
    ensures r == parts + OptionLines(options, render)
  {
    r := parts;
    for i := 0 to |options|
      invariant r == parts + OptionLines(options[..i], render)
    {
      assert options[..i + 1][..i] == options[..i];
      r := r + [OptionLine(options[i], render)];
    }
    assert options[..|options|] == options;
  }

  /** `get_menu_item_text`: the parts appended in turn, then joined. */
  method GetMenuItemText(item: MenuItem, render: Value -> string) returns (text: string)
    ensures text == Join(" | ", Parts(item, render))
  {
    var parts := [item.name];
    if HasDescription(item) {
      parts := parts + [item.description.value];
    }
    ghost var head := parts;
    assert head == [item.name] + (if HasDescription(item) then [item.description.value] else []);
    parts := AppendOptionLines(parts, item.options, render);
    ghost var tags := if item.tags != [] then ["Tags: " + Join(", ", item.tags)] else [];
    ghost var allergens := if item.allergens != [] then ["Allergens: " + Join(", ", item.allergens)] else [];
    if item.tags != [] {
      parts := parts + ["Tags: " + Join(", ", item.tags)];
    }
    assert parts == head + OptionLines(item.options, render) + tags;
    if item.allergens != [] {
      parts := parts + ["Allergens: " + Join(", ", item.allergens)];
    }
    assert parts == head + OptionLines(item.options, render) + tags + allergens;
    text := Join(" | ", parts);
  }

  /** The layout of the parts: the name first, the description next when there
      is one, then the option lines, one per option in order, and the
      allergen line last when there are allergens. */
  lemma PartsLayout(item: MenuItem, render: Value -> string)
    ensures var parts := Parts(item, render);
      var d := if HasDescription(item) then 1 else 0;
      var t := if item.tags != [] then 1 else 0;
      var a := if item.allergens != [] then 1 else 0;
      |parts| == 1 + d + |item.options| + t + a
      && parts[0] == item.name
      && (HasDescription(item) ==> parts[1] == item.description.value)
      && (forall k :: 0 <= k < |item.options| ==> parts[1 + d + k] == OptionLine(item.options[k], render))
      && (item.tags != [] ==> parts[1 + d + |item.options|] == "Tags: " + Join(", ", item.tags))
      && (item.allergens != [] ==> parts[|parts| - 1] == "Allergens: " + Join(", ", item.allergens))
  {
  }

  /** The text starts with the name, and is the bare name when nothing else is
      given. */
  lemma TextStartsWithName(item: MenuItem, render: Value -> string)
    ensures IsPrefix(item.name, Join(" | ", Parts(item, render)))
    ensures !HasDescription(item) && item.options == [] && item.tags == [] && item.allergens == [] ==>
      Join(" | ", Parts(item, render)) == item.name
  {
    JoinStartsWithFirst(" | ", Parts(item, render));
  }

  /** An option without any of the three keys still gets its line, with empty
      fields. */
  lemma EmptyOption(render: Value -> string)
    ensures OptionLine(map[], render) == "Option:  -  - "
  {
  }

  // ------------------------------------------------------------ storing

  const Dimensions: nat := 768

  /** The vector of a response: its "embedding" entry when it is a dict that
      has one, otherwise the response itself. */
  function EmbeddingOf(response: Value): Value {
    if response.Obj? && "embedding" in response.fields then response.fields["embedding"] else response
  }

  /** Why storing failed. */
  datatype Cause = EmbedFailed | WrongDimensions(got: Option<nat>) | StoreFailed

  /** The single error every failure surfaces as. */
  datatype Failure = BadRequest(cause: Cause)

  /** The row stored: the item id, the vector and empty metadata. */
  datatype Row = Row(menuItemId: string, embedding: seq<Value>, meta: Dict)

  datatype Attempt = Stored(row: Row) | Failed(failure: Failure)

  /** `create_menu_item_embedding` on the model's response. */
  function Attempted(menuItemId: string, response: Option<Value>, stored: bool): (r: Attempt)
    ensures r.Stored? <==>
      response.Some? && EmbeddingOf(response.value).List?
      && |EmbeddingOf(response.value).elems| == Dimensions && stored
    ensures r.Stored? ==>
      r.row.menuItemId == menuItemId && |r.row.embedding| == Dimensions && r.row.meta == map[]
      && r.row.embedding == EmbeddingOf(response.value).elems
  {
    match response
    case None => Failed(BadRequest(EmbedFailed))
    case Some(v) =>
      var embedding := EmbeddingOf(v);
      if !embedding.List? then Failed(BadRequest(WrongDimensions(None)))
      else if |embedding.elems| != Dimensions then Failed(BadRequest(WrongDimensions(Some(|embedding.elems|))))
      else if !stored then Failed(BadRequest(StoreFailed))
      else Stored(Row(menuItemId, embedding.elems, map[]))
  }

  /** A vector of the wrong length is reported with its length, and anything
      that is not a list as such. */
  lemma RejectedDimensions(menuItemId: string, response: Value, stored: bool)
    ensures var e := EmbeddingOf(response);
      (!e.List? ==> Attempted(menuItemId, Some(response), stored) == Failed(BadRequest(WrongDimensions(None))))
      && (e.List? && |e.elems| != Dimensions ==>
            Attempted(menuItemId, Some(response), stored) == Failed(BadRequest(WrongDimensions(Some(|e.elems|)))))
  {
  }

  /** A dict response without an "embedding" key is checked as it is, and so
      is never accepted. */
  lemma DictWithoutEmbedding(menuItemId: string, fields: map<string, Value>, stored: bool)
    requires "embedding" !in fields
    ensures Attempted(menuItemId, Some(Obj(fields)), stored) == Failed(BadRequest(WrongDimensions(None)))
  {
  }

  /** The stored embedding rows. */
  class EmbeddingTable {
    var rows: seq<Row>

    constructor()
      ensures rows == []
    {
      rows := [];
    }

    /** Embeds the item's text and stores one new row; on any failure nothing
        is stored and the one wrapped error is returned. */
    method CreateMenuItemEmbedding(menuItemId: string, item: MenuItem, render: Value -> string,
                                   embed: string -> Option<Value>, stored: bool)
      returns (failure: Option<Failure>)
      modifies this
      ensures var a := Attempted(menuItemId, embed(Join(" | ", Parts(item, render))), stored);
        (a.Stored? ==> failure.None? && rows == old(rows) + [a.row])
        && (a.Failed? ==> failure == Some(a.failure) && rows == old(rows))
    {
      var text := GetMenuItemText(item, render);
      var response := embed(text);
      if response.None? {
        return Some(BadRequest(EmbedFailed));
      }
      var embedding := EmbeddingOf(response.value);
      if !embedding.List? {
        return Some(BadRequest(WrongDimensions(None)));
      }
      if |embedding.elems| != Dimensions {
        return Some(BadRequest(WrongDimensions(Some(|embedding.elems|))));
      }
      if !stored {
        return Some(BadRequest(StoreFailed));
      }
      rows := rows + [Row(menuItemId, embedding.elems, map[])];
      return None;
    }
  }
}
