/** The embedding service of the embedding service app: the text embedded for a
    menu item, and the `None`/`[]` contracts of the service and its module-level
    wrapper. The embedding model is the oracle `embed` (None where it raises),
    and the text of a number, list or dict is `render`. */
module EmbeddingService {
  import opened Util
  import opened Json

  /** A field that is present and truthy. */
  predicate Given(d: Dict, k: string) {
    k in d && Truthy(d[k])
  }

  /** The text appended for field `k` after `sep`: nothing unless the field is
      present and truthy. */
  function Part(d: Dict, k: string, sep: string, render: Value -> string): string {
    if Given(d, k) then sep + PyStr(d[k], render) else ""
  }

  /** The text `generate_menu_item_embedding` embeds: the name, then the size
      after a space, the description after ". ", and the category after
      ". Category: ", each only when present and truthy. A name that is not
      text is treated as failing, giving None. */
  function TextOf(d: Dict, render: Value -> string): Option<string> {
    var name := Get(d, "name", Str(""));
    if !name.Str? then None
    else Some(name.s + Part(d, "size", " ", render) + Part(d, "description", ". ", render)
                     + Part(d, "category", ". Category: ", render))
  }

  /** The same text, built step by step. */
  method ItemText(d: Dict, render: Value -> string) returns (text: Option<string>)
    ensures text == TextOf(d, render)
  {
    var name := Get(d, "name", Str(""));
    if !name.Str? {
      return None;
    }
    var itemText := name.s;
    if "size" in d && Truthy(d["size"]) {
      itemText := itemText + (" " + PyStr(d["size"], render));
    }
    assert itemText == name.s + Part(d, "size", " ", render);
    if "description" in d && Truthy(d["description"]) {
      itemText := itemText + (". " + PyStr(d["description"], render));
    }
    assert itemText == name.s + Part(d, "size", " ", render) + Part(d, "description", ". ", render);
    if "category" in d && Truthy(d["category"]) {
      itemText := itemText + (". Category: " + PyStr(d["category"], render));
    }
    assert itemText == name.s + Part(d, "size", " ", render) + Part(d, "description", ". ", render)
                       + Part(d, "category", ". Category: ", render);
    return Some(itemText);
  }

  /** The text starts with the name, ends with the category label when there is
      a category, and is the bare name when nothing else is given. */
  lemma TextShape(d: Dict, render: Value -> string)
    requires TextOf(d, render).Some?
    ensures var t := TextOf(d, render).value;
      var name := Get(d, "name", Str("")).s;
      IsPrefix(name, t)
      && (Given(d, "category") ==> IsSuffix(". Category: " + PyStr(d["category"], render), t))
      && (!Given(d, "size") && !Given(d, "description") && !Given(d, "category") ==> t == name)
      && |t| >= |name|
  {
    var name := Get(d, "name", Str("")).s;
    var head := name + Part(d, "size", " ", render) + Part(d, "description", ". ", render);
    var tail := Part(d, "category", ". Category: ", render);
    Affixes(name, Part(d, "size", " ", render) + Part(d, "description", ". ", render));
    Affixes(head, tail);
  }

  /** `EmbeddingService.generate_menu_item_embedding`: None without a model,
      when the text cannot be built, or when the model raises. */
  function MenuItemEmbedding(hasModel: bool, d: Dict, render: Value -> string,
                             embed: string -> Option<seq<real>>): (r: Option<seq<real>>)
    ensures r.Some? ==> hasModel && TextOf(d, render).Some? && embed(TextOf(d, render).value) == r
    ensures !hasModel ==> r.None?
  {
    match TextOf(d, render)
    case None => None
    case Some(t) => if !hasModel then None else embed(t)
  }

  /** The module-level `generate_menu_item_embedding`: `[]` without a service or
      without an embedding, otherwise the embedding. */
  function ModuleEmbedding(hasService: bool, hasModel: bool, d: Dict, render: Value -> string,
                           embed: string -> Option<seq<real>>): (r: seq<real>)
    ensures !hasService ==> r == []
    ensures hasService && MenuItemEmbedding(hasModel, d, render, embed).None? ==> r == []
    ensures r != [] ==> hasService && hasModel && MenuItemEmbedding(hasModel, d, render, embed) == Some(r)
  {
    if !hasService then []
    else MenuItemEmbedding(hasModel, d, render, embed).GetOr([])
  }
}
