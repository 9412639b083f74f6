/** The embedding helpers of the main backend: the text embedded for a menu
    item, creating or updating its stored embedding, and the tallies of a
    restaurant-wide or batch run. The tables are the fields of `Database`; the
    embedding model is the oracle `embed` (attempt `k` on a text, None where
    it raises) and `hasClient` says whether its client was set up. */
module AppEmbeddings {
  import opened Util

  /** A menu item row as far as embedding reads it; absent tags or allergens
      are the empty list. */
  datatype MenuItem = MenuItem(id: string, restaurantId: string, name: string, description: Option<string>,
                               tags: seq<string>, allergens: seq<string>)

  // ------------------------------------------------------------ the text

  predicate HasDescription(item: MenuItem) {
    item.description.Some? && item.description.value != ""
  }

  /** `s` after `sep`, or nothing. */
  function Piece(given: bool, sep: string, s: string): string {
    if given then sep + s else ""
  }

  /** The embedded text: the name, then the description, the tags separated by
      spaces and the allergens after "Allergens: ", each after one space and
      each only when there is one. */
  function Text(item: MenuItem): string {
    item.name
    + Piece(HasDescription(item), " ", item.description.GetOr(""))
    + Piece(item.tags != [], " ", Join(" ", item.tags))
    + Piece(item.allergens != [], " ", "Allergens: " + Join(", ", item.allergens))
  }

  /** `create_text_for_embedding`: the parts are collected, then joined with
      single spaces. */
  method CreateTextForEmbedding(item: MenuItem) returns (text: string)
    ensures text == Text(item)
  {
    var textParts := [item.name];
    ghost var head := item.name;
    assert Join(" ", textParts) == head;
    if HasDescription(item) {
      textParts := AppendPart(textParts, item.description.value, head);
    }
    head := head + Piece(HasDescription(item), " ", item.description.GetOr(""));
    if item.tags != [] {
      textParts := AppendPart(textParts, Join(" ", item.tags), head);
    }
    head := head + Piece(item.tags != [], " ", Join(" ", item.tags));
    if item.allergens != [] {
      textParts := AppendPart(textParts, "Allergens: " + Join(", ", item.allergens), head);
    }
    head := head + Piece(item.allergens != [], " ", "Allergens: " + Join(", ", item.allergens));
    text := Join(" ", textParts);
  }

  /** One more part appended: the joined text grows by a space and the part. */
  method AppendPart(parts: seq<string>, p: string, ghost joined: string) returns (r: seq<string>)
    requires parts != [] && Join(" ", parts) == joined
    ensures r != [] && Join(" ", r) == joined + Piece(true, " ", p)
  {
    JoinAppend(" ", parts, p);
    r := parts + [p];
  }

  /** The text starts with the name, ends with the allergen list when there is
      one, and is the bare name when nothing else is given. */
  lemma TextShape(item: MenuItem)
    ensures IsPrefix(item.name, Text(item))
    ensures item.allergens != [] ==> IsSuffix("Allergens: " + Join(", ", item.allergens), Text(item))
    ensures !HasDescription(item) && item.tags == [] && item.allergens == [] ==> Text(item) == item.name
  {
    var d := Piece(HasDescription(item), " ", item.description.GetOr(""));
    var t := Piece(item.tags != [], " ", Join(" ", item.tags));
    var a := Piece(item.allergens != [], " ", "Allergens: " + Join(", ", item.allergens));
    ConcatShape(item.name, d, t, a);
    if item.allergens != [] {
      Affixes(" ", "Allergens: " + Join(", ", item.allergens));
    }
  }

  lemma ConcatShape(name: string, d: string, t: string, a: string)
    ensures IsPrefix(name, name + d + t + a)
    ensures forall x :: IsSuffix(x, a) ==> IsSuffix(x, name + d + t + a)
  {
    Affixes(name, d + t + a);
    assert name + d + t + a == name + (d + t + a);
    forall x | IsSuffix(x, a)
      ensures IsSuffix(x, name + d + t + a)
    {
      var w := name + d + t + a;
      assert w[|w| - |x|..] == a[|a| - |x|..];
    }
  }

  // ------------------------------------------------------------ one item

  const MaxTries: nat := 3

  /** `generate_embedding` under its retry decorator: the vector of the first
      of three attempts that succeeds; without a client every attempt raises. */
  function Generated(hasClient: bool, text: string, embed: (string, nat) -> Option<seq<real>>): Option<seq<real>> {
    if !hasClient then None
    else if embed(text, 0).Some? then embed(text, 0)
    else if embed(text, 1).Some? then embed(text, 1)
    else embed(text, 2)
  }

  /** A vector comes back exactly when one of the three attempts succeeds, and
      it is that of the first one that does. */
  lemma GeneratedFirstSuccess(hasClient: bool, text: string, embed: (string, nat) -> Option<seq<real>>)
    ensures Generated(hasClient, text, embed).Some? <==>
      hasClient && exists k :: 0 <= k < MaxTries && embed(text, k).Some?
    ensures Generated(hasClient, text, embed).Some? ==>
      exists k :: 0 <= k < MaxTries && Generated(hasClient, text, embed) == embed(text, k)
        && forall j :: 0 <= j < k ==> embed(text, j).None?
  {
    if hasClient {
      if embed(text, 0).Some? {
        assert 0 < MaxTries && embed(text, 0).Some?;
      } else if embed(text, 1).Some? {
        assert 1 < MaxTries && embed(text, 1).Some?;
      } else {
        assert embed(text, 2).Some? ==> 2 < MaxTries;
      }
    }
  }

  /** `MenuItemRepository.get(id=...)`: the first row with that id. */
  function FindItem(rows: seq<MenuItem>, id: string): (r: Option<MenuItem>)
    ensures r.Some? ==> r.value in rows && r.value.id == id
    ensures r.None? <==> forall k :: 0 <= k < |rows| ==> rows[k].id != id
  {
    if rows == [] then None
    else if rows[0].id == id then Some(rows[0])
    else FindItem(rows[1..], id)
  }

  datatype Error = NotFoundError | BadRequestError

  /** A value, or the error raised instead. */
  datatype Outcome<T> = Ok(value: T) | Raised(error: Error)

  const CreatedMessage: string := "Embedding created successfully"
  const UpdatedMessage: string := "Embedding updated successfully"

  /** What one call returns, and the stored embeddings after it. */
  datatype Step = Step(result: Outcome<string>, store: map<string, seq<real>>)

  /** The item with `id` is found and its text embeds. */
  predicate Embeds(rows: seq<MenuItem>, id: string, hasClient: bool, embed: (string, nat) -> Option<seq<real>>) {
    FindItem(rows, id).Some? && Generated(hasClient, Text(FindItem(rows, id).value), embed).Some?
  }

  /** `create_menu_item_embedding` on the stored embeddings, keyed by menu
      item id: a missing item raises `NotFoundError`, a failed embedding
      `BadRequestError`; otherwise an existing embedding is replaced, or a new
      one stored. */
  function Embedded(rows: seq<MenuItem>, store: map<string, seq<real>>, id: string, hasClient: bool,
                    embed: (string, nat) -> Option<seq<real>>): Step
  {
    match FindItem(rows, id)
    case None => Step(Raised(NotFoundError), store)
    case Some(item) =>
      match Generated(hasClient, Text(item), embed)
      case None => Step(Raised(BadRequestError), store)
      case Some(vector) =>
        if id in store then Step(Ok(UpdatedMessage), store[id := vector])
        else Step(Ok(CreatedMessage), store[id := vector])
  }

  /** The call succeeds exactly when the item is found and embeds; then the
      new vector is stored under the id and the message says "created"
      exactly when there was none before. A failure changes nothing. */
  lemma EmbeddedFacts(rows: seq<MenuItem>, store: map<string, seq<real>>, id: string, hasClient: bool,
                      embed: (string, nat) -> Option<seq<real>>)
    ensures var s := Embedded(rows, store, id, hasClient, embed);
      (s.result.Ok? <==> Embeds(rows, id, hasClient, embed))
      && (s.result == Raised(NotFoundError) <==> forall k :: 0 <= k < |rows| ==> rows[k].id != id)
      && (s.result.Ok? ==>
            s.store == store[id := Generated(hasClient, Text(FindItem(rows, id).value), embed).value]
            && (s.result.value == CreatedMessage <==> id !in store)
            && (s.result.value == UpdatedMessage <==> id in store))
      && (s.result.Raised? ==> s.store == store)
  {
  }

  // ------------------------------------------------------------ tallies

  /** The tally counts an item as created when the lower-cased message
      mentions "created", and as updated otherwise. */
  predicate CountsAsCreated(message: string) {
    Contains(Lower(message), "created")
  }

  /** The two messages are told apart by that test. */
  lemma MessagesClassified()
    ensures CountsAsCreated(CreatedMessage)
    ensures !CountsAsCreated(UpdatedMessage)
  {
    CreatedCounted();
    UpdatedNotCounted();
  }

  lemma CreatedCounted()
    ensures CountsAsCreated(CreatedMessage)
  {
    CreatedMentioned(CreatedMessage, 10);
  }

  lemma UpdatedNotCounted()
    ensures !CountsAsCreated(UpdatedMessage)
  {
    CreatedUnmentioned(UpdatedMessage);
  }

  /** A message with "created" in it counts as created. */
  lemma CreatedMentioned(message: string, i: nat)
    requires i + 7 <= |message| && message[i..i + 7] == "created"
    ensures CountsAsCreated(message)
  {
    LowerSlice(message, i, i + 7);
    LowerKeeps("created");
    assert OccursAt("created", Lower(message), i);
  }

  /** A message without an "r" in either case does not. */
  lemma CreatedUnmentioned(message: string)
    requires 'r' !in message && 'R' !in message
    ensures !CountsAsCreated(message)
  {
    LowerKeepsOut(message, 'r');
    if Contains(Lower(message), "created") {
      ContainsChar(Lower(message), "created", 1);
    }
  }

  /** One status entry per processed item. */
  datatype Status = Succeeded(id: string, name: string) | FailedWith(id: string, name: string, error: Error)

  datatype Summary = Summary(created: nat, updated: nat, failed: nat, total: nat, statuses: seq<Status>)

  /** The counters, the statuses so far and the stored embeddings. */
  datatype Progress = Progress(created: nat, updated: nat, failed: nat, statuses: seq<Status>,
                               store: map<string, seq<real>>)

  /** One pass of the tally loop. */
  function Record(p: Progress, item: MenuItem, rows: seq<MenuItem>, hasClient: bool,
                  embed: (string, nat) -> Option<seq<real>>): Progress
  {
    var s := Embedded(rows, p.store, item.id, hasClient, embed);
    match s.result
    case Ok(message) =>
      if CountsAsCreated(message)
      then Progress(p.created + 1, p.updated, p.failed, p.statuses + [Succeeded(item.id, item.name)], s.store)
      else Progress(p.created, p.updated + 1, p.failed, p.statuses + [Succeeded(item.id, item.name)], s.store)
    case Raised(e) =>
      Progress(p.created, p.updated, p.failed + 1, p.statuses + [FailedWith(item.id, item.name, e)], s.store)
  }

  /** The tally after the loop has processed `items`. */
  function Processed(rows: seq<MenuItem>, store: map<string, seq<real>>, items: seq<MenuItem>, hasClient: bool,
                     embed: (string, nat) -> Option<seq<real>>): Progress
    decreases |items|
  {
    if items == [] then Progress(0, 0, 0, [], store)
    else Record(Processed(rows, store, items[..|items| - 1], hasClient, embed), items[|items| - 1], rows,
                hasClient, embed)
  }

  function SummaryOf(p: Progress, total: nat): Summary {
    Summary(p.created, p.updated, p.failed, total, p.statuses)
  }

  /** Every item is counted once: the counters add up to the number of items
      and there is one status per item, in order, which is a success exactly
      when the item is found and embeds. */
  lemma {:induction false} ProcessedCounts(rows: seq<MenuItem>, store: map<string, seq<real>>, items: seq<MenuItem>,
                                           hasClient: bool, embed: (string, nat) -> Option<seq<real>>)
    ensures var p := Processed(rows, store, items, hasClient, embed);
      p.created + p.updated + p.failed == |items| == |p.statuses|
      && forall k :: 0 <= k < |items| ==>
           p.statuses[k].id == items[k].id && p.statuses[k].name == items[k].name
           && (p.statuses[k].Succeeded? <==> Embeds(rows, items[k].id, hasClient, embed))
    decreases |items|
  {
    if items != [] {
      var n := |items| - 1;
      var q := Processed(rows, store, items[..n], hasClient, embed);
      ProcessedCounts(rows, store, items[..n], hasClient, embed);
      RecordCounts(q, items[n], rows, hasClient, embed);
      var p := Record(q, items[n], rows, hasClient, embed);
      forall k | 0 <= k < |items|
        ensures p.statuses[k].id == items[k].id && p.statuses[k].name == items[k].name
          && (p.statuses[k].Succeeded? <==> Embeds(rows, items[k].id, hasClient, embed))
      {
        if k < n {
          assert p.statuses[k] == q.statuses[k] && items[k] == items[..n][k];
        }
      }
    }
  }

  /** One pass adds one to exactly one counter and appends the item's status,
      a success exactly when the item is found and embeds. */
  lemma RecordCounts(p: Progress, item: MenuItem, rows: seq<MenuItem>, hasClient: bool,
                     embed: (string, nat) -> Option<seq<real>>)
    ensures var r := Record(p, item, rows, hasClient, embed);
      r.created + r.updated + r.failed == p.created + p.updated + p.failed + 1
      && |r.statuses| == |p.statuses| + 1 && r.statuses[..|p.statuses|] == p.statuses
      && r.statuses[|p.statuses|].id == item.id && r.statuses[|p.statuses|].name == item.name
      && (r.statuses[|p.statuses|].Succeeded? <==> Embeds(rows, item.id, hasClient, embed))
  {
    EmbeddedFacts(rows, p.store, item.id, hasClient, embed);
  }

  /** One pass: a created embedding adds the item's key, an update replaces
      the vector under it, and a failure leaves the store alone. */
  lemma RecordStore(p: Progress, item: MenuItem, rows: seq<MenuItem>, hasClient: bool,
                    embed: (string, nat) -> Option<seq<real>>)
    ensures var r := Record(p, item, rows, hasClient, embed);
      |r.store| == |p.store| + (r.created - p.created)
      && r.created - p.created <= 1
      && r.store.Keys == p.store.Keys + (if Embeds(rows, item.id, hasClient, embed) then {item.id} else {})
  {
    EmbeddedFacts(rows, p.store, item.id, hasClient, embed);
    MessagesClassified();
  }

  /** Each created embedding adds one stored key and each update replaces one:
      the store grows by exactly the number counted as created. */
  lemma {:induction false} ProcessedSize(rows: seq<MenuItem>, store: map<string, seq<real>>, items: seq<MenuItem>,
                                         hasClient: bool, embed: (string, nat) -> Option<seq<real>>)
    ensures var p := Processed(rows, store, items, hasClient, embed);
      |p.store| == |store| + p.created
    decreases |items|
  {
    if items != [] {
      var n := |items| - 1;
      ProcessedSize(rows, store, items[..n], hasClient, embed);
      RecordStore(Processed(rows, store, items[..n], hasClient, embed), items[n], rows, hasClient, embed);
    }
  }

  /** The ids of the items that are found and embed. */
  function EmbeddedIds(rows: seq<MenuItem>, items: seq<MenuItem>, hasClient: bool,
                       embed: (string, nat) -> Option<seq<real>>): set<string>
    decreases |items|
  {
    if items == [] then {}
    else
      var n := |items| - 1;
      EmbeddedIds(rows, items[..n], hasClient, embed)
      + if Embeds(rows, items[n].id, hasClient, embed) then {items[n].id} else {}
  }

  lemma {:induction false} EmbeddedIdsSpec(rows: seq<MenuItem>, items: seq<MenuItem>, hasClient: bool,
                                           embed: (string, nat) -> Option<seq<real>>)
    ensures forall key :: key in EmbeddedIds(rows, items, hasClient, embed) <==>
      exists k :: 0 <= k < |items| && items[k].id == key && Embeds(rows, key, hasClient, embed)
    decreases |items|
  {
    if items != [] {
      var n := |items| - 1;
      EmbeddedIdsSpec(rows, items[..n], hasClient, embed);
      forall key | exists k :: 0 <= k < |items| && items[k].id == key && Embeds(rows, key, hasClient, embed)
        ensures key in EmbeddedIds(rows, items, hasClient, embed)
      {
        var k :| 0 <= k < |items| && items[k].id == key && Embeds(rows, key, hasClient, embed);
        if k < n {
          assert items[..n][k].id == key;
        }
      }
      forall key | key in EmbeddedIds(rows, items[..n], hasClient, embed)
        ensures exists k :: 0 <= k < |items| && items[k].id == key && Embeds(rows, key, hasClient, embed)
      {
        var k :| 0 <= k < n && items[..n][k].id == key && Embeds(rows, key, hasClient, embed);
        assert items[k].id == key;
      }
    }
  }

  /** Afterwards the store holds exactly the keys it had and the ids of the
      items that embedded. */
  lemma {:induction false} ProcessedKeys(rows: seq<MenuItem>, store: map<string, seq<real>>, items: seq<MenuItem>,
                                         hasClient: bool, embed: (string, nat) -> Option<seq<real>>)
    ensures forall key :: key in Processed(rows, store, items, hasClient, embed).store <==>
      key in store || key in EmbeddedIds(rows, items, hasClient, embed)
    decreases |items|
  {
    if items != [] {
      var n := |items| - 1;
      ProcessedKeys(rows, store, items[..n], hasClient, embed);
      RecordStore(Processed(rows, store, items[..n], hasClient, embed), items[n], rows, hasClient, embed);
    }
  }

  /** The restaurant's items, in table order. */
  function OfRestaurant(restaurantId: string): MenuItem -> Option<MenuItem> {
    (item: MenuItem) => if item.restaurantId == restaurantId then Some(item) else None
  }

  /** The lookup of one requested id. */
  function Lookup(rows: seq<MenuItem>): string -> Option<MenuItem> {
    (id: string) => FindItem(rows, id)
  }

  /** A restaurant run covers exactly its items. */
  lemma RestaurantItems(rows: seq<MenuItem>, restaurantId: string)
    ensures forall item :: item in Collect(rows, OfRestaurant(restaurantId)) ==>
      item in rows && item.restaurantId == restaurantId
    ensures forall k :: 0 <= k < |rows| && rows[k].restaurantId == restaurantId ==>
      rows[k] in Collect(rows, OfRestaurant(restaurantId))
  {
    var f := OfRestaurant(restaurantId);
    CollectSpec(rows, f);
    forall item | item in Collect(rows, f)
      ensures item in rows && item.restaurantId == restaurantId
    {
      var j :| 0 <= j < |Collect(rows, f)| && Collect(rows, f)[j] == item;
      assert CollectedFrom(rows, f, item);
      var i :| 0 <= i < |rows| && f(rows[i]) == Some(item);
    }
    forall k | 0 <= k < |rows| && rows[k].restaurantId == restaurantId
      ensures rows[k] in Collect(rows, f)
    {
      assert f(rows[k]) == Some(rows[k]);
    }
  }

  /** A batch with ids processes the row of every id that resolves, and only
      those; an id that resolves to nothing is skipped. */
  lemma BatchItems(rows: seq<MenuItem>, ids: seq<string>)
    ensures forall item :: item in Collect(ids, Lookup(rows)) ==>
      item in rows && item.id in ids && FindItem(rows, item.id) == Some(item)
    ensures forall k :: 0 <= k < |ids| && FindItem(rows, ids[k]).Some? ==>
      FindItem(rows, ids[k]).value in Collect(ids, Lookup(rows))
    ensures |Collect(ids, Lookup(rows))| <= |ids|
  {
    var f := Lookup(rows);
    CollectSpec(ids, f);
    forall item | item in Collect(ids, f)
      ensures item in rows && item.id in ids && FindItem(rows, item.id) == Some(item)
    {
      var j :| 0 <= j < |Collect(ids, f)| && Collect(ids, f)[j] == item;
      assert CollectedFrom(ids, f, item);
      var i :| 0 <= i < |ids| && f(ids[i]) == Some(item);
      assert FindItem(rows, ids[i]) == Some(item);
    }
    forall k | 0 <= k < |ids| && FindItem(rows, ids[k]).Some?
      ensures FindItem(rows, ids[k]).value in Collect(ids, f)
    {
      assert f(ids[k]) == FindItem(rows, ids[k]);
    }
  }

  // ------------------------------------------------------------ the tables

  /** The tables read and written: restaurants, menu items in table order, and
      the stored embeddings keyed by menu item id. */
  class Database {
    var restaurants: set<string>
    var menuItems: seq<MenuItem>
    var embeddings: map<string, seq<real>>

    constructor(restaurants: set<string>, menuItems: seq<MenuItem>, embeddings: map<string, seq<real>>)
      ensures this.restaurants == restaurants && this.menuItems == menuItems && this.embeddings == embeddings
    {
      this.restaurants := restaurants;
      this.menuItems := menuItems;
      this.embeddings := embeddings;
    }

    /** `create_menu_item_embedding`: the returned message, and the
        embeddings table after it. */
    method CreateMenuItemEmbedding(menuItemId: string, hasClient: bool, embed: (string, nat) -> Option<seq<real>>)
      returns (result: Outcome<string>)
      modifies this
      ensures Step(result, embeddings) == Embedded(menuItems, old(embeddings), menuItemId, hasClient, embed)
      ensures menuItems == old(menuItems) && restaurants == old(restaurants)
    {
      var menuItem := FindItem(menuItems, menuItemId);
      if menuItem.None? {
        return Raised(NotFoundError);
      }
      var text := CreateTextForEmbedding(menuItem.value);
      var vector := Generated(hasClient, text, embed);
      if vector.None? {
        return Raised(BadRequestError);
      }
      if menuItemId in embeddings {
        embeddings := embeddings[menuItemId := vector.value];
        return Ok(UpdatedMessage);
      }
      embeddings := embeddings[menuItemId := vector.value];
      return Ok(CreatedMessage);
    }

    /** The tally loop both runs share: every item is embedded in turn, a
        failure is recorded and the loop goes on. */
    method ProcessItems(items: seq<MenuItem>, hasClient: bool, embed: (string, nat) -> Option<seq<real>>)
      returns (summary: Summary)
      modifies this
      ensures var p := Processed(old(menuItems), old(embeddings), items, hasClient, embed);
        summary == SummaryOf(p, |items|) && embeddings == p.store
      ensures menuItems == old(menuItems) && restaurants == old(restaurants)
    {
      var created, updated, failed := 0, 0, 0;
      var statuses: seq<Status> := [];
      for i := 0 to |items|
        invariant menuItems == old(menuItems) && restaurants == old(restaurants)
        invariant Processed(menuItems, old(embeddings), items[..i], hasClient, embed)
                  == Progress(created, updated, failed, statuses, embeddings)
      {
        var item := items[i];
        ghost var before := Progress(created, updated, failed, statuses, embeddings);
        var result := CreateMenuItemEmbedding(item.id, hasClient, embed);
        match result {
          case Ok(message) =>
            if Contains(Lower(message), "created") {
              created := created + 1;
            } else {
              updated := updated + 1;
            }
            statuses := statuses + [Succeeded(item.id, item.name)];
          case Raised(e) =>
            failed := failed + 1;
            statuses := statuses + [FailedWith(item.id, item.name, e)];
        }
        assert Record(before, item, menuItems, hasClient, embed)
               == Progress(created, updated, failed, statuses, embeddings);
        assert items[..i + 1][..i] == items[..i] && items[..i + 1][i] == item;
        assert Processed(menuItems, old(embeddings), items[..i + 1], hasClient, embed)
               == Record(before, item, menuItems, hasClient, embed);
      }
      assert items[..|items|] == items;
      return SummaryOf(Progress(created, updated, failed, statuses, embeddings), |items|);
    }

    /** `create_embeddings_for_restaurant`: `NotFoundError` for an unknown
        restaurant or one without items; otherwise the tally over its items. */
    method CreateEmbeddingsForRestaurant(restaurantId: string, hasClient: bool,
                                         embed: (string, nat) -> Option<seq<real>>)
      returns (result: Outcome<Summary>)
      modifies this
      ensures var items := Collect(old(menuItems), OfRestaurant(restaurantId));
        (result.Ok? <==> restaurantId in old(restaurants) && items != [])
        && (result.Raised? ==> result.error == NotFoundError && embeddings == old(embeddings))
        && (result.Ok? ==>
              var p := Processed(old(menuItems), old(embeddings), items, hasClient, embed);
              result.value == SummaryOf(p, |items|) && embeddings == p.store)
      ensures menuItems == old(menuItems) && restaurants == old(restaurants)
    {
      if restaurantId !in restaurants {
        return Raised(NotFoundError);
      }
      var items := Collect(menuItems, OfRestaurant(restaurantId));
      if items == [] {
        return Raised(NotFoundError);
      }
      var summary := ProcessItems(items, hasClient, embed);
      return Ok(summary);
    }

    /** The rows of the requested ids that resolve, in the order asked. */
    method ResolveItems(ids: seq<string>) returns (items: seq<MenuItem>)
      ensures items == Collect(ids, Lookup(menuItems))
    {
      items := [];
      ghost var f := Lookup(menuItems);
      for i := 0 to |ids|
        invariant items == Collect(ids[..i], f)
      {
        CollectStep(ids, i, f);
        var item := FindItem(menuItems, ids[i]);
        assert f(ids[i]) == item;
        if item.Some? {
          items := items + [item.value];
        }
      }
      assert ids[..|ids|] == ids;
    }

    /** `batch_create_embeddings`: with a non-empty list of ids, the rows they
        resolve to; otherwise every row. `NotFoundError` when that leaves
        nothing to process. */
    method BatchCreateEmbeddings(menuItemIds: Option<seq<string>>, hasClient: bool,
                                 embed: (string, nat) -> Option<seq<real>>)
      returns (result: Outcome<Summary>)
      modifies this
      ensures var items := if menuItemIds.Some? && menuItemIds.value != []
                           then Collect(menuItemIds.value, Lookup(old(menuItems))) else old(menuItems);
        (result.Ok? <==> items != [])
        && (result.Raised? ==> result.error == NotFoundError && embeddings == old(embeddings))
        && (result.Ok? ==>
              var p := Processed(old(menuItems), old(embeddings), items, hasClient, embed);
              result.value == SummaryOf(p, |items|) && embeddings == p.store)
      ensures menuItems == old(menuItems) && restaurants == old(restaurants)
    {
      var items;
      if menuItemIds.Some? && menuItemIds.value != [] {
        items := ResolveItems(menuItemIds.value);
      } else {
        items := menuItems;
      }
      if items == [] {
        return Raised(NotFoundError);
      }
      var summary := ProcessItems(items, hasClient, embed);
      return Ok(summary);
    }
  }
}
