/** The language-model helpers of the embedding service: reading the JSON array
    out of a model reply, and merging the items read from a menu image with
    those read from its OCR text. The reply is given (`Failure` for a missing
    model client's exception), and `json.loads` is the oracle `decode`. */
module EmbeddingLlm {
  import opened Util
  import opened Json

  // ------------------------------------------------------------ parsing the reply

  /** `response_text[find('['):rfind(']') + 1]`, None when either bracket is
      missing; a `]` before the first `[` gives the empty slice. */
  function SliceJson(t: string): (r: Option<string>)
    ensures r.None? <==> IndexOf(t, '[').None? || LastIndexOf(t, ']').None?
  {
    match (IndexOf(t, '['), LastIndexOf(t, ']'))
    case (Some(i), Some(j)) => Some(if i <= j then t[i..j + 1] else "")
    case _ => None
  }

  /** `parse_menu_text` once the model has answered: no model, an exception, no
      brackets, or text that does not decode all give no items. */
  function ParseMenuText(hasModel: bool, reply: Reply, decode: string -> Option<seq<Value>>): (r: seq<Value>)
    ensures !hasModel || reply.Failure? ==> r == []
  {
    if !hasModel then []
    else
      match reply
      case Failure => []
      case Text(t) =>
        match SliceJson(t)
        case None => []
        case Some(s) => decode(s).GetOr([])
  }

  /** The slice is the bracketed span of the menu extractor whenever there is
      one; otherwise, with both brackets present, it is the empty text. */
  lemma SliceIsSpan(t: string)
    ensures BracketSpan(t).Some? ==> SliceJson(t) == BracketSpan(t)
    ensures BracketSpan(t).None? && SliceJson(t).Some? ==> SliceJson(t).value == ""
  {
  }

  /** Items come back only from a decoded slice. */
  lemma ParsedFromSlice(hasModel: bool, reply: Reply, decode: string -> Option<seq<Value>>)
    ensures var r := ParseMenuText(hasModel, reply, decode);
      r != [] ==> hasModel && reply.Text? && SliceJson(reply.text).Some?
                  && decode(SliceJson(reply.text).value) == Some(r)
  {
  }

  // ------------------------------------------------------------ merging

  /** An item with a truthy name. */
  predicate Named(d: Dict) {
    Truthy(Get(d, "name", Nil))
  }

  /** Every truthy name is a string (`.lower()` raises on anything else). */
  predicate NamesAreText(items: seq<Dict>) {
    forall i :: 0 <= i < |items| && Named(items[i]) ==> items[i]["name"].Str?
  }

  /** The lower-cased name of a named item. */
  function Key(d: Dict): string {
    if "name" in d && d["name"].Str? then Lower(d["name"].s) else ""
  }

  function VisionNames(vision: seq<Dict>): set<string> {
    set i | 0 <= i < |vision| && Named(vision[i]) :: Key(vision[i])
  }

  /** The names seen once the OCR items of `ocr` have been looked at, for any
      notion of a named item and its name. */
  function SeenAfter<T>(ocr: seq<T>, named: T -> bool, key: T -> string, vision: set<string>): set<string> {
    if ocr == [] then vision
    else
      var last := ocr[|ocr| - 1];
      SeenAfter(ocr[..|ocr| - 1], named, key, vision) + (if named(last) then {key(last)} else {})
  }

  /** The OCR items appended: named, and not a name seen before. */
  function OcrAdded<T>(ocr: seq<T>, named: T -> bool, key: T -> string, vision: set<string>): seq<T> {
    if ocr == [] then []
    else
      var init, last := ocr[..|ocr| - 1], ocr[|ocr| - 1];
      OcrAdded(init, named, key, vision)
        + (if named(last) && key(last) !in SeenAfter(init, named, key, vision) then [last] else [])
  }

  /** `merge_menu_items`; None where `.lower()` raises on a truthy name that is
      not text. With one list empty the other comes back without a look at
      its names; otherwise the vision names are all read first, so the merge
      raises exactly when either list has such a name. */
  function Merged(vision: seq<Dict>, ocr: seq<Dict>): Option<seq<Dict>> {
    if vision == [] && ocr == [] then Some([])
    else if vision == [] then Some(ocr)
    else if ocr == [] then Some(vision)
    else if !NamesAreText(vision) || !NamesAreText(ocr) then None
    else Some(vision + OcrAdded(ocr, Named, Key, VisionNames(vision)))
  }

  method MergeMenuItems(vision: seq<Dict>, ocr: seq<Dict>) returns (merged: Option<seq<Dict>>)
    ensures merged == Merged(vision, ocr)
  {
    if vision == [] && ocr == [] {
      return Some([]);
    }
    if vision == [] {
      return Some(ocr);
    }
    if ocr == [] {
      return Some(vision);
    }
    if !NamesAreText(vision) {
      return None;
    }
    var m := vision;
    var names := VisionNames(vision);
    ghost var vn := names;
    for i := 0 to |ocr|
      invariant m == vision + OcrAdded(ocr[..i], Named, Key, vn)
      invariant names == SeenAfter(ocr[..i], Named, Key, vn)
      invariant NamesAreText(ocr[..i])
    {
      var item := ocr[i];
      assert ocr[..i + 1][..i] == ocr[..i];
      if !Named(item) {
        continue;
      }
      if !item["name"].Str? {
        return None;
      }
      var key := Lower(item["name"].s);
      if key !in names {
        m := m + [item];
        names := names + {key};
      }
    }
    assert ocr[..|ocr|] == ocr;
    return Some(m);
  }

  /** The names of `items`. */
  function Keys<T>(items: seq<T>, key: T -> string): set<string> {
    if items == [] then {} else Keys(items[..|items| - 1], key) + {key(items[|items| - 1])}
  }

  lemma {:induction false} KeysSpec<T>(items: seq<T>, key: T -> string)
    ensures forall k :: k in Keys(items, key) <==> exists j :: 0 <= j < |items| && key(items[j]) == k
  {
    if items != [] {
      var init := items[..|items| - 1];
      KeysSpec(init, key);
      forall k | k in Keys(items, key)
        ensures exists j :: 0 <= j < |items| && key(items[j]) == k
      {
        if k in Keys(init, key) {
          var j :| 0 <= j < |init| && key(init[j]) == k;
          assert items[j] == init[j];
        } else {
          assert key(items[|items| - 1]) == k;
        }
      }
      forall k | exists j :: 0 <= j < |items| && key(items[j]) == k
        ensures k in Keys(items, key)
      {
        var j :| 0 <= j < |items| && key(items[j]) == k;
        if j < |init| {
          assert init[j] == items[j];
        }
      }
    }
  }

  /** The added items are named items of the OCR list. */
  lemma {:induction false} OcrAddedFrom<T>(ocr: seq<T>, named: T -> bool, key: T -> string, vision: set<string>)
    ensures forall x :: x in OcrAdded(ocr, named, key, vision) ==> named(x) && x in ocr
  {
    if ocr != [] {
      var init, last := ocr[..|ocr| - 1], ocr[|ocr| - 1];
      OcrAddedFrom(init, named, key, vision);
      var a0 := OcrAdded(init, named, key, vision);
      var a := OcrAdded(ocr, named, key, vision);
      assert a == a0 + (if named(last) && key(last) !in SeenAfter(init, named, key, vision) then [last] else []);
      assert forall x :: x in init ==> x in ocr;
    }
  }

  /** The names seen are the vision names and those of the added items. */
  lemma {:induction false} SeenIsAdded<T>(ocr: seq<T>, named: T -> bool, key: T -> string, vision: set<string>)
    ensures SeenAfter(ocr, named, key, vision) == vision + Keys(OcrAdded(ocr, named, key, vision), key)
  {
    if ocr != [] {
      var init, last := ocr[..|ocr| - 1], ocr[|ocr| - 1];
      SeenIsAdded(init, named, key, vision);
      var a0 := OcrAdded(init, named, key, vision);
      if named(last) && key(last) !in SeenAfter(init, named, key, vision) {
        assert (a0 + [last])[..|a0|] == a0;
        assert Keys(a0 + [last], key) == Keys(a0, key) + {key(last)};
      } else {
        assert OcrAdded(ocr, named, key, vision) == a0;
      }
    }
  }

  /** The added names are new and pairwise distinct. */
  lemma {:induction false} OcrAddedDistinct<T>(ocr: seq<T>, named: T -> bool, key: T -> string, vision: set<string>)
    ensures forall x :: x in OcrAdded(ocr, named, key, vision) ==> key(x) !in vision
    ensures forall j, l :: 0 <= j < l < |OcrAdded(ocr, named, key, vision)| ==>
      key(OcrAdded(ocr, named, key, vision)[j]) != key(OcrAdded(ocr, named, key, vision)[l])
  {
    if ocr != [] {
      var init, last := ocr[..|ocr| - 1], ocr[|ocr| - 1];
      OcrAddedDistinct(init, named, key, vision);
      var a0 := OcrAdded(init, named, key, vision);
      if named(last) && key(last) !in SeenAfter(init, named, key, vision) {
        SeenIsAdded(init, named, key, vision);
        KeysSpec(a0, key);
        var a := a0 + [last];
        assert OcrAdded(ocr, named, key, vision) == a;
        assert forall j :: 0 <= j < |a0| ==> a[j] == a0[j];
      } else {
        assert OcrAdded(ocr, named, key, vision) == a0;
      }
    }
  }

  /** Every named OCR item's name has been seen by the end. */
  lemma {:induction false} SeenHasAll<T>(ocr: seq<T>, named: T -> bool, key: T -> string, vision: set<string>)
    ensures forall i :: 0 <= i < |ocr| && named(ocr[i]) ==> key(ocr[i]) in SeenAfter(ocr, named, key, vision)
    ensures vision <= SeenAfter(ocr, named, key, vision)
  {
    if ocr != [] {
      SeenHasAll(ocr[..|ocr| - 1], named, key, vision);
    }
  }

  /** What the merge promises: with both lists non-empty, all vision items come
      first and in order, then the OCR items whose lower-cased names are new,
      each name once; a named OCR item not added shares its name with a vision
      item or an earlier OCR item. With one list empty the other is returned as
      it is, whatever its names hold; with both non-empty, a truthy name that is
      not text in either list makes the merge raise. */
  lemma MergeFacts(vision: seq<Dict>, ocr: seq<Dict>)
    ensures vision == [] ==> Merged(vision, ocr) == Some(ocr)
    ensures ocr == [] ==> Merged(vision, ocr) == Some(vision)
    ensures vision != [] && ocr != [] ==>
      (Merged(vision, ocr).None? <==>
         exists i :: (0 <= i < |vision| && Named(vision[i]) && !vision[i]["name"].Str?)
                     || (0 <= i < |ocr| && Named(ocr[i]) && !ocr[i]["name"].Str?))
    ensures vision != [] && ocr != [] && Merged(vision, ocr).Some? ==>
      var m := Merged(vision, ocr).value;
      var vn := VisionNames(vision);
      |m| >= |vision| && m[..|vision|] == vision
      && (forall j :: |vision| <= j < |m| ==> Named(m[j]) && m[j] in ocr && Key(m[j]) !in vn)
      && (forall j, l :: |vision| <= j < l < |m| ==> Key(m[j]) != Key(m[l]))
      && (forall i :: 0 <= i < |ocr| && Named(ocr[i]) ==>
            Key(ocr[i]) in vn || exists j :: |vision| <= j < |m| && Key(m[j]) == Key(ocr[i]))
  {
    if vision != [] && ocr != [] && NamesAreText(vision) && NamesAreText(ocr) {
      assert Merged(vision, ocr) == Some(vision + OcrAdded(ocr, Named, Key, VisionNames(vision)));
      AppendedFacts(vision, ocr, Named, Key, VisionNames(vision));
    }
  }

  /** The merge facts for any item type, naming test and key. */
  lemma AppendedFacts<T>(vision: seq<T>, ocr: seq<T>, named: T -> bool, key: T -> string, vn: set<string>)
    ensures var a := OcrAdded(ocr, named, key, vn);
      var m := vision + a;
      |m| >= |vision| && m[..|vision|] == vision
      && (forall j :: |vision| <= j < |m| ==> named(m[j]) && m[j] in ocr && key(m[j]) !in vn)
      && (forall j, l :: |vision| <= j < l < |m| ==> key(m[j]) != key(m[l]))
      && (forall i :: 0 <= i < |ocr| && named(ocr[i]) ==>
            key(ocr[i]) in vn || exists j :: |vision| <= j < |m| && key(m[j]) == key(ocr[i]))
  {
    var a := OcrAdded(ocr, named, key, vn);
    var m := vision + a;
    OcrAddedFrom(ocr, named, key, vn);
    OcrAddedDistinct(ocr, named, key, vn);
    SeenIsAdded(ocr, named, key, vn);
    KeysSpec(a, key);
    SeenHasAll(ocr, named, key, vn);
    assert forall j :: |vision| <= j < |m| ==> m[j] == a[j - |vision|];
    forall i | 0 <= i < |ocr| && named(ocr[i]) && key(ocr[i]) !in vn
      ensures exists j :: |vision| <= j < |m| && key(m[j]) == key(ocr[i])
    {
      var j :| 0 <= j < |a| && key(a[j]) == key(ocr[i]);
      assert m[j + |vision|] == a[j];
    }
  }
}
