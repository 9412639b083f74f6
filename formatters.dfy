/** The display formatters of the web front end: truncating text, formatting
    phone numbers, reading cuisine types and operating hours, and parsing JSON
    with a fallback. `JSON.parse` is the oracle `parse` (None where it
    throws), and the template-literal text of a number, array or object is the
    oracle `render`. */
module Formatters {
  import opened Util

  /** A JavaScript value; an object keeps its keys in insertion order. */
  datatype Js =
    | JsStr(s: string)
    | JsNum(n: real)
    | JsBool(b: bool)
    | JsNull
    | JsUndefined
    | JsArray(elems: seq<Js>)
    | JsObject(entries: seq<(string, Js)>)

  /** JavaScript truthiness: empty text, zero, false, null and undefined are
      falsy; every array and object is truthy. */
  predicate JsTruthy(v: Js) {
    match v
    case JsStr(s) => s != ""
    case JsNum(n) => n != 0.0
    case JsBool(b) => b
    case JsNull => false
    case JsUndefined => false
    case _ => true
  }

  /** The value of key `k` among the entries, undefined when there is none. */
  function Lookup(entries: seq<(string, Js)>, k: string): Js {
    if entries == [] then JsUndefined
    else if entries[0].0 == k then entries[0].1
    else Lookup(entries[1..], k)
  }

  /** `v.k` on a value whose property access does not throw: an object's own
      key; nothing else has the properties read here. */
  function Prop(v: Js, k: string): Js {
    if v.JsObject? then Lookup(v.entries, k) else JsUndefined
  }

  /** The text `${v}` shows. */
  function Show(v: Js, render: Js -> string): string {
    match v
    case JsStr(s) => s
    case JsUndefined => "undefined"
    case JsNull => "null"
    case JsBool(b) => if b then "true" else "false"
    case _ => render(v)
  }

  // ------------------------------------------------------------ truncateText

  /** `slice`'s end position: a negative end counts from the end of the text,
      and the result is clamped to the text. */
  function SliceEnd(length: nat, end: int): (r: nat)
    ensures r <= length
  {
    if end < 0 then (if length + end < 0 then 0 else length + end)
    else if end > length then length else end
  }

  /** `truncateText`: falsy text, or text no longer than `maxLength`, comes
      back as it is; longer text is cut for an ellipsis. */
  function TruncateText(text: Option<string>, maxLength: int): Option<string> {
    if text.None? || text.value == "" || |text.value| <= maxLength then text
    else Some(text.value[..SliceEnd(|text.value|, maxLength - 3)] + "...")
  }

  /** With room for the ellipsis, a long text becomes exactly `maxLength`
      characters: its first `maxLength - 3` and "..."; a short or falsy text is
      unchanged. */
  lemma TruncateFits(text: Option<string>, maxLength: int)
    ensures text.None? || text.value == "" || |text.value| <= maxLength ==> TruncateText(text, maxLength) == text
    ensures text.Some? && |text.value| > maxLength >= 3 ==>
      var r := TruncateText(text, maxLength).value;
      |r| == maxLength && r[..maxLength - 3] == text.value[..maxLength - 3] && IsSuffix("...", r)
  {
    if text.Some? && |text.value| > maxLength >= 3 {
      var r := TruncateText(text, maxLength).value;
      assert r[|r| - 3..] == "...";
    }
  }

  /** Below 3 the end counts from the back of the text, so the result keeps all
      but `3 - maxLength` characters and can be longer than `maxLength`. */
  lemma TruncateSmallMax(text: string, maxLength: int)
    requires text != "" && |text| > maxLength && maxLength < 3
    ensures TruncateText(Some(text), maxLength)
            == Some(text[..if |text| + maxLength - 3 < 0 then 0 else |text| + maxLength - 3] + "...")
  {
  }

  // ------------------------------------------------------------ formatPhoneNumber

  /** `(ddd) ddd-dddd` of ten digits. */
  function PhoneLayout(d: string): string
    requires |d| == 10
  {
    "(" + d[..3] + ") " + d[3..6] + "-" + d[6..]
  }

  /** `formatPhoneNumber`: empty for falsy input; ten digits once every
      non-digit is removed are laid out, anything else is returned as given. */
  function FormatPhoneNumber(phoneNumber: Option<string>): string {
    if phoneNumber.None? || phoneNumber.value == "" then ""
    else
      var cleaned := Filter(phoneNumber.value, IsDigit);
      if |cleaned| == 10 then PhoneLayout(cleaned) else phoneNumber.value
  }

  lemma {:induction false} FilterConcat(a: string, b: string, keep: char -> bool)
    ensures Filter(a + b, keep) == Filter(a, keep) + Filter(b, keep)
    decreases |a|
  {
    if a == [] {
      assert a + b == b;
    } else {
      assert (a + b)[0] == a[0] && (a + b)[1..] == a[1..] + b;
      FilterConcat(a[1..], b, keep);
    }
  }

  lemma {:induction false} FilterDigits(d: string)
    requires AllDigits(d)
    ensures Filter(d, IsDigit) == d
    decreases |d|
  {
    if d != [] {
      FilterDigits(d[1..]);
    }
  }

  /** The layout keeps the digits and adds none. */
  lemma LayoutDigits(d: string)
    requires |d| == 10 && AllDigits(d)
    ensures Filter(PhoneLayout(d), IsDigit) == d
    ensures |PhoneLayout(d)| == 14
  {
    var a, b, c := d[..3], d[3..6], d[6..];
    FilterDigits(a);
    FilterDigits(b);
    FilterDigits(c);
    SeparatorsHaveNoDigits();
    assert PhoneLayout(d) == "(" + a + ") " + b + "-" + c;
    FilterAround("(", a, ") ", b, "-", c, IsDigit);
    assert a + b + c == d;
  }

  lemma SeparatorsHaveNoDigits()
    ensures Filter("(", IsDigit) == [] && Filter(") ", IsDigit) == [] && Filter("-", IsDigit) == []
  {
  }

  /** Filtering text laid out around three pieces keeps only what the
      separators do not lose. */
  lemma FilterAround(p: string, a: string, q: string, b: string, r: string, c: string, keep: char -> bool)
    requires Filter(p, keep) == [] && Filter(q, keep) == [] && Filter(r, keep) == []
    ensures Filter(p + a + q + b + r + c, keep) == Filter(a, keep) + Filter(b, keep) + Filter(c, keep)
  {
    var fa, fb := Filter(a, keep), Filter(b, keep);
    FilterConcat(p, a, keep);
    assert Filter(p + a, keep) == fa;
    FilterConcat(p + a, q, keep);
    assert Filter(p + a + q, keep) == fa;
    FilterConcat(p + a + q, b, keep);
    FilterConcat(p + a + q + b, r, keep);
    assert Filter(p + a + q + b + r, keep) == fa + fb;
    FilterConcat(p + a + q + b + r, c, keep);
  }

  lemma {:induction false} FilterKeeps(s: string)
    ensures AllDigits(Filter(s, IsDigit))
  {
  }

  /** Formatting never changes the digits of a number, and formatting a
      formatted number changes nothing. */
  lemma PhoneDigitsKept(phoneNumber: Option<string>)
    ensures Filter(FormatPhoneNumber(phoneNumber), IsDigit)
            == (if phoneNumber.None? then "" else Filter(phoneNumber.value, IsDigit))
    ensures FormatPhoneNumber(Some(FormatPhoneNumber(phoneNumber))) == FormatPhoneNumber(phoneNumber)
  {
    if phoneNumber.Some? && phoneNumber.value != "" {
      var cleaned := Filter(phoneNumber.value, IsDigit);
      if |cleaned| == 10 {
        FilterKeeps(phoneNumber.value);
        LayoutDigits(cleaned);
      }
    }
  }

  /** Ten digits, whatever surrounds them, give the fixed layout of 14
      characters. */
  lemma PhoneTenDigits(phoneNumber: string)
    requires |Filter(phoneNumber, IsDigit)| == 10
    ensures FormatPhoneNumber(Some(phoneNumber)) == PhoneLayout(Filter(phoneNumber, IsDigit))
    ensures |FormatPhoneNumber(Some(phoneNumber))| == 14
  {
    FilterKeeps(phoneNumber);
    LayoutDigits(Filter(phoneNumber, IsDigit));
  }

  // ------------------------------------------------------------ getCuisineTypes

  /** `getCuisineTypes`: an array is returned as it is, text is split on commas
      and each piece trimmed, and anything else gives no types. */
  function GetCuisineTypes(restaurant: Js): seq<Js> {
    if !JsTruthy(restaurant) then []
    else
      var cuisine := Prop(restaurant, "cuisine_type");
      if cuisine.JsArray? then cuisine.elems
      else if cuisine.JsStr? then Trimmed(Split(cuisine.s, ','))
      else []
  }

  function Trimmed(pieces: seq<string>): (r: seq<Js>)
    ensures |r| == |pieces|
    ensures forall k :: 0 <= k < |pieces| ==> r[k] == JsStr(Strip(pieces[k]))
  {
    if pieces == [] then [] else [JsStr(Strip(pieces[0]))] + Trimmed(pieces[1..])
  }

  /** Trimming only removes characters. */
  lemma StripWithin(s: string, c: char)
    requires c !in s
    ensures c !in Strip(s)
  {
    var l := TrimLeft(s);
    assert c !in l by {
      forall i | 0 <= i < |l|
        ensures l[i] != c
      {
        assert l[i] == s[|s| - |l| + i];
      }
    }
    var r := TrimRight(l);
    forall i | 0 <= i < |r|
      ensures r[i] != c
    {
      assert r[i] == l[i];
    }
  }

  /** Splitting on a comma and joining with one restores the text. */
  lemma {:induction false} SplitJoin(s: string, c: char)
    ensures Join([c], Split(s, c)) == s
    decreases |s|
  {
    match IndexOf(s, c)
    case None =>
    case Some(i) =>
      var rest := Split(s[i + 1..], c);
      SplitJoin(s[i + 1..], c);
      var parts := [s[..i]] + rest;
      assert Split(s, c) == parts;
      assert parts[0] == s[..i] && parts[1..] == rest && |parts| >= 2;
      assert Join([c], parts) == s[..i] + [c] + Join([c], rest);
      assert s == s[..i] + [c] + s[i + 1..];
  }

  /** Text gives one trimmed piece per comma-separated part, none of them with
      a comma, and the untrimmed parts rejoined with commas are the text. */
  lemma CuisineText(restaurant: Js, text: string)
    requires JsTruthy(restaurant) && Prop(restaurant, "cuisine_type") == JsStr(text)
    ensures var r := GetCuisineTypes(restaurant);
      |r| == |Split(text, ',')| >= 1
      && (forall k :: 0 <= k < |r| ==> r[k].JsStr? && ',' !in r[k].s && r[k].s == Strip(Split(text, ',')[k]))
      && Join(",", Split(text, ',')) == text
  {
    var pieces := Split(text, ',');
    var r := Trimmed(pieces);
    assert GetCuisineTypes(restaurant) == r;
    forall k | 0 <= k < |r|
      ensures r[k].JsStr? && ',' !in r[k].s && r[k].s == Strip(pieces[k])
    {
      StripWithin(pieces[k], ',');
    }
    SplitJoin(text, ',');
  }

  /** No restaurant, or a cuisine type that is neither text nor an array, gives
      no types; an array comes back as it is. */
  lemma CuisineOtherwise(restaurant: Js)
    ensures !JsTruthy(restaurant) ==> GetCuisineTypes(restaurant) == []
    ensures JsTruthy(restaurant) && Prop(restaurant, "cuisine_type").JsArray? ==>
      GetCuisineTypes(restaurant) == Prop(restaurant, "cuisine_type").elems
    ensures var c := Prop(restaurant, "cuisine_type"); !c.JsArray? && !c.JsStr? ==> GetCuisineTypes(restaurant) == []
  {
  }

  // ------------------------------------------------------------ formatOperatingHours

  const HoursNotAvailable: string := "Hours not available"

  /** `Object.keys` with each key's value: an object's entries, an array's or
      a string's positions; None where it throws (null or undefined). */
  function Entries(v: Js): Option<seq<(string, Js)>> {
    match v
    case JsObject(entries) => Some(entries)
    case JsArray(elems) => Some(seq(|elems|, i requires 0 <= i < |elems| => (NatToString(i), elems[i])))
    case JsStr(s) => Some(seq(|s|, i requires 0 <= i < |s| => (NatToString(i), JsStr([s[i]]))))
    case JsNull => None
    case JsUndefined => None
    case _ => Some([])
  }

  /** `${day}: ${v.open} - ${v.close}`, None where reading `open` throws. */
  function Line(day: string, v: Js, render: Js -> string): Option<string> {
    if v.JsNull? || v.JsUndefined? then None
    else Some(day + ": " + Show(Prop(v, "open"), render) + " - " + Show(Prop(v, "close"), render))
  }

  /** The line of every entry, in order; None where any line throws. */
  function Lines(entries: seq<(string, Js)>, render: Js -> string): Option<seq<string>>
    decreases |entries|
  {
    if entries == [] then Some([])
    else
      var n := |entries| - 1;
      match Lines(entries[..n], render)
      case None => None
      case Some(ls) =>
        match Line(entries[n].0, entries[n].1, render)
        case None => None
        case Some(l) => Some(ls + [l])
  }

  /** There are lines exactly when every entry has one, and then they are those
      lines, in order. */
  lemma {:induction false} LinesSpec(entries: seq<(string, Js)>, render: Js -> string)
    ensures var r := Lines(entries, render);
      (r.Some? <==> forall k :: 0 <= k < |entries| ==> Line(entries[k].0, entries[k].1, render).Some?)
      && (r.Some? ==> |r.value| == |entries|)
      && (r.Some? ==> forall k :: 0 <= k < |entries| ==> Some(r.value[k]) == Line(entries[k].0, entries[k].1, render))
    decreases |entries|
  {
    if entries != [] {
      var n := |entries| - 1;
      LinesSpec(entries[..n], render);
      assert forall k :: 0 <= k < n ==> entries[..n][k] == entries[k];
    }
  }

  /** `formatOperatingHours`: text is parsed first; the lines of all days are
      joined with ", ", and the fallback text stands in for falsy or empty
      hours and for anything that throws. */
  function FormatOperatingHours(hours: Js, parse: string -> Option<Js>, render: Js -> string): string {
    if !JsTruthy(hours) then HoursNotAvailable
    else
      var parsed := if hours.JsStr? then parse(hours.s) else Some(hours);
      match parsed
      case None => HoursNotAvailable
      case Some(h) => DaysText(h, render)
  }

  /** The day lines of an already parsed value joined with ", ", or the
      fallback text when it has no days or a line throws. */
  function DaysText(h: Js, render: Js -> string): string {
    match Entries(h)
    case None => HoursNotAvailable
    case Some(days) =>
      if days == [] then HoursNotAvailable
      else
        match Lines(days, render)
        case None => HoursNotAvailable
        case Some(lines) => Join(", ", lines)
  }

  /** The hours as a value: text parsed, anything else as given. */
  function HoursValue(hours: Js, parse: string -> Option<Js>): Option<Js> {
    if hours.JsStr? then parse(hours.s) else Some(hours)
  }

  /** Well-formed hours: truthy, parsed, with at least one day and a line for
      every day. */
  predicate Readable(hours: Js, parse: string -> Option<Js>, render: Js -> string) {
    JsTruthy(hours) && HoursValue(hours, parse).Some?
    && Entries(HoursValue(hours, parse).value).Some? && Entries(HoursValue(hours, parse).value).value != []
    && Lines(Entries(HoursValue(hours, parse).value).value, render).Some?
  }

  /** The fallback text comes back exactly when the hours are not readable;
      otherwise the result is the lines of the days joined with ", ", the
      first line leading. */
  lemma HoursFallback(hours: Js, parse: string -> Option<Js>, render: Js -> string)
    ensures FormatOperatingHours(hours, parse, render) == HoursNotAvailable <==> !Readable(hours, parse, render)
    ensures Readable(hours, parse, render) ==>
      var days := Entries(HoursValue(hours, parse).value).value;
      var lines := Lines(days, render).value;
      FormatOperatingHours(hours, parse, render) == Join(", ", lines)
      && IsPrefix(lines[0], FormatOperatingHours(hours, parse, render))
  {
    if Readable(hours, parse, render) {
      var days := Entries(HoursValue(hours, parse).value).value;
      var lines := Lines(days, render).value;
      LinesSpec(days, render);
      assert Some(lines[0]) == Line(days[0].0, days[0].1, render);
      JoinStartsWithFirst(", ", lines);
      var l := lines[0];
      var i := |days[0].0|;
      assert l[i] == ':';
      assert l[i] in Join(", ", lines);
      assert ':' !in HoursNotAvailable;
    }
  }

  /** For an object whose days each carry an object, every day gets its line
      `day: open - close`, in the order of the keys. */
  lemma HoursOfObject(entries: seq<(string, Js)>, parse: string -> Option<Js>, render: Js -> string)
    requires entries != [] && forall k :: 0 <= k < |entries| ==> entries[k].1.JsObject?
    ensures var lines := seq(|entries|, k requires 0 <= k < |entries| =>
                              entries[k].0 + ": " + Show(Prop(entries[k].1, "open"), render)
                              + " - " + Show(Prop(entries[k].1, "close"), render));
      FormatOperatingHours(JsObject(entries), parse, render) == Join(", ", lines)
  {
    var lines := seq(|entries|, k requires 0 <= k < |entries| =>
                      entries[k].0 + ": " + Show(Prop(entries[k].1, "open"), render)
                      + " - " + Show(Prop(entries[k].1, "close"), render));
    forall k | 0 <= k < |entries|
      ensures Line(entries[k].0, entries[k].1, render) == Some(lines[k])
    {
    }
    var r := Lines(entries, render);
    LinesSpec(entries, render);
    assert r.Some?;
    assert r.value == lines;
    assert Entries(JsObject(entries)) == Some(entries);
  }

  // ------------------------------------------------------------ safeJsonParse

  /** `safeJsonParse`: the parsed value, or the fallback where parsing throws. */
  function SafeJsonParse(jsonString: string, fallback: Js, parse: string -> Option<Js>): (r: Js)
    ensures parse(jsonString).None? ==> r == fallback
    ensures parse(jsonString).Some? ==> r == parse(jsonString).value
  {
    match parse(jsonString)
    case Some(v) => v
    case None => fallback
  }

  /** Reading text hours is `safeJsonParse` with a `null` fallback, or with
      its default fallback `{}`: text that does not parse gives a value with
      no days, which falls back to the same text a throwing parse does. */
  lemma HoursThroughSafeParse(s: string, parse: string -> Option<Js>, render: Js -> string)
    requires s != ""
    ensures FormatOperatingHours(JsStr(s), parse, render) == DaysText(SafeJsonParse(s, JsNull, parse), render)
    ensures FormatOperatingHours(JsStr(s), parse, render) == DaysText(SafeJsonParse(s, JsObject([]), parse), render)
  {
  }
}
