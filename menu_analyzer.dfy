/** The menu structure analysis of the embedding service: section headers found
    by scanning the lines, the dominant price notation chosen by counting, and a
    layout guess (descriptions in parentheses, size columns). The regular
    expressions are given as the `Patterns` oracles: whether a stripped line is a
    header, how many prices of a notation the text holds, whether a line holds a
    parenthetical of at least five characters, and the size words of a line. */
module MenuAnalyzer {
  import opened Util

  datatype Patterns = Patterns(
    isHeader: string -> bool,
    formatCount: (Format, string) -> nat,
    hasLongParen: string -> bool,
    sizeMatches: string -> seq<string>)

  datatype Section = Section(name: string, startLine: int, endLine: int, content: seq<string>)

  /** The five price notations, in the order the counts are listed. */
  datatype Format = NumericOnly | WithCurrency | WithSlash | WithDecimal | WithDecimalSlash

  datatype PriceFormat = PriceFormat(format: Format, pattern: string)

  datatype Layout = Layout(layoutType: string, hasDescriptions: bool, hasSizeColumns: bool,
                           sizeColumns: seq<string>)

  datatype Structure = Structure(sections: seq<Section>, priceFormat: PriceFormat, layout: Layout)

  // ------------------------------------------------------------ sections

  /** A line as the scan sees it, once stripped: blank, a header, or content. */
  datatype Line = Blank | Header(text: string) | Content(text: string)

  function Classify(raw: string, isHeader: string -> bool): (r: Line)
    ensures !r.Blank? ==> r.text != ""
  {
    var line := Strip(raw);
    if line == "" then Blank else if isHeader(line) then Header(line) else Content(line)
  }

  function Kinds(lines: seq<string>, classify: string -> Line): (r: seq<Line>)
    ensures |r| == |lines| && forall i :: 0 <= i < |lines| ==> r[i] == classify(lines[i])
  {
    seq(|lines|, i requires 0 <= i < |lines| => classify(lines[i]))
  }

  /** The lines as the scan classifies them. */
  function LineKinds(lines: seq<string>, isHeader: string -> bool): (r: seq<Line>)
    ensures |r| == |lines| && NonEmptyTexts(r)
  {
    var ks := Kinds(lines, l => Classify(l, isHeader));
    assert forall i :: 0 <= i < |lines| ==> ks[i] == Classify(lines[i], isHeader);
    ks
  }

  /** The scan's state: the sections closed so far and the one being filled. */
  datatype Scan = Scan(sections: seq<Section>, current: Option<Section>)

  /** Closes the current section, when there is one with a name. */
  function Closed(st: Scan): seq<Section> {
    st.sections + (if st.current.Some? && st.current.value.name != "" then [st.current.value] else [])
  }

  /** One line of the scan: blank lines are skipped; a header closes the current
      section and opens a new one; any other line joins the current section, and
      is dropped before the first header. */
  function ScanLine(st: Scan, i: int, line: Line): Scan {
    match line
    case Blank => st
    case Header(t) => Scan(Closed(st), Some(Section(t, i, i, [])))
    case Content(t) =>
      if st.current.Some? then
        Scan(st.sections, Some(st.current.value.(content := st.current.value.content + [t], endLine := i)))
      else st
  }

  /** The scan after the first `n` lines. */
  function ScanLines(ks: seq<Line>, n: nat): Scan
    requires n <= |ks|
  {
    if n == 0 then Scan([], None) else ScanLine(ScanLines(ks, n - 1), n - 1, ks[n - 1])
  }

  /** The stripped non-blank lines. */
  function NonBlank(lines: seq<string>): (r: seq<string>)
    ensures forall x :: x in r ==> x != ""
  {
    if lines == [] then []
    else (if Strip(lines[0]) != "" then [Strip(lines[0])] else []) + NonBlank(lines[1..])
  }

  /** Every line that is not blank is kept, stripped. */
  lemma {:induction false} NonBlankKeeps(lines: seq<string>, i: nat)
    requires i < |lines| && Strip(lines[i]) != ""
    ensures Strip(lines[i]) in NonBlank(lines)
    decreases i
  {
    if i > 0 {
      NonBlankKeeps(lines[1..], i - 1);
      assert lines[1..][i - 1] == lines[i];
    }
  }

  /** The sections the scan finds in `lines`. */
  function Found(lines: seq<string>, isHeader: string -> bool): seq<Section> {
    Closed(ScanLines(LineKinds(lines, isHeader), |lines|))
  }

  /** The section that stands for the whole text when no header is found. */
  function WholeMenu(lines: seq<string>): Section {
    Section("Menu Items", 0, |lines| - 1, NonBlank(lines))
  }

  /** `_identify_sections`. */
  function Sections(text: string, isHeader: string -> bool): seq<Section> {
    var lines := Split(text, '\n');
    var found := Found(lines, isHeader);
    if found == [] then [WholeMenu(lines)] else found
  }

  method ScanSections(lines: seq<string>, classify: string -> Line) returns (sections: seq<Section>)
    ensures sections == Closed(ScanLines(Kinds(lines, classify), |lines|))
  {
    ghost var ks := Kinds(lines, classify);
    sections := [];
    var current: Option<Section> := None;
    for i := 0 to |lines|
      invariant Scan(sections, current) == ScanLines(ks, i)
    {
      var kind := classify(lines[i]);
      assert ScanLines(ks, i + 1) == ScanLine(Scan(sections, current), i, kind);
      match kind
      case Blank =>
      case Header(line) =>
        if current.Some? && current.value.name != "" {
          sections := sections + [current.value];
        }
        current := Some(Section(line, i, i, []));
      case Content(line) =>
        if current.Some? {
          current := Some(current.value.(content := current.value.content + [line], endLine := i));
        }
    }
    if current.Some? && current.value.name != "" {
      sections := sections + [current.value];
    }
  }

  method IdentifySections(text: string, isHeader: string -> bool) returns (sections: seq<Section>)
    ensures sections == Sections(text, isHeader)
  {
    var lines := Split(text, '\n');
    sections := ScanSections(lines, l => Classify(l, isHeader));
    if sections == [] {
      sections := [WholeMenu(lines)];
    }
  }

  /** How many of the first `n` lines are headers. */
  function HeaderCount(ks: seq<Line>, n: nat): nat
    requires n <= |ks|
  {
    if n == 0 then 0 else HeaderCount(ks, n - 1) + (if ks[n - 1].Header? then 1 else 0)
  }

  /** No header or content line is empty once stripped. */
  predicate NonEmptyTexts(ks: seq<Line>) {
    forall i :: 0 <= i < |ks| && !ks[i].Blank? ==> ks[i].text != ""
  }

  /** A section opened by the header line `startLine` and named by it, spanning
      lines up to `endLine` of the first `n`, with non-blank content lines. */
  predicate SectionOk(ks: seq<Line>, s: Section, n: nat) {
    0 <= s.startLine <= s.endLine < n <= |ks| && ks[s.startLine] == Header(s.name) && s.name != ""
    && forall c :: c in s.content ==> c != ""
  }

  /** Every section is well formed, and each ends before the next begins. */
  predicate SectionsOk(ks: seq<Line>, ss: seq<Section>, n: nat) {
    (forall k :: 0 <= k < |ss| ==> SectionOk(ks, ss[k], n))
    && (forall k, l :: 0 <= k < l < |ss| ==> ss[k].endLine < ss[l].startLine)
  }

  /** The scan keeps one section per header line read so far, and has closed
      none before it opened one. */
  lemma {:induction false} ScanCount(ks: seq<Line>, n: nat)
    requires n <= |ks| && NonEmptyTexts(ks)
    ensures var st := ScanLines(ks, n);
      |Closed(st)| == HeaderCount(ks, n) && (st.current.None? ==> st.sections == [])
      && (st.current.Some? ==> st.current.value.name != "")
  {
    if n > 0 {
      ScanCount(ks, n - 1);
    }
  }

  /** Every section the scan holds is well formed over the lines read so far. */
  lemma {:induction false} ScanSectionsOk(ks: seq<Line>, n: nat)
    requires n <= |ks| && NonEmptyTexts(ks)
    ensures forall s :: s in Closed(ScanLines(ks, n)) ==> SectionOk(ks, s, n)
  {
    if n > 0 {
      ScanSectionsOk(ks, n - 1);
      var st := ScanLines(ks, n - 1);
      assert ScanLines(ks, n) == ScanLine(st, n - 1, ks[n - 1]);
      assert forall s :: SectionOk(ks, s, n - 1) ==> SectionOk(ks, s, n);
      match ks[n - 1]
      case Blank =>
      case Header(t) =>
        assert Closed(ScanLines(ks, n)) == Closed(st) + [Section(t, n - 1, n - 1, [])];
      case Content(t) =>
        if st.current.Some? {
          var cur := st.current.value;
          ScanCount(ks, n - 1);
          assert cur in Closed(st);
          var cur' := cur.(content := cur.content + [t], endLine := n - 1);
          assert Closed(ScanLines(ks, n)) == st.sections + [cur'];
          assert forall s :: s in st.sections ==> s in Closed(st);
        }
    }
  }

  /** Each section ends before the next begins, and all end before line `n`. */
  predicate Ordered(c: seq<Section>, n: int) {
    (forall k, l :: 0 <= k < l < |c| ==> c[k].endLine < c[l].startLine)
    && forall k :: 0 <= k < |c| ==> c[k].endLine < n
  }

  /** The sections the scan holds follow each other and end before the line
      being read. */
  lemma {:induction false} ScanOrdered(ks: seq<Line>, n: nat)
    requires n <= |ks| && NonEmptyTexts(ks)
    ensures Ordered(Closed(ScanLines(ks, n)), n)
  {
    if n > 0 {
      ScanOrdered(ks, n - 1);
      var st := ScanLines(ks, n - 1);
      var c := Closed(st);
      assert ScanLines(ks, n) == ScanLine(st, n - 1, ks[n - 1]);
      match ks[n - 1]
      case Blank =>
        assert ScanLines(ks, n) == st;
      case Header(t) =>
        var c' := Closed(ScanLines(ks, n));
        assert c' == c + [Section(t, n - 1, n - 1, [])];
        assert forall k :: 0 <= k < |c| ==> c'[k] == c[k];
      case Content(t) =>
        if st.current.Some? {
          var cur := st.current.value;
          var cur' := cur.(content := cur.content + [t], endLine := n - 1);
          ScanCount(ks, n - 1);
          assert c == st.sections + [cur];
          var c' := Closed(ScanLines(ks, n));
          assert c' == st.sections + [cur'];
          assert forall k :: 0 <= k < |st.sections| ==> c'[k] == c[k];
          assert c'[|st.sections|].startLine == c[|st.sections|].startLine;
        }
    }
  }

  /** After the last line there is one section per header line, each well formed
      and ending before the next one starts. */
  lemma ScanShape(ks: seq<Line>)
    requires NonEmptyTexts(ks)
    ensures |Closed(ScanLines(ks, |ks|))| == HeaderCount(ks, |ks|)
    ensures SectionsOk(ks, Closed(ScanLines(ks, |ks|)), |ks|)
  {
    var c := Closed(ScanLines(ks, |ks|));
    ScanCount(ks, |ks|);
    ScanSectionsOk(ks, |ks|);
    ScanOrdered(ks, |ks|);
    assert forall k :: 0 <= k < |c| ==> c[k] in c;
  }

  /** Without any header line the whole text is one `Menu Items` section over
      lines 0 to len-1 holding every non-blank stripped line; otherwise there is
      one section per header line, in header order, each starting at its header
      and ending before the next one starts. */
  lemma SectionsShape(text: string, isHeader: string -> bool)
    ensures var lines := Split(text, '\n');
      var ks := LineKinds(lines, isHeader);
      var r := Sections(text, isHeader);
      (HeaderCount(ks, |ks|) == 0 ==> r == [WholeMenu(lines)])
      && (HeaderCount(ks, |ks|) > 0 ==> |r| == HeaderCount(ks, |ks|) && SectionsOk(ks, r, |ks|))
  {
    var lines := Split(text, '\n');
    ScanShape(LineKinds(lines, isHeader));
  }

  // ------------------------------------------------------------ price format

  const Formats: seq<Format> := [NumericOnly, WithCurrency, WithSlash, WithDecimal, WithDecimalSlash]

  function FormatName(f: Format): string {
    match f
    case NumericOnly => "numeric_only"
    case WithCurrency => "with_currency"
    case WithSlash => "with_slash"
    case WithDecimal => "with_decimal"
    case WithDecimalSlash => "with_decimal_slash"
  }

  /** The expression handed on for counting price lines of the chosen notation. */
  function PatternOf(f: Format): string {
    match f
    case WithSlash => "(\\d+)\\s*\\/-"
    case WithDecimalSlash => "(\\d+\\.\\d+)\\s*\\/-"
    case WithCurrency => "[$₹€£]\\s*(\\d+(?:\\.\\d+)?)"
    case WithDecimal => "(\\d+\\.\\d+)"
    case NumericOnly => "(?<!\\S)(\\d+)(?!\\d*\\/)(?!\\.\\d)(?!\\d)"
  }

  lemma FormatsComplete()
    ensures forall g: Format :: g in Formats
  {
    forall g: Format ensures g in Formats {
      match g
      case NumericOnly => assert Formats[0] == g;
      case WithCurrency => assert Formats[1] == g;
      case WithSlash => assert Formats[2] == g;
      case WithDecimal => assert Formats[3] == g;
      case WithDecimalSlash => assert Formats[4] == g;
    }
  }

  /** Python's `max` by count: the first element whose count no other exceeds. */
  function FirstMax(fs: seq<Format>, count: Format -> nat): (r: Format)
    requires fs != []
    ensures r in fs
    ensures forall f :: f in fs ==> count(f) <= count(r)
  {
    if |fs| == 1 then fs[0]
    else
      var m := FirstMax(fs[..|fs| - 1], count);
      assert forall f :: f in fs ==> f in fs[..|fs| - 1] || f == fs[|fs| - 1];
      if count(fs[|fs| - 1]) > count(m) then fs[|fs| - 1] else m
  }

  /** Every element before position `k` has a smaller count than the one at `k`. */
  predicate FirstAt(fs: seq<Format>, count: Format -> nat, k: int) {
    0 <= k < |fs| && forall j :: 0 <= j < k ==> count(fs[j]) < count(fs[k])
  }

  /** The maximum `FirstMax` picks is preceded only by elements of smaller count. */
  lemma {:induction false} FirstMaxIsFirst(fs: seq<Format>, count: Format -> nat) returns (k: int)
    requires fs != []
    ensures FirstAt(fs, count, k) && fs[k] == FirstMax(fs, count)
  {
    if |fs| == 1 {
      k := 0;
    } else {
      var init := fs[..|fs| - 1];
      var k0 := FirstMaxIsFirst(init, count);
      if count(fs[|fs| - 1]) > count(FirstMax(init, count)) {
        assert forall j :: 0 <= j < |init| ==> init[j] in init;
        k := |fs| - 1;
      } else {
        assert forall j :: 0 <= j <= k0 ==> fs[j] == init[j];
        k := k0;
      }
    }
  }

  /** `_detect_price_format`. */
  function DetectPriceFormat(text: string, formatCount: (Format, string) -> nat): (r: PriceFormat)
    ensures r.pattern == PatternOf(r.format)
    ensures forall f :: formatCount(f, text) <= formatCount(r.format, text)
  {
    var count := f => formatCount(f, text);
    var f := FirstMax(Formats, count);
    FormatsComplete();
    assert forall g :: count(g) == formatCount(g, text);
    PriceFormat(f, PatternOf(f))
  }

  /** The position of a notation in the list. */
  function Position(f: Format): nat {
    match f
    case NumericOnly => 0
    case WithCurrency => 1
    case WithSlash => 2
    case WithDecimal => 3
    case WithDecimalSlash => 4
  }

  /** Each notation is listed once, at its position. */
  lemma FormatsDistinct(i: nat)
    requires i < |Formats|
    ensures Position(Formats[i]) == i
  {
  }

  /** Ties go to the notation listed first. */
  lemma PriceFormatTies(text: string, formatCount: (Format, string) -> nat, k: int)
    requires 0 <= k < |Formats| && Formats[k] == DetectPriceFormat(text, formatCount).format
    ensures forall j :: 0 <= j < k ==> formatCount(Formats[j], text) < formatCount(Formats[k], text)
  {
    var count := f => formatCount(f, text);
    var k' := FirstMaxIsFirst(Formats, count);
    assert DetectPriceFormat(text, formatCount).format == FirstMax(Formats, count);
    assert k == k' by {
      FormatsDistinct(k);
      FormatsDistinct(k');
    }
  }

  // ------------------------------------------------------------ layout

  function CountWhere(s: seq<string>, p: string -> bool): (r: nat)
    ensures r <= |s|
  {
    if s == [] then 0 else (if p(s[0]) then 1 else 0) + CountWhere(s[1..], p)
  }

  /** The index of the first line with at least two size matches. */
  function FirstSizeLine(lines: seq<string>, sizeMatches: string -> seq<string>): (r: Option<nat>)
    ensures r.Some? ==> r.value < |lines| && |sizeMatches(lines[r.value])| >= 2
    ensures r.Some? ==> forall j :: 0 <= j < r.value ==> |sizeMatches(lines[j])| < 2
    ensures r.None? ==> forall j :: 0 <= j < |lines| ==> |sizeMatches(lines[j])| < 2
  {
    if lines == [] then None
    else if |sizeMatches(lines[0])| >= 2 then Some(0)
    else match FirstSizeLine(lines[1..], sizeMatches)
      case None => None
      case Some(k) => Some(k + 1)
  }

  /** How many lines are searched for size columns. */
  const SizeScanLines: int := 30

  function LayoutOf(text: string, pats: Patterns): Layout {
    var lines := Split(text, '\n');
    var desc := CountWhere(lines, pats.hasLongParen) > 2;
    var head := PyPrefix(lines, SizeScanLines);
    match FirstSizeLine(head, pats.sizeMatches)
    case None => Layout("standard", desc, false, [])
    case Some(k) => Layout("size_column_layout", desc, true, pats.sizeMatches(head[k]))
  }

  /** `_analyze_layout`. */
  method AnalyzeLayout(text: string, pats: Patterns) returns (r: Layout)
    ensures r == LayoutOf(text, pats)
  {
    var lines := Split(text, '\n');
    r := Layout("standard", false, false, []);
    r := r.(hasDescriptions := CountWhere(lines, pats.hasLongParen) > 2);
    var head := PyPrefix(lines, SizeScanLines);
    for i := 0 to |head|
      invariant forall j :: 0 <= j < i ==> |pats.sizeMatches(head[j])| < 2
      invariant r == Layout("standard", CountWhere(lines, pats.hasLongParen) > 2, false, [])
    {
      var matches := pats.sizeMatches(head[i]);
      if |matches| >= 2 {
        r := r.(hasSizeColumns := true, sizeColumns := matches, layoutType := "size_column_layout");
        FirstSizeAt(head, pats.sizeMatches, i);
        return;
      }
    }
    FirstSizeAt(head, pats.sizeMatches, |head|);
  }

  /** When every line before `i` has fewer than two matches, the first size line
      is the first one from `i` on. */
  lemma {:induction false} FirstSizeAt(lines: seq<string>, sizeMatches: string -> seq<string>, i: nat)
    requires i <= |lines| && forall j :: 0 <= j < i ==> |sizeMatches(lines[j])| < 2
    ensures i < |lines| && |sizeMatches(lines[i])| >= 2 ==> FirstSizeLine(lines, sizeMatches) == Some(i)
    ensures i == |lines| ==> FirstSizeLine(lines, sizeMatches).None?
    decreases i
  {
    if i > 0 {
      FirstSizeAt(lines[1..], sizeMatches, i - 1);
    }
  }

  /** Descriptions are reported exactly when more than two lines hold a long
      parenthetical; size columns come from the first of the first 30 lines with
      two size matches, and without one the layout is `standard`. */
  lemma LayoutFacts(text: string, pats: Patterns)
    ensures var lines := Split(text, '\n');
      var r := LayoutOf(text, pats);
      (r.hasDescriptions <==> CountWhere(lines, pats.hasLongParen) > 2)
      && (r.hasSizeColumns <==> exists k :: 0 <= k < |lines| && k < SizeScanLines && |pats.sizeMatches(lines[k])| >= 2)
      && (r.hasSizeColumns ==> r.layoutType == "size_column_layout" && |r.sizeColumns| >= 2)
      && (!r.hasSizeColumns ==> r.layoutType == "standard" && r.sizeColumns == [])
  {
    var lines := Split(text, '\n');
    var head := PyPrefix(lines, SizeScanLines);
    if exists k :: 0 <= k < |lines| && k < SizeScanLines && |pats.sizeMatches(lines[k])| >= 2 {
      var k :| 0 <= k < |lines| && k < SizeScanLines && |pats.sizeMatches(lines[k])| >= 2;
      assert head[k] == lines[k];
    }
  }

  // ------------------------------------------------------------ analysis

  function Analyze(text: string, pats: Patterns): Structure {
    Structure(Sections(text, pats.isHeader), DetectPriceFormat(text, pats.formatCount), LayoutOf(text, pats))
  }

  /** `analyze`: the three analyses, each of the text alone. */
  method AnalyzeMenu(text: string, pats: Patterns) returns (r: Structure)
    ensures r == Analyze(text, pats)
  {
    var sections := IdentifySections(text, pats.isHeader);
    var layout := AnalyzeLayout(text, pats);
    r := Structure(sections, DetectPriceFormat(text, pats.formatCount), layout);
  }
}
