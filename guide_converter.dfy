/** The ECB-guide Markdown converter (ecb_guide_md_prompt.py): a line walk that
    keeps a six-level heading context and the current page, gathers paragraph
    lines into a buffer, and turns each flushed buffer into a `Requirement`.

    `Walk`, `Step` and `Run` restate the walk one line at a time; the
    `Converter` class does it the way the source does, with a cursor and inner
    block-capture loops, and is proved to produce what `Run` describes. */
module GuideConverter {
  import opened Wrappers
  import opened Text
  import opened GuideScan

  // ---------------------------------------------------------------------------
  // The record

  datatype Requirement = Requirement(
    index: string,
    docName: string,
    heading1: string, heading2: string, heading3: string,
    heading4: string, heading5: string, heading6: string,
    requirementNumber: string,
    body: string,
    pageNumber: string,
    hasFootnote: string,
    isFootnote: bool,
    hasTables: bool,
    hasFormulas: bool,
    hasFigures: bool,
    hasReferences: bool,
    tableIds: seq<string>,
    formulaIds: seq<string>,
    figureIds: seq<string>,
    referenceIds: seq<string>)

  /** Heading `j` (0-based) of a heading context, "" past its end. */
  function HeadingAt(hs: seq<string>, j: nat): string
  {
    if j < |hs| then hs[j] else ""
  }

  /** The paragraph lines that are not footnote definitions. */
  function CleanLines(lines: seq<string>): (r: seq<string>)
    ensures |r| <= |lines|
    ensures forall x :: x in r <==> x in lines && !StartsWith(x, "<footnote>")
  {
    if lines == [] then []
    else
      var rest := CleanLines(lines[1..]);
      assert lines == [lines[0]] + lines[1..];
      if StartsWith(lines[0], "<footnote>") then rest else [lines[0]] + rest
  }

  /** `f"{kind}_{counter}_{j}"`. */
  function ElementId(kind: string, counter: nat, j: nat): string
  {
    kind + "_" + NatToString(counter) + "_" + NatToString(j)
  }

  /** The ids `kind_counter_1` .. `kind_counter_n`. */
  function NumberedIds(kind: string, counter: nat, n: nat): (r: seq<string>)
    ensures |r| == n && forall j :: 0 <= j < n ==> r[j] == ElementId(kind, counter, j + 1)
  {
    if n == 0 then [] else NumberedIds(kind, counter, n - 1) + [ElementId(kind, counter, n)]
  }

  /** One id per occurrence, numbered from 1; none when there is no occurrence. */
  function ElementIds(kind: string, counter: nat, body: string, tag: string): (r: seq<string>)
    requires tag != []
    ensures |r| == CountOf(body, tag)
    ensures r != [] <==> Contains(body, tag)
    ensures forall j :: 0 <= j < |r| ==> r[j] == ElementId(kind, counter, j + 1)
  {
    if Contains(body, tag) then NumberedIds(kind, counter, CountOf(body, tag))
    else []
  }

  /** `f"{doc_name.replace('.pdf', '')}_{page}_{n:04d}"`. */
  function IndexOf(docName: string, page: string, n: nat): string
  {
    ReplaceAll(docName, ".pdf", "") + "_" + page + "_" + Pad4(n)
  }

  /** The text a paragraph's record carries: its joined lines, then the
      definitions of the footnotes it marks that the index knows. */
  function ParagraphText(lines: seq<string>, footnotes: map<string, string>): (r: string)
    ensures StartsWith(r, Join("\n", CleanLines(lines)))
  {
    var joined := Join("\n", CleanLines(lines));
    var r := joined + FootnoteText(FootnoteNumbers(joined), footnotes);
    assert r[..|joined|] == joined;
    r
  }

  lemma {:induction false} DedupEmpty(xs: seq<string>)
    ensures Dedup(xs) == [] <==> xs == []
  {
    if xs != [] {
      assert xs[0] in xs;
    }
  }

  /** The record `_process_paragraph` builds from a buffer, with `counter` the
      requirement counter before the increment. */
  function RecordOf(lines: seq<string>, reqNo: string, counter: nat, page: string, hs: seq<string>,
                    docName: string, footnotes: map<string, string>): (r: Requirement)
    ensures r.index == IndexOf(docName, page, counter + 1)
    ensures r.pageNumber == page && r.docName == docName && r.requirementNumber == reqNo
    ensures StartsWith(r.body, Join("\n", CleanLines(lines)))
    ensures r.isFootnote <==> MarkNumbers(Join("\n", CleanLines(lines))) != []
    ensures r.hasFootnote == Join(",", FootnoteNumbers(Join("\n", CleanLines(lines))))
    ensures r.hasTables <==> Contains(r.body, "<table>")
    ensures r.hasFigures <==> Contains(r.body, "<figure>")
    ensures r.hasFormulas <==> Contains(r.body, "<formula>")
    ensures |r.tableIds| == CountOf(r.body, "<table>")
    ensures |r.figureIds| == CountOf(r.body, "<figure>")
    ensures |r.formulaIds| == CountOf(r.body, "<formula>")
    ensures forall j :: 0 <= j < |r.tableIds| ==> r.tableIds[j] == ElementId("table", counter, j + 1)
    ensures forall j :: 0 <= j < |r.figureIds| ==> r.figureIds[j] == ElementId("figure", counter, j + 1)
    ensures forall j :: 0 <= j < |r.formulaIds| ==> r.formulaIds[j] == ElementId("formula", counter, j + 1)
    ensures r.hasReferences <==> r.referenceIds != []
    ensures NoDuplicates(r.referenceIds)
    ensures forall x :: x in r.referenceIds <==> x in Collected(r.body, ReferencePatterns)
  {
    var joined := Join("\n", CleanLines(lines));
    var nums := FootnoteNumbers(joined);
    var body := ParagraphText(lines, footnotes);
    var refs := Dedup(Collected(body, ReferencePatterns));
    DedupEmpty(MarkNumbers(joined));
    Requirement(
      IndexOf(docName, page, counter + 1), docName,
      HeadingAt(hs, 0), HeadingAt(hs, 1), HeadingAt(hs, 2),
      HeadingAt(hs, 3), HeadingAt(hs, 4), HeadingAt(hs, 5),
      reqNo, body, page,
      if nums != [] then Join(",", nums) else "",
      nums != [],
      Contains(body, "<table>"), Contains(body, "<formula>"), Contains(body, "<figure>"),
      refs != [],
      ElementIds("table", counter, body, "<table>"),
      ElementIds("formula", counter, body, "<formula>"),
      ElementIds("figure", counter, body, "<figure>"),
      refs)
  }

  /** The superscript loop of `_process_paragraph`: each run converted to
      ASCII digits and kept when not yet listed. */
  method CollectFootnoteNumbers(text: string) returns (nums: seq<string>)
    ensures nums == FootnoteNumbers(text)
  {
    var runs := SuperscriptRuns(text, 0);
    ghost var marks := MarkNumbers(text);
    nums := [];
    var k := 0;
    while k < |runs|
      invariant 0 <= k <= |runs|
      invariant nums == Dedup(marks[..k])
    {
      var num := AsciiDigits(runs[k]);
      assert marks[..k + 1] == marks[..k] + [num];
      if num !in nums {
        nums := nums + [num];
      }
      k := k + 1;
    }
    assert marks[..k] == marks;
  }

  /** The footnote-text loop of `_process_paragraph`. */
  method RenderFootnotes(nums: seq<string>, footnotes: map<string, string>) returns (text: string)
    ensures text == FootnoteText(nums, footnotes)
  {
    text := [];
    var m := 0;
    while m < |nums|
      invariant 0 <= m <= |nums|
      invariant text == FootnoteText(nums[..m], footnotes)
    {
      assert nums[..m + 1][..m] == nums[..m];
      var num := nums[m];
      if num in footnotes {
        text := text + FootnoteLine(num, footnotes[num]);
      }
      m := m + 1;
    }
    assert nums[..m] == nums;
  }

  /** `_process_paragraph` up to the append. */
  method BuildRequirement(lines: seq<string>, reqNo: string, counter: nat, page: string, hs: seq<string>,
                          docName: string, footnotes: map<string, string>) returns (r: Requirement)
    ensures r == RecordOf(lines, reqNo, counter, page, hs, docName, footnotes)
  {
    var fullText := Join("\n", CleanLines(lines));
    var nums := CollectFootnoteNumbers(fullText);
    if nums != [] {
      var text := RenderFootnotes(nums, footnotes);
      if text != [] {
        fullText := fullText + text;
      }
    }
    assert fullText == ParagraphText(lines, footnotes);
    var hasTables := Contains(fullText, "<table>");
    var hasFigures := Contains(fullText, "<figure>");
    var hasFormulas := Contains(fullText, "<formula>");
    var tableIds := ElementIds("table", counter, fullText, "<table>");
    var figureIds := ElementIds("figure", counter, fullText, "<figure>");
    var formulaIds := ElementIds("formula", counter, fullText, "<formula>");
    var references := ExtractReferences(fullText);
    r := Requirement(
      IndexOf(docName, page, counter + 1), docName,
      HeadingAt(hs, 0), HeadingAt(hs, 1), HeadingAt(hs, 2),
      HeadingAt(hs, 3), HeadingAt(hs, 4), HeadingAt(hs, 5),
      reqNo, fullText, page,
      if nums != [] then Join(",", nums) else "",
      nums != [],
      hasTables, hasFormulas, hasFigures,
      references != [],
      tableIds, formulaIds, figureIds,
      references);
  }

  // ---------------------------------------------------------------------------
  // Line classification

  /** `re.search(r'<page>(\d+)</page>', line)` from position `i`: the first page number. */
  function PageSearch(s: string, i: nat): (r: Option<string>)
    requires i <= |s|
    ensures r.Some? ==> r.value != [] && AllDigits(r.value)
    decreases |s| - i
  {
    if i == |s| then None
    else if StartsWith(s[i..], "<page>") then
      var d := RunEnd(s, i + 6, Digit);
      if d > i + 6 && StartsWith(s[d..], "</page>") then
        assert forall m :: i + 6 <= m < d ==> s[i + 6..d][m - (i + 6)] == s[m];
        Some(s[i + 6..d])
      else PageSearch(s, i + 1)
    else PageSearch(s, i + 1)
  }

  /** A well-formed page marker yields its number. */
  lemma {:induction false} PageMarkerNumber(digits: string)
    requires digits != [] && AllDigits(digits)
    ensures PageSearch("<page>" + digits + "</page>", 0) == Some(digits)
  {
    var s := "<page>" + digits + "</page>";
    assert s[0..] == s;
    assert StartsWith(s, "<page>");
    var d := RunEnd(s, 6, Digit);
    assert forall m :: 6 <= m < 6 + |digits| ==> s[m] == digits[m - 6];
    assert s[6 + |digits|] == '<';
    assert d == 6 + |digits|;
    assert s[d..] == "</page>";
    assert s[6..d] == digits;
  }

  /** `re.match(r'^(\d+)\.\s+(.+)', line)`: the item number and its text. The
      walk applies it to stripped lines of a text split at newlines, where the
      whitespace after the dot is always followed by a further character, so
      the greedy split is the one `re` finds. */
  function NumberedItem(line: string): (r: Option<(string, string)>)
    ensures r.Some? ==> r.value.0 != [] && AllDigits(r.value.0) && r.value.1 != []
  {
    var d := RunEnd(line, 0, Digit);
    if d == 0 || d == |line| || line[d] != '.' then None
    else
      var w := RunEnd(line, d + 1, Space);
      if w == d + 1 then None
      else
        var e := RunEnd(line, w, NotNewline);
        if e == w then None
        else
          assert forall m :: 0 <= m < d ==> line[..d][m] == line[m];
          Some((line[..d], line[w..e]))
  }

  /** The number of leading `#` of a heading line. */
  function HeadingLevel(line: string): nat
  {
    RunEnd(line, 0, Hash)
  }

  /** `line.lstrip('#').strip()`. */
  function HeadingText(line: string): string
  {
    Strip(LStripChar(line, '#'))
  }

  /** The heading context after a heading line. */
  function SetHeading(hs: seq<string>, line: string): (r: seq<string>)
    requires |hs| == 6
    ensures |r| == 6
  {
    var level := HeadingLevel(line);
    seq(6, j requires 0 <= j < 6 =>
      if j + 1 == level then HeadingText(line)
      else if j + 1 > level then ""
      else hs[j])
  }

  /** A heading with k leading `#` (1 <= k <= 6) sets heading k, clears the
      deeper ones and keeps the shallower ones; more than six changes nothing. */
  lemma {:induction false} HeadingUpdate(hs: seq<string>, line: string)
    requires |hs| == 6 && StartsWith(line, "#")
    ensures var k := HeadingLevel(line);
      1 <= k &&
      (k <= 6 ==> SetHeading(hs, line)[k - 1] == HeadingText(line)) &&
      (forall j :: 0 <= j < 6 && j + 1 < k ==> SetHeading(hs, line)[j] == hs[j]) &&
      (forall j :: 0 <= j < 6 && j + 1 > k ==> SetHeading(hs, line)[j] == "") &&
      (k > 6 ==> SetHeading(hs, line) == hs)
  {
    assert line[0] == '#';
  }

  // ---------------------------------------------------------------------------
  // Line classification, in the order the walk tests it

  /** Block openers and their closing tags. */
  function BlockClose(line: string): Option<(string, string)>
  {
    if StartsWith(line, "<table>") then Some(("<table>", "</table>"))
    else if StartsWith(line, "<figure>") then Some(("<figure>", "</figure>"))
    else if StartsWith(line, "<formula>") then Some(("<formula>", "</formula>"))
    else None
  }

  /** A raw line whose trimmed form ends with the closing tag. */
  predicate Closes(raw: string, close: string)
  {
    EndsWith(Strip(raw), close)
  }

  predicate IsPageMarker(line: string)
  {
    StartsWith(line, "<page>") && EndsWith(line, "</page>")
  }

  /** What a trimmed line is when the walk is outside a block. */
  datatype LineKind =
    | FootnoteDefinition                      // starts with `<footnote>`
    | PageMarker(page: Option<string>)        // `<page>...</page>`; None when it has no number
    | HeadingLine(line: string)               // starts with `#`
    | ItemLine(number: string, text: string)  // `^(\d+)\.\s+(.+)`
    | BlockOpen(tag: string, close: string)   // starts with `<table>`, `<figure>` or `<formula>`
    | PlainLine(line: string)

  /** A raw line, its trimmed form and its kind. */
  datatype LineInfo = LineInfo(raw: string, trimmed: string, kind: LineKind)

  function Classify(raw: string): (r: LineInfo)
    ensures r.raw == raw && r.trimmed == Strip(raw)
    ensures r.kind.ItemLine? ==> r.kind.text != []
    ensures r.kind.BlockOpen? ==> r.kind.tag != []
    ensures r.kind.PlainLine? ==> r.kind.line == r.trimmed
  {
    var line := Strip(raw);
    var kind :=
      if StartsWith(line, "<footnote>") then FootnoteDefinition
      else if IsPageMarker(line) then PageMarker(PageSearch(line, 0))
      else if StartsWith(line, "#") then HeadingLine(line)
      else if NumberedItem(line).Some? then ItemLine(NumberedItem(line).value.0, NumberedItem(line).value.1)
      else if BlockClose(line).Some? then BlockOpen(BlockClose(line).value.0, BlockClose(line).value.1)
      else PlainLine(line);
    LineInfo(raw, line, kind)
  }

  function Infos(lines: seq<string>): (r: seq<LineInfo>)
    ensures |r| == |lines|
    ensures forall k :: 0 <= k < |lines| ==> r[k] == Classify(lines[k])
  {
    if lines == [] then [] else Infos(lines[..|lines| - 1]) + [Classify(lines[|lines| - 1])]
  }

  /** The raw lines of classified lines. */
  function Raws(infos: seq<LineInfo>): (r: seq<string>)
    ensures |r| == |infos| && forall k :: 0 <= k < |infos| ==> r[k] == infos[k].raw
  {
    if infos == [] then [] else Raws(infos[..|infos| - 1]) + [infos[|infos| - 1].raw]
  }

  // ---------------------------------------------------------------------------
  // The walk, one line at a time

  datatype Mode = Normal | InBlock(close: string)

  /** A buffer handed to `_process_paragraph`, with the context it sees. */
  datatype Flush = Flush(lines: seq<string>, reqNo: string, headings: seq<string>, page: string)

  datatype Walk = Walk(
    headings: seq<string>,
    page: string,
    buffer: seq<string>,
    reqNo: string,
    mode: Mode,
    flushes: seq<Flush>,
    failed: bool)   // a page marker without a number: the source raises here

  function Start(hs: seq<string>, page: string): Walk
  {
    Walk(hs, page, [], "", Normal, [], false)
  }

  function FlushBuffer(w: Walk): Walk
  {
    w.(flushes := w.flushes + [Flush(w.buffer, w.reqNo, w.headings, w.page)], buffer := [])
  }

  /** One line; `more` says whether another line follows it. */
  function Step(w: Walk, info: LineInfo, more: bool): (r: Walk)
    requires |w.headings| == 6
    ensures |r.headings| == 6
  {
    if w.failed then w
    else
      match w.mode
      case InBlock(close) =>
        w.(buffer := w.buffer + [info.raw], mode := if EndsWith(info.trimmed, close) then Normal else w.mode)
      case Normal =>
        match info.kind
        case FootnoteDefinition => w
        case PageMarker(p) => if p.Some? then w.(page := p.value) else w.(failed := true)
        case HeadingLine(line) =>
          var w1 := if w.buffer != [] then FlushBuffer(w).(reqNo := "") else w;
          w1.(headings := SetHeading(w1.headings, line))
        case ItemLine(number, text) =>
          var w1 := if w.buffer != [] then FlushBuffer(w) else w;
          w1.(reqNo := number, buffer := w1.buffer + [text])
        case BlockOpen(tag, close) => w.(buffer := w.buffer + [tag], mode := InBlock(close))
        case PlainLine(line) =>
          if line != [] || (w.buffer != [] && more) then w.(buffer := w.buffer + [line]) else w
  }

  /** The walk after the first `n` lines. */
  function Run(infos: seq<LineInfo>, n: nat, w0: Walk): (r: Walk)
    requires n <= |infos| && |w0.headings| == 6
    ensures |r.headings| == 6
  {
    if n == 0 then w0 else Step(Run(infos, n - 1, w0), infos[n - 1], n < |infos|)
  }

  /** The walk at the end of input: a non-empty buffer is flushed once more. */
  function Final(infos: seq<LineInfo>, w0: Walk): Walk
    requires |w0.headings| == 6
  {
    var w := Run(infos, |infos|, w0);
    if !w.failed && w.buffer != [] then FlushBuffer(w) else w
  }

  // ---------------------------------------------------------------------------
  // Properties of the walk

  /** Nothing happens after a malformed page marker. */
  lemma {:induction false} RunFrozen(infos: seq<LineInfo>, n: nat, m: nat, w0: Walk)
    requires n <= m <= |infos| && |w0.headings| == 6
    requires Run(infos, n, w0).failed
    ensures Run(infos, m, w0) == Run(infos, n, w0)
    decreases m
  {
    if m > n {
      RunFrozen(infos, n, m - 1, w0);
    }
  }

  /** After a malformed page marker the walk ends as it stood. */
  lemma {:induction false} FinalFrozen(infos: seq<LineInfo>, n: nat, w0: Walk)
    requires n <= |infos| && |w0.headings| == 6
    requires Run(infos, n, w0).failed
    ensures Final(infos, w0) == Run(infos, n, w0)
  {
    RunFrozen(infos, n, |infos|, w0);
  }

  /** A page marker without a number ends the walk as failed, with the
      records flushed before it. */
  lemma {:induction false} MalformedPageEnds(infos: seq<LineInfo>, i: nat, w0: Walk, w: Walk)
    requires i < |infos| && |w0.headings| == 6 && infos[i].kind == PageMarker(None)
    requires Run(infos, i, w0) == w && !w.failed && w.mode == Normal
    ensures Final(infos, w0) == w.(failed := true)
  {
    FinalFrozen(infos, i + 1, w0);
  }

  /** Buffers start with a non-empty line, blocks live inside a buffer, and
      every flushed buffer is non-empty with a non-empty first line. */
  ghost predicate WalkOk(w: Walk)
  {
    |w.headings| == 6 &&
    (w.buffer != [] ==> w.buffer[0] != []) &&
    (w.mode.InBlock? ==> w.buffer != []) &&
    forall k :: 0 <= k < |w.flushes| ==> w.flushes[k].lines != [] && w.flushes[k].lines[0] != []
  }

  /** What `Classify` guarantees of item texts and block tags. */
  ghost predicate InfoOk(info: LineInfo)
  {
    (info.kind.ItemLine? ==> info.kind.text != []) &&
    (info.kind.BlockOpen? ==> info.kind.tag != [])
  }

  lemma {:induction false} StepOk(w: Walk, info: LineInfo, more: bool)
    requires WalkOk(w) && InfoOk(info)
    ensures WalkOk(Step(w, info, more))
  {
  }

  lemma {:induction false} RunOk(infos: seq<LineInfo>, n: nat, w0: Walk)
    requires n <= |infos| && WalkOk(w0)
    requires forall k :: 0 <= k < |infos| ==> InfoOk(infos[k])
    ensures WalkOk(Run(infos, n, w0))
  {
    if n > 0 {
      RunOk(infos, n - 1, w0);
      StepOk(Run(infos, n - 1, w0), infos[n - 1], n < |infos|);
    }
  }

  /** No record is ever built from an empty buffer, and every buffer starts
      with a non-empty line. */
  lemma {:induction false} FlushesNonEmpty(lines: seq<string>, hs: seq<string>, page: string)
    requires |hs| == 6
    ensures var f := Final(Infos(lines), Start(hs, page)).flushes;
      forall k :: 0 <= k < |f| ==> f[k].lines != [] && f[k].lines[0] != []
  {
    var infos := Infos(lines);
    assert forall k :: 0 <= k < |infos| ==> InfoOk(infos[k]);
    RunOk(infos, |infos|, Start(hs, page));
  }

  /** Lines that can end a paragraph: headings and numbered items. */
  predicate IsBoundary(info: LineInfo)
  {
    info.kind.HeadingLine? || info.kind.ItemLine?
  }

  function BoundaryCount(infos: seq<LineInfo>, n: nat): nat
    requires n <= |infos|
  {
    if n == 0 then 0 else BoundaryCount(infos, n - 1) + (if IsBoundary(infos[n - 1]) then 1 else 0)
  }

  lemma {:induction false} RunFlushBound(infos: seq<LineInfo>, n: nat, w0: Walk)
    requires n <= |infos| && |w0.headings| == 6
    ensures |Run(infos, n, w0).flushes| <= |w0.flushes| + BoundaryCount(infos, n)
  {
    if n > 0 {
      RunFlushBound(infos, n - 1, w0);
    }
  }

  /** Paragraphs end only at a heading, a numbered item or the end of input:
      a blank line never ends one. */
  lemma {:induction false} FlushBound(lines: seq<string>, hs: seq<string>, page: string)
    requires |hs| == 6
    ensures |Final(Infos(lines), Start(hs, page)).flushes| <= BoundaryCount(Infos(lines), |lines|) + 1
  {
    RunFlushBound(Infos(lines), |lines|, Start(hs, page));
  }

  /** Heading, page and footnote lines outside a block never enter the buffer;
      a heading or numbered item flushes a pending buffer first, and only a
      heading clears the requirement number. */
  lemma {:induction false} MarkerLines(w: Walk, raw: string, more: bool)
    requires |w.headings| == 6 && !w.failed && w.mode == Normal
    ensures var line := Strip(raw); var r := Step(w, Classify(raw), more);
      var pending := if w.buffer != [] then [Flush(w.buffer, w.reqNo, w.headings, w.page)] else [];
      ((StartsWith(line, "<footnote>") || IsPageMarker(line)) ==> r.buffer == w.buffer && r.flushes == w.flushes) &&
      (!StartsWith(line, "<footnote>") && !IsPageMarker(line) && StartsWith(line, "#") ==>
         r.buffer == [] && r.headings == SetHeading(w.headings, line) && r.flushes == w.flushes + pending &&
         (w.buffer != [] ==> r.reqNo == "")) &&
      (!StartsWith(line, "<footnote>") && !IsPageMarker(line) && !StartsWith(line, "#") && NumberedItem(line).Some? ==>
         r.reqNo == NumberedItem(line).value.0 && r.buffer == [NumberedItem(line).value.1] &&
         r.flushes == w.flushes + pending)
  {
  }

  /** Headings of level at most `depth` stay as they are across lines with no
      heading of level at most `depth`. */
  lemma {:induction false} HeadingsPersist(infos: seq<LineInfo>, n1: nat, n2: nat, w0: Walk, depth: nat)
    requires n1 <= n2 <= |infos| && |w0.headings| == 6 && depth <= 6
    requires forall i :: n1 <= i < n2 && infos[i].kind.HeadingLine? ==> HeadingLevel(infos[i].kind.line) > depth
    ensures Run(infos, n2, w0).headings[..depth] == Run(infos, n1, w0).headings[..depth]
    decreases n2
  {
    if n2 > n1 {
      HeadingsPersist(infos, n1, n2 - 1, w0, depth);
      var w := Run(infos, n2 - 1, w0);
      var info := infos[n2 - 1];
      if !w.failed && w.mode == Normal && info.kind.HeadingLine? {
        var h1 := (if w.buffer != [] then FlushBuffer(w).(reqNo := "") else w).headings;
        assert h1 == w.headings;
        assert forall j :: 0 <= j < depth ==> SetHeading(h1, info.kind.line)[j] == h1[j];
      }
    }
  }

  /** The walk inside a block that has not closed yet. */
  lemma {:induction false} BlockContinues(infos: seq<LineInfo>, n: nat, m: nat, w0: Walk, close: string)
    requires n <= m <= |infos| && |w0.headings| == 6
    requires !Run(infos, n, w0).failed && Run(infos, n, w0).mode == InBlock(close)
    requires forall i :: n <= i < m ==> !EndsWith(infos[i].trimmed, close)
    ensures Run(infos, m, w0) == Run(infos, n, w0).(buffer := Run(infos, n, w0).buffer + Raws(infos[n..m]))
    decreases m
  {
    if m > n {
      BlockContinues(infos, n, m - 1, w0, close);
      var wn, w := Run(infos, n, w0), Run(infos, m - 1, w0);
      BlockStep(w, infos[m - 1], m < |infos|);
      assert Run(infos, m, w0) == w.(buffer := w.buffer + [infos[m - 1].raw]);
      assert Raws(infos[n..m]) == Raws(infos[n..m - 1]) + [infos[m - 1].raw];
      assert w.buffer + [infos[m - 1].raw] == wn.buffer + Raws(infos[n..m]);
    } else {
      assert Raws(infos[n..m]) == [];
    }
  }

  /** One line inside a block that it does not close is kept verbatim. */
  lemma BlockStep(w: Walk, info: LineInfo, more: bool)
    requires |w.headings| == 6 && !w.failed && w.mode.InBlock? && !EndsWith(info.trimmed, w.mode.close)
    ensures Step(w, info, more) == w.(buffer := w.buffer + [info.raw])
  {
  }

  /** A block that never closes absorbs the rest of the input into one last
      record, without error. */
  lemma {:induction false} UnterminatedBlock(lines: seq<string>, n: nat, w0: Walk)
    requires n <= |lines| && WalkOk(w0)
    requires !Run(Infos(lines), n, w0).failed && Run(Infos(lines), n, w0).mode.InBlock?
    requires forall i :: n <= i < |lines| ==> !EndsWith(Strip(lines[i]), Run(Infos(lines), n, w0).mode.close)
    ensures var w := Run(Infos(lines), n, w0);
      !Final(Infos(lines), w0).failed &&
      Final(Infos(lines), w0).flushes == w.flushes + [Flush(w.buffer + lines[n..], w.reqNo, w.headings, w.page)]
  {
    var infos := Infos(lines);
    var w := Run(infos, n, w0);
    assert w.buffer != [] by {
      assert forall k :: 0 <= k < |infos| ==> InfoOk(infos[k]);
      RunOk(infos, n, w0);
    }
    assert Run(infos, |infos|, w0) == w.(buffer := w.buffer + lines[n..]) by {
      BlockContinues(infos, n, |lines|, w0, w.mode.close);
      RawsSlice(infos, lines, n, |lines|);
      assert lines[n..|lines|] == lines[n..];
    }
  }

  /** A footnote definition outside a block leaves the walk as it is. */
  lemma {:induction false} FootnoteSkipped(infos: seq<LineInfo>, i: nat, w0: Walk)
    requires i < |infos| && |w0.headings| == 6
    requires !Run(infos, i, w0).failed && Run(infos, i, w0).mode == Normal
    requires infos[i].kind == FootnoteDefinition
    ensures Run(infos, i + 1, w0) == Run(infos, i, w0)
  {
  }

  /** A block opener outside a block puts the bare tag in the buffer. */
  lemma {:induction false} BlockOpens(infos: seq<LineInfo>, i: nat, w0: Walk, tag: string, close: string)
    requires i < |infos| && |w0.headings| == 6
    requires !Run(infos, i, w0).failed && Run(infos, i, w0).mode == Normal
    requires infos[i].kind == BlockOpen(tag, close)
    ensures Run(infos, i + 1, w0)
         == Run(infos, i, w0).(buffer := Run(infos, i, w0).buffer + [tag], mode := InBlock(close))
  {
  }

  /** The line that ends with the closing tag joins the buffer and ends the block. */
  lemma {:induction false} BlockCloses(infos: seq<LineInfo>, n: nat, w0: Walk)
    requires n < |infos| && |w0.headings| == 6
    requires !Run(infos, n, w0).failed && Run(infos, n, w0).mode.InBlock?
    requires EndsWith(infos[n].trimmed, Run(infos, n, w0).mode.close)
    ensures Run(infos, n + 1, w0)
         == Run(infos, n, w0).(buffer := Run(infos, n, w0).buffer + [infos[n].raw], mode := Normal)
  {
  }

  lemma {:induction false} RawsSlice(infos: seq<LineInfo>, lines: seq<string>, a: nat, b: nat)
    requires a <= b <= |infos| == |lines|
    requires forall j :: 0 <= j < |infos| ==> infos[j].raw == lines[j]
    ensures Raws(infos[a..b]) == lines[a..b]
  {
  }

  /** The walk across the opener and the lines of a block that are not
      its last line. */
  lemma {:induction false} BlockBody(lines: seq<string>, infos: seq<LineInfo>, i: nat, m: nat, w0: Walk, w: Walk,
                  tag: string, close: string)
    requires |infos| == |lines| && |w0.headings| == 6
    requires forall j :: 0 <= j < |infos| ==> infos[j].raw == lines[j]
    requires i < m <= |lines|
    requires Run(infos, i, w0) == w && !w.failed && w.mode == Normal
    requires infos[i].kind == BlockOpen(tag, close)
    requires forall j :: i + 1 <= j < m ==> !EndsWith(infos[j].trimmed, close)
    ensures Run(infos, m, w0) == w.(buffer := w.buffer + ([tag] + lines[i + 1..m]), mode := InBlock(close))
  {
    var w1 := w.(buffer := w.buffer + [tag], mode := InBlock(close));
    assert Run(infos, i + 1, w0) == w1 by {
      BlockOpens(infos, i, w0, tag, close);
    }
    assert Run(infos, m, w0) == w1.(buffer := w1.buffer + Raws(infos[i + 1..m])) by {
      BlockContinues(infos, i + 1, m, w0, close);
    }
    assert Raws(infos[i + 1..m]) == lines[i + 1..m] by {
      RawsSlice(infos, lines, i + 1, m);
    }
    assert (w.buffer + [tag]) + lines[i + 1..m] == w.buffer + ([tag] + lines[i + 1..m]);
  }

  /** The walk across a captured block that closes on line `next - 1`. */
  lemma {:induction false} ClosedBlockRun(lines: seq<string>, infos: seq<LineInfo>, i: nat, next: nat, w0: Walk, w: Walk,
                       tag: string, close: string)
    requires |infos| == |lines| && |w0.headings| == 6
    requires forall j :: 0 <= j < |infos| ==> infos[j].raw == lines[j]
    requires i + 2 <= next <= |lines|
    requires Run(infos, i, w0) == w && !w.failed && w.mode == Normal
    requires infos[i].kind == BlockOpen(tag, close)
    requires forall j :: i + 1 <= j < next - 1 ==> !EndsWith(infos[j].trimmed, close)
    requires EndsWith(infos[next - 1].trimmed, close)
    ensures Run(infos, next, w0) == w.(buffer := w.buffer + ([tag] + lines[i + 1..next]), mode := Normal)
  {
    var wb := w.(buffer := w.buffer + ([tag] + lines[i + 1..next - 1]), mode := InBlock(close));
    assert Run(infos, next - 1, w0) == wb by {
      BlockBody(lines, infos, i, next - 1, w0, w, tag, close);
    }
    assert Run(infos, next, w0) == wb.(buffer := wb.buffer + [lines[next - 1]], mode := Normal) by {
      BlockCloses(infos, next - 1, w0);
    }
    assert wb.buffer + [lines[next - 1]] == w.buffer + ([tag] + lines[i + 1..next]) by {
      assert [tag] + lines[i + 1..next] == ([tag] + lines[i + 1..next - 1]) + [lines[next - 1]];
    }
  }

  // ---------------------------------------------------------------------------
  // Records of a walk

  /** `reqs` is `r0` followed by one record per flush, in order, record `k`
      built with the requirement counter at `k`. */
  ghost predicate RecordsFrom(reqs: seq<Requirement>, r0: seq<Requirement>, flushes: seq<Flush>,
                              docName: string, footnotes: map<string, string>)
  {
    |reqs| == |r0| + |flushes| && reqs[..|r0|] == r0 &&
    forall k :: |r0| <= k < |reqs| ==>
      reqs[k] == RecordOf(flushes[k - |r0|].lines, flushes[k - |r0|].reqNo, k, flushes[k - |r0|].page,
                          flushes[k - |r0|].headings, docName, footnotes)
  }

  lemma {:induction false} RecordsFromAppend(reqs: seq<Requirement>, r0: seq<Requirement>, flushes: seq<Flush>, f: Flush,
                                             docName: string, footnotes: map<string, string>)
    requires RecordsFrom(reqs, r0, flushes, docName, footnotes)
    ensures RecordsFrom(reqs + [RecordOf(f.lines, f.reqNo, |reqs|, f.page, f.headings, docName, footnotes)],
                        r0, flushes + [f], docName, footnotes)
  {
    var reqs' := reqs + [RecordOf(f.lines, f.reqNo, |reqs|, f.page, f.headings, docName, footnotes)];
    var flushes' := flushes + [f];
    assert reqs'[..|r0|] == reqs[..|r0|];
    forall k | |r0| <= k < |reqs'|
      ensures reqs'[k] == RecordOf(flushes'[k - |r0|].lines, flushes'[k - |r0|].reqNo, k, flushes'[k - |r0|].page,
                                   flushes'[k - |r0|].headings, docName, footnotes)
    {
      RecordsFromAt(reqs, r0, flushes, f, k, docName, footnotes);
    }
  }

  lemma {:induction false} RecordsFromAt(reqs: seq<Requirement>, r0: seq<Requirement>, flushes: seq<Flush>, f: Flush, k: nat,
                                         docName: string, footnotes: map<string, string>)
    requires RecordsFrom(reqs, r0, flushes, docName, footnotes)
    requires |r0| <= k <= |reqs|
    ensures (reqs + [RecordOf(f.lines, f.reqNo, |reqs|, f.page, f.headings, docName, footnotes)])[k]
         == RecordOf((flushes + [f])[k - |r0|].lines, (flushes + [f])[k - |r0|].reqNo, k, (flushes + [f])[k - |r0|].page,
                     (flushes + [f])[k - |r0|].headings, docName, footnotes)
  {
    var g := (flushes + [f])[k - |r0|];
    if k < |reqs| {
      assert g == flushes[k - |r0|];
    } else {
      assert g == f;
    }
  }

  /** Record `k` (0-based) carries index number `k + 1`. */
  ghost predicate IndexedInOrder(reqs: seq<Requirement>, docName: string)
  {
    forall k :: 0 <= k < |reqs| ==> reqs[k].index == IndexOf(docName, reqs[k].pageNumber, k + 1)
  }

  /** Record indices are pairwise distinct. */
  lemma {:induction false} IndicesDistinct(reqs: seq<Requirement>, docName: string)
    requires IndexedInOrder(reqs, docName)
    ensures forall a, b :: 0 <= a < b < |reqs| ==> reqs[a].index != reqs[b].index
  {
    forall a, b | 0 <= a < b < |reqs|
      ensures reqs[a].index != reqs[b].index
    {
      var stem := ReplaceAll(docName, ".pdf", "");
      if reqs[a].index == reqs[b].index {
        var pa := Pad4(a + 1);
        var pb := Pad4(b + 1);
        assert '_' !in pa && '_' !in pb by {
          assert forall m :: 0 <= m < |pa| ==> IsDigit(pa[m]);
          assert forall m :: 0 <= m < |pb| ==> IsDigit(pb[m]);
        }
        UnderscoreTail(stem + "_" + reqs[a].pageNumber, pa, stem + "_" + reqs[b].pageNumber, pb);
        assert false;
      }
    }
  }

  lemma {:induction false} IndexedAppend(reqs: seq<Requirement>, r: Requirement, docName: string)
    requires IndexedInOrder(reqs, docName)
    requires r.index == IndexOf(docName, r.pageNumber, |reqs| + 1)
    ensures IndexedInOrder(reqs + [r], docName)
  {
  }

  /** Records built by a walk continue the numbering of the records before
      them. */
  lemma {:induction false} RecordsIndexed(reqs: seq<Requirement>, r0: seq<Requirement>, flushes: seq<Flush>,
                                          docName: string, footnotes: map<string, string>)
    requires IndexedInOrder(r0, docName)
    requires RecordsFrom(reqs, r0, flushes, docName, footnotes)
    ensures IndexedInOrder(reqs, docName)
  {
    forall k | 0 <= k < |reqs|
      ensures reqs[k].index == IndexOf(docName, reqs[k].pageNumber, k + 1)
    {
      if k < |r0| {
        assert reqs[k] == reqs[..|r0|][k];
      }
    }
  }

  // ---------------------------------------------------------------------------
  // The converter

  datatype ParseError = MalformedPageMarker

  class Converter {
    const markdownText: string
    const docName: string
    var requirements: seq<Requirement>
    var headings: seq<string>          // h1 .. h6
    var currentPage: string
    var requirementCounter: nat
    var footnoteIndex: map<string, string>

    ghost predicate Valid()
      reads this
    {
      |headings| == 6 &&
      |requirements| == requirementCounter &&
      IndexedInOrder(requirements, docName)
    }

    constructor (markdownText: string, docName: string)
      ensures Valid()
      ensures this.markdownText == markdownText && this.docName == docName
      ensures requirements == [] && headings == ["", "", "", "", "", ""]
      ensures currentPage == "1" && requirementCounter == 0 && footnoteIndex == map[]
    {
      this.markdownText := markdownText;
      this.docName := docName;
      requirements := [];
      headings := ["", "", "", "", "", ""];
      currentPage := "1";
      requirementCounter := 0;
      footnoteIndex := map[];
    }

    /** Every footnote definition of the text enters the index; a later
        definition of the same number replaces an earlier one. */
    method BuildFootnoteIndex()
      modifies this`footnoteIndex
      ensures footnoteIndex == IndexFootnotes(old(footnoteIndex), FootnoteDefs(markdownText, 0))
    {
      var defs := FootnoteDefs(markdownText, 0);
      ghost var m0 := footnoteIndex;
      var k := 0;
      while k < |defs|
        invariant 0 <= k <= |defs|
        invariant footnoteIndex == IndexFootnotes(m0, defs[..k])
      {
        assert defs[..k + 1][..k] == defs[..k];
        footnoteIndex := footnoteIndex[defs[k].number := defs[k].content];
        k := k + 1;
      }
      assert defs[..k] == defs;
    }

    method ProcessHeading(line: string)
      requires |headings| == 6
      modifies this`headings
      ensures headings == SetHeading(old(headings), line)
    {
      var level := HeadingLevel(line);
      var text := HeadingText(line);
      ghost var h0 := headings;
      for i := 1 to 7
        invariant |headings| == 6
        invariant forall j :: 0 <= j < 6 ==> headings[j] == (if j + 1 < i then SetHeading(h0, line)[j] else h0[j])
      {
        if i == level {
          headings := headings[i - 1 := text];
        } else if i > level {
          headings := headings[i - 1 := ""];
        }
      }
    }

    method ProcessParagraph(lines: seq<string>, reqNo: string)
      requires Valid() && lines != []
      modifies this`requirements, this`requirementCounter
      ensures Valid()
      ensures requirementCounter == old(requirementCounter) + 1
      ensures requirements == old(requirements)
        + [RecordOf(lines, reqNo, old(requirementCounter), currentPage, headings, docName, footnoteIndex)]
    {
      var r := BuildRequirement(lines, reqNo, requirementCounter, currentPage, headings, docName, footnoteIndex);
      IndexedAppend(requirements, r, docName);
      requirementCounter := requirementCounter + 1;
      requirements := requirements + [r];
    }

    /** Appends one block: the bare opening tag, then raw lines up to and
        including the first one that ends with the closing tag. */
    static method CaptureBlock(lines: seq<string>, i: nat, tag: string, close: string)
      returns (block: seq<string>, next: nat)
      requires i < |lines|
      ensures i + 2 <= next <= |lines| + 1
      ensures forall j :: i + 1 <= j < next - 1 ==> !Closes(lines[j], close)
      ensures next <= |lines| ==> Closes(lines[next - 1], close) && block == [tag] + lines[i + 1..next]
      ensures next == |lines| + 1 ==> block == [tag] + lines[i + 1..]
    {
      block := [tag];
      var j := i + 1;
      while j < |lines| && !Closes(lines[j], close)
        invariant i + 1 <= j <= |lines|
        invariant forall m :: i + 1 <= m < j ==> !Closes(lines[m], close)
        invariant block == [tag] + lines[i + 1..j]
      {
        assert lines[i + 1..j + 1] == lines[i + 1..j] + [lines[j]];
        block := block + [lines[j]];
        j := j + 1;
      }
      if j < |lines| {
        assert lines[i + 1..j + 1] == lines[i + 1..j] + [lines[j]];
        block := block + [lines[j]];
      }
      next := j + 1;
    }

    /** Hands a non-empty buffer to `ProcessParagraph`, as one more flush. */
    method FlushContent(content: seq<string>, reqNo: string, ghost flushes: seq<Flush>,
                        ghost r0: seq<Requirement>)
      returns (ghost flushes': seq<Flush>)
      requires Valid() && content != []
      requires RecordsFrom(requirements, r0, flushes, docName, footnoteIndex)
      modifies this`requirements, this`requirementCounter
      ensures Valid()
      ensures flushes' == flushes + [Flush(content, reqNo, headings, currentPage)]
      ensures RecordsFrom(requirements, r0, flushes', docName, footnoteIndex)
    {
      flushes' := flushes + [Flush(content, reqNo, headings, currentPage)];
      RecordsFromAppend(requirements, r0, flushes, Flush(content, reqNo, headings, currentPage), docName, footnoteIndex);
      ProcessParagraph(content, reqNo);
    }

    /** A page marker with a number: the current page changes. */
    method TakePage(ghost infos: seq<LineInfo>, ghost i: nat, ghost w0: Walk, page: string,
                    ghost content: seq<string>, ghost reqNo: string, ghost flushes: seq<Flush>)
      requires i < |infos| && |w0.headings| == 6 && infos[i].kind == PageMarker(Some(page))
      requires Run(infos, i, w0) == Walk(headings, currentPage, content, reqNo, Normal, flushes, false)
      modifies this`currentPage
      ensures Run(infos, i + 1, w0) == Walk(headings, currentPage, content, reqNo, Normal, flushes, false)
    {
      currentPage := page;
    }

    /** A heading line: flushes a non-empty buffer (forgetting its item
        number), then updates the heading hierarchy. */
    method TakeHeading(ghost infos: seq<LineInfo>, ghost i: nat, ghost w0: Walk, line: string,
                       content: seq<string>, reqNo: string,
                       ghost flushes: seq<Flush>, ghost r0: seq<Requirement>)
      returns (content': seq<string>, reqNo': string, ghost flushes': seq<Flush>)
      requires i < |infos| && |w0.headings| == 6 && infos[i].kind == HeadingLine(line)
      requires Run(infos, i, w0) == Walk(headings, currentPage, content, reqNo, Normal, flushes, false)
      requires Valid()
      requires RecordsFrom(requirements, r0, flushes, docName, footnoteIndex)
      modifies this`requirements, this`requirementCounter, this`headings
      ensures Valid()
      ensures RecordsFrom(requirements, r0, flushes', docName, footnoteIndex)
      ensures Run(infos, i + 1, w0) == Walk(headings, currentPage, content', reqNo', Normal, flushes', false)
    {
      content', reqNo', flushes' := content, reqNo, flushes;
      if content != [] {
        flushes' := FlushContent(content, reqNo, flushes, r0);
        content' := [];
        reqNo' := "";
      }
      ProcessHeading(line);
    }

    /** A numbered item: flushes a non-empty buffer, then starts a new one
        with the item's text under the item's number. */
    method TakeItem(ghost infos: seq<LineInfo>, ghost i: nat, ghost w0: Walk, number: string, text: string,
                    content: seq<string>, reqNo: string,
                    ghost flushes: seq<Flush>, ghost r0: seq<Requirement>)
      returns (content': seq<string>, reqNo': string, ghost flushes': seq<Flush>)
      requires i < |infos| && |w0.headings| == 6 && infos[i].kind == ItemLine(number, text)
      requires Run(infos, i, w0) == Walk(headings, currentPage, content, reqNo, Normal, flushes, false)
      requires Valid()
      requires RecordsFrom(requirements, r0, flushes, docName, footnoteIndex)
      modifies this`requirements, this`requirementCounter
      ensures Valid()
      ensures RecordsFrom(requirements, r0, flushes', docName, footnoteIndex)
      ensures Run(infos, i + 1, w0) == Walk(headings, currentPage, content', reqNo', Normal, flushes', false)
    {
      content', flushes' := content, flushes;
      if content != [] {
        flushes' := FlushContent(content, reqNo, flushes, r0);
        content' := [];
      }
      reqNo' := number;
      content' := content' + [text];
    }

    /** A block opener: the whole block joins the buffer. */
    static method TakeBlock(lines: seq<string>, ghost infos: seq<LineInfo>, i: nat, ghost w0: Walk,
                            tag: string, close: string, content: seq<string>, ghost w: Walk)
      returns (content': seq<string>, next: nat, ghost mode: Mode)
      requires |infos| == |lines| && |w0.headings| == 6
      requires forall j :: 0 <= j < |lines| ==> infos[j].raw == lines[j] && infos[j].trimmed == Strip(lines[j])
      requires i < |lines| && infos[i].kind == BlockOpen(tag, close)
      requires Run(infos, i, w0) == w && !w.failed && w.mode == Normal && w.buffer == content
      ensures i < next <= |lines| + 1 && (next <= |lines| <==> mode == Normal)
      ensures Run(infos, if next <= |lines| then next else |lines|, w0)
           == Walk(w.headings, w.page, content', w.reqNo, mode, w.flushes, false)
    {
      var block;
      block, next := CaptureBlock(lines, i, tag, close);
      if next <= |lines| {
        ClosedBlockRun(lines, infos, i, next, w0, w, tag, close);
      } else {
        BlockBody(lines, infos, i, |lines|, w0, w, tag, close);
      }
      mode := if next <= |lines| then Normal else InBlock(close);
      content' := content + block;
    }

    /** Any other line: kept when non-empty, or when blank inside a
        paragraph that more lines follow. */
    static method TakePlain(ghost infos: seq<LineInfo>, ghost i: nat, ghost w0: Walk, line: string,
                            more: bool, content: seq<string>, ghost w: Walk)
      returns (content': seq<string>)
      requires i < |infos| && |w0.headings| == 6 && infos[i].kind == PlainLine(line)
      requires more == (i + 1 < |infos|)
      requires Run(infos, i, w0) == w && !w.failed && w.mode == Normal && w.buffer == content
      ensures Run(infos, i + 1, w0) == w.(buffer := content')
    {
      content' := content;
      if line != [] || content != [] {
        if line != [] || (content != [] && more) {
          content' := content + [line];
        }
      }
    }

    /** One turn of the parse loop, on line `i` with the walk outside a
        block: the line is classified and handled by its kind. */
    method ParseLine(lines: seq<string>, i: nat, content: seq<string>, reqNo: string,
                     ghost infos: seq<LineInfo>, ghost w0: Walk,
                     ghost flushes: seq<Flush>, ghost r0: seq<Requirement>)
      returns (next: nat, content': seq<string>, reqNo': string, malformed: bool,
               ghost flushes': seq<Flush>, ghost mode: Mode)
      requires i < |lines| && |infos| == |lines| && |w0.headings| == 6
      requires forall j :: 0 <= j < |lines| ==> infos[j].raw == lines[j] && infos[j].trimmed == Strip(lines[j])
      requires infos[i] == Classify(lines[i])
      requires Valid()
      requires Run(infos, i, w0) == Walk(headings, currentPage, content, reqNo, Normal, flushes, false)
      requires RecordsFrom(requirements, r0, flushes, docName, footnoteIndex)
      modifies this`requirements, this`requirementCounter, this`headings, this`currentPage
      ensures Valid()
      ensures RecordsFrom(requirements, r0, flushes', docName, footnoteIndex)
      ensures malformed ==> Final(infos, w0) == Walk(headings, currentPage, content', reqNo', Normal, flushes', true)
      ensures !malformed ==>
        i < next <= |lines| + 1 && (next <= |lines| <==> mode == Normal) &&
        Run(infos, if next <= |lines| then next else |lines|, w0)
          == Walk(headings, currentPage, content', reqNo', mode, flushes', false)
    {
      var info := Classify(lines[i]);
      ghost var w := Walk(headings, currentPage, content, reqNo, Normal, flushes, false);
      next, content', reqNo', malformed, flushes', mode := i + 1, content, reqNo, false, flushes, Normal;
      if info.kind.BlockOpen? {
        content', next, mode := TakeBlock(lines, infos, i, w0, info.kind.tag, info.kind.close, content, w);
      } else if info.kind.PlainLine? {
        content' := TakePlain(infos, i, w0, info.kind.line, i + 1 < |lines|, content, w);
      } else {
        content', reqNo', malformed, flushes' := TakeMarkup(infos, i, w0, info.kind, content, reqNo, flushes, r0);
      }
    }

    /** The line kinds that change the converter's own fields or end the
        walk: footnote definitions, page markers, headings and items. */
    method TakeMarkup(ghost infos: seq<LineInfo>, i: nat, ghost w0: Walk, kind: LineKind,
                      content: seq<string>, reqNo: string,
                      ghost flushes: seq<Flush>, ghost r0: seq<Requirement>)
      returns (content': seq<string>, reqNo': string, malformed: bool, ghost flushes': seq<Flush>)
      requires i < |infos| && |w0.headings| == 6
      requires infos[i].kind == kind && !kind.BlockOpen? && !kind.PlainLine?
      requires Valid()
      requires Run(infos, i, w0) == Walk(headings, currentPage, content, reqNo, Normal, flushes, false)
      requires RecordsFrom(requirements, r0, flushes, docName, footnoteIndex)
      modifies this`requirements, this`requirementCounter, this`headings, this`currentPage
      ensures Valid()
      ensures RecordsFrom(requirements, r0, flushes', docName, footnoteIndex)
      ensures malformed ==> Final(infos, w0) == Walk(headings, currentPage, content', reqNo', Normal, flushes', true)
      ensures !malformed ==> Run(infos, i + 1, w0) == Walk(headings, currentPage, content', reqNo', Normal, flushes', false)
    {
      ghost var w := Walk(headings, currentPage, content, reqNo, Normal, flushes, false);
      content', reqNo', malformed, flushes' := content, reqNo, false, flushes;
      match kind {
        case FootnoteDefinition =>
          FootnoteSkipped(infos, i, w0);
        case PageMarker(page) =>
          if page.None? {
            MalformedPageEnds(infos, i, w0, w);
            malformed := true;
          } else {
            TakePage(infos, i, w0, page.value, content, reqNo, flushes);
          }
        case HeadingLine(line) =>
          content', reqNo', flushes' := TakeHeading(infos, i, w0, line, content, reqNo, flushes, r0);
        case ItemLine(number, text) =>
          content', reqNo', flushes' := TakeItem(infos, i, w0, number, text, content, reqNo, flushes, r0);
      }
    }

    method Parse() returns (result: Result<seq<Requirement>, ParseError>)
      requires Valid()
      modifies this
      ensures Valid()
      ensures footnoteIndex == IndexFootnotes(old(footnoteIndex), FootnoteDefs(markdownText, 0))
      ensures var f := Final(Infos(Split(markdownText, '\n')), Start(old(headings), old(currentPage)));
        RecordsFrom(requirements, old(requirements), f.flushes, docName, footnoteIndex) &&
        (result.Ok? <==> !f.failed) &&
        (result.Ok? ==> result.value == requirements && headings == f.headings && currentPage == f.page)
    {
      BuildFootnoteIndex();
      var lines := Split(markdownText, '\n');
      ghost var infos := Infos(lines);
      ghost var w0 := Start(headings, currentPage);
      ghost var r0 := requirements;
      ghost var flushes: seq<Flush> := [];
      ghost var mode: Mode := Normal;
      var i := 0;
      var content: seq<string> := [];
      var reqNo := "";
      var malformed := false;
      while i < |lines|
        invariant 0 <= i <= |lines| + 1
        invariant Valid()
        invariant footnoteIndex == IndexFootnotes(old(footnoteIndex), FootnoteDefs(markdownText, 0))
        invariant i <= |lines| ==> mode == Normal
        invariant Run(infos, if i <= |lines| then i else |lines|, w0)
               == Walk(headings, currentPage, content, reqNo, mode, flushes, false)
        invariant RecordsFrom(requirements, r0, flushes, docName, footnoteIndex)
        decreases |lines| + 1 - i
      {
        i, content, reqNo, malformed, flushes, mode := ParseLine(lines, i, content, reqNo, infos, w0, flushes, r0);
        if malformed {
          break;
        }
      }
      if malformed {
        result := Err(MalformedPageMarker);
      } else {
        if content != [] {
          flushes := FlushContent(content, reqNo, flushes, r0);
        }
        result := Ok(requirements);
      }
    }
  }
}
