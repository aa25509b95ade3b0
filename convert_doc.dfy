/** `extract_data` (convert_doc.py): split plain text into rows of four
    heading labels and a body. `###`..`######` lines set a label level,
    a blank line ends the buffered paragraph, every other line is buffered
    stripped. */
module ConvertDoc {
  import opened Wrappers
  import opened Text

  /** The four current labels, `None` where Python holds None. */
  datatype Labels = Labels(l1: Option<string>, l2: Option<string>, l3: Option<string>, l4: Option<string>)

  /** One output row: four labels and the space-joined body. */
  datatype Row = Row(labels: Labels, body: string)

  const NoLabels := Labels(None, None, None, None)

  /** The marker of label level `k` (1..4): `###` for level 1 up to `######`. */
  function Marker(k: nat): string
    requires 1 <= k <= 4
  {
    if k == 1 then "###" else if k == 2 then "####" else if k == 3 then "#####" else "######"
  }

  /** The marker of level `k` is `k + 2` hashes. */
  lemma MarkerHashes(k: nat)
    requires 1 <= k <= 4
    ensures |Marker(k)| == k + 2 && forall i :: 0 <= i < |Marker(k)| ==> Marker(k)[i] == '#'
  {
  }

  /** The heading level of a stripped line, markers tried longest first. */
  function HeadingLevel(s: string): Option<nat>
  {
    if StartsWith(s, "######") then Some(4)
    else if StartsWith(s, "#####") then Some(3)
    else if StartsWith(s, "####") then Some(2)
    else if StartsWith(s, "###") then Some(1)
    else None
  }

  /** The level found is the deepest whose marker starts the line, and a
      line is a heading exactly when it starts with `###`. */
  lemma HeadingLevelDeepest(s: string)
    ensures var r := HeadingLevel(s);
      (r.Some? ==> 1 <= r.value <= 4 && StartsWith(s, Marker(r.value))) &&
      (r.Some? ==> forall k :: r.value < k <= 4 ==> !StartsWith(s, Marker(k))) &&
      (r.None? <==> !StartsWith(s, "###"))
  {
  }

  /** Label `j` (1..4) of `labels`. */
  function Label(labels: Labels, j: nat): Option<string>
    requires 1 <= j <= 4
  {
    if j == 1 then labels.l1 else if j == 2 then labels.l2 else if j == 3 then labels.l3 else labels.l4
  }

  /** Level `k` set to `text`, the deeper levels cleared. */
  function SetLabel(labels: Labels, k: nat, text: string): Labels
    requires 1 <= k <= 4
  {
    if k == 4 then labels.(l4 := Some(text))
    else if k == 3 then labels.(l3 := Some(text), l4 := None)
    else if k == 2 then labels.(l2 := Some(text), l3 := None, l4 := None)
    else Labels(Some(text), None, None, None)
  }

  /** The loop's variables after some lines. `parts` keeps, for the model's
      own statements, the buffer each emitted row was joined from. */
  datatype State = State(labels: Labels, buffer: seq<string>, rows: seq<Row>, parts: seq<seq<string>>)

  function Flush(st: State): State
  {
    st.(buffer := [], rows := st.rows + [Row(st.labels, Join(" ", st.buffer))], parts := st.parts + [st.buffer])
  }

  /** One iteration of the loop over lines. */
  function Step(st: State, line: string): State
  {
    var s := Strip(line);
    if s == [] && st.buffer != [] then Flush(st)
    else match HeadingLevel(s)
      case Some(k) => st.(labels := SetLabel(st.labels, k, Strip(ReplaceAll(s, Marker(k), ""))))
      case None => st.(buffer := st.buffer + [s])
  }

  /** Setting level `k` keeps the shallower levels and clears the deeper
      ones. */
  lemma SetLabelLevels(labels: Labels, k: nat, text: string)
    requires 1 <= k <= 4
    ensures var r := SetLabel(labels, k, text);
      (forall j :: 1 <= j < k ==> Label(r, j) == Label(labels, j)) &&
      Label(r, k) == Some(text) &&
      (forall j :: k < j <= 4 ==> Label(r, j) == None)
  {
  }

  /** The state after the first `k` lines. */
  function Run(lines: seq<string>, k: nat): State
    requires k <= |lines|
  {
    if k == 0 then State(NoLabels, [], [], []) else Step(Run(lines, k - 1), lines[k - 1])
  }

  /** After the loop: a non-empty buffer is emitted. */
  function Finish(st: State): State
  {
    if st.buffer != [] then Flush(st) else st
  }

  function Extracted(text: string): State
  {
    var lines := Split(text, '\n');
    Finish(Run(lines, |lines|))
  }

  /** `extract_data`. */
  method ExtractData(text: string) returns (data: seq<Row>)
    ensures data == Extracted(text).rows
  {
    var lines := Split(text, '\n');
    var level1, level2, level3, level4, bodyBuffer, rows, parts := RunLines(lines);
    data := rows;
    if bodyBuffer != [] {
      data := data + [Row(Labels(level1, level2, level3, level4), Join(" ", bodyBuffer))];
    }
  }

  /** The loop of `extract_data` over the lines: the four levels, the
      buffer and the rows it leaves behind. */
  method RunLines(lines: seq<string>)
    returns (level1: Option<string>, level2: Option<string>, level3: Option<string>, level4: Option<string>,
             bodyBuffer: seq<string>, data: seq<Row>, ghost parts: seq<seq<string>>)
    ensures Run(lines, |lines|) == State(Labels(level1, level2, level3, level4), bodyBuffer, data, parts)
  {
    data := [];
    level1, level2, level3, level4 := None, None, None, None;
    bodyBuffer := [];
    parts := [];
    var i := 0;
    while i < |lines|
      invariant i <= |lines|
      invariant Run(lines, i) == State(Labels(level1, level2, level3, level4), bodyBuffer, data, parts)
    {
      level1, level2, level3, level4, bodyBuffer, data, parts :=
        ProcessLine(level1, level2, level3, level4, bodyBuffer, data, parts, lines, i);
      i := i + 1;
    }
    assert i == |lines|;
  }

  /** The body of the loop over lines: a blank line flushes a non-empty
      buffer, a heading marker sets its level, anything else is buffered. */
  method ProcessLine(level1: Option<string>, level2: Option<string>, level3: Option<string>, level4: Option<string>,
                     bodyBuffer: seq<string>, data: seq<Row>, ghost parts: seq<seq<string>>, lines: seq<string>, i: nat)
    returns (l1: Option<string>, l2: Option<string>, l3: Option<string>, l4: Option<string>,
             buffer: seq<string>, rows: seq<Row>, ghost parts': seq<seq<string>>)
    requires i < |lines| && Run(lines, i) == State(Labels(level1, level2, level3, level4), bodyBuffer, data, parts)
    ensures Run(lines, i + 1) == State(Labels(l1, l2, l3, l4), buffer, rows, parts')
  {
    RunNext(lines, i);
    var line := lines[i];
    ghost var st := State(Labels(level1, level2, level3, level4), bodyBuffer, data, parts);
    var strippedLine := Strip(line);
    l1, l2, l3, l4, buffer, rows, parts' := level1, level2, level3, level4, bodyBuffer, data, parts;
    if strippedLine == [] && bodyBuffer != [] {
      StepFlush(st, line);
      rows := data + [Row(Labels(level1, level2, level3, level4), Join(" ", bodyBuffer))];
      parts' := parts + [bodyBuffer];
      buffer := [];
    } else if StartsWith(strippedLine, "######") {
      StepHeading(st, line, 4);
      l4 := Some(Strip(ReplaceAll(strippedLine, "######", "")));
    } else if StartsWith(strippedLine, "#####") {
      StepHeading(st, line, 3);
      l3 := Some(Strip(ReplaceAll(strippedLine, "#####", "")));
      l4 := None;
    } else if StartsWith(strippedLine, "####") {
      StepHeading(st, line, 2);
      l2 := Some(Strip(ReplaceAll(strippedLine, "####", "")));
      l3, l4 := None, None;
    } else if StartsWith(strippedLine, "###") {
      StepHeading(st, line, 1);
      l1 := Some(Strip(ReplaceAll(strippedLine, "###", "")));
      l2, l3, l4 := None, None, None;
    } else {
      StepBody(st, line);
      buffer := bodyBuffer + [strippedLine];
    }
  }

  // ---------------------------------------------------------------------------
  // Properties of one step

  lemma RunNext(lines: seq<string>, i: nat)
    requires i < |lines|
    ensures Run(lines, i + 1) == Step(Run(lines, i), lines[i])
  {
  }

  lemma StepFlush(st: State, line: string)
    requires Strip(line) == [] && st.buffer != []
    ensures Step(st, line) == Flush(st)
  {
  }

  lemma StepHeading(st: State, line: string, k: nat)
    requires 1 <= k <= 4 && HeadingLevel(Strip(line)) == Some(k)
    ensures Step(st, line) == st.(labels := SetLabel(st.labels, k, Strip(ReplaceAll(Strip(line), Marker(k), ""))))
  {
  }

  lemma StepBody(st: State, line: string)
    requires !(Strip(line) == [] && st.buffer != []) && !StartsWith(Strip(line), "###")
    ensures Step(st, line) == st.(buffer := st.buffer + [Strip(line)])
  {
    var s := Strip(line);
    if |s| >= 4 {
      assert s[..3] == s[..4][..3] == s[..|s|][..3];
      assert |s| >= 5 ==> s[..3] == s[..5][..3];
      assert |s| >= 6 ==> s[..3] == s[..6][..3];
    }
  }

  /** A `###`..`######` line sets its level to the text left when every
      occurrence of its marker is removed and the rest stripped, clears the
      deeper levels, keeps the shallower ones, and neither flushes nor
      touches the buffer. */
  lemma HeadingStep(st: State, line: string, k: nat)
    requires 1 <= k <= 4 && Strip(line) != [] && HeadingLevel(Strip(line)) == Some(k)
    ensures var st' := Step(st, line);
      st'.buffer == st.buffer && st'.rows == st.rows && st'.parts == st.parts &&
      (forall j :: 1 <= j < k ==> Label(st'.labels, j) == Label(st.labels, j)) &&
      Label(st'.labels, k) == Some(Strip(ReplaceAll(Strip(line), Marker(k), ""))) &&
      (forall j :: k < j <= 4 ==> Label(st'.labels, j) == None)
  {
  }

  /** A blank line after buffered text emits one row with the current labels
      and the space-joined buffer, and empties the buffer. */
  lemma BlankFlushes(st: State, line: string)
    requires AllSpace(line) && st.buffer != []
    ensures Step(st, line) == st.(buffer := [], rows := st.rows + [Row(st.labels, Join(" ", st.buffer))], parts := st.parts + [st.buffer])
  {
    StripEmptyIffSpace(line);
  }

  /** A blank line with nothing buffered is itself buffered, as "". */
  lemma BlankBuffered(st: State, line: string)
    requires AllSpace(line) && st.buffer == []
    ensures Step(st, line) == st.(buffer := [""])
  {
    StripEmptyIffSpace(line);
  }

  // ---------------------------------------------------------------------------
  // Properties of the whole run

  /** The stripped text of the lines that are neither blank nor headings. */
  predicate IsBody(line: string)
  {
    Strip(line) != [] && HeadingLevel(Strip(line)).None?
  }

  function BodyText(lines: seq<string>): seq<string>
  {
    if lines == [] then []
    else BodyText(lines[..|lines| - 1]) + (if IsBody(lines[|lines| - 1]) then [Strip(lines[|lines| - 1])] else [])
  }

  function NonBlank(xs: seq<string>): seq<string>
  {
    if xs == [] then [] else NonBlank(xs[..|xs| - 1]) + (if xs[|xs| - 1] != [] then [xs[|xs| - 1]] else [])
  }

  function Concat(xss: seq<seq<string>>): seq<string>
  {
    if xss == [] then [] else Concat(xss[..|xss| - 1]) + xss[|xss| - 1]
  }

  lemma {:induction false} NonBlankAppend(xs: seq<string>, ys: seq<string>)
    ensures NonBlank(xs + ys) == NonBlank(xs) + NonBlank(ys)
    decreases |ys|
  {
    if ys != [] {
      var y := ys[..|ys| - 1];
      assert (xs + ys)[..|xs + ys| - 1] == xs + y;
      NonBlankAppend(xs, y);
    } else {
      assert xs + ys == xs;
    }
  }

  /** What the rows and the buffer say about the lines read so far. */
  predicate Accounted(st: State, read: seq<string>)
  {
    |st.rows| == |st.parts| &&
    (forall j :: 0 <= j < |st.rows| ==> st.rows[j].body == Join(" ", st.parts[j])) &&
    NonBlank(Concat(st.parts) + st.buffer) == BodyText(read) &&
    |st.rows| + (if st.buffer != [] then 1 else 0) <= |read|
  }

  lemma BodyTextSnoc(read: seq<string>, line: string)
    ensures BodyText(read + [line]) == BodyText(read) + (if IsBody(line) then [Strip(line)] else [])
  {
    assert (read + [line])[..|read|] == read;
  }

  /** A line that is not body text leaves the account unchanged but for the
      emitted row. */
  lemma FlushAccounted(st: State, read: seq<string>, line: string)
    requires Accounted(st, read) && st.buffer != [] && !IsBody(line)
    ensures Accounted(Flush(st), read + [line])
  {
    BodyTextSnoc(read, line);
    assert Concat(st.parts + [st.buffer]) == Concat(st.parts) + st.buffer by {
      assert (st.parts + [st.buffer])[..|st.parts|] == st.parts;
    }
    assert Concat(st.parts) + st.buffer + [] == Concat(st.parts) + st.buffer;
  }

  lemma RelabelAccounted(st: State, read: seq<string>, line: string, labels: Labels)
    requires Accounted(st, read) && !IsBody(line)
    ensures Accounted(st.(labels := labels), read + [line])
  {
    BodyTextSnoc(read, line);
  }

  lemma BufferAccounted(st: State, read: seq<string>, line: string)
    requires Accounted(st, read) && (IsBody(line) || Strip(line) == [])
    ensures Accounted(st.(buffer := st.buffer + [Strip(line)]), read + [line])
  {
    var s := Strip(line);
    BodyTextSnoc(read, line);
    NonBlankAppend(Concat(st.parts) + st.buffer, [s]);
    assert Concat(st.parts) + (st.buffer + [s]) == Concat(st.parts) + st.buffer + [s];
    assert NonBlank([s]) == (if s != [] then [s] else []) by {
      assert [s][..0] == [];
    }
  }

  lemma StepAccounted(st: State, read: seq<string>, line: string)
    requires Accounted(st, read)
    ensures Accounted(Step(st, line), read + [line])
  {
    var s := Strip(line);
    if s == [] && st.buffer != [] {
      FlushAccounted(st, read, line);
    } else if HeadingLevel(s).Some? {
      var k := HeadingLevel(s).value;
      StepHeading(st, line, k);
      RelabelAccounted(st, read, line, SetLabel(st.labels, k, Strip(ReplaceAll(s, Marker(k), ""))));
    } else {
      StepBody(st, line);
      BufferAccounted(st, read, line);
    }
  }

  lemma {:induction false} RunAccounted(lines: seq<string>, k: nat)
    requires k <= |lines|
    ensures Accounted(Run(lines, k), lines[..k])
  {
    if k == 0 {
      assert lines[..0] == [];
    } else {
      RunAccounted(lines, k - 1);
      assert lines[..k] == lines[..k - 1] + [lines[k - 1]];
      StepAccounted(Run(lines, k - 1), lines[..k - 1], lines[k - 1]);
    }
  }

  /** Every line that is neither blank nor a heading lands, stripped, in
      exactly one row, in input order (the rows' joined buffers, blanks
      aside, are exactly those lines); each row's body is its buffer joined
      by spaces; and there are at most as many rows as input lines. */
  lemma ExtractedAccounts(text: string)
    ensures var st := Extracted(text);
      var lines := Split(text, '\n');
      st.buffer == [] && |st.rows| == |st.parts| &&
      (forall j :: 0 <= j < |st.rows| ==> st.rows[j].body == Join(" ", st.parts[j])) &&
      NonBlank(Concat(st.parts)) == BodyText(lines) &&
      |st.rows| <= |lines|
  {
    var lines := Split(text, '\n');
    var st := Run(lines, |lines|);
    RunAccounted(lines, |lines|);
    assert lines[..|lines|] == lines;
    if st.buffer != [] {
      assert (st.parts + [st.buffer])[..|st.parts|] == st.parts;
    } else {
      assert Concat(st.parts) + st.buffer == Concat(st.parts);
    }
  }
}
