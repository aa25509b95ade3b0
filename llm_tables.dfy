/** Two pieces of llm_graphs_tables.py: `parse_markdown_table`, which turns
    a pipe table into one dictionary per row, and the counting done by
    `evaluate_response_accuracy`, which scores table and chart answers
    against the expected answer's key facts. */
module LlmTables {
  import opened Wrappers
  import opened Text

  // ---------------------------------------------------------------------------
  // parse_markdown_table

  datatype TableError = IndexError

  /** The table's rows (one map per row) and its header cells. */
  datatype Table = Table(rows: seq<map<string, string>>, headers: seq<string>)

  /** The stripped non-blank lines of the stripped text. */
  function StrippedLines(parts: seq<string>): (r: seq<string>)
    ensures forall k :: 0 <= k < |r| ==> r[k] != []
    ensures |r| <= |parts|
  {
    if parts == [] then []
    else
      var rest := StrippedLines(parts[..|parts| - 1]);
      var s := Strip(parts[|parts| - 1]);
      if s != [] then rest + [s] else rest
  }

  function TableLines(text: string): seq<string>
  {
    StrippedLines(Split(Strip(text), '\n'))
  }

  /** The stripped cells of a line with its outer pipes removed. */
  function Cells(line: string): (r: seq<string>)
    ensures |r| >= 1
  {
    var parts := Split(StripChar(line, '|'), '|');
    seq(|parts|, k requires 0 <= k < |parts| => Strip(parts[k]))
  }

  /** `{headers[i]: values[i] for i in range(len(headers))}`: entries are
      inserted in header order, so a repeated header keeps its last cell. */
  function RowMap(headers: seq<string>, values: seq<string>): map<string, string>
    requires |values| >= |headers|
  {
    if headers == [] then map[]
    else RowMap(headers[..|headers| - 1], values)[headers[|headers| - 1] := values[|headers| - 1]]
  }

  /** The lines after the header and the separator that hold a pipe. */
  function DataLines(lines: seq<string>): seq<string>
  {
    if |lines| <= 2 then [] else Piped(lines[2..])
  }

  function Piped(lines: seq<string>): (r: seq<string>)
    ensures |r| <= |lines|
    ensures forall k :: 0 <= k < |r| ==> '|' in r[k]
  {
    if lines == [] then []
    else Piped(lines[..|lines| - 1]) + (if '|' in lines[|lines| - 1] then [lines[|lines| - 1]] else [])
  }

  /** The loop over the lines after the separator, line by line: a line
      without a pipe is skipped, a short row raises IndexError. */
  function RowsOf(headers: seq<string>, lines: seq<string>): Result<seq<map<string, string>>, TableError>
  {
    if lines == [] then Ok([])
    else
      var line := lines[|lines| - 1];
      match RowsOf(headers, lines[..|lines| - 1])
      case Err(e) => Err(e)
      case Ok(rows) =>
        if '|' !in line then Ok(rows)
        else if |Cells(line)| < |headers| then Err(IndexError)
        else Ok(rows + [RowMap(headers, Cells(line))])
  }

  /** The whole function, IndexError for an empty table or a short row. */
  function ParsedTable(text: string): Result<Table, TableError>
  {
    var lines := TableLines(text);
    if lines == [] then Err(IndexError)
    else
      var headers := Cells(lines[0]);
      match RowsOf(headers, if |lines| <= 2 then [] else lines[2..])
      case Err(e) => Err(e)
      case Ok(rows) => Ok(Table(rows, headers))
  }

  /** `parse_markdown_table`: the comprehensions, then the loop over the
      lines after the separator. */
  method ParseMarkdownTable(markdownTable: string) returns (result: Result<Table, TableError>)
    ensures result == ParsedTable(markdownTable)
  {
    var lines := TableLines(markdownTable);
    if lines == [] {
      return Err(IndexError);
    }
    var headers := Cells(lines[0]);
    var rows := CollectRows(headers, if |lines| <= 2 then [] else lines[2..]);
    match rows {
      case Err(e) => return Err(e);
      case Ok(rs) => return Ok(Table(rs, headers));
    }
  }

  /** The loop over the lines after the separator: a line without a pipe is
      skipped and a short row stops the loop with IndexError. */
  method CollectRows(headers: seq<string>, rest: seq<string>) returns (result: Result<seq<map<string, string>>, TableError>)
    ensures result == RowsOf(headers, rest)
  {
    var rows: seq<map<string, string>> := [];
    var i := 0;
    while i < |rest|
      invariant i <= |rest|
      invariant RowsOf(headers, rest[..i]) == Ok(rows)
    {
      RowsOfStep(headers, rest, i);
      var line := rest[i];
      if '|' !in line {
        i := i + 1;
        continue;
      }
      var values := Cells(line);
      if |values| < |headers| {
        assert RowsOf(headers, rest) == Err(IndexError) by {
          RowsOfErrorStays(headers, rest, i + 1);
        }
        return Err(IndexError);
      }
      rows := rows + [RowMap(headers, values)];
      i := i + 1;
    }
    assert rest[..|rest|] == rest;
    return Ok(rows);
  }

  lemma RowsOfStep(headers: seq<string>, lines: seq<string>, i: nat)
    requires i < |lines|
    ensures RowsOf(headers, lines[..i + 1]) ==
      match RowsOf(headers, lines[..i])
      case Err(e) => Err(e)
      case Ok(rows) =>
        if '|' !in lines[i] then Ok(rows)
        else if |Cells(lines[i])| < |headers| then Err(IndexError)
        else Ok(rows + [RowMap(headers, Cells(lines[i]))])
  {
    assert lines[..i + 1][..i] == lines[..i];
  }

  /** Once a short row has raised, the rest of the lines change nothing. */
  lemma {:induction false} RowsOfErrorStays(headers: seq<string>, lines: seq<string>, j: nat)
    requires j <= |lines| && RowsOf(headers, lines[..j]) == Err(IndexError)
    ensures RowsOf(headers, lines) == Err(IndexError)
    decreases |lines| - j
  {
    if j < |lines| {
      assert lines[..j + 1][..j] == lines[..j];
      RowsOfErrorStays(headers, lines, j + 1);
    } else {
      assert lines[..j] == lines;
    }
  }

  /** The loop raises exactly when one of the piped lines is shorter than
      the header. */
  lemma {:induction false} RowsOfRaises(headers: seq<string>, lines: seq<string>)
    ensures RowsOf(headers, lines).Err? <==> exists k :: 0 <= k < |Piped(lines)| && |Cells(Piped(lines)[k])| < |headers|
    decreases |lines|
  {
    if lines != [] {
      var init := lines[..|lines| - 1];
      var line := lines[|lines| - 1];
      var p := Piped(init);
      RowsOfRaises(headers, init);
      PipedSnoc(lines);
      if '|' in line && RowsOf(headers, init).Ok? && |Cells(line)| < |headers| {
        assert |Cells(Piped(lines)[|p|])| < |headers|;
      }
    }
  }

  /** Without a short row, the loop keeps exactly the piped lines, in
      order, each keyed by the headers. */
  lemma {:induction false} RowsOfPiped(headers: seq<string>, lines: seq<string>)
    ensures RowsOf(headers, lines).Ok? ==>
      var rows := RowsOf(headers, lines).value;
      |rows| == |Piped(lines)| &&
      forall k :: 0 <= k < |rows| ==> |Cells(Piped(lines)[k])| >= |headers| && rows[k] == RowMap(headers, Cells(Piped(lines)[k]))
    decreases |lines|
  {
    if lines != [] {
      var init := lines[..|lines| - 1];
      RowsOfPiped(headers, init);
      PipedSnoc(lines);
    }
  }

  /** The piped lines of a non-empty list: those of all but the last line,
      then the last line when it holds a pipe. */
  lemma PipedSnoc(lines: seq<string>)
    requires lines != []
    ensures var p := Piped(lines[..|lines| - 1]);
      var line := lines[|lines| - 1];
      Piped(lines) == p + (if '|' in line then [line] else []) &&
      (forall k :: 0 <= k < |p| ==> Piped(lines)[k] == p[k]) &&
      ('|' in line ==> Piped(lines)[|p|] == line)
  {
  }

  /** Headers come from the first non-blank line, the rows from the piped
      lines after the separator, one row per such line in input order, each
      keyed by exactly the headers; a row with fewer cells than headers
      raises IndexError, extra cells are ignored. */
  lemma ParsedTableShape(text: string)
    ensures var lines := TableLines(text);
      (lines == [] ==> ParsedTable(text) == Err(IndexError)) &&
      (lines != [] ==>
        var headers := Cells(lines[0]);
        var data := DataLines(lines);
        (ParsedTable(text).Err? <==> exists k :: 0 <= k < |data| && |Cells(data[k])| < |headers|) &&
        (ParsedTable(text).Ok? ==>
          ParsedTable(text).value.headers == headers &&
          |ParsedTable(text).value.rows| == |data| &&
          forall k :: 0 <= k < |data| ==>
            ParsedTable(text).value.rows[k].Keys == (set h | h in headers) &&
            forall i :: 0 <= i < |headers| && headers[i] !in headers[i + 1..] ==>
              ParsedTable(text).value.rows[k][headers[i]] == Cells(data[k])[i]))
  {
    var lines := TableLines(text);
    if lines != [] {
      var headers := Cells(lines[0]);
      var data := DataLines(lines);
      var rest := if |lines| <= 2 then [] else lines[2..];
      RowsOfRaises(headers, rest);
      RowsOfPiped(headers, rest);
      assert data == Piped(rest);
      if ParsedTable(text).Ok? {
        forall k | 0 <= k < |data|
          ensures ParsedTable(text).value.rows[k].Keys == (set h | h in headers)
        {
          RowMapKeys(headers, Cells(data[k]));
        }
        forall k, i | 0 <= k < |data| && 0 <= i < |headers| && headers[i] !in headers[i + 1..]
          ensures ParsedTable(text).value.rows[k][headers[i]] == Cells(data[k])[i]
        {
          RowMapAt(headers, Cells(data[k]), i);
        }
      }
    }
  }

  /** A header that is not repeated later maps to the cell in its column. */
  /** A row dictionary is keyed by exactly the headers. */
  lemma {:induction false} RowMapKeys(headers: seq<string>, values: seq<string>)
    requires |values| >= |headers|
    ensures RowMap(headers, values).Keys == set h | h in headers
    decreases |headers|
  {
    if headers != [] {
      var n := |headers| - 1;
      RowMapKeys(headers[..n], values);
      assert forall h :: h in headers <==> h in headers[..n] || h == headers[n];
    }
  }

  lemma {:induction false} RowMapAt(headers: seq<string>, values: seq<string>, i: nat)
    requires |values| >= |headers| && i < |headers| && headers[i] !in headers[i + 1..]
    ensures headers[i] in RowMap(headers, values) && RowMap(headers, values)[headers[i]] == values[i]
    decreases |headers|
  {
    var n := |headers| - 1;
    if i < n {
      assert headers[i + 1..] == headers[..n][i + 1..] + [headers[n]];
      assert headers[..n][i] == headers[i];
      RowMapAt(headers[..n], values, i);
    }
  }

  /** The header line and the separator line never become rows; a line
      without a pipe never becomes a row. */
  lemma DataLinesSkip(lines: seq<string>)
    ensures |DataLines(lines)| <= if |lines| <= 2 then 0 else |lines| - 2
    ensures forall k :: 0 <= k < |DataLines(lines)| ==> '|' in DataLines(lines)[k]
  {
  }

  // ---------------------------------------------------------------------------
  // evaluate_response_accuracy

  /** One question: the expected answer and the two model responses. */
  datatype Answer = Answer(correct: string, table: string, chart: string)

  /** One entry of `results`: the test case's name and its questions. */
  datatype TestRun = TestRun(name: string, answers: seq<Answer>)

  /** One output record of the outer loop. `accuracy` is None where the
      source writes "N/A (subjective only)". */
  datatype Score = Score(testCase: string, total: int, tableCorrect: nat, chartCorrect: nat, tableAccuracy: Option<real>, chartAccuracy: Option<real>)

  predicate Subjective(answer: string)
  {
    Contains(answer, "subjective") || Contains(answer, "looking for")
  }

  /** `re.findall(r'\$[\d,]+(?:\.\d+)?', s)` from position `i`. */
  function Dollars(s: string, i: nat): (r: seq<string>)
    requires i <= |s|
    ensures forall k :: 0 <= k < |r| ==> Contains(s, r[k])
    decreases |s| - i
  {
    if i + 1 >= |s| then []
    else if s[i] == '$' && InClass(s[i + 1], DigitOrComma) then
      var j := RunEnd(s, i + 1, DigitOrComma);
      var e := if j + 1 < |s| && s[j] == '.' && IsDigit(s[j + 1]) then RunEnd(s, j + 1, Digit) else j;
      ContainsAt(s, s[i..e], i);
      [s[i..e]] + Dollars(s, e)
    else Dollars(s, i + 1)
  }

  /** The end of `\d+(?:\.\d+)?` starting at a digit at `i`. */
  function NumberEnd(s: string, i: nat): (e: nat)
    requires i < |s| && IsDigit(s[i])
    ensures i < e <= |s|
  {
    var j := RunEnd(s, i, Digit);
    if j + 1 < |s| && s[j] == '.' && IsDigit(s[j + 1]) then RunEnd(s, j + 1, Digit) else j
  }

  /** The end of a percentage match at `i`, if one starts there:
      `\d+(?:\.\d+)?%` or `\d+(?:\.\d+)?(?:\s+)?percent(?:age)?`. */
  function PercentEnd(s: string, i: nat): (r: Option<nat>)
    requires i < |s| && IsDigit(s[i])
    ensures r.Some? ==> i < r.value <= |s|
  {
    var k := NumberEnd(s, i);
    if k < |s| && s[k] == '%' then Some(k + 1)
    else
      var m := RunEnd(s, k, Space);
      if StartsWith(s[m..], "percent") then
        if StartsWith(s[m + 7..], "age") then Some(m + 10) else Some(m + 7)
      else None
  }

  /** `re.findall` of the percentage pattern, whose `(?<!\w)` look-behind
      lets a match start only where no word character precedes. */
  function Percents(s: string, i: nat): (r: seq<string>)
    requires i <= |s|
    ensures forall k :: 0 <= k < |r| ==> Contains(s, r[k])
    decreases |s| - i
  {
    if i >= |s| then []
    else if IsDigit(s[i]) && (i == 0 || !IsWordChar(s[i - 1])) && PercentEnd(s, i).Some? then
      var e := PercentEnd(s, i).value;
      ContainsAt(s, s[i..e], i);
      [s[i..e]] + Percents(s, e)
    else Percents(s, i + 1)
  }

  const Statements: seq<string> := ["usa", "china", "north", "east", "june", "stock c", "month", "age group"]

  /** The statements of the fixed list found in `s`, in list order. */
  function StatementsIn(s: string, names: seq<string>): (r: seq<string>)
    ensures forall k :: 0 <= k < |r| ==> Contains(s, r[k])
  {
    if names == [] then []
    else (if Contains(s, names[0]) then [names[0]] else []) + StatementsIn(s, names[1..])
  }

  /** `key_facts` of a lower-cased answer. */
  function KeyFacts(answer: string): seq<string>
  {
    (if '$' in answer then Dollars(answer, 0) else []) +
    (if '%' in answer then Percents(answer, 0) else []) +
    StatementsIn(answer, Statements)
  }

  /** Every key fact is a piece of the answer. */
  lemma KeyFactsInAnswer(answer: string)
    ensures forall k :: 0 <= k < |KeyFacts(answer)| ==> Contains(answer, KeyFacts(answer)[k])
  {
    var d := if '$' in answer then Dollars(answer, 0) else [];
    var p := if '%' in answer then Percents(answer, 0) else [];
    var st := StatementsIn(answer, Statements);
    assert KeyFacts(answer) == d + p + st;
    forall k | 0 <= k < |KeyFacts(answer)|
      ensures Contains(answer, KeyFacts(answer)[k])
    {
      var f := KeyFacts(answer)[k];
      if k < |d| {
        assert f == d[k];
      } else if k < |d| + |p| {
        assert f == p[k - |d|];
      } else {
        assert f == st[k - |d| - |p|];
      }
    }
  }

  /** Whether a lower-cased response scores against a lower-cased answer. */
  predicate Scores(answer: string, response: string)
  {
    var facts := KeyFacts(answer);
    if facts != [] then forall k :: 0 <= k < |facts| ==> Contains(response, Lower(facts[k]))
    else Contains(response, answer[..if |answer| < 10 then |answer| else 10])
  }

  function CountSubjective(items: seq<Answer>): (n: nat)
    ensures n <= |items|
  {
    if items == [] then 0
    else CountSubjective(items[..|items| - 1]) + (if Subjective(Lower(items[|items| - 1].correct)) then 1 else 0)
  }

  /** How many non-subjective questions the table (or chart) response gets. */
  function CountScored(items: seq<Answer>, chart: bool): (n: nat)
  {
    if items == [] then 0
    else
      var a := items[|items| - 1];
      var response := if chart then a.chart else a.table;
      CountScored(items[..|items| - 1], chart) +
        (if !Subjective(Lower(a.correct)) && Scores(Lower(a.correct), Lower(response)) then 1 else 0)
  }

  /** The correct counts never exceed the factual questions. */
  lemma {:induction false} CountScoredBound(items: seq<Answer>, chart: bool)
    ensures CountScored(items, chart) <= |items| - CountSubjective(items)
  {
    if items != [] {
      CountScoredBound(items[..|items| - 1], chart);
    }
  }

  /** The per-question loop of `evaluate_response_accuracy` for one test
      case. */
  method ScoreTest(name: string, items: seq<Answer>) returns (score: Score)
    ensures score.testCase == name
    ensures score.total == |items| - CountSubjective(items)
    ensures score.tableCorrect == CountScored(items, false) && score.chartCorrect == CountScored(items, true)
    ensures 0 <= score.tableCorrect <= score.total && 0 <= score.chartCorrect <= score.total
    ensures score.total > 0 <==> score.tableAccuracy.Some?
    ensures score.total > 0 ==>
      score.tableAccuracy == Some(score.tableCorrect as real / score.total as real * 100.0) &&
      score.chartAccuracy == Some(score.chartCorrect as real / score.total as real * 100.0)
    ensures score.total <= 0 ==> score.tableAccuracy.None? && score.chartAccuracy.None?
  {
    var totalQuestions, tableCorrect, chartCorrect := CountAnswers(items);
    CountScoredBound(items, false);
    CountScoredBound(items, true);
    if totalQuestions > 0 {
      score := Score(name, totalQuestions, tableCorrect, chartCorrect,
        Some(tableCorrect as real / totalQuestions as real * 100.0),
        Some(chartCorrect as real / totalQuestions as real * 100.0));
    } else {
      score := Score(name, totalQuestions, tableCorrect, chartCorrect, None, None);
    }
  }

  /** The question loop: the questions left after the subjective ones are
      dropped, and how many of them each response scores. */
  method CountAnswers(items: seq<Answer>) returns (totalQuestions: int, tableCorrect: nat, chartCorrect: nat)
    ensures totalQuestions == |items| - CountSubjective(items)
    ensures tableCorrect == CountScored(items, false) && chartCorrect == CountScored(items, true)
  {
    tableCorrect := 0;
    chartCorrect := 0;
    totalQuestions := |items|;
    var i := 0;
    while i < |items|
      invariant i <= |items|
      invariant totalQuestions == |items| - CountSubjective(items[..i])
      invariant tableCorrect == CountScored(items[..i], false)
      invariant chartCorrect == CountScored(items[..i], true)
    {
      CountStep(items, i);
      var skip, tableHit, chartHit := ScoreAnswer(items[i]);
      if skip {
        totalQuestions := totalQuestions - 1;
        i := i + 1;
        continue;
      }
      if tableHit {
        tableCorrect := tableCorrect + 1;
      }
      if chartHit {
        chartCorrect := chartCorrect + 1;
      }
      i := i + 1;
    }
    assert items[..|items|] == items;
  }

  lemma CountStep(items: seq<Answer>, i: nat)
    requires i < |items|
    ensures var a := items[i];
      var skip := Subjective(Lower(a.correct));
      CountSubjective(items[..i + 1]) == CountSubjective(items[..i]) + (if skip then 1 else 0) &&
      CountScored(items[..i + 1], false) ==
        CountScored(items[..i], false) + (if !skip && Scores(Lower(a.correct), Lower(a.table)) then 1 else 0) &&
      CountScored(items[..i + 1], true) ==
        CountScored(items[..i], true) + (if !skip && Scores(Lower(a.correct), Lower(a.chart)) then 1 else 0)
  {
    assert items[..i + 1][..i] == items[..i];
  }

  /** One pass of the question loop: whether the question is skipped as
      subjective, and otherwise whether each response scores. */
  method ScoreAnswer(a: Answer) returns (skip: bool, tableHit: bool, chartHit: bool)
    ensures skip == Subjective(Lower(a.correct))
    ensures !skip ==> tableHit == Scores(Lower(a.correct), Lower(a.table)) && chartHit == Scores(Lower(a.correct), Lower(a.chart))
  {
    var correctAnswer := Lower(a.correct);
    var tableResponse := Lower(a.table);
    var chartResponse := Lower(a.chart);
    if Contains(correctAnswer, "subjective") || Contains(correctAnswer, "looking for") {
      return true, false, false;
    }
    skip := false;
    var keyFacts := KeyFacts(correctAnswer);
    if keyFacts != [] {
      tableHit := forall k :: 0 <= k < |keyFacts| ==> Contains(tableResponse, Lower(keyFacts[k]));
      chartHit := forall k :: 0 <= k < |keyFacts| ==> Contains(chartResponse, Lower(keyFacts[k]));
    } else {
      var head := correctAnswer[..if |correctAnswer| < 10 then |correctAnswer| else 10];
      tableHit := Contains(tableResponse, head);
      chartHit := Contains(chartResponse, head);
    }
  }

  /** A response holding the whole lower-cased answer always scores: every
      key fact, and the ten-character fallback, is a piece of the answer. */
  lemma WholeAnswerScores(answer: string, response: string)
    requires answer == Lower(answer) && Contains(response, answer)
    ensures Scores(answer, response)
  {
    var facts := KeyFacts(answer);
    if facts != [] {
      KeyFactsInAnswer(answer);
      forall k | 0 <= k < |facts|
        ensures Contains(response, Lower(facts[k]))
      {
        LowerPiece(answer, facts[k]);
        ContainsTransitive(response, answer, facts[k]);
      }
    } else {
      var n := if |answer| < 10 then |answer| else 10;
      assert FactorAt(answer, answer[..n], 0);
      ContainsAt(answer, answer[..n], 0);
      ContainsTransitive(response, answer, answer[..n]);
    }
  }

  /** A piece of a lower-case text is lower case. */
  lemma LowerPiece(s: string, p: string)
    requires s == Lower(s) && Contains(s, p)
    ensures Lower(p) == p
  {
    ContainsIsFactor(s, p);
    var j: nat :| FactorAt(s, p, j);
    forall m | 0 <= m < |p|
      ensures LowerChar(p[m]) == p[m]
    {
      assert p[m] == s[j + m];
      LowerAt(s, j + m);
    }
    LowerFixed(p);
  }

  lemma {:induction false} LowerAt(s: string, m: nat)
    requires m < |s|
    ensures Lower(s)[m] == LowerChar(s[m])
    decreases |s|
  {
    if m > 0 {
      LowerAt(s[1..], m - 1);
    }
  }

  lemma {:induction false} LowerFixed(p: string)
    requires forall m :: 0 <= m < |p| ==> LowerChar(p[m]) == p[m]
    ensures Lower(p) == p
    decreases |p|
  {
    if p != [] {
      LowerFixed(p[1..]);
    }
  }

  lemma ContainsTransitive(t: string, s: string, p: string)
    requires Contains(t, s) && Contains(s, p)
    ensures Contains(t, p)
  {
    ContainsIsFactor(t, s);
    ContainsIsFactor(s, p);
    var i: nat :| FactorAt(t, s, i);
    var j: nat :| FactorAt(s, p, j);
    forall m | 0 <= m < |p|
      ensures t[i + j + m] == p[m]
    {
      assert t[i + j + m] == t[i..i + |s|][j + m];
    }
    assert t[i + j..i + j + |p|] == p;
    ContainsAt(t, p, i + j);
  }

  /** The record the outer loop writes for one test case: its name, the
      number of non-subjective questions, the questions each response
      scores, and the two accuracies, which are absent exactly when no
      question is left. */
  predicate ScoredAs(t: TestRun, score: Score)
  {
    score.testCase == t.name &&
    score.total == |t.answers| - CountSubjective(t.answers) &&
    score.tableCorrect == CountScored(t.answers, false) && score.chartCorrect == CountScored(t.answers, true) &&
    score.tableCorrect as int <= score.total && score.chartCorrect as int <= score.total &&
    (score.total > 0 ==>
      score.tableAccuracy == Some(score.tableCorrect as real / score.total as real * 100.0) &&
      score.chartAccuracy == Some(score.chartCorrect as real / score.total as real * 100.0)) &&
    (score.total <= 0 ==> score.tableAccuracy.None? && score.chartAccuracy.None?)
  }

  /** Appending the next test's record keeps every record its own test's. */
  lemma ScoredAppend(tests: seq<TestRun>, data: seq<Score>, score: Score)
    requires |data| < |tests|
    requires forall m :: 0 <= m < |data| ==> ScoredAs(tests[m], data[m])
    requires ScoredAs(tests[|data|], score)
    ensures forall m :: 0 <= m < |data| + 1 ==> ScoredAs(tests[m], (data + [score])[m])
  {
  }

  /** The outer loop over test cases: one record per test, in order. */
  method EvaluateResponseAccuracy(tests: seq<TestRun>) returns (data: seq<Score>)
    ensures |data| == |tests|
    ensures forall j :: 0 <= j < |tests| ==> ScoredAs(tests[j], data[j])
  {
    data := [];
    for j := 0 to |tests|
      invariant |data| == j
      invariant forall m :: 0 <= m < j ==> ScoredAs(tests[m], data[m])
    {
      var score := ScoreTest(tests[j].name, tests[j].answers);
      ScoredAppend(tests, data, score);
      data := data + [score];
    }
  }
}
