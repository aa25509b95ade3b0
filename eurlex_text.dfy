/** The two string normalisers of `EURLexParser` (parse_crr3.py):
    `clean_text`, a chain of four substitutions and a strip, and
    `add_pagebreaks_to_text`, three look-behind substitutions that put a
    blank line before `(i)`, `(a)` and `(1)` markers, a newline collapse and
    a strip. Each `re.sub` is written as a left-to-right scan over the
    original string, which is how the look-behinds see it. */
module EurLexText {
  import opened Wrappers
  import opened Text

  // ---------------------------------------------------------------------------
  // Shared facts

  predicate NoDoubleSpace(s: string)
  {
    forall k :: 0 <= k < |s| - 1 ==> !(IsSpace(s[k]) && IsSpace(s[k + 1]))
  }

  predicate NoDoubleSpaceFrom(s: string, i: nat)
  {
    forall k :: i <= k < |s| - 1 ==> !(IsSpace(s[k]) && IsSpace(s[k + 1]))
  }

  /** The two end-of-modification markers. */
  predicate IsEndMarker(c: char) { c == '\U{25C4}' || c == '\U{25B2}' }

  predicate NoEndMarker(s: string) { forall k :: 0 <= k < |s| ==> !IsEndMarker(s[k]) }

  predicate NoEndMarkerFrom(s: string, i: nat) { forall k :: i <= k < |s| ==> !IsEndMarker(s[k]) }

  /** Every whitespace character is a plain space. */
  predicate PlainSpaces(s: string) { forall k :: 0 <= k < |s| ==> IsSpace(s[k]) ==> s[k] == ' ' }

  predicate PlainSpacesFrom(s: string, i: nat) { forall k :: i <= k < |s| ==> IsSpace(s[k]) ==> s[k] == ' ' }

  predicate NoTripleNewline(s: string)
  {
    forall k :: 0 <= k < |s| - 2 ==> !(s[k] == '\n' && s[k + 1] == '\n' && s[k + 2] == '\n')
  }

  /** `strip()` keeps a contiguous piece of its input. */
  lemma StripIsSlice(s: string)
    ensures var a := |s| - |LStrip(s)|;
      a + |Strip(s)| <= |s| && Strip(s) == s[a..a + |Strip(s)|]
  {
    LStripShape(s);
    RStripShape(LStrip(s));
  }

  // ---------------------------------------------------------------------------
  // clean_text

  /** `re.sub(r'►[A-Z]\d+|◄|▼[A-Z]\d+|▲', '', s)` from position `i`. */
  function RemoveMarkers(s: string, i: nat): (r: string)
    requires i <= |s|
    ensures NoEndMarker(r)
    decreases |s| - i
  {
    if i >= |s| then []
    else if (s[i] == '\U{25BA}' || s[i] == '\U{25BC}') && i + 2 < |s| && 'A' <= s[i + 1] <= 'Z' && IsDigit(s[i + 2]) then
      RemoveMarkers(s, RunEnd(s, i + 2, Digit))
    else if IsEndMarker(s[i]) then RemoveMarkers(s, i + 1)
    else [s[i]] + RemoveMarkers(s, i + 1)
  }

  /** `s.replace('\xa0', ' ')`. */
  function NoBreakToSpace(s: string): (r: string)
    ensures |r| == |s|
    ensures forall k :: 0 <= k < |s| ==> r[k] == if s[k] == '\U{00A0}' then ' ' else s[k]
  {
    seq(|s|, k requires 0 <= k < |s| => if s[k] == '\U{00A0}' then ' ' else s[k])
  }

  /** `re.sub(r'\s+', ' ', s)` from position `i`: every whitespace run
      becomes one space. */
  function CollapseSpaces(s: string, i: nat): (r: string)
    requires i <= |s|
    ensures i < |s| ==> r != [] && r[0] == (if IsSpace(s[i]) then ' ' else s[i])
    ensures NoDoubleSpace(r) && PlainSpaces(r)
    ensures NoEndMarkerFrom(s, i) ==> NoEndMarker(r)
    decreases |s| - i
  {
    if i >= |s| then []
    else if IsSpace(s[i]) then " " + CollapseSpaces(s, RunEnd(s, i, Space))
    else [s[i]] + CollapseSpaces(s, i + 1)
  }

  /** `re.sub(r'(?<!\d)\s+\.', '.', s)` from position `i`: a whitespace run
      right before a dot goes, unless a digit precedes the run. */
  function DropSpaceBeforeDot(s: string, i: nat): (r: string)
    requires i <= |s|
    ensures i < |s| ==> r != [] && (r[0] == s[i] || r[0] == '.')
    ensures NoDoubleSpaceFrom(s, i) ==> NoDoubleSpace(r)
    ensures PlainSpacesFrom(s, i) ==> PlainSpaces(r)
    ensures NoEndMarkerFrom(s, i) ==> NoEndMarker(r)
    decreases |s| - i
  {
    if i >= |s| then []
    else if IsSpace(s[i]) && (i == 0 || !IsDigit(s[i - 1])) && RunEnd(s, i, Space) < |s| && s[RunEnd(s, i, Space)] == '.' then
      "." + DropSpaceBeforeDot(s, RunEnd(s, i, Space) + 1)
    else [s[i]] + DropSpaceBeforeDot(s, i + 1)
  }

  /** `clean_text`. */
  function CleanText(text: string): string
  {
    if text == [] then []
    else Strip(DropSpaceBeforeDot(CollapseSpaces(NoBreakToSpace(RemoveMarkers(text, 0)), 0), 0))
  }

  /** The output of `clean_text` is empty for empty input, stripped, holds
      no two whitespace characters in a row (and no whitespace but plain
      spaces), and no `◄` or `▲`. */
  lemma CleanTextShape(text: string)
    ensures text == [] ==> CleanText(text) == []
    ensures var r := CleanText(text);
      (r != [] ==> !IsSpace(r[0]) && !IsSpace(r[|r| - 1])) &&
      NoDoubleSpace(r) && PlainSpaces(r) && NoEndMarker(r)
  {
    if text != [] {
      var a := RemoveMarkers(text, 0);
      var b := NoBreakToSpace(a);
      assert NoEndMarkerFrom(b, 0);
      var c := CollapseSpaces(b, 0);
      var d := DropSpaceBeforeDot(c, 0);
      StripIsSlice(d);
      var lo := |d| - |LStrip(d)|;
      var r := Strip(d);
      forall k | 0 <= k < |r|
        ensures r[k] == d[lo + k]
      {
      }
    }
  }

  // ---------------------------------------------------------------------------
  // add_pagebreaks_to_text

  /** The three list-marker shapes, each under IGNORECASE. */
  datatype MarkerKind = Roman | Letter | Number

  /** The end of `\([ivxlcdm]+\)`, `\([a-z]\)` or `\(\d+\)` at `m`. */
  function TokenEnd(s: string, m: nat, kind: MarkerKind): (r: Option<nat>)
    requires m < |s| && s[m] == '('
    ensures r.Some? ==> m + 3 <= r.value <= |s| && s[r.value - 1] == ')'
  {
    match kind
    case Roman =>
      var e := RunEnd(s, m + 1, RomanNumeralCI);
      if e > m + 1 && e < |s| && s[e] == ')' then Some(e + 1) else None
    case Letter =>
      if m + 2 < |s| && IsAsciiLetter(s[m + 1]) && s[m + 2] == ')' then Some(m + 3) else None
    case Number =>
      var e := RunEnd(s, m + 1, Digit);
      if e > m + 1 && e < |s| && s[e] == ')' then Some(e + 1) else None
  }

  /** Where a match of `(?<=[.;,\s])(\s*)(marker)` starting at `i` ends. */
  function BreakAt(s: string, i: nat, kind: MarkerKind): (r: Option<nat>)
    requires i < |s|
    ensures r.Some? ==> i < r.value <= |s|
  {
    if i > 0 && (s[i - 1] == '.' || s[i - 1] == ';' || s[i - 1] == ',' || IsSpace(s[i - 1])) then
      var m := RunEnd(s, i, Space);
      if m < |s| && s[m] == '(' then TokenEnd(s, m, kind) else None
    else None
  }

  /** One `re.sub(pattern, r'\n\n\2', s)` pass from position `i`. */
  function BreakPass(s: string, i: nat, kind: MarkerKind): string
    requires i <= |s|
    decreases |s| - i
  {
    if i >= |s| then []
    else match BreakAt(s, i, kind)
      case Some(e) => "\n\n" + s[RunEnd(s, i, Space)..e] + BreakPass(s, e, kind)
      case None => [s[i]] + BreakPass(s, i + 1, kind)
  }

  /** `re.sub(r'\n{3,}', '\n\n', s)` from position `i`. */
  function CollapseNewlines(s: string, i: nat): (r: string)
    requires i <= |s|
    ensures i < |s| ==> r != [] && r[0] == s[i]
    ensures NoTripleNewline(r)
    decreases |s| - i
  {
    if i >= |s| then []
    else if s[i] == '\n' then
      var j := RunEnd(s, i, Newline);
      var rest := CollapseNewlines(s, j);
      var head := if j - i >= 3 then "\n\n" else s[i..j];
      NewlineRunThenRest(head, rest);
      head + rest
    else
      var rest := CollapseNewlines(s, i + 1);
      assert forall k :: 1 <= k < |rest| + 1 - 2 ==> ([s[i]] + rest)[k] == rest[k - 1];
      [s[i]] + rest
  }

  /** At most two newlines followed by text that does not start with one
      holds no three newlines in a row. */
  lemma NewlineRunThenRest(head: string, rest: string)
    requires |head| <= 2 && NoTripleNewline(rest) && (rest != [] ==> rest[0] != '\n')
    ensures NoTripleNewline(head + rest)
  {
    var r := head + rest;
    forall k | 0 <= k < |r| - 2
      ensures !(r[k] == '\n' && r[k + 1] == '\n' && r[k + 2] == '\n')
    {
      if k >= |head| {
        assert r[k] == rest[k - |head|] && r[k + 1] == rest[k + 1 - |head|] && r[k + 2] == rest[k + 2 - |head|];
      } else if |head| == 2 && k == 1 {
        assert r[k + 1] == rest[0];
      } else if |head| == 2 {
        assert r[k + 2] == rest[0];
      } else {
        assert r[k + 1] == rest[0];
      }
    }
  }

  /** `add_pagebreaks_to_text`. */
  function AddPagebreaks(text: string): string
  {
    if text == [] then text
    else
      var roman := BreakPass(text, 0, Roman);
      var letter := BreakPass(roman, 0, Letter);
      var number := BreakPass(letter, 0, Number);
      Strip(CollapseNewlines(number, 0))
  }

  /** Empty text comes back unchanged; otherwise the result is stripped and
      holds no run of three or more newlines. */
  lemma AddPagebreaksShape(text: string)
    ensures text == [] ==> AddPagebreaks(text) == text
    ensures var r := AddPagebreaks(text);
      (r != [] ==> !IsSpace(r[0]) && !IsSpace(r[|r| - 1])) && NoTripleNewline(r)
  {
    if text != [] {
      var number := BreakPass(BreakPass(BreakPass(text, 0, Roman), 0, Letter), 0, Number);
      var c := CollapseNewlines(number, 0);
      StripIsSlice(c);
      var lo := |c| - |LStrip(c)|;
      var r := Strip(c);
      forall k | 0 <= k < |r|
        ensures r[k] == c[lo + k]
      {
      }
    }
  }

  /** A marker after a separator gets a blank line before it: in
      "x; (a) y" the letter pass turns "; (a)" into ";\n\n(a)". */
  lemma LetterBreakExample()
    ensures BreakPass("x; (a) y", 0, Letter) == "x;\n\n(a) y"
  {
    var s := "x; (a) y";
    assert BreakAt(s, 0, Letter) == None;
    assert BreakAt(s, 1, Letter) == None;
    assert RunEnd(s, 3, Space) == 3;
    assert RunEnd(s, 2, Space) == 3;
    assert BreakAt(s, 2, Letter) == Some(6);
    assert BreakAt(s, 6, Letter) == None;
    assert BreakAt(s, 7, Letter) == None;
  }
}
