/** `EURLexParser` (parse_crr3.py): the five-level part / title / chapter /
    section / subsection context, the article extractor over an element
    tree, and the dispatch loop that walks the document's elements.

    The `hierarchy` dict has exactly ten keys, `lvl` and `lvl_heading` for
    each level `lvl`; it is modelled as two five-element sequences indexed
    by the level's position, `numbers[i]` for `lvl` and `headings[i]` for
    `lvl_heading`. */
module EurLex {
  import opened Wrappers
  import opened Text
  import opened EurLexText

  /** `HIERARCHY_LEVELS`, outermost first. */
  const Levels: seq<string> := ["part", "title", "chapter", "section", "subsection"]

  datatype Hierarchy = Hierarchy(numbers: seq<string>, headings: seq<string>)

  predicate Shaped(h: Hierarchy) { |h.numbers| == |Levels| && |h.headings| == |Levels| }

  /** The hierarchy of a fresh parser: every entry empty. */
  const Empty: Hierarchy := Hierarchy(["", "", "", "", ""], ["", "", "", "", ""])

  /** Where `levels.index(level)` finds `level`. */
  function LevelIndex(level: string): (r: Option<nat>)
    ensures r.Some? ==> r.value < |Levels| && Levels[r.value] == level
    ensures r.None? ==> level !in Levels
  {
    if level == "part" then Some(0)
    else if level == "title" then Some(1)
    else if level == "chapter" then Some(2)
    else if level == "section" then Some(3)
    else if level == "subsection" then Some(4)
    else None
  }

  /** The first level `reset_hierarchy_below` clears. */
  function StartIndex(level: string): nat
  {
    match LevelIndex(level)
    case Some(i) => i + 1
    case None => 0
  }

  /** `s` with every entry from position `k` on emptied. */
  function ClearFrom(s: seq<string>, k: nat): (r: seq<string>)
    ensures |r| == |s|
    ensures forall i :: 0 <= i < |s| ==> r[i] == if i < k then s[i] else ""
  {
    seq(|s|, i requires 0 <= i < |s| => if i < k then s[i] else "")
  }

  function ResetBelow(h: Hierarchy, level: string): Hierarchy
  {
    Hierarchy(ClearFrom(h.numbers, StartIndex(level)), ClearFrom(h.headings, StartIndex(level)))
  }

  /** Resetting below a known level keeps that level and the shallower ones
      and empties every deeper one; an unknown level empties everything. */
  lemma ResetBelowLevels(h: Hierarchy, level: string)
    requires Shaped(h)
    ensures Shaped(ResetBelow(h, level))
    ensures forall i :: 0 <= i < |Levels| ==>
      if level in Levels && i <= LevelIndex(level).value
      then ResetBelow(h, level).numbers[i] == h.numbers[i] && ResetBelow(h, level).headings[i] == h.headings[i]
      else ResetBelow(h, level).numbers[i] == "" && ResetBelow(h, level).headings[i] == ""
  {
  }

  // ---------------------------------------------------------------------------
  // update_hierarchy

  /** The test `update_hierarchy` applies to level `i`: the upper-cased name
      occurs in the upper-cased text, and either starts the stripped text or
      occurs as a space-delimited word. */
  predicate LevelMatches(i: nat, text: string)
    requires i < |Levels|
  {
    var name := Upper(Levels[i]);
    var upper := Upper(text);
    Contains(upper, name) &&
    (StartsWith(Upper(Strip(text)), name) || Contains(" " + upper + " ", " " + name + " "))
  }

  /** The first level from `i` on whose test passes. */
  function FirstLevel(text: string, i: nat): (r: Option<nat>)
    requires i <= |Levels|
    ensures r.Some? ==> i <= r.value < |Levels| && LevelMatches(r.value, text)
    ensures forall j :: i <= j < |Levels| && (r.None? || j < r.value) ==> !LevelMatches(j, text)
    decreases |Levels| - i
  {
    if i == |Levels| then None
    else if LevelMatches(i, text) then Some(i)
    else FirstLevel(text, i + 1)
  }

  /** The dashes of `[-–—]`. */
  predicate IsDash(c: char) { c == '-' || c == '\U{2013}' || c == '\U{2014}' }

  /** Where `$` holds without MULTILINE: at the end, or before a final newline. */
  predicate AtEnd(s: string, q: nat) { q == |s| || (q + 1 == |s| && s[q] == '\n') }

  /** The start of `(.+)$` after the dash: `\s*` before it is greedy and
      gives back characters, right to left, until `.+` can reach the end. */
  function TailStart(s: string, lo: nat, n: nat): (r: Option<nat>)
    requires lo <= n <= |s|
    ensures r.Some? ==> lo <= r.value <= n && RunEnd(s, r.value, NotNewline) > r.value && AtEnd(s, RunEnd(s, r.value, NotNewline))
    decreases n
  {
    var q := RunEnd(s, n, NotNewline);
    if q > n && AtEnd(s, q) then Some(n)
    else if n == lo then None
    else TailStart(s, lo, n - 1)
  }

  /** A match of `^(PART\s+[A-Z]+)\s*[-–—]\s*(.+)$` under IGNORECASE: group 1
      is `s[..end1]`, group 2 is `s[start2..end2]`. */
  datatype PartMatch = PartMatch(end1: nat, start2: nat, end2: nat)

  function PartSplit(s: string): (r: Option<PartMatch>)
    ensures r.Some? ==> 6 <= r.value.end1 < r.value.start2 < r.value.end2 <= |s|
    ensures r.Some? ==> Upper(s[..4]) == "PART" && IsSpace(s[4]) && IsAsciiLetter(s[r.value.end1 - 1])
    ensures r.Some? ==> forall k :: r.value.start2 <= k < r.value.end2 ==> s[k] != '\n'
    ensures r.Some? ==> AtEnd(s, r.value.end2)
  {
    if |s| < 4 || Upper(s[..4]) != "PART" then None
    else
      var j := RunEnd(s, 4, Space);
      if j == 4 then None
      else
        var e := RunEnd(s, j, AsciiLetter);
        if e == j then None
        else
          var m := RunEnd(s, e, Space);
          if m == |s| || !IsDash(s[m]) then None
          else
            match TailStart(s, m + 1, RunEnd(s, m + 1, Space))
            case None => None
            case Some(n) => Some(PartMatch(e, n, RunEnd(s, n, NotNewline)))
  }

  /** The number and heading `update_hierarchy` stores for level `i`. */
  function Entry(i: nat, text1: string, text2: Option<string>): (string, string)
  {
    if i == 0 && (text2.None? || text2.value == "") then
      match PartSplit(text1)
      case Some(p) => (Strip(text1[..p.end1]), Strip(text1[p.start2..p.end2]))
      case None => (text1, "")
    else (text1, if text2.Some? then text2.value else "")
  }

  /** The hierarchy after `update_hierarchy(text1, text2)`. */
  function Updated(h: Hierarchy, text1: string, text2: Option<string>): (r: Hierarchy)
    requires Shaped(h)
    ensures Shaped(r)
  {
    match FirstLevel(text1, 0)
    case None => h
    case Some(i) =>
      var (number, heading) := Entry(i, text1, text2);
      ResetBelow(Hierarchy(h.numbers[i := number], h.headings[i := heading]), Levels[i])
  }

  /** `update_hierarchy`: the first matching level gets the new entry, the
      shallower levels keep theirs and the deeper ones are emptied; when no
      level matches nothing changes. */
  lemma UpdatedLevels(h: Hierarchy, text1: string, text2: Option<string>)
    requires Shaped(h)
    ensures Shaped(Updated(h, text1, text2))
    ensures FirstLevel(text1, 0).None? ==> Updated(h, text1, text2) == h
    ensures FirstLevel(text1, 0).Some? ==>
      var i := FirstLevel(text1, 0).value;
      var u := Updated(h, text1, text2);
      (forall j :: 0 <= j < i ==> !LevelMatches(j, text1)) && LevelMatches(i, text1) &&
      u.numbers[i] == Entry(i, text1, text2).0 && u.headings[i] == Entry(i, text1, text2).1 &&
      (forall j :: 0 <= j < i ==> u.numbers[j] == h.numbers[j] && u.headings[j] == h.headings[j]) &&
      (forall j :: i < j < |Levels| ==> u.numbers[j] == "" && u.headings[j] == "")
  {
    if FirstLevel(text1, 0).Some? {
      var i := FirstLevel(text1, 0).value;
      var (number, heading) := Entry(i, text1, text2);
      ResetBelowLevels(Hierarchy(h.numbers[i := number], h.headings[i := heading]), Levels[i]);
    }
  }

  /** With a non-empty second text the level gets `text1` and its heading
      `text2`; with none, only the part level may split `text1`, and any
      other level gets an empty heading. */
  lemma EntryCases(i: nat, text1: string, text2: Option<string>)
    ensures text2.Some? && text2.value != "" ==> Entry(i, text1, text2) == (text1, text2.value)
    ensures i != 0 && (text2.None? || text2.value == "") ==> Entry(i, text1, text2) == (text1, "")
    ensures i == 0 && (text2.None? || text2.value == "") && PartSplit(text1).None? ==> Entry(i, text1, text2) == (text1, "")
    ensures i == 0 && (text2.None? || text2.value == "") && PartSplit(text1).Some? ==>
      var p := PartSplit(text1).value;
      Entry(i, text1, text2) == (Strip(text1[..p.end1]), Strip(text1[p.start2..p.end2]))
  {
  }

  /** A greedy run that stops at `j` ends at `j`. */
  lemma RunEndAt(s: string, i: nat, j: nat, k: CharClass)
    requires i <= j <= |s|
    requires forall m :: i <= m < j ==> InClass(s[m], k)
    requires j < |s| ==> !InClass(s[j], k)
    ensures RunEnd(s, i, k) == j
  {
  }

  /** The conditions under which `PART <letters> <dash> <heading>` has the
      inline form: `p` spells PART in any case, `w1` is non-empty whitespace,
      `w2` and `w3` are whitespace, `letters` is non-empty ASCII letters,
      `d` is a dash, and the heading is one non-empty line that does not
      start with whitespace. */
  predicate PartForm(p: string, w1: string, letters: string, w2: string, d: char, w3: string, heading: string)
  {
    |p| == 4 && Upper(p) == "PART" &&
    w1 != [] && AllSpace(w1) && AllSpace(w2) && AllSpace(w3) &&
    letters != [] && (forall k :: 0 <= k < |letters| ==> IsAsciiLetter(letters[k])) &&
    IsDash(d) &&
    heading != [] && !IsSpace(heading[0]) && (forall k :: 0 <= k < |heading| ==> heading[k] != '\n')
  }

  /** The inline form stated on positions: whitespace on `[4, b)`, letters
      on `[b, e)`, whitespace on `[e, m)`, a dash at `m`, whitespace on
      `(m, n)` and one line from `n` to the end. */
  predicate PartFormAt(s: string, b: nat, e: nat, m: nat, n: nat)
  {
    4 < b < e <= m < n < |s| && Upper(s[..4]) == "PART" &&
    (forall k :: 4 <= k < b ==> IsSpace(s[k])) &&
    (forall k :: b <= k < e ==> IsAsciiLetter(s[k])) &&
    (forall k :: e <= k < m ==> IsSpace(s[k])) &&
    IsDash(s[m]) &&
    (forall k :: m < k < n ==> IsSpace(s[k])) &&
    !IsSpace(s[n]) && (forall k :: n <= k < |s| ==> s[k] != '\n')
  }

  lemma PartSplitAt(s: string, b: nat, e: nat, m: nat, n: nat)
    requires PartFormAt(s, b, e, m, n)
    ensures PartSplit(s) == Some(PartMatch(e, n, |s|))
  {
    assert RunEnd(s, 4, Space) == b by { RunEndAt(s, 4, b, Space); }
    assert RunEnd(s, b, AsciiLetter) == e by { RunEndAt(s, b, e, AsciiLetter); }
    assert RunEnd(s, e, Space) == m by { RunEndAt(s, e, m, Space); }
    assert RunEnd(s, m + 1, Space) == n by { RunEndAt(s, m + 1, n, Space); }
    assert TailStart(s, m + 1, n) == Some(n) by { TailStartAt(s, m + 1, n); }
    assert RunEnd(s, n, NotNewline) == |s| by { RunEndAt(s, n, |s|, NotNewline); }
    PartSplitFrom(s, b, e, m, n);
  }

  /** `PartSplit` read off the ends of its runs. */
  lemma PartSplitFrom(s: string, b: nat, e: nat, m: nat, n: nat)
    requires 4 < b < e <= m < n < |s| && Upper(s[..4]) == "PART" && IsDash(s[m])
    requires RunEnd(s, 4, Space) == b && RunEnd(s, b, AsciiLetter) == e && RunEnd(s, e, Space) == m
    requires RunEnd(s, m + 1, Space) == n && TailStart(s, m + 1, n) == Some(n) && RunEnd(s, n, NotNewline) == |s|
    ensures PartSplit(s) == Some(PartMatch(e, n, |s|))
  {
  }

  lemma TailStartAt(s: string, lo: nat, n: nat)
    requires lo <= n < |s| && forall k :: n <= k < |s| ==> s[k] != '\n'
    ensures TailStart(s, lo, n) == Some(n)
  {
    RunEndAt(s, n, |s|, NotNewline);
  }

  /** The positions of the pieces of the inline form. */
  lemma PartFormPositions(p: string, w1: string, letters: string, w2: string, d: char, w3: string, heading: string)
    requires PartForm(p, w1, letters, w2, d, w3, heading)
    ensures var s := p + w1 + letters + w2 + [d] + w3 + heading;
      var e := 4 + |w1| + |letters|;
      var m := e + |w2|;
      PartFormAt(s, 4 + |w1|, e, m, m + 1 + |w3|) && s[..e] == p + w1 + letters && s[m + 1 + |w3|..] == heading
  {
    var s1 := p + w1;
    var s2 := s1 + letters;
    var s3 := s2 + w2;
    var s4 := s3 + [d];
    var s5 := s4 + w3;
    var s := s5 + heading;
    assert s == p + w1 + letters + w2 + [d] + w3 + heading;
    var b := |s1|;
    var e := |s2|;
    var m := |s3|;
    var n := |s5|;
    assert s[..4] == p by { assert s[..4] == s1[..4]; }
    assert forall k :: 4 <= k < b ==> s[k] == w1[k - 4];
    assert forall k :: b <= k < e ==> s[k] == letters[k - b];
    assert forall k :: e <= k < m ==> s[k] == w2[k - e];
    assert s[m] == d;
    assert forall k :: m < k < n ==> s[k] == w3[k - m - 1];
    assert forall k :: n <= k < |s| ==> s[k] == heading[k - n];
    assert s[..e] == s2;
    assert s[n..] == heading;
  }

  /** Every text of the inline form matches: group 1 runs to the end of the
      letters, group 2 is the whole heading. */
  lemma PartSplitComplete(p: string, w1: string, letters: string, w2: string, d: char, w3: string, heading: string)
    requires PartForm(p, w1, letters, w2, d, w3, heading)
    ensures var s := p + w1 + letters + w2 + [d] + w3 + heading;
      PartSplit(s) == Some(PartMatch(|p| + |w1| + |letters|, |s| - |heading|, |s|))
  {
    PartFormPositions(p, w1, letters, w2, d, w3, heading);
    var s := p + w1 + letters + w2 + [d] + w3 + heading;
    var e := 4 + |w1| + |letters|;
    PartSplitAt(s, 4 + |w1|, e, e + |w2|, e + |w2| + 1 + |w3|);
  }

  /** A string that neither starts nor ends with whitespace is its own strip. */
  lemma StripStripped(s: string)
    requires s != [] && !IsSpace(s[0]) && !IsSpace(s[|s| - 1])
    ensures Strip(s) == s
  {
    assert LStrip(s) == s;
    assert RStrip(s) == s;
  }

  /** A text that starts with PART, in any case, and has a non-space
      character at or after position 4 is a part heading. */
  lemma PartFirstLevel(s: string, n: nat)
    requires 4 <= n < |s| && Upper(s[..4]) == "PART" && !IsSpace(s[n])
    ensures FirstLevel(s, 0) == Some(0)
  {
    PartLevelMatches(s, n);
  }

  lemma PartLevelMatches(s: string, n: nat)
    requires 4 <= n < |s| && Upper(s[..4]) == "PART" && !IsSpace(s[n])
    ensures LevelMatches(0, s)
  {
    assert Upper("part") == "PART";
    assert Contains(Upper(s), "PART") by {
      assert Upper(s)[..4] == "PART";
      ContainsAt(Upper(s), "PART", 0);
    }
    assert StartsWith(Upper(Strip(s)), "PART") by {
      PartStartsLetter(s[..4]);
      StripKeeps(s, n);
      assert Strip(s)[..4] == s[..4];
    }
    assert LevelMatches(0, s);
  }

  /** Stripping a string that starts with a non-space keeps it up to any
      later non-space character. */
  lemma StripKeeps(s: string, n: nat)
    requires n < |s| && !IsSpace(s[0]) && !IsSpace(s[n])
    ensures n < |Strip(s)| && Strip(s)[..n + 1] == s[..n + 1]
  {
    assert LStrip(s) == s;
    RStripShape(s);
  }

  /** A word that upper-cases to PART starts with a letter, not whitespace. */
  lemma PartStartsLetter(p: string)
    requires |p| == 4 && Upper(p) == "PART"
    ensures !IsSpace(p[0])
  {
    assert UpperChar(p[0]) == 'P';
    if 'a' <= p[0] <= 'z' {
      assert p[0] as int - 32 == 'P' as int;
    }
  }

  /** With no second text, the part entry of a text of the inline form is
      `PART <letters>` and the stripped heading. */
  lemma PartEntry(p: string, w1: string, letters: string, w2: string, d: char, w3: string, heading: string)
    requires PartForm(p, w1, letters, w2, d, w3, heading)
    ensures Entry(0, p + w1 + letters + w2 + [d] + w3 + heading, None) == (p + w1 + letters, Strip(heading))
  {
    PartFormPositions(p, w1, letters, w2, d, w3, heading);
    var s := p + w1 + letters + w2 + [d] + w3 + heading;
    var e := 4 + |w1| + |letters|;
    var n := e + |w2| + 1 + |w3|;
    var number := p + w1 + letters;
    assert s[..e] == number && s[n..] == heading;
    EntryAt(s, 4 + |w1|, e, e + |w2|, n);
    assert Entry(0, s, None) == (number, Strip(heading));
  }

  /** The entry of a text of the inline form, stated on positions: the
      number runs to the end of the letters, the heading is the stripped
      rest of the text. */
  lemma EntryAt(s: string, b: nat, e: nat, m: nat, n: nat)
    requires PartFormAt(s, b, e, m, n)
    ensures Entry(0, s, None) == (s[..e], Strip(s[n..]))
  {
    PartSplitAt(s, b, e, m, n);
    EntryCases(0, s, None);
    assert s[n..|s|] == s[n..];
    assert !IsSpace(s[0]) by { PartStartsLetter(s[..4]); assert s[..4][0] == s[0]; }
    assert s[..e][e - 1] == s[e - 1];
    StripStripped(s[..e]);
  }

  /** `update_hierarchy(text)` on a text of the inline form, with no second
      text, stores `PART <letters>` as the part and the stripped heading as
      its heading, and empties every deeper level. */
  lemma PartInlineUpdated(h: Hierarchy, p: string, w1: string, letters: string, w2: string, d: char, w3: string, heading: string)
    requires Shaped(h)
    requires PartForm(p, w1, letters, w2, d, w3, heading)
    ensures var u := Updated(h, p + w1 + letters + w2 + [d] + w3 + heading, None);
      u.numbers[0] == p + w1 + letters && u.headings[0] == Strip(heading) &&
      forall j :: 0 < j < |Levels| ==> u.numbers[j] == "" && u.headings[j] == ""
  {
    var s := p + w1 + letters + w2 + [d] + w3 + heading;
    PartFormPositions(p, w1, letters, w2, d, w3, heading);
    var e := 4 + |w1| + |letters|;
    PartFirstLevel(s, e + |w2| + 1 + |w3|);
    PartEntry(p, w1, letters, w2, d, w3, heading);
    UpdatedLevels(h, s, None);
  }

  /** "PART A - B" is a part heading. */
  lemma PartLevelExample()
    ensures FirstLevel("PART A - B", 0) == Some(0)
  {
    var s := "PART A - B";
    assert Upper("part") == "PART";
    assert Upper(s)[..4] == "PART";
    ContainsAt(Upper(s), "PART", 0);
    StripExample(s);
    assert Upper(Strip(s))[..4] == "PART";
  }

  lemma StripExample(s: string)
    requires s != [] && !IsSpace(s[0]) && !IsSpace(s[|s| - 1])
    ensures Strip(s) == s
  {
    assert LStrip(s) == s;
    assert RStrip(s) == s;
  }

  lemma PartMatchExample()
    ensures PartSplit("PART A - B") == Some(PartMatch(6, 9, 10))
  {
    var s := "PART A - B";
    assert Upper(s[..4]) == "PART";
    assert RunEnd(s, 4, Space) == 5;
    assert RunEnd(s, 5, AsciiLetter) == 6;
    assert RunEnd(s, 6, Space) == 7;
    assert RunEnd(s, 8, Space) == 9;
    assert RunEnd(s, 9, NotNewline) == 10;
  }

  lemma GroupsExample()
    ensures Strip("PART A - B"[..6]) == "PART A" && Strip("PART A - B"[9..10]) == "B"
  {
    assert "PART A - B"[..6] == "PART A" && "PART A - B"[9..10] == "B";
    StripExample("PART A");
    StripExample("B");
  }

  lemma EntryExample()
    ensures Entry(0, "PART A - B", None) == ("PART A", "B")
  {
    PartMatchExample();
    GroupsExample();
  }

  /** The inline split: "PART A - B" with no second text stores "PART A"
      as the part and "B" as its heading. */
  lemma PartSplitExample()
    ensures Updated(Empty, "PART A - B", None).numbers[0] == "PART A"
    ensures Updated(Empty, "PART A - B", None).headings[0] == "B"
  {
    PartLevelExample();
    EntryExample();
    UpdatedLevels(Empty, "PART A - B", None);
  }

  // ---------------------------------------------------------------------------
  // The element tree

  /** An HTML node: a text node, or a tag with its class list and children. */
  datatype Node = TextNode(text: string) | Element(name: string, classes: seq<string>, children: seq<Node>)

  /** `get_text()`: every descendant string, concatenated. */
  function GetText(n: Node): string
    decreases n, 1
  {
    match n
    case TextNode(t) => t
    case Element(_, _, cs) => TextsOf(cs)
  }

  function TextsOf(cs: seq<Node>): string
    decreases cs, 0
  {
    if cs == [] then [] else GetText(cs[0]) + TextsOf(cs[1..])
  }

  /** `get_text(strip=True)`: every descendant string stripped, concatenated. */
  function StrippedText(n: Node): (r: string)
    ensures Stripped(r)
    decreases n, 1
  {
    match n
    case TextNode(t) => Strip(t)
    case Element(_, _, cs) => StrippedTexts(cs)
  }

  function StrippedTexts(cs: seq<Node>): (r: string)
    ensures Stripped(r)
    decreases cs, 0
  {
    if cs == [] then []
    else
      var a := StrippedText(cs[0]);
      var b := StrippedTexts(cs[1..]);
      StrippedConcat(a, b);
      a + b
  }

  /** No whitespace at either end. */
  predicate Stripped(s: string) { s == [] || (!IsSpace(s[0]) && !IsSpace(s[|s| - 1])) }

  lemma StrippedConcat(a: string, b: string)
    requires Stripped(a) && Stripped(b)
    ensures Stripped(a + b)
  {
    if a != [] && b != [] {
      assert (a + b)[|a + b| - 1] == b[|b| - 1];
    }
  }

  /** Joining non-empty stripped pieces with single spaces gives a stripped
      string. */
  lemma {:induction false} StrippedJoin(parts: seq<string>)
    requires forall k :: 0 <= k < |parts| ==> parts[k] != [] && Stripped(parts[k])
    ensures Stripped(Join(" ", parts))
    ensures parts != [] ==> Join(" ", parts) != []
  {
    if |parts| > 1 {
      StrippedJoin(parts[1..]);
      var rest := Join(" ", parts[1..]);
      var r := parts[0] + " " + rest;
      assert r[0] == parts[0][0];
      assert r[|r| - 1] == rest[|rest| - 1];
    }
  }

  /** `cls in tag.get('class', [])`. */
  predicate HasClass(n: Node, cls: string) { n.Element? && cls in n.classes }

  /** `cls in ' '.join(tag.get('class', []))`. */
  predicate ClassTextHas(n: Node, cls: string) { n.Element? && Contains(Join(" ", n.classes), cls) }

  predicate IsGridContainer(n: Node) { n.Element? && n.name == "div" && ClassTextHas(n, "grid-container") }

  /** A tag with that name and class. */
  predicate Tagged(n: Node, name: string, cls: string) { n.Element? && n.name == name && cls in n.classes }

  /** Every node under `cs` in document order: a node, then its descendants,
      then its later siblings. */
  function Descendants(cs: seq<Node>): seq<Node>
    decreases cs
  {
    if cs == [] then []
    else [cs[0]] + (if cs[0].Element? then Descendants(cs[0].children) else []) + Descendants(cs[1..])
  }

  /** The position of the first tag in `d` with that name and class, or `|d|`
      when there is none. */
  function FirstTagged(d: seq<Node>, name: string, cls: string): (i: nat)
    ensures i <= |d|
    ensures forall j :: 0 <= j < i ==> !Tagged(d[j], name, cls)
    ensures i < |d| ==> Tagged(d[i], name, cls)
    decreases |d|
  {
    if d == [] then 0
    else if Tagged(d[0], name, cls) then 0
    else
      var i := FirstTagged(d[1..], name, cls);
      assert forall j :: 1 <= j < 1 + i ==> d[j] == d[1..][j - 1];
      1 + i
  }

  /** The first tag in `a + b` is the first in `a`, or else the first in `b`. */
  lemma FirstTaggedAppend(a: seq<Node>, b: seq<Node>, name: string, cls: string)
    ensures FirstTagged(a + b, name, cls) ==
      if FirstTagged(a, name, cls) < |a| then FirstTagged(a, name, cls) else |a| + FirstTagged(b, name, cls)
  {
    var ia, ib := FirstTagged(a, name, cls), FirstTagged(b, name, cls);
    assert forall j :: 0 <= j < |a| ==> (a + b)[j] == a[j];
    assert forall j :: |a| <= j < |a| + |b| ==> (a + b)[j] == b[j - |a|];
    if ia < |a| {
      FirstTaggedUnique(a + b, ia, name, cls);
    } else {
      FirstTaggedUnique(a + b, |a| + ib, name, cls);
    }
  }

  /** A position with no tag before it and a tag at it (or the end) is the
      first tag. */
  lemma FirstTaggedUnique(d: seq<Node>, i: nat, name: string, cls: string)
    requires i <= |d|
    requires forall j :: 0 <= j < i ==> !Tagged(d[j], name, cls)
    requires i < |d| ==> Tagged(d[i], name, cls)
    ensures FirstTagged(d, name, cls) == i
  {
  }

  /** The first tag under a node and its later siblings: the node itself,
      else the first below it, else the first after it. */
  lemma FirstTaggedNode(x: Node, below: seq<Node>, rest: seq<Node>, name: string, cls: string)
    ensures var d := [x] + below + rest;
      FirstTagged(d, name, cls) ==
        if Tagged(x, name, cls) then 0
        else if FirstTagged(below, name, cls) < |below| then 1 + FirstTagged(below, name, cls)
        else 1 + |below| + FirstTagged(rest, name, cls)
    ensures var d := [x] + below + rest;
      |d| == 1 + |below| + |rest| && d[0] == x &&
      (FirstTagged(below, name, cls) < |below| ==> d[1 + FirstTagged(below, name, cls)] == below[FirstTagged(below, name, cls)]) &&
      (FirstTagged(rest, name, cls) < |rest| ==> d[1 + |below| + FirstTagged(rest, name, cls)] == rest[FirstTagged(rest, name, cls)])
  {
    FirstTaggedAppend([x], below, name, cls);
    FirstTaggedAppend([x] + below, rest, name, cls);
  }

  /** `tag.find(name, class_=cls)`: the first descendant, in document order,
      with that tag name and class, or None when there is no such tag. */
  function FindIn(cs: seq<Node>, name: string, cls: string): (r: Option<Node>)
    ensures r.Some? ==> Tagged(r.value, name, cls)
    ensures var d := Descendants(cs);
      (r.None? <==> FirstTagged(d, name, cls) == |d|) &&
      (r.Some? ==> r.value == d[FirstTagged(d, name, cls)])
    decreases cs
  {
    if cs == [] then None
    else
      var inner := if cs[0].Element? then FindIn(cs[0].children, name, cls) else None;
      var below := if cs[0].Element? then Descendants(cs[0].children) else [];
      var rest := Descendants(cs[1..]);
      assert Descendants(cs) == [cs[0]] + below + rest;
      FirstTaggedNode(cs[0], below, rest, name, cls);
      if Tagged(cs[0], name, cls) then Some(cs[0])
      else if inner.Some? then inner
      else FindIn(cs[1..], name, cls)
  }

  // ---------------------------------------------------------------------------
  // extract_grid_list

  /** A `div` sibling whose class text holds `tag`. */
  predicate IsColumn(n: Node, tag: string) { n.Element? && n.name == "div" && ClassTextHas(n, tag) }

  /** `find_next_sibling('div', class_=...)` among `cs[k..]`. */
  function NextColumn(cs: seq<Node>, k: nat, tag: string): (r: Option<nat>)
    requires k <= |cs|
    ensures r.Some? ==> k <= r.value < |cs| && IsColumn(cs[r.value], tag)
    ensures r.Some? ==> forall j :: k <= j < r.value ==> !IsColumn(cs[j], tag)
    ensures r.None? ==> forall j :: k <= j < |cs| ==> !IsColumn(cs[j], tag)
    decreases |cs| - k
  {
    if k == |cs| then None
    else if IsColumn(cs[k], tag) then Some(k)
    else NextColumn(cs, k + 1, tag)
  }

  /** `extract_grid_list`: every column-1 child with a later column-2
      sibling gives "marker content" when both are non-empty. */
  function GridList(container: Node): (r: string)
    ensures Stripped(r)
    decreases container, 2
  {
    match container
    case TextNode(_) => []
    case Element(_, _, cs) =>
      var items := GridItems(cs, 0);
      StrippedJoin(items);
      Join(" ", items)
  }

  function GridItems(cs: seq<Node>, k: nat): (items: seq<string>)
    requires k <= |cs|
    ensures forall j :: 0 <= j < |items| ==> items[j] != [] && Stripped(items[j])
    decreases cs, 1, |cs| - k
  {
    if k == |cs| then []
    else
      var rest := GridItems(cs, k + 1);
      if !IsColumn(cs[k], "grid-list-column-1") then rest
      else
        var marker := StrippedText(cs[k]);
        match NextColumn(cs, k + 1, "grid-list-column-2")
        case None => rest
        case Some(c2) =>
          var parts := CellParts(cs[c2].children);
          StrippedJoin(parts);
          var content := Join(" ", parts);
          if marker != [] && content != [] then
            var item := marker + " " + content;
            assert item[|item| - 1] == content[|content| - 1];
            [item] + rest
          else rest
  }

  /** The item column-1 child `j` gives: its stripped text and the content of
      its first later column-2 sibling, joined by a space, when both are
      non-empty. */
  function ItemAt(cs: seq<Node>, j: nat): Option<string>
    requires j < |cs|
  {
    if !IsColumn(cs[j], "grid-list-column-1") then None
    else match NextColumn(cs, j + 1, "grid-list-column-2")
      case None => None
      case Some(c2) =>
        var marker := StrippedText(cs[j]);
        var content := Join(" ", CellParts(cs[c2].children));
        if marker != [] && content != [] then Some(marker + " " + content) else None
  }

  /** The positions from `k` on that hold an item, in increasing order. */
  function ItemColumns(opts: seq<Option<string>>, k: nat): (js: seq<nat>)
    requires k <= |opts|
    ensures forall i :: 0 <= i < |js| ==> k <= js[i] < |opts| && opts[js[i]].Some?
    ensures forall i, i' :: 0 <= i < i' < |js| ==> js[i] < js[i']
    ensures forall j :: k <= j < |opts| && opts[j].Some? ==> j in js
    decreases |opts| - k
  {
    if k == |opts| then []
    else (if opts[k].Some? then [k] else []) + ItemColumns(opts, k + 1)
  }

  /** The item, or None, of every child of the grid. */
  function ItemOptions(cs: seq<Node>): (r: seq<Option<string>>)
    ensures |r| == |cs| && forall j :: 0 <= j < |cs| ==> r[j] == ItemAt(cs, j)
  {
    seq(|cs|, j requires 0 <= j < |cs| => ItemAt(cs, j))
  }

  /** `items` are the items at the positions `js`, position by position. */
  predicate ItemsMatch(opts: seq<Option<string>>, items: seq<string>, js: seq<nat>)
  {
    |items| == |js| &&
    forall i :: 0 <= i < |js| ==> js[i] < |opts| && opts[js[i]].Some? && items[i] == opts[js[i]].value
  }

  lemma ItemsMatchCons(opts: seq<Option<string>>, items: seq<string>, js: seq<nat>, k: nat)
    requires ItemsMatch(opts, items, js)
    requires k < |opts| && opts[k].Some?
    ensures ItemsMatch(opts, [opts[k].value] + items, [k] + js)
  {
    var items', js' := [opts[k].value] + items, [k] + js;
    assert forall i :: 1 <= i < |js'| ==> items'[i] == items[i - 1] && js'[i] == js[i - 1];
  }

  /** The grid items are exactly the items of the children that give one, in
      column order: an item for every column-1 child with a later column-2
      sibling and a non-empty marker and content, and no other item. */
  lemma {:induction false} GridItemsColumns(cs: seq<Node>, k: nat)
    requires k <= |cs|
    ensures ItemsMatch(ItemOptions(cs), GridItems(cs, k), ItemColumns(ItemOptions(cs), k))
    decreases |cs| - k
  {
    if k < |cs| {
      GridItemsColumns(cs, k + 1);
      GridItemsStep(cs, k);
      var opts := ItemOptions(cs);
      var items, js := GridItems(cs, k + 1), ItemColumns(opts, k + 1);
      assert ItemColumns(opts, k) == (if opts[k].Some? then [k] else []) + js;
      if opts[k].Some? {
        ItemsMatchCons(opts, items, js, k);
      } else {
        assert ItemColumns(opts, k) == js;
      }
    }
  }

  /** One step of the grid loop: child `k` adds its item, if it gives one. */
  lemma GridItemsStep(cs: seq<Node>, k: nat)
    requires k < |cs|
    ensures GridItems(cs, k) == (if ItemAt(cs, k).Some? then [ItemAt(cs, k).value] else []) + GridItems(cs, k + 1)
  {
  }

  /** Every marker is kept: the item of each column-1 child that gives one,
      `marker content`, occurs in the text of the grid. */
  lemma GridListKeepsItem(container: Node, j: nat)
    requires container.Element? && j < |container.children|
    requires ItemAt(container.children, j).Some?
    ensures Contains(GridList(container), ItemAt(container.children, j).value)
  {
    var cs := container.children;
    GridItemsColumns(cs, 0);
    var js := ItemColumns(ItemOptions(cs), 0);
    var i :| 0 <= i < |js| && js[i] == j;
    JoinContains(" ", GridItems(cs, 0), i);
  }

  /** The pieces of a column-2 cell: nested grids and the cleaned text of
      every other child, text nodes included, empty ones dropped. */
  function CellParts(cs: seq<Node>): (parts: seq<string>)
    ensures forall j :: 0 <= j < |parts| ==> parts[j] != [] && Stripped(parts[j])
    ensures |parts| <= |cs|
    ensures (forall k :: 0 <= k < |cs| ==> !IsGridContainer(cs[k])) ==>
      forall j :: 0 <= j < |parts| ==> NoDoubleSpace(parts[j]) && PlainSpaces(parts[j]) && NoEndMarker(parts[j])
    decreases cs, 0
  {
    if cs == [] then []
    else
      var piece := CellPiece(cs[0]);
      (if piece != [] then [piece] else []) + CellParts(cs[1..])
  }

  /** One child of a column-2 cell: a nested grid, or the cleaned text of
      any other child. A text node has a `name` attribute (None), so it
      takes the cleaning branch too, not the `str(child).strip()` one. */
  function CellPiece(child: Node): (piece: string)
    ensures Stripped(piece)
    ensures !IsGridContainer(child) ==> piece == CleanText(GetText(child))
    ensures !IsGridContainer(child) ==> NoDoubleSpace(piece) && PlainSpaces(piece) && NoEndMarker(piece)
    decreases child, 3
  {
    if IsGridContainer(child) then GridList(child)
    else
      CleanTextShape(GetText(child));
      CleanText(GetText(child))
  }

  // ---------------------------------------------------------------------------
  // extract_article_content

  /** An extracted article with the hierarchy current when it was read. */
  datatype Article = Article(number: string, heading: string, text: string, hierarchy: Hierarchy)

  /** `re.match(r'Article\s+(\d+[a-zA-Z]*)', heading, re.IGNORECASE)`: group 1. */
  function ArticleNumber(heading: string): (r: Option<string>)
    ensures r.Some? <==>
      |heading| > 7 && Lower(heading[..7]) == "article" && IsSpace(heading[7]) &&
      RunEnd(heading, 7, Space) < |heading| && IsDigit(heading[RunEnd(heading, 7, Space)])
    ensures r.Some? ==> r.value != [] && IsDigit(r.value[0])
    ensures r.Some? ==> forall k :: 0 <= k < |r.value| ==> IsDigit(r.value[k]) || IsAsciiLetter(r.value[k])
  {
    if |heading| < 7 || Lower(heading[..7]) != "article" then None
    else
      var j := RunEnd(heading, 7, Space);
      if j == 7 then None
      else
        var d := RunEnd(heading, j, Digit);
        if d == j then None
        else Some(heading[j..RunEnd(heading, d, AsciiLetter)])
  }

  /** The text pieces of a `div.norm`: the paragraph-number span is skipped,
      nested grids give their list, and every other child, text nodes
      included, gives its cleaned text. */
  function NormParts(cs: seq<Node>): (parts: seq<string>)
    ensures forall j :: 0 <= j < |parts| ==> parts[j] != [] && Stripped(parts[j])
    ensures |parts| <= |cs|
    ensures (forall k :: 0 <= k < |cs| ==> !IsGridContainer(cs[k])) ==>
      forall j :: 0 <= j < |parts| ==> NoDoubleSpace(parts[j]) && PlainSpaces(parts[j]) && NoEndMarker(parts[j])
    decreases cs
  {
    if cs == [] then []
    else
      var piece := NormPiece(cs[0]);
      (if piece != [] then [piece] else []) + NormParts(cs[1..])
  }

  /** One child of a `div.norm`: nothing for the paragraph-number span, the
      list of a nested grid, the cleaned text of any other child. */
  function NormPiece(child: Node): (piece: string)
    ensures Stripped(piece)
    ensures !IsGridContainer(child) ==> NoDoubleSpace(piece) && PlainSpaces(piece) && NoEndMarker(piece)
  {
    if child.Element? && child.name == "span" && HasClass(child, "no-parag") then []
    else if IsGridContainer(child) then GridList(child)
    else
      CleanTextShape(GetText(child));
      CleanText(GetText(child))
  }

  /** The content piece one child of the article contributes, or "". */
  function ArticlePiece(c: Node): (r: string)
    ensures Stripped(r)
  {
    if c.TextNode? then []
    else if c.name == "p" && (HasClass(c, "modref") || HasClass(c, "title-article-norm") || HasClass(c, "stitle-article-norm")) then []
    else if c.name == "p" && HasClass(c, "norm") then
      CleanTextShape(GetText(c));
      CleanText(GetText(c))
    else if IsGridContainer(c) then GridList(c)
    else if c.name == "div" && HasClass(c, "norm") then NormDivPiece(c.children)
    else []
  }

  /** The piece of a `div.norm` with these children: the paragraph number,
      if any, then the text pieces, joined by spaces; "" when there is no
      text. */
  function NormDivPiece(cs: seq<Node>): (r: string)
    ensures Stripped(r)
  {
    var paraNum := ParaNumber(cs);
    var parts := NormParts(cs);
    StrippedJoin(parts);
    var combined := Join(" ", parts);
    if combined == [] then []
    else if paraNum != [] then
      SpacedStripped(paraNum, combined);
      paraNum + " " + combined
    else combined
  }

  /** The stripped text of the first `span.no-parag`, or "". */
  function ParaNumber(cs: seq<Node>): (r: string)
    ensures Stripped(r)
  {
    match FindIn(cs, "span", "no-parag")
    case Some(span) => StrippedText(span)
    case None => []
  }

  /** Two non-empty stripped texts joined by one space give a stripped text. */
  lemma SpacedStripped(a: string, b: string)
    requires a != [] && b != [] && Stripped(a) && Stripped(b)
    ensures Stripped(a + " " + b)
  {
    var s := a + " " + b;
    assert s[0] == a[0] && s[|s| - 1] == b[|b| - 1];
  }

  function ArticlePieces(cs: seq<Node>): (parts: seq<string>)
    ensures forall j :: 0 <= j < |parts| ==> parts[j] != [] && Stripped(parts[j])
  {
    if cs == [] then []
    else
      var piece := ArticlePiece(cs[0]);
      (if piece != [] then [piece] else []) + ArticlePieces(cs[1..])
  }

  /** `extract_article_content`: None unless the first title paragraph's
      cleaned text starts `Article <digits>`; otherwise the number, the
      heading (with " - subtitle" when there is one), the content pieces
      joined by spaces, and a copy of the hierarchy. */
  function ArticleOf(div: Node, h: Hierarchy): (r: Option<Article>)
    requires div.Element?
    ensures r.Some? <==>
      FindIn(div.children, "p", "title-article-norm").Some? &&
      ArticleNumber(CleanText(GetText(FindIn(div.children, "p", "title-article-norm").value))).Some?
    ensures r.Some? ==> r.value.hierarchy == h && r.value.number != [] && IsDigit(r.value.number[0]) && Stripped(r.value.text)
  {
    match FindIn(div.children, "p", "title-article-norm")
    case None => None
    case Some(title) =>
      var heading := CleanText(GetText(title));
      match ArticleNumber(heading)
      case None => None
      case Some(number) =>
        var subtitle := match FindIn(div.children, "p", "stitle-article-norm")
          case Some(sub) => CleanText(GetText(sub))
          case None => [];
        var parts := ArticlePieces(div.children);
        StrippedJoin(parts);
        Some(Article(number, if subtitle != [] then heading + " - " + subtitle else heading, Join(" ", parts), h))
  }

  // ---------------------------------------------------------------------------
  // The dispatch loop of parse_document

  datatype ParserState = ParserState(hierarchy: Hierarchy, articles: seq<Article>, pending: Option<string>)

  /** Which branch of the loop an element takes. */
  datatype Action =
    | Skip
    | SetPending(text: string)
    | Commit(first: string, second: string)
    | Section(text: string)
    | ArticleDiv

  /** The branch chain of the loop body: an element with empty cleaned text
      is skipped, and the class tests are substring tests on the
      space-joined class list. */
  function ActionOf(element: Node, pending: Option<string>): (r: Action)
    requires element.Element?
    ensures r.SetPending? ==> r.text != [] && r.text == CleanText(GetText(element))
    ensures r.Commit? ==> pending == Some(r.first) && r.first != [] && r.second == CleanText(GetText(element))
    ensures r.Section? ==> r.text == CleanText(GetText(element))
    ensures r.ArticleDiv? ==> element.name == "div"
  {
    var classes := Join(" ", element.classes);
    var text := CleanText(GetText(element));
    if text == [] then Skip
    else if Contains(classes, "title-division-1") then SetPending(text)
    else if Contains(classes, "title-division-2") && pending.Some? && pending.value != [] then Commit(pending.value, text)
    else if Contains(classes, "ti-section-1") || Contains(classes, "sti-section-1") then Section(text)
    else if Contains(classes, "eli-subdivision") && element.name == "div" then ArticleDiv
    else Skip
  }

  /** What one element does to the parser's state. */
  function Step(st: ParserState, element: Node): (r: ParserState)
    requires Shaped(st.hierarchy) && element.Element?
    ensures Shaped(r.hierarchy)
  {
    match ActionOf(element, st.pending)
    case Skip => st
    case SetPending(text) => st.(pending := Some(text))
    case Commit(first, second) => st.(hierarchy := Updated(st.hierarchy, first, Some(second)), pending := None)
    case Section(text) => st.(hierarchy := Updated(st.hierarchy, text, None))
    case ArticleDiv =>
      match ArticleOf(element, st.hierarchy)
      case Some(a) => st.(articles := st.articles + [a])
      case None => st
  }

  /** `Step` read off branch by branch. */
  lemma StepByAction(st: ParserState, element: Node)
    requires Shaped(st.hierarchy) && element.Element?
    ensures var a := ActionOf(element, st.pending);
      (a.Skip? ==> Step(st, element) == st) &&
      (a.SetPending? ==> Step(st, element) == st.(pending := Some(a.text))) &&
      (a.Commit? ==> Step(st, element) == st.(hierarchy := Updated(st.hierarchy, a.first, Some(a.second)), pending := None)) &&
      (a.Section? ==> Step(st, element) == st.(hierarchy := Updated(st.hierarchy, a.text, None))) &&
      (a.ArticleDiv? ==>
        Step(st, element) ==
          if ArticleOf(element, st.hierarchy).Some? then st.(articles := st.articles + [ArticleOf(element, st.hierarchy).value]) else st)
  {
  }

  predicate AllElements(elements: seq<Node>) { forall k :: 0 <= k < |elements| ==> elements[k].Element? }

  /** The state after the first `k` elements. */
  function Run(st: ParserState, elements: seq<Node>, k: nat): (r: ParserState)
    requires Shaped(st.hierarchy) && AllElements(elements) && k <= |elements|
    ensures Shaped(r.hierarchy)
  {
    if k == 0 then st else Step(Run(st, elements, k - 1), elements[k - 1])
  }

  /** The parser object. */
  class Parser {
    var hierarchy: Hierarchy
    var articles: seq<Article>
    var pending: Option<string>

    predicate Valid()
      reads this
    {
      Shaped(hierarchy)
    }

    function State(): ParserState
      reads this
    {
      ParserState(hierarchy, articles, pending)
    }

    constructor()
      ensures Valid() && hierarchy == Empty && articles == [] && pending == None
    {
      hierarchy := Empty;
      articles := [];
      pending := None;
    }

    /** `reset_hierarchy_below`. */
    method ResetHierarchyBelow(level: string)
      requires Valid()
      modifies this
      ensures Valid() && hierarchy == ResetBelow(old(hierarchy), level)
      ensures articles == old(articles) && pending == old(pending)
    {
      var start := StartIndex(level);
      var numbers := hierarchy.numbers;
      var headings := hierarchy.headings;
      for i := start to |Levels|
        invariant |numbers| == |Levels| && |headings| == |Levels|
        invariant forall j :: 0 <= j < |Levels| ==> numbers[j] == if start <= j < i then "" else old(hierarchy).numbers[j]
        invariant forall j :: 0 <= j < |Levels| ==> headings[j] == if start <= j < i then "" else old(hierarchy).headings[j]
      {
        numbers := numbers[i := ""];
        headings := headings[i := ""];
      }
      hierarchy := Hierarchy(numbers, headings);
    }

    /** `update_hierarchy`. */
    method UpdateHierarchy(text1: string, text2: Option<string>) returns (found: bool)
      requires Valid()
      modifies this
      ensures Valid() && hierarchy == Updated(old(hierarchy), text1, text2)
      ensures found == FirstLevel(text1, 0).Some?
      ensures articles == old(articles) && pending == old(pending)
    {
      var upper := Upper(text1);
      for i := 0 to |Levels|
        invariant hierarchy == old(hierarchy) && articles == old(articles) && pending == old(pending)
        invariant FirstLevel(text1, 0) == FirstLevel(text1, i)
      {
        var name := Upper(Levels[i]);
        if Contains(upper, name) && (StartsWith(Upper(Strip(text1)), name) || Contains(" " + upper + " ", " " + name + " ")) {
          var number := text1;
          var heading := if text2.Some? then text2.value else "";
          if i == 0 && (text2.None? || text2.value == "") {
            var m := PartSplit(text1);
            if m.Some? {
              number := Strip(text1[..m.value.end1]);
              heading := Strip(text1[m.value.start2..m.value.end2]);
            } else {
              heading := "";
            }
          }
          hierarchy := Hierarchy(hierarchy.numbers[i := number], hierarchy.headings[i := heading]);
          ResetHierarchyBelow(Levels[i]);
          return true;
        }
      }
      return false;
    }

    /** The body of the loop of `parse_document`, for one element. */
    method HandleElement(element: Node)
      requires Valid() && element.Element?
      modifies this
      ensures Valid() && State() == Step(old(State()), element)
    {
      StepByAction(State(), element);
      match ActionOf(element, pending)
      case Skip =>
      case SetPending(text) =>
        pending := Some(text);
      case Commit(first, second) =>
        var _ := UpdateHierarchy(first, Some(second));
        pending := None;
      case Section(text) =>
        var _ := UpdateHierarchy(text, None);
      case ArticleDiv =>
        var article := ArticleOf(element, hierarchy);
        if article.Some? {
          articles := articles + [article.value];
        }
    }

    /** The loop of `parse_document` over the elements `find_all` returned. */
    method ParseElements(elements: seq<Node>)
      requires Valid() && AllElements(elements)
      modifies this
      ensures Valid() && State() == Run(old(State()), elements, |elements|)
    {
      ghost var start := State();
      for k := 0 to |elements|
        invariant Valid() && State() == Run(start, elements, k)
      {
        HandleElement(elements[k]);
      }
    }
  }

  // ---------------------------------------------------------------------------
  // Properties of the dispatch loop

  /** A `title-division-1` element becomes pending, replacing any earlier
      pending text; nothing else changes. */
  lemma PendingSet(st: ParserState, element: Node)
    requires Shaped(st.hierarchy) && element.Element?
    requires CleanText(GetText(element)) != [] && Contains(Join(" ", element.classes), "title-division-1")
    ensures Step(st, element) == st.(pending := Some(CleanText(GetText(element))))
  {
  }

  /** A `title-division-2` element after a pending text commits the pair
      and clears the pending text. */
  lemma PendingCommit(st: ParserState, element: Node)
    requires Shaped(st.hierarchy) && element.Element? && st.pending.Some? && st.pending.value != []
    requires CleanText(GetText(element)) != [] && !Contains(Join(" ", element.classes), "title-division-1")
    requires Contains(Join(" ", element.classes), "title-division-2")
    ensures Step(st, element) == st.(hierarchy := Updated(st.hierarchy, st.pending.value, Some(CleanText(GetText(element)))), pending := None)
  {
  }

  /** A `ti-section-1` or `sti-section-1` element that is not part of a
      division pair updates the hierarchy with its text alone. */
  lemma SectionUpdate(st: ParserState, element: Node)
    requires Shaped(st.hierarchy) && element.Element?
    requires CleanText(GetText(element)) != [] && !Contains(Join(" ", element.classes), "title-division-1")
    requires !(Contains(Join(" ", element.classes), "title-division-2") && st.pending.Some? && st.pending.value != [])
    requires Contains(Join(" ", element.classes), "ti-section-1") || Contains(Join(" ", element.classes), "sti-section-1")
    ensures Step(st, element) == st.(hierarchy := Updated(st.hierarchy, CleanText(GetText(element)), None))
  {
  }

  /** One element keeps a pending text non-empty, keeps the recorded
      articles and adds at most one. */
  lemma StepKeeps(st: ParserState, element: Node)
    requires Shaped(st.hierarchy) && element.Element?
    ensures st.pending.None? || st.pending.value != [] ==>
      var p := Step(st, element).pending; p.None? || p.value != []
    ensures st.articles <= Step(st, element).articles && |Step(st, element).articles| <= |st.articles| + 1
  {
  }

  /** The pending text is never empty. */
  lemma {:induction false} PendingNeverEmpty(st: ParserState, elements: seq<Node>, k: nat)
    requires Shaped(st.hierarchy) && AllElements(elements) && k <= |elements|
    requires st.pending.None? || st.pending.value != []
    ensures var p := Run(st, elements, k).pending; p.None? || p.value != []
  {
    if k > 0 {
      PendingNeverEmpty(st, elements, k - 1);
      StepKeeps(Run(st, elements, k - 1), elements[k - 1]);
    }
  }

  /** Articles are only ever appended, in document order, at most one per
      element. */
  lemma {:induction false} ArticlesAppend(st: ParserState, elements: seq<Node>, k: nat)
    requires Shaped(st.hierarchy) && AllElements(elements) && k <= |elements|
    ensures st.articles <= Run(st, elements, k).articles
    ensures |Run(st, elements, k).articles| <= |st.articles| + k
  {
    if k > 0 {
      ArticlesAppend(st, elements, k - 1);
      StepKeeps(Run(st, elements, k - 1), elements[k - 1]);
    }
  }

  /** Every recorded article carries a copy of the hierarchy current when
      its element was reached. */
  lemma ArticleSnapshot(st: ParserState, element: Node)
    requires Shaped(st.hierarchy) && element.Element?
    ensures |Step(st, element).articles| > |st.articles| ==>
      Step(st, element).articles == st.articles + [Step(st, element).articles[|st.articles|]] &&
      Step(st, element).articles[|st.articles|].hierarchy == st.hierarchy &&
      Step(st, element).hierarchy == st.hierarchy
  {
  }
}
