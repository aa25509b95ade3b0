/** The pattern scans of the ECB-guide converter (ecb_guide_md_prompt.py): the
    legal-citation patterns, footnote definitions, superscript footnote marks,
    and the order-keeping de-duplication the converter applies twice.

    Each regular expression is written as an explicit matcher. Every quantified
    run in these patterns is followed by a literal whose first character lies
    outside the run's class, or by the end of the pattern, or by optional groups
    only; so the greedy match without backtracking is the match Python's `re`
    finds. */
module GuideScan {
  import opened Wrappers
  import opened Text

  // ---------------------------------------------------------------------------
  // A small greedy matcher

  datatype Atom =
    | Lit(text: string)        // the characters themselves
    | One(cls: CharClass)      // exactly one character of the class
    | Many(cls: CharClass)     // one or more, greedy

  datatype Piece =
    | Must(atom: Atom)
    | Optional(group: seq<Atom>)   // `(?:...)?`, tried first, skipped when it fails

  type Pattern = seq<Piece>

  /** Where `a` ends when matched at `i`, if it matches there. */
  function MatchAtom(s: string, i: nat, a: Atom): (r: Option<nat>)
    requires i <= |s|
    ensures r.Some? ==> i <= r.value <= |s|
  {
    match a
    case Lit(t) => if StartsWith(s[i..], t) then Some(i + |t|) else None
    case One(k) => if i < |s| && InClass(s[i], k) then Some(i + 1) else None
    case Many(k) =>
      var j := RunEnd(s, i, k);
      if j > i then Some(j) else None
  }

  function MatchAtoms(s: string, i: nat, atoms: seq<Atom>): (r: Option<nat>)
    requires i <= |s|
    ensures r.Some? ==> i <= r.value <= |s|
    decreases |atoms|
  {
    if atoms == [] then Some(i)
    else
      match MatchAtom(s, i, atoms[0])
      case None => None
      case Some(j) => MatchAtoms(s, j, atoms[1..])
  }

  function MatchPattern(s: string, i: nat, p: Pattern): (r: Option<nat>)
    requires i <= |s|
    ensures r.Some? ==> i <= r.value <= |s|
    decreases |p|
  {
    if p == [] then Some(i)
    else
      match p[0]
      case Must(a) =>
        (match MatchAtom(s, i, a)
         case None => None
         case Some(j) => MatchPattern(s, j, p[1..]))
      case Optional(g) =>
        (match MatchAtoms(s, i, g)
         case Some(j) => MatchPattern(s, j, p[1..])
         case None => MatchPattern(s, i, p[1..]))
  }

  /** `re.findall(p, s[i..])` for a pattern without groups: matches scanned left
      to right, the search resuming where the last match ended. Every pattern
      used here starts with a non-empty literal, so no match is empty. */
  function FindAll(s: string, p: Pattern, i: nat): (r: seq<string>)
    requires i <= |s|
    ensures forall k :: 0 <= k < |r| ==> r[k] != []
    decreases |s| - i
  {
    if i == |s| then []
    else
      match MatchPattern(s, i, p)
      case Some(j) => if j > i then [s[i..j]] + FindAll(s, p, j) else FindAll(s, p, i + 1)
      case None => FindAll(s, p, i + 1)
  }

  // ---------------------------------------------------------------------------
  // Legal citations

  /** The ten citation patterns, in the order they are tried. */
  const ReferencePatterns: seq<Pattern> := [
    // Regulation \(EU\) No \d+/\d+
    [Must(Lit("Regulation (EU) No ")), Must(Many(Digit)), Must(Lit("/")), Must(Many(Digit))],
    // Directive \d+/\d+/\w+
    [Must(Lit("Directive ")), Must(Many(Digit)), Must(Lit("/")), Must(Many(Digit)), Must(Lit("/")), Must(Many(Word))],
    // Commission Delegated Regulation \(EU\) No \d+/\d+
    [Must(Lit("Commission Delegated Regulation (EU) No ")), Must(Many(Digit)), Must(Lit("/")), Must(Many(Digit))],
    // Article \d+(?:\(\d+\))?(?:\([a-z]\))?
    [Must(Lit("Article ")), Must(Many(Digit)),
     Optional([Lit("("), Many(Digit), Lit(")")]),
     Optional([Lit("("), One(LowerAZ), Lit(")")])],
    // CRR\d?
    [Must(Lit("CRR")), Optional([One(Digit)])],
    // CRD\d?
    [Must(Lit("CRD")), Optional([One(Digit)])],
    // GDPR
    [Must(Lit("GDPR"))],
    // Basel [IVX]+
    [Must(Lit("Basel ")), Must(Many(RomanIVX))],
    // EBA/\w+/\d+/\d+
    [Must(Lit("EBA/")), Must(Many(Word)), Must(Lit("/")), Must(Many(Digit)), Must(Lit("/")), Must(Many(Digit))],
    // ECB Guide [^,\.]+
    [Must(Lit("ECB Guide ")), Must(Many(NotCommaOrDot))]
  ]

  /** All matches of the patterns, pattern by pattern. */
  function Collected(text: string, pats: seq<Pattern>): seq<string>
  {
    if pats == [] then []
    else Collected(text, pats[..|pats| - 1]) + FindAll(text, pats[|pats| - 1], 0)
  }

  // ---------------------------------------------------------------------------
  // De-duplication keeping first occurrences

  predicate NoDuplicates<T(==,!new)>(xs: seq<T>)
  {
    forall a, b :: 0 <= a < b < |xs| ==> xs[a] != xs[b]
  }

  /** The list a `seen`-guarded append loop builds from `xs`. */
  function Dedup<T(==,!new)>(xs: seq<T>): (r: seq<T>)
    ensures forall x :: x in r <==> x in xs
    ensures NoDuplicates(r)
    ensures |r| <= |xs|
  {
    if xs == [] then []
    else
      var d := Dedup(xs[..|xs| - 1]);
      var last := xs[|xs| - 1];
      assert xs == xs[..|xs| - 1] + [last];
      if last in d then d else d + [last]
  }

  /** Position of the first occurrence of `x`. */
  function FirstIndex<T(==,!new)>(xs: seq<T>, x: T): (r: nat)
    requires x in xs
    ensures r < |xs| && xs[r] == x && x !in xs[..r]
  {
    if xs[0] == x then 0
    else
      var r' := FirstIndex(xs[1..], x);
      assert xs[..r' + 1] == [xs[0]] + xs[1..][..r'];
      r' + 1
  }

  /** The first occurrence is the only position with no earlier copy. */
  lemma {:induction false} FirstIndexUnique<T(!new)>(xs: seq<T>, x: T, r: nat)
    requires r < |xs| && xs[r] == x && x !in xs[..r]
    ensures FirstIndex(xs, x) == r
  {
    var q := FirstIndex(xs, x);
  }

  lemma {:induction false} FirstIndexPrefix<T(!new)>(xs: seq<T>, n: nat, x: T)
    requires n <= |xs| && x in xs[..n]
    ensures x in xs && FirstIndex(xs, x) == FirstIndex(xs[..n], x) < n
  {
    var r := FirstIndex(xs[..n], x);
    assert xs[..n][..r] == xs[..r];
    assert xs[r] == x;
    FirstIndexUnique(xs, x, r);
  }

  /** The de-duplicated list keeps the order of first occurrences. */
  lemma {:induction false} DedupFirstOrder<T(!new)>(xs: seq<T>)
    ensures forall a, b :: 0 <= a < b < |Dedup(xs)| ==> FirstIndex(xs, Dedup(xs)[a]) < FirstIndex(xs, Dedup(xs)[b])
  {
    if xs != [] {
      var n := |xs|;
      var p := xs[..n - 1];
      var d := Dedup(p);
      var last := xs[n - 1];
      DedupFirstOrder(p);
      assert xs[..n - 1] == p;
      forall x | x in d
        ensures FirstIndex(xs, x) == FirstIndex(p, x) < n - 1
      {
        FirstIndexPrefix(xs, n - 1, x);
      }
      if last !in d {
        FirstIndexUnique(xs, last, n - 1);
        assert Dedup(xs) == d + [last];
      } else {
        assert Dedup(xs) == d;
      }
    }
  }

  /** The matches of every pattern of `pats`, pattern by pattern. */
  method FindAllPatterns(text: string, pats: seq<Pattern>) returns (references: seq<string>)
    ensures references == Collected(text, pats)
  {
    references := [];
    var k := 0;
    while k < |pats|
      invariant 0 <= k <= |pats|
      invariant references == Collected(text, pats[..k])
    {
      assert pats[..k + 1][..k] == pats[..k];
      references := references + FindAll(text, pats[k], 0);
      k := k + 1;
    }
    assert pats[..k] == pats;
  }

  /** The citations of `text`: every pattern's matches in order, then each
      distinct citation once, at its first position. */
  method ExtractReferences(text: string) returns (refs: seq<string>)
    ensures refs == Dedup(Collected(text, ReferencePatterns))
    ensures NoDuplicates(refs)
    ensures forall x :: x in refs <==> x in Collected(text, ReferencePatterns)
  {
    var references := FindAllPatterns(text, ReferencePatterns);
    var seen: set<string> := {};
    refs := [];
    var j := 0;
    while j < |references|
      invariant 0 <= j <= |references|
      invariant refs == Dedup(references[..j])
      invariant forall x :: x in seen <==> x in refs
    {
      var r := references[j];
      assert references[..j + 1][..j] == references[..j];
      if r !in seen {
        seen := seen + {r};
        refs := refs + [r];
      }
      j := j + 1;
    }
    assert references[..j] == references;
  }

  // ---------------------------------------------------------------------------
  // Footnote definitions: <footnote>\[Footnote (\d+)\]: ([^<]+)</footnote>

  datatype FootnoteDef = FootnoteDef(number: string, content: string)

  const FootnoteOpen: string := "<footnote>[Footnote "
  const FootnoteClose: string := "</footnote>"

  /** The footnote definition starting at `i`, with the position after it. */
  function FootnoteAt(s: string, i: nat): (r: Option<(FootnoteDef, nat)>)
    requires i <= |s|
    ensures r.Some? ==> i < r.value.1 <= |s|
    ensures r.Some? ==> r.value.0.number != [] && AllDigits(r.value.0.number)
    ensures r.Some? ==> r.value.0.content != [] && '<' !in r.value.0.content
  {
    if !StartsWith(s[i..], FootnoteOpen) then None
    else
      var d0 := i + |FootnoteOpen|;
      var d := RunEnd(s, d0, Digit);
      if d == d0 || !StartsWith(s[d..], "]: ") then None
      else
        var c0 := d + 3;
        var c := RunEnd(s, c0, NotLt);
        if c == c0 || !StartsWith(s[c..], FootnoteClose) then None
        else
          assert forall m :: 0 <= m < c - c0 ==> s[c0..c][m] == s[c0 + m];
          Some((FootnoteDef(s[d0..d], s[c0..c]), c + |FootnoteClose|))
  }

  /** `re.findall` of the footnote-definition pattern on `s[i..]`. */
  function FootnoteDefs(s: string, i: nat): seq<FootnoteDef>
    requires i <= |s|
    decreases |s| - i
  {
    if i == |s| then []
    else
      match FootnoteAt(s, i)
      case Some(m) => [m.0] + FootnoteDefs(s, m.1)
      case None => FootnoteDefs(s, i + 1)
  }

  /** The index after `index[num] = content` for each definition in turn. */
  function IndexFootnotes(m: map<string, string>, defs: seq<FootnoteDef>): map<string, string>
  {
    if defs == [] then m
    else
      var last := defs[|defs| - 1];
      IndexFootnotes(m, defs[..|defs| - 1])[last.number := last.content]
  }

  /** A number is indexed iff it was already or some definition has it. */
  lemma {:induction false} IndexFootnotesKeys(m: map<string, string>, defs: seq<FootnoteDef>, num: string)
    ensures num in IndexFootnotes(m, defs) <==> num in m || exists k :: 0 <= k < |defs| && defs[k].number == num
  {
    if defs != [] {
      var n := |defs|;
      var p := defs[..n - 1];
      IndexFootnotesKeys(m, p, num);
      if exists k :: 0 <= k < n - 1 && p[k].number == num {
        var k :| 0 <= k < n - 1 && p[k].number == num;
        assert defs[k].number == num;
      }
      if exists k :: 0 <= k < n && defs[k].number == num {
        var k :| 0 <= k < n && defs[k].number == num;
        if k < n - 1 {
          assert p[k].number == num;
        }
      }
    }
  }

  /** An indexed number carries the content of the LAST definition with that
      number. */
  lemma {:induction false} IndexFootnotesLastWins(m: map<string, string>, defs: seq<FootnoteDef>, num: string, k: nat)
    requires k < |defs| && defs[k].number == num
    requires forall k' :: k < k' < |defs| ==> defs[k'].number != num
    ensures num in IndexFootnotes(m, defs) && IndexFootnotes(m, defs)[num] == defs[k].content
    decreases |defs|
  {
    var n := |defs|;
    if k < n - 1 {
      var p := defs[..n - 1];
      assert p[k].number == num;
      assert defs[n - 1].number != num;
      IndexFootnotesLastWins(m, p, num, k);
    }
  }

  /** A number no definition has keeps its earlier content. */
  lemma {:induction false} IndexFootnotesKept(m: map<string, string>, defs: seq<FootnoteDef>, num: string)
    requires num in m
    requires forall k :: 0 <= k < |defs| ==> defs[k].number != num
    ensures num in IndexFootnotes(m, defs) && IndexFootnotes(m, defs)[num] == m[num]
  {
    if defs != [] {
      var p := defs[..|defs| - 1];
      assert forall k :: 0 <= k < |p| ==> p[k].number == defs[k].number;
      IndexFootnotesKept(m, p, num);
    }
  }

  // ---------------------------------------------------------------------------
  // Superscript footnote marks: [¹²³⁴⁵⁶⁷⁸⁹⁰]+

  /** `re.findall` of maximal runs of superscript digits in `s[i..]`. */
  function SuperscriptRuns(s: string, i: nat): (r: seq<string>)
    requires i <= |s|
    ensures forall k :: 0 <= k < |r| ==> r[k] != []
    decreases |s| - i
  {
    if i == |s| then []
    else if IsSuperscriptDigit(s[i]) then
      var j := RunEnd(s, i, Superscript);
      [s[i..j]] + SuperscriptRuns(s, j)
    else SuperscriptRuns(s, i + 1)
  }

  /** The chain of `replace` calls turning a superscript digit into its ASCII digit. */
  function AsciiDigit(c: char): char
  {
    match c
    case '\U{00b9}' => '1'
    case '\U{00b2}' => '2'
    case '\U{00b3}' => '3'
    case '\U{2074}' => '4'
    case '\U{2075}' => '5'
    case '\U{2076}' => '6'
    case '\U{2077}' => '7'
    case '\U{2078}' => '8'
    case '\U{2079}' => '9'
    case '\U{2070}' => '0'
    case _ => c
  }

  function AsciiDigits(run: string): (r: string)
    ensures |r| == |run| && forall k :: 0 <= k < |run| ==> r[k] == AsciiDigit(run[k])
  {
    if run == [] then [] else [AsciiDigit(run[0])] + AsciiDigits(run[1..])
  }

  lemma {:induction false} SuperscriptDigitBecomesDigit(c: char)
    requires IsSuperscriptDigit(c)
    ensures IsDigit(AsciiDigit(c))
  {
  }

  lemma {:induction false} SuperscriptsBecomeDigits(run: string)
    requires forall k :: 0 <= k < |run| ==> IsSuperscriptDigit(run[k])
    ensures AllDigits(AsciiDigits(run))
  {
    var r := AsciiDigits(run);
    forall k | 0 <= k < |r|
      ensures IsDigit(r[k])
    {
      SuperscriptDigitBecomesDigit(run[k]);
    }
  }

  /** Each run converted to ASCII digits, in order. */
  function AsciiRuns(runs: seq<string>): (r: seq<string>)
    ensures |r| == |runs| && forall k :: 0 <= k < |runs| ==> r[k] == AsciiDigits(runs[k])
  {
    if runs == [] then [] else AsciiRuns(runs[..|runs| - 1]) + [AsciiDigits(runs[|runs| - 1])]
  }

  /** Each superscript run converted to its ASCII number, in text order. */
  function MarkNumbers(text: string): seq<string>
  {
    AsciiRuns(SuperscriptRuns(text, 0))
  }

  /** The footnote numbers a paragraph refers to: distinct, first seen first. */
  function FootnoteNumbers(text: string): seq<string>
  {
    Dedup(MarkNumbers(text))
  }

  /** `"\n<footnote>[Footnote {num}]: {content}</footnote>"`. */
  function FootnoteLine(num: string, content: string): string
  {
    "\n" + FootnoteOpen + num + "]: " + content + FootnoteClose
  }

  /** The footnote lines appended to a paragraph: one per number that the
      index knows, in the order of `nums`. */
  function FootnoteText(nums: seq<string>, index: map<string, string>): (r: string)
    ensures r == [] <==> forall k :: 0 <= k < |nums| ==> nums[k] !in index
  {
    if nums == [] then []
    else
      var last := nums[|nums| - 1];
      FootnoteText(nums[..|nums| - 1], index) + (if last in index then FootnoteLine(last, index[last]) else [])
  }
}
