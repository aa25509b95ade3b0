/** Python string operations the scripts rely on, over `string` (= `seq<char>`).
    Character classes are those of Python 3 `str` where that is a closed set
    (`isspace`); letters and digits are the ASCII ones. */
module Text {

  /** Python's `str.isspace()`: what `strip()` removes and what `\s` matches. */
  predicate IsSpace(c: char)
  {
    c == ' ' || ('\t' <= c <= '\r') || ('\U{001c}' <= c <= '\U{001f}') || c == '\U{0085}' || c == '\U{00a0}'
    || c == '\U{1680}' || ('\U{2000}' <= c <= '\U{200a}') || c == '\U{2028}' || c == '\U{2029}'
    || c == '\U{202f}' || c == '\U{205f}' || c == '\U{3000}'
  }

  predicate IsDigit(c: char) { '0' <= c <= '9' }

  predicate IsAsciiLetter(c: char) { 'a' <= c <= 'z' || 'A' <= c <= 'Z' }

  /** `\w` restricted to ASCII. */
  predicate IsWordChar(c: char) { IsAsciiLetter(c) || IsDigit(c) || c == '_' }

  predicate AllDigits(s: string) { forall i :: 0 <= i < |s| ==> IsDigit(s[i]) }

  predicate AllSpace(s: string) { forall i :: 0 <= i < |s| ==> IsSpace(s[i]) }

  // ---------------------------------------------------------------------------
  // Prefixes, suffixes, substrings

  predicate StartsWith(s: string, p: string) { |p| <= |s| && s[..|p|] == p }

  predicate EndsWith(s: string, p: string) { |p| <= |s| && s[|s| - |p|..] == p }

  /** Python's `p in s`. */
  predicate Contains(s: string, p: string)
    decreases |s|
  {
    StartsWith(s, p) || (s != [] && Contains(s[1..], p))
  }

  /** `p` occurs in `s` starting at position `i`. */
  predicate FactorAt(s: string, p: string, i: nat)
  {
    i + |p| <= |s| && s[i..i + |p|] == p
  }

  lemma {:induction false} ContainsIsFactor(s: string, p: string)
    ensures Contains(s, p) <==> exists i: nat :: FactorAt(s, p, i)
  {
    if Contains(s, p) {
      var i := FactorOf(s, p);
    }
    if exists i: nat :: FactorAt(s, p, i) {
      var i: nat :| FactorAt(s, p, i);
      ContainsAt(s, p, i);
    }
  }

  /** Where `Contains` finds its factor. */
  lemma {:induction false} FactorOf(s: string, p: string) returns (i: nat)
    requires Contains(s, p)
    ensures FactorAt(s, p, i)
    decreases |s|
  {
    if StartsWith(s, p) {
      i := 0;
    } else {
      var j := FactorOf(s[1..], p);
      assert s[1..][j..j + |p|] == s[j + 1..j + 1 + |p|];
      i := j + 1;
    }
  }

  /** A factor at a known position is found by `Contains`. */
  lemma {:induction false} ContainsAt(s: string, p: string, i: nat)
    requires FactorAt(s, p, i)
    ensures Contains(s, p)
    decreases i
  {
    if i > 0 {
      assert s[1..][i - 1..i - 1 + |p|] == s[i..i + |p|];
      ContainsAt(s[1..], p, i - 1);
    }
  }

  lemma {:induction false} ContainsInConcat(a: string, b: string, p: string)
    requires Contains(a, p) || Contains(b, p)
    ensures Contains(a + b, p)
  {
    ContainsIsFactor(a, p);
    ContainsIsFactor(b, p);
    if Contains(a, p) {
      var i: nat :| FactorAt(a, p, i);
      assert (a + b)[i..i + |p|] == p;
      ContainsAt(a + b, p, i);
    } else {
      var i: nat :| FactorAt(b, p, i);
      assert (a + b)[|a| + i..|a| + i + |p|] == p;
      ContainsAt(a + b, p, |a| + i);
    }
  }

  /** Python's `s.count(p)` for a non-empty `p`: non-overlapping occurrences, scanned left to right. */
  function CountOf(s: string, p: string): (n: nat)
    requires p != []
    ensures n > 0 <==> Contains(s, p)
    ensures n * |p| <= |s|
    decreases |s|
  {
    if |s| < |p| then
      assert !Contains(s, p) by { ContainsIsFactor(s, p); }
      0
    else if StartsWith(s, p) then 1 + CountOf(s[|p|..], p)
    else CountOf(s[1..], p)
  }

  // ---------------------------------------------------------------------------
  // Stripping

  /** `s.lstrip()`. */
  function LStrip(s: string): (r: string)
    ensures |r| <= |s|
    ensures r != [] ==> !IsSpace(r[0])
  {
    if s != [] && IsSpace(s[0]) then LStrip(s[1..]) else s
  }

  /** What `lstrip` removes is a whitespace prefix. */
  lemma {:induction false} LStripShape(s: string)
    ensures LStrip(s) == s[|s| - |LStrip(s)|..]
    ensures AllSpace(s[..|s| - |LStrip(s)|])
    decreases |s|
  {
    if s != [] && IsSpace(s[0]) {
      LStripShape(s[1..]);
      var k := |s| - |LStrip(s)|;
      assert s[1..][k - 1..] == s[k..];
      assert forall i :: 1 <= i < k ==> s[i] == s[1..][..k - 1][i - 1];
    }
  }

  /** `s.rstrip()`. */
  function RStrip(s: string): (r: string)
    ensures |r| <= |s|
    ensures r != [] ==> !IsSpace(r[|r| - 1])
  {
    if s != [] && IsSpace(s[|s| - 1]) then RStrip(s[..|s| - 1]) else s
  }

  /** What `rstrip` removes is a whitespace suffix. */
  lemma {:induction false} RStripShape(s: string)
    ensures RStrip(s) == s[..|RStrip(s)|]
    ensures AllSpace(s[|RStrip(s)|..])
    decreases |s|
  {
    if s != [] && IsSpace(s[|s| - 1]) {
      var p := s[..|s| - 1];
      RStripShape(p);
      var k := |RStrip(s)|;
      assert p[..k] == s[..k];
      assert forall i :: k <= i < |s| - 1 ==> s[i] == p[k..][i - k];
    }
  }

  /** `s.strip()`. */
  function Strip(s: string): (r: string)
    ensures |r| <= |s|
    ensures r != [] ==> !IsSpace(r[0]) && !IsSpace(r[|r| - 1])
  {
    var l := LStrip(s);
    RStripShape(l);
    RStrip(l)
  }

  /** Stripping leaves nothing exactly when the text is all whitespace. */
  lemma {:induction false} StripEmptyIffSpace(s: string)
    ensures Strip(s) == [] <==> AllSpace(s)
  {
    var l := LStrip(s);
    var r := RStrip(l);
    LStripShape(s);
    RStripShape(l);
    var k := |s| - |l|;
    assert l != [] ==> l[0] == s[k];
    if r == [] {
      assert l[|r|..] == l;
      assert l == [];
      assert s[..k] == s;
    }
  }

  /** `s.lstrip(c)` for a one-character argument. */
  function LStripChar(s: string, c: char): (r: string)
    ensures |r| <= |s| && r == s[|s| - |r|..]
    ensures forall i :: 0 <= i < |s| - |r| ==> s[i] == c
    ensures r != [] ==> r[0] != c
  {
    if s != [] && s[0] == c then LStripChar(s[1..], c) else s
  }

  /** `s.rstrip(c)` for a one-character argument. */
  function RStripChar(s: string, c: char): (r: string)
    ensures |r| <= |s| && r == s[..|r|]
    ensures forall i :: |r| <= i < |s| ==> s[i] == c
    ensures r != [] ==> r[|r| - 1] != c
  {
    if s != [] && s[|s| - 1] == c then RStripChar(s[..|s| - 1], c) else s
  }

  /** `s.strip(c)` for a one-character argument. */
  function StripChar(s: string, c: char): string
  {
    RStripChar(LStripChar(s, c), c)
  }

  // ---------------------------------------------------------------------------
  // Splitting and joining

  /** `sep.join(parts)`. */
  function Join(sep: string, parts: seq<string>): string
  {
    if |parts| == 0 then []
    else if |parts| == 1 then parts[0]
    else parts[0] + sep + Join(sep, parts[1..])
  }

  /** Every part occurs in the joined string. */
  lemma {:induction false} JoinContains(sep: string, parts: seq<string>, i: nat)
    requires i < |parts|
    ensures Contains(Join(sep, parts), parts[i])
    decreases |parts|
  {
    if |parts| == 1 {
      ContainsAt(parts[0], parts[0], 0);
    } else if i == 0 {
      var s := Join(sep, parts);
      assert s[0..|parts[0]|] == parts[0];
      ContainsAt(s, parts[0], 0);
    } else {
      JoinContains(sep, parts[1..], i - 1);
      ContainsInConcat(parts[0] + sep, Join(sep, parts[1..]), parts[i]);
    }
  }

  /** `s.split(sep)` for a one-character separator. */
  function Split(s: string, sep: char): (parts: seq<string>)
    ensures |parts| >= 1
    ensures forall k :: 0 <= k < |parts| ==> sep !in parts[k]
  {
    if s == [] then [[]]
    else
      var rest := Split(s[1..], sep);
      if s[0] == sep then [[]] + rest else [[s[0]] + rest[0]] + rest[1..]
  }

  /** Splitting and joining again on the same separator gives back the text. */
  lemma {:induction false} JoinSplit(s: string, sep: char)
    ensures Join([sep], Split(s, sep)) == s
  {
    if s != [] {
      var rest := Split(s[1..], sep);
      JoinSplit(s[1..], sep);
      if s[0] == sep {
        assert Split(s, sep) == [[]] + rest;
        assert ([[]] + rest)[1..] == rest;
      } else {
        var parts := [[s[0]] + rest[0]] + rest[1..];
        assert Split(s, sep) == parts;
        if |rest| == 1 {
          assert Join([sep], parts) == [s[0]] + rest[0];
        } else {
          assert parts[1..] == rest[1..];
          assert Join([sep], parts) == [s[0]] + rest[0] + [sep] + Join([sep], rest[1..]);
        }
      }
    }
  }

  /** `s.replace(pat, rep)` for a non-empty `pat`: left to right, non-overlapping. */
  function ReplaceAll(s: string, pat: string, rep: string): (r: string)
    requires pat != []
    ensures !Contains(s, pat) ==> r == s
    ensures rep == [] ==> |r| <= |s|
    decreases |s|
  {
    if |s| < |pat| then s
    else if StartsWith(s, pat) then rep + ReplaceAll(s[|pat|..], pat, rep)
    else [s[0]] + ReplaceAll(s[1..], pat, rep)
  }

  // ---------------------------------------------------------------------------
  // Case

  function LowerChar(c: char): char
  {
    if 'A' <= c <= 'Z' then (c as int + 32) as char else c
  }

  function UpperChar(c: char): char
  {
    if 'a' <= c <= 'z' then (c as int - 32) as char else c
  }

  /** `s.lower()` on ASCII letters. */
  function Lower(s: string): (r: string)
    ensures |r| == |s| && forall i :: 0 <= i < |s| ==> r[i] == LowerChar(s[i])
  {
    seq(|s|, i requires 0 <= i < |s| => LowerChar(s[i]))
  }

  /** `s.upper()` on ASCII letters. */
  function Upper(s: string): (r: string)
    ensures |r| == |s| && forall i :: 0 <= i < |s| ==> r[i] == UpperChar(s[i])
  {
    seq(|s|, i requires 0 <= i < |s| => UpperChar(s[i]))
  }

  // ---------------------------------------------------------------------------
  // Decimal numbers

  function DigitChar(d: nat): (c: char)
    requires d < 10
    ensures IsDigit(c)
  {
    ('0' as int + d) as char
  }

  /** The number a string of decimal digits denotes. */
  function DigitsValue(s: string): nat
    requires AllDigits(s)
  {
    if s == [] then 0 else DigitsValue(s[..|s| - 1]) * 10 + (s[|s| - 1] as int - '0' as int)
  }

  /** `str(n)`: the decimal digits of `n`, reading back as `n`. */
  function NatToString(n: nat): (r: string)
    ensures r != [] && AllDigits(r)
    ensures DigitsValue(r) == n
  {
    if n < 10 then [DigitChar(n)]
    else
      var r := NatToString(n / 10) + [DigitChar(n % 10)];
      assert r[..|r| - 1] == NatToString(n / 10);
      r
  }

  /** Leading zeros do not change the value of a digit string. */
  lemma {:induction false} LeadingZeroValue(s: string)
    requires AllDigits(s)
    ensures AllDigits("0" + s) && DigitsValue("0" + s) == DigitsValue(s)
    decreases |s|
  {
    if s != [] {
      assert ("0" + s)[..|s|] == "0" + s[..|s| - 1];
      LeadingZeroValue(s[..|s| - 1]);
    }
  }

  function Zeros(k: nat): (r: string)
    ensures |r| == k && AllDigits(r)
  {
    if k == 0 then [] else "0" + Zeros(k - 1)
  }

  lemma {:induction false} ZerosValue(k: nat, s: string)
    requires AllDigits(s)
    ensures AllDigits(Zeros(k) + s) && DigitsValue(Zeros(k) + s) == DigitsValue(s)
  {
    if k > 0 {
      ZerosValue(k - 1, s);
      assert Zeros(k) == "0" + Zeros(k - 1);
      assert Zeros(k) + s == "0" + (Zeros(k - 1) + s);
      LeadingZeroValue(Zeros(k - 1) + s);
    } else {
      assert Zeros(k) + s == s;
    }
  }

  /** Python's `f"{n:04d}"`: at least four digits, zero-padded, reading back as `n`. */
  function Pad4(n: nat): (r: string)
    ensures AllDigits(r) && |r| >= 4
    ensures DigitsValue(r) == n
  {
    var d := NatToString(n);
    var z := if |d| < 4 then 4 - |d| else 0;
    ZerosValue(z, d);
    Zeros(z) + d
  }

  /** Where the separator of `a + "_" + b` falls inside a longer tail `y`. */
  lemma {:induction false} SeparatorInTail(a: string, b: string, x: string, y: string)
    requires a + "_" + b == x + y && |y| > |b|
    ensures '_' in y
  {
    var s := a + "_" + b;
    assert s[|s| - |b| - 1] == '_';
    assert s[|s| - |b| - 1] == y[|y| - |b| - 1];
  }

  /** If two strings end with `_` followed by a tail free of `_`, those tails are equal. */
  lemma {:induction false} UnderscoreTail(a1: string, b1: string, a2: string, b2: string)
    requires a1 + "_" + b1 == a2 + "_" + b2
    requires '_' !in b1 && '_' !in b2
    ensures b1 == b2
  {
    if |b1| < |b2| {
      SeparatorInTail(a1, b1, a2 + "_", b2);
      assert false;
    } else if |b2| < |b1| {
      SeparatorInTail(a2, b2, a1 + "_", b1);
      assert false;
    } else {
      var s := a1 + "_" + b1;
      assert b1 == s[|s| - |b1|..] == b2;
    }
  }

  // ---------------------------------------------------------------------------
  // Character classes of the scripts' regular expressions, and greedy runs

  datatype CharClass =
    | Digit            // \d
    | Word             // \w
    | Space            // \s
    | NotNewline       // .
    | NotLt            // [^<]
    | NotCommaOrDot    // [^,\.]
    | RomanIVX         // [IVX]
    | LowerAZ          // [a-z]
    | AsciiLetter      // [A-Z] under IGNORECASE
    | RomanNumeralCI   // [ivxlcdm] under IGNORECASE
    | DigitOrComma     // [\d,]
    | Superscript      // [¹²³⁴⁵⁶⁷⁸⁹⁰]
    | Hash             // #
    | Newline          // \n

  predicate IsSuperscriptDigit(c: char)
  {
    c == '\U{00b9}' || c == '\U{00b2}' || c == '\U{00b3}' || c == '\U{2070}' || ('\U{2074}' <= c <= '\U{2079}')
  }

  predicate InClass(c: char, k: CharClass)
  {
    match k
    case Digit => IsDigit(c)
    case Word => IsWordChar(c)
    case Space => IsSpace(c)
    case NotNewline => c != '\n'
    case NotLt => c != '<'
    case NotCommaOrDot => c != ',' && c != '.'
    case RomanIVX => c == 'I' || c == 'V' || c == 'X'
    case LowerAZ => 'a' <= c <= 'z'
    case AsciiLetter => IsAsciiLetter(c)
    case RomanNumeralCI => LowerChar(c) in "ivxlcdm"
    case DigitOrComma => IsDigit(c) || c == ','
    case Superscript => IsSuperscriptDigit(c)
    case Hash => c == '#'
    case Newline => c == '\n'
  }

  /** The end of the longest run of `k` characters starting at `i` (a greedy `k*`). */
  function RunEnd(s: string, i: nat, k: CharClass): (j: nat)
    requires i <= |s|
    ensures i <= j <= |s|
    ensures forall m :: i <= m < j ==> InClass(s[m], k)
    ensures j < |s| ==> !InClass(s[j], k)
    decreases |s| - i
  {
    if i < |s| && InClass(s[i], k) then RunEnd(s, i + 1, k) else i
  }
}
