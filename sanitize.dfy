/** `sanitize_filename` (extract_figures.py): four one-character replacements
    by `_`, then a filter keeping only the characters allowed in file names. */
module Sanitize {
  import opened Text

  /** `"-_.() "` followed by the ASCII letters and digits. */
  predicate IsValidChar(c: char)
  {
    c == '-' || c == '_' || c == '.' || c == '(' || c == ')' || c == ' ' || IsAsciiLetter(c) || IsDigit(c)
  }

  /** The characters kept in order, in the way the `join` over a filtering
      generator does. */
  function KeepValid(s: string): (r: string)
    ensures |r| <= |s|
    ensures forall k :: 0 <= k < |r| ==> IsValidChar(r[k])
  {
    if s == [] then []
    else if IsValidChar(s[0]) then [s[0]] + KeepValid(s[1..])
    else KeepValid(s[1..])
  }

  function Sanitize(filename: string): string
  {
    var sanitized := ReplaceAll(ReplaceAll(ReplaceAll(ReplaceAll(filename, "\n", "_"), " ", "_"), "/", "_"), "\\", "_");
    KeepValid(sanitized)
  }

  /** Replacing a one-character string by another swaps that character
      everywhere and touches nothing else. */
  lemma {:induction false} ReplaceOneChar(s: string, a: char, b: char)
    ensures |ReplaceAll(s, [a], [b])| == |s|
    ensures forall k :: 0 <= k < |s| ==> ReplaceAll(s, [a], [b])[k] == (if s[k] == a then b else s[k])
    decreases |s|
  {
    if |s| >= 1 {
      ReplaceOneChar(s[1..], a, b);
      assert StartsWith(s, [a]) <==> s[0] == a;
    }
  }

  /** The character map the four replacements amount to. */
  function Underscored(c: char): char
  {
    if c == '\n' || c == ' ' || c == '/' || c == '\\' then '_' else c
  }

  lemma {:induction false} SanitizedChars(filename: string)
    ensures var r := ReplaceAll(ReplaceAll(ReplaceAll(ReplaceAll(filename, "\n", "_"), " ", "_"), "/", "_"), "\\", "_");
      |r| == |filename| && forall k :: 0 <= k < |r| ==> r[k] == Underscored(filename[k])
  {
    var r1 := ReplaceAll(filename, "\n", "_");
    ReplaceOneChar(filename, '\n', '_');
    var r2 := ReplaceAll(r1, " ", "_");
    ReplaceOneChar(r1, ' ', '_');
    var r3 := ReplaceAll(r2, "/", "_");
    ReplaceOneChar(r2, '/', '_');
    ReplaceOneChar(r3, '\\', '_');
  }

  /** Every output character is an ASCII letter, a digit, or one of `-_.()`;
      in particular no newline, space, slash or backslash survives, and
      nothing beyond ASCII. */
  lemma {:induction false} SanitizeOutput(filename: string)
    ensures |Sanitize(filename)| <= |filename|
    ensures forall k :: 0 <= k < |Sanitize(filename)| ==>
      var c := Sanitize(filename)[k];
      IsValidChar(c) && c != ' ' && c != '\n' && c != '/' && c != '\\' && (c as int) < 128
  {
    var r := ReplaceAll(ReplaceAll(ReplaceAll(ReplaceAll(filename, "\n", "_"), " ", "_"), "/", "_"), "\\", "_");
    SanitizedChars(filename);
    KeepValidFrom(r);
    var out := KeepValid(r);
    assert out == Sanitize(filename);
    forall k | 0 <= k < |out|
      ensures IsValidChar(out[k]) && out[k] != ' ' && out[k] != '\n' && out[k] != '/' && out[k] != '\\' && (out[k] as int) < 128
    {
      var m :| 0 <= m < |r| && r[m] == out[k];
      assert r[m] == Underscored(filename[m]);
    }
  }

  /** A filtered string only holds characters of its input. */
  lemma {:induction false} KeepValidFrom(s: string)
    ensures forall k :: 0 <= k < |KeepValid(s)| ==> KeepValid(s)[k] in s
  {
    if s != [] {
      KeepValidFrom(s[1..]);
      var r := KeepValid(s);
      forall k | 0 <= k < |r|
        ensures r[k] in s
      {
        var t := KeepValid(s[1..]);
        assert s == [s[0]] + s[1..];
        if IsValidChar(s[0]) {
          assert r == [s[0]] + t;
          if k > 0 {
            assert r[k] == t[k - 1] && t[k - 1] in s[1..];
          }
        } else {
          assert r == t && r[k] in s[1..];
        }
      }
    }
  }

  /** Filtering a string that has only valid characters changes nothing. */
  lemma {:induction false} KeepValidIdentity(s: string)
    requires forall k :: 0 <= k < |s| ==> IsValidChar(s[k])
    ensures KeepValid(s) == s
  {
    if s != [] {
      KeepValidIdentity(s[1..]);
    }
  }

  lemma {:induction false} ReplaceAbsent(s: string, a: char, b: char)
    requires a !in s
    ensures ReplaceAll(s, [a], [b]) == s
  {
    ReplaceOneChar(s, a, b);
  }

  /** Sanitising twice is sanitising once. */
  lemma {:induction false} SanitizeIdempotent(filename: string)
    ensures Sanitize(Sanitize(filename)) == Sanitize(filename)
  {
    var s := Sanitize(filename);
    SanitizeOutput(filename);
    assert '\n' !in s && ' ' !in s && '/' !in s && '\\' !in s;
    ReplaceAbsent(s, '\n', '_');
    ReplaceAbsent(s, ' ', '_');
    ReplaceAbsent(s, '/', '_');
    ReplaceAbsent(s, '\\', '_');
    KeepValidIdentity(s);
  }

  /** The ASCII letters and digits of a string, in order. */
  function Alnum(s: string): (r: string)
    ensures |r| <= |s|
  {
    if s == [] then []
    else if IsAsciiLetter(s[0]) || IsDigit(s[0]) then [s[0]] + Alnum(s[1..])
    else Alnum(s[1..])
  }

  lemma {:induction false} AlnumKeepValid(s: string)
    ensures Alnum(KeepValid(s)) == Alnum(s)
  {
    if s != [] {
      AlnumKeepValid(s[1..]);
      if IsValidChar(s[0]) {
        assert KeepValid(s) == [s[0]] + KeepValid(s[1..]);
        assert ([s[0]] + KeepValid(s[1..]))[1..] == KeepValid(s[1..]);
      }
    }
  }

  lemma {:induction false} AlnumUnderscored(s: string, r: string)
    requires |r| == |s| && forall k :: 0 <= k < |s| ==> r[k] == Underscored(s[k])
    ensures Alnum(r) == Alnum(s)
  {
    if s != [] {
      AlnumUnderscored(s[1..], r[1..]);
    }
  }

  /** The ASCII letters and digits of the input all survive, in order. */
  lemma {:induction false} SanitizeKeepsAlnum(filename: string)
    ensures Alnum(Sanitize(filename)) == Alnum(filename)
  {
    var r := ReplaceAll(ReplaceAll(ReplaceAll(ReplaceAll(filename, "\n", "_"), " ", "_"), "/", "_"), "\\", "_");
    SanitizedChars(filename);
    AlnumKeepValid(r);
    AlnumUnderscored(filename, r);
  }
}
