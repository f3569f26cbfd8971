/** The string operations of JavaScript that the components use: the emptiness
    test after `String.prototype.trim`, `startsWith`, `endsWith` and `includes`. */
module JsStrings {

  /** The characters `trim` removes: WhiteSpace and LineTerminator of the ECMAScript
      grammar (tab, vertical tab, form feed, space, no-break space, the byte order
      mark, the space separators of Unicode, line feed, carriage return and the
      two Unicode line and paragraph separators). */
  predicate IsTrimmed(c: char)
  {
    c == '\t' || c == '\n' || c == '\U{000B}' || c == '\U{000C}' || c == '\r' || c == ' ' ||
    c == '\U{00A0}' || c == '\U{1680}' || ('\U{2000}' <= c <= '\U{200A}') ||
    c == '\U{2028}' || c == '\U{2029}' || c == '\U{202F}' || c == '\U{205F}' ||
    c == '\U{3000}' || c == '\U{FEFF}'
  }

  /** `!s.trim()`: nothing is left once the whitespace at both ends is removed. */
  predicate Blank(s: string)
  {
    forall i :: 0 <= i < |s| ==> IsTrimmed(s[i])
  }

  /** `String.prototype.trim`: the trimmed characters at the start, then
      those at the end, are removed. */
  function Trim(s: string): (r: string)
  {
    TrimEnd(TrimStart(s))
  }

  /** The string without its leading trimmed characters: a suffix that starts
      with a kept character, empty exactly when the whole string is blank. */
  function TrimStart(s: string): (r: string)
    ensures |r| <= |s| && r == s[|s| - |r|..]
    ensures |r| > 0 ==> !IsTrimmed(r[0])
    ensures r == "" <==> Blank(s)
  {
    if |s| > 0 && IsTrimmed(s[0]) then
      var r := TrimStart(s[1..]);
      assert Blank(s) <==> Blank(s[1..]) by {
        if Blank(s[1..]) {
          forall i | 0 < i < |s| ensures IsTrimmed(s[i]) { assert s[i] == s[1..][i - 1]; }
        }
      }
      r
    else
      s
  }

  /** The string without its trailing trimmed characters: a prefix that ends
      with a kept character, empty exactly when the whole string is blank. */
  function TrimEnd(s: string): (r: string)
    ensures |r| <= |s| && r == s[..|r|]
    ensures |r| > 0 ==> !IsTrimmed(r[|r| - 1])
    ensures r == "" <==> Blank(s)
  {
    if |s| > 0 && IsTrimmed(s[|s| - 1]) then
      var r := TrimEnd(s[..|s| - 1]);
      assert Blank(s) <==> Blank(s[..|s| - 1]) by {
        if Blank(s[..|s| - 1]) {
          forall i | 0 <= i < |s| - 1 ensures IsTrimmed(s[i]) { assert s[i] == s[..|s| - 1][i]; }
        }
      }
      r
    else
      s
  }

  /** `!s.trim()` is the blank test: trimming leaves nothing exactly when every
      character is one that `trim` removes. */
  lemma BlankIffTrimEmpty(s: string)
    ensures Blank(s) <==> Trim(s) == ""
  {
    var t := TrimStart(s);
    if t != "" {
      assert !Blank(t) by { assert !IsTrimmed(t[0]); }
    }
  }

  predicate StartsWith(s: string, prefix: string)
  {
    |prefix| <= |s| && s[..|prefix|] == prefix
  }

  predicate EndsWith(s: string, suffix: string)
  {
    |suffix| <= |s| && s[|s| - |suffix|..] == suffix
  }

  /** `pattern` occurs in `s` starting at index `i`. */
  predicate OccursAt(s: string, pattern: string, i: nat)
  {
    i + |pattern| <= |s| && s[i..i + |pattern|] == pattern
  }

  /** `s.includes(pattern)`, computed by a scan from the left. */
  function Includes(s: string, pattern: string): (r: bool)
    ensures r <==> exists i: nat :: OccursAt(s, pattern, i)
    decreases |s|
  {
    if StartsWith(s, pattern) then
      assert OccursAt(s, pattern, 0);
      true
    else if |s| == 0 then
      false
    else
      var r := Includes(s[1..], pattern);
      assert r ==> exists i: nat :: OccursAt(s, pattern, i) by {
        if r {
          var j: nat :| OccursAt(s[1..], pattern, j);
          OccursShift(s, pattern, j);
        }
      }
      assert (exists i: nat :: OccursAt(s, pattern, i)) ==> r by {
        if exists i: nat :: OccursAt(s, pattern, i) {
          var i: nat :| OccursAt(s, pattern, i);
          assert i != 0 by { assert s[..|pattern|] == s[0..|pattern|]; }
          OccursShift(s, pattern, i - 1);
        }
      }
      r
  }

  /** An occurrence in the tail is an occurrence one place later in the string. */
  lemma OccursShift(s: string, pattern: string, j: nat)
    requires |s| > 0
    ensures OccursAt(s[1..], pattern, j) <==> OccursAt(s, pattern, j + 1)
  {
    if j + 1 + |pattern| <= |s| {
      assert s[1..][j..j + |pattern|] == s[j + 1..j + 1 + |pattern|];
    }
  }

  /** A prefix of the left operand is a prefix of the concatenation. */
  lemma StartsWithConcat(a: string, b: string, prefix: string)
    requires StartsWith(a, prefix)
    ensures StartsWith(a + b, prefix)
  {
    assert (a + b)[..|prefix|] == a[..|prefix|];
  }

  /** The concatenation ends with its right operand. */
  lemma EndsWithConcat(a: string, b: string)
    ensures EndsWith(a + b, b)
  {
    assert (a + b)[|a + b| - |b|..] == b;
  }
}
