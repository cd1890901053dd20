/** String primitives the command gates are built from: Python's `str.strip()`,
    ASCII lower-casing, `startswith`/`endswith` and the substring test `p in s`. */
module Text {

  /** The characters Python's `str.isspace()` accepts, which `str.strip()` removes. */
  predicate IsSpace(c: char) {
    || c == ' '
    || '\t' <= c <= '\r'
    || '\U{1c}' <= c <= '\U{1f}'
    || c == '\U{85}' || c == '\U{a0}' || c == '\U{1680}'
    || '\U{2000}' <= c <= '\U{200a}'
    || c == '\U{2028}' || c == '\U{2029}' || c == '\U{202f}' || c == '\U{205f}' || c == '\U{3000}'
  }

  predicate AllSpace(s: string) {
    forall k :: 0 <= k < |s| ==> IsSpace(s[k])
  }

  /** Drops leading whitespace: the result is the suffix starting at the first non-space. */
  function TrimStart(s: string): (r: string)
    ensures |r| <= |s| && r == s[|s| - |r|..]
    ensures AllSpace(s[..|s| - |r|])
    ensures |r| > 0 ==> !IsSpace(r[0])
    decreases |s|
  {
    if |s| > 0 && IsSpace(s[0]) then TrimStart(s[1..]) else s
  }

  /** Drops trailing whitespace: the result is the prefix ending at the last non-space. */
  function TrimEnd(s: string): (r: string)
    ensures |r| <= |s| && r == s[..|r|]
    ensures AllSpace(s[|r|..])
    ensures |r| > 0 ==> !IsSpace(r[|r| - 1])
    decreases |s|
  {
    if |s| > 0 && IsSpace(s[|s| - 1]) then TrimEnd(s[..|s| - 1]) else s
  }

  /** `r` sits at index `i` of `s` with only whitespace on either side of it. */
  predicate SurroundedBySpace(s: string, r: string, i: int) {
    && 0 <= i && i + |r| <= |s|
    && r == s[i..i + |r|]
    && AllSpace(s[..i])
    && AllSpace(s[i + |r|..])
  }

  /** Python's `str.strip()` with no argument. */
  function Strip(s: string): (r: string)
    ensures exists i :: SurroundedBySpace(s, r, i)
    ensures |r| > 0 ==> !IsSpace(r[0]) && !IsSpace(r[|r| - 1])
    ensures |r| == 0 <==> AllSpace(s)
  {
    TrimBoth(s);
    TrimEnd(TrimStart(s))
  }

  lemma TrimBoth(s: string)
    ensures SurroundedBySpace(s, TrimEnd(TrimStart(s)), |s| - |TrimStart(s)|)
    ensures |TrimEnd(TrimStart(s))| == 0 <==> AllSpace(s)
  {
    var t := TrimStart(s);
    TrimCombined(s, t, TrimEnd(t), |s| - |t|);
  }

  /** What the two trims leave, stated over their results alone. */
  lemma TrimCombined(s: string, t: string, r: string, i: nat)
    requires i + |t| == |s| && t == s[i..] && AllSpace(s[..i])
    requires |r| <= |t| && r == t[..|r|] && AllSpace(t[|r|..])
    requires |r| > 0 ==> !IsSpace(r[0])
    ensures SurroundedBySpace(s, r, i)
    ensures |r| == 0 <==> AllSpace(s)
  {
    TrimParts(s, t, r, i);
    if |r| == 0 {
      SpaceAround(s, i);
    } else {
      assert s[i] == r[0];
    }
  }

  lemma TrimParts(s: string, t: string, r: string, i: nat)
    requires i + |t| == |s| && t == s[i..] && AllSpace(s[..i])
    requires |r| <= |t| && r == t[..|r|] && AllSpace(t[|r|..])
    ensures SurroundedBySpace(s, r, i)
    ensures s[i + |r|..] == t[|r|..]
  {
    assert s[i..i + |r|] == t[..|r|];
    assert s[i + |r|..] == t[|r|..];
  }

  lemma SpaceAround(s: string, i: nat)
    requires i <= |s| && AllSpace(s[..i]) && AllSpace(s[i..])
    ensures AllSpace(s)
  {
    forall k | 0 <= k < |s| ensures IsSpace(s[k]) {
      if k < i {
        assert s[k] == s[..i][k];
      } else {
        assert s[k] == s[i..][k - i];
      }
    }
  }

  lemma StripIdempotent(s: string)
    ensures Strip(Strip(s)) == Strip(s)
  {
    var r := Strip(s);
    if |r| > 0 {
      assert TrimStart(r) == r;
      assert TrimEnd(r) == r;
    }
  }

  /** The non-letter characters that occur in the AWS and Azure denylists. */
  const ShellSymbols: string := "&|;>< "

  predicate IsUpperAscii(c: char) { 'A' <= c <= 'Z' }
  predicate IsLowerAscii(c: char) { 'a' <= c <= 'z' }

  /** `c.lower()` restricted to ASCII: A-Z map to a-z, everything else is kept. */
  function LowerChar(c: char): (d: char)
    ensures IsUpperAscii(c) ==> IsLowerAscii(d) && d as int == c as int + 32
    ensures !IsUpperAscii(c) ==> d == c
  {
    if IsUpperAscii(c) then (c as int + 32) as char else c
  }

  /** ASCII lower-casing of a whole string, position by position. */
  function Lower(s: string): (r: string)
    ensures |r| == |s|
    ensures forall k :: 0 <= k < |s| ==> r[k] == LowerChar(s[k])
  {
    if |s| == 0 then [] else [LowerChar(s[0])] + Lower(s[1..])
  }

  lemma LowerHasNoUpper(s: string)
    ensures forall k :: 0 <= k < |s| ==> !IsUpperAscii(Lower(s)[k])
  {
  }

  lemma LowerIdempotent(s: string)
    ensures Lower(Lower(s)) == Lower(s)
  {
    LowerHasNoUpper(s);
    assert forall k :: 0 <= k < |s| ==> Lower(Lower(s))[k] == Lower(s)[k];
  }

  lemma LowerAppend(s: string, t: string)
    ensures Lower(s + t) == Lower(s) + Lower(t)
  {
    var a := Lower(s + t);
    var b := Lower(s) + Lower(t);
    forall k | 0 <= k < |a| ensures a[k] == b[k] {
      if k < |s| {
        assert (s + t)[k] == s[k];
      } else {
        assert (s + t)[k] == t[k - |s|];
      }
    }
  }

  lemma LowerSlice(s: string, i: nat, j: nat)
    requires i <= j <= |s|
    ensures Lower(s)[i..j] == Lower(s[i..j])
  {
    forall k | 0 <= k < j - i ensures Lower(s)[i..j][k] == Lower(s[i..j])[k] {
      assert Lower(s)[i..j][k] == LowerChar(s[i + k]);
      assert s[i..j][k] == s[i + k];
    }
  }

  /** A string with no ASCII letter in it: lower-casing cannot create or destroy it. */
  predicate Letterless(p: string) {
    forall k :: 0 <= k < |p| ==> !IsUpperAscii(p[k]) && !IsLowerAscii(p[k])
  }

  lemma LowerMatchesLetterless(x: string, p: string)
    requires |x| == |p| && Letterless(p)
    ensures Lower(x) == p <==> x == p
  {
    if Lower(x) == p {
      forall k | 0 <= k < |x| ensures x[k] == p[k] {
        assert LowerChar(x[k]) == p[k];
      }
    }
    if x == p {
      assert forall k :: 0 <= k < |x| ==> Lower(x)[k] == p[k];
    }
  }

  predicate StartsWith(s: string, prefix: string) {
    |prefix| <= |s| && s[..|prefix|] == prefix
  }

  predicate EndsWith(s: string, suffix: string) {
    |suffix| <= |s| && s[|s| - |suffix|..] == suffix
  }

  /** `s.startswith("--")` implies `s.startswith("-")`: the source tests both. */
  lemma DoubleDashIsDash(s: string)
    ensures StartsWith(s, "--") ==> StartsWith(s, "-")
  {
    if StartsWith(s, "--") {
      assert s[..1] == s[..2][..1];
    }
  }

  /** Python's `pat in s`: `pat` occurs in `s` as a contiguous substring. */
  predicate Contains(s: string, pat: string)
    decreases |s|
  {
    StartsWith(s, pat) || (|s| > 0 && Contains(s[1..], pat))
  }

  /** `pat` occurs in `s` starting at index `i`. */
  predicate MatchAt(s: string, pat: string, i: int) {
    0 <= i && i + |pat| <= |s| && s[i..i + |pat|] == pat
  }

  /** The recursive substring test agrees with "occurs at some index". */
  lemma {:induction false} ContainsAt(s: string, pat: string)
    ensures Contains(s, pat) <==> exists i :: MatchAt(s, pat, i)
    decreases |s|
  {
    if StartsWith(s, pat) {
      assert MatchAt(s, pat, 0);
    } else if |s| > 0 {
      ContainsAt(s[1..], pat);
      assert !MatchAt(s, pat, 0) by {
        if |pat| <= |s| {
          assert s[..|pat|] == s[0..|pat|];
        }
      }
      forall i | 0 < i ensures MatchAt(s, pat, i) <==> MatchAt(s[1..], pat, i - 1) {
        MatchShift(s, pat, i);
      }
      if Contains(s[1..], pat) {
        var i :| MatchAt(s[1..], pat, i);
        assert MatchAt(s, pat, i + 1);
      }
    } else {
      assert forall i :: !MatchAt(s, pat, i);
    }
  }

  /** An occurrence past the first character is an occurrence in the tail. */
  lemma MatchShift(s: string, pat: string, i: int)
    requires |s| > 0 && i > 0
    ensures MatchAt(s, pat, i) <==> MatchAt(s[1..], pat, i - 1)
  {
    if i + |pat| <= |s| {
      assert s[i..i + |pat|] == s[1..][i - 1..i - 1 + |pat|];
    }
  }

  lemma ContainsWitness(s: string, pat: string, i: int)
    requires MatchAt(s, pat, i)
    ensures Contains(s, pat)
  {
    ContainsAt(s, pat);
  }

  /** A substring of a substring is a substring. */
  lemma ContainsTransitive(s: string, q: string, p: string)
    requires Contains(s, q) && Contains(q, p)
    ensures Contains(s, p)
  {
    ContainsAt(s, q);
    ContainsAt(q, p);
    var i :| MatchAt(s, q, i);
    var j :| MatchAt(q, p, j);
    forall k | 0 <= k < |p| ensures s[i + j + k] == p[k] {
      assert s[i + j + k] == s[i..i + |q|][j + k];
      assert q[j + k] == q[j..j + |p|][k];
    }
    assert s[i + j..i + j + |p|] == p;
    ContainsWitness(s, p, i + j);
  }

  /** Appending text never removes an occurrence. */
  lemma ContainsAppend(s: string, t: string, pat: string)
    requires Contains(s, pat)
    ensures Contains(s + t, pat)
  {
    ContainsAt(s, pat);
    var i :| MatchAt(s, pat, i);
    assert (s + t)[i..i + |pat|] == s[i..i + |pat|];
    ContainsWitness(s + t, pat, i);
  }

  /** Appending text that shares no character with `pat` cannot create an
      occurrence of it. */
  lemma ContainsAppendForeign(s: string, t: string, pat: string)
    requires |pat| > 0
    requires forall k :: 0 <= k < |t| ==> t[k] !in pat
    ensures Contains(s + t, pat) <==> Contains(s, pat)
  {
    if Contains(s + t, pat) {
      ContainsAt(s + t, pat);
      var i :| MatchAt(s + t, pat, i);
      var last := i + |pat| - 1;
      assert (s + t)[last] == (s + t)[i..i + |pat|][|pat| - 1];
      if last >= |s| {
        assert false;
      }
      assert s[i..i + |pat|] == (s + t)[i..i + |pat|];
      ContainsWitness(s, pat, i);
    }
    if Contains(s, pat) {
      ContainsAppend(s, t, pat);
    }
  }

  lemma StartsWithAppend(s: string, t: string, prefix: string)
    requires StartsWith(s, prefix)
    ensures StartsWith(s + t, prefix)
  {
    assert (s + t)[..|prefix|] == s[..|prefix|];
  }

  lemma EndsWithContains(s: string, suffix: string)
    requires EndsWith(s, suffix)
    ensures Contains(s, suffix)
  {
    ContainsWitness(s, suffix, |s| - |suffix|);
  }

  /** Every character of an occurring pattern is a character of the text. */
  lemma ContainsCharIn(s: string, p: string, c: char)
    ensures Contains(s, p) && c in p ==> c in s
  {
    ContainsAt(s, p);
    if Contains(s, p) && c in p {
      var i :| MatchAt(s, p, i);
      var k :| 0 <= k < |p| && p[k] == c;
      assert s[i..i + |p|][k] == s[i + k];
    }
  }

  /** Text without upper-case ASCII letters is its own lower-cased form. */
  lemma LowerFixesLowercase(s: string)
    requires forall k :: 0 <= k < |s| ==> !IsUpperAscii(s[k])
    ensures Lower(s) == s
  {
    assert forall k :: 0 <= k < |s| ==> Lower(s)[k] == s[k];
  }

  /** For a pattern without ASCII letters, lower-casing the text does not change
      whether the pattern occurs in it. */
  lemma ContainsLowerLetterless(s: string, p: string)
    requires Letterless(p)
    ensures Contains(Lower(s), p) <==> Contains(s, p)
  {
    ContainsAt(s, p);
    ContainsAt(Lower(s), p);
    forall i ensures MatchAt(Lower(s), p, i) <==> MatchAt(s, p, i) {
      MatchAtLowerLetterless(s, p, i);
    }
  }

  lemma MatchAtLowerLetterless(s: string, p: string, i: int)
    requires Letterless(p)
    ensures MatchAt(Lower(s), p, i) <==> MatchAt(s, p, i)
  {
    if 0 <= i && i + |p| <= |s| {
      LowerSlice(s, i, i + |p|);
      LowerMatchesLetterless(s[i..i + |p|], p);
    }
  }

  lemma StartsWithLowerLetterless(s: string, p: string)
    requires Letterless(p)
    ensures StartsWith(Lower(s), p) <==> StartsWith(s, p)
  {
    if |p| <= |s| {
      LowerSlice(s, 0, |p|);
      assert Lower(s)[..|p|] == Lower(s)[0..|p|];
      assert s[..|p|] == s[0..|p|];
      LowerMatchesLetterless(s[..|p|], p);
    }
  }
}
