/** The shape every gate shares: an ordered scan of a pattern list over a text,
    stopping at the first pattern that occurs, and the verdict a gate returns. */
module Denylist {
  import opened Text

  datatype Option<+T> = None | Some(value: T)

  /** Which check of a gate turned a command away. The source returns a bare
      `False` at each of these points and only logs the distinction. */
  datatype Reason =
    | DeniedPattern(pattern: string)
    | LeadingDash
    | SuspiciousSequence(chars: string)
    | DeleteWord

  datatype Verdict = Allowed | Rejected(reason: Reason)

  /** Every character of every pattern is a lower-case ASCII letter or one of
      `symbols`. */
  predicate WithinAlphabet(patterns: seq<string>, symbols: string) {
    forall j, k :: 0 <= j < |patterns| && 0 <= k < |patterns[j]| ==>
      IsLowerAscii(patterns[j][k]) || patterns[j][k] in symbols
  }

  /** No pattern of the list occurs in the text. */
  predicate NoneOccur(patterns: seq<string>, text: string) {
    forall j :: 0 <= j < |patterns| ==> !Contains(text, patterns[j])
  }

  /** `p` is the pattern an in-order scan of `patterns` stops at: it occurs in the
      text and no pattern listed before it does. */
  predicate IsFirstMatch(patterns: seq<string>, text: string, p: string) {
    exists i :: 0 <= i < |patterns| && patterns[i] == p && Contains(text, p)
                && forall j :: 0 <= j < i ==> !Contains(text, patterns[j])
  }

  /** `for pattern in patterns[from..]: if pattern in text: return it`. */
  function Scan(patterns: seq<string>, text: string, from: nat): (r: Option<nat>)
    requires from <= |patterns|
    ensures r.Some? ==> from <= r.value < |patterns| && Contains(text, patterns[r.value])
    ensures r.Some? ==> forall j :: from <= j < r.value ==> !Contains(text, patterns[j])
    ensures r.None? ==> forall j :: from <= j < |patterns| ==> !Contains(text, patterns[j])
    decreases |patterns| - from
  {
    if from == |patterns| then None
    else if Contains(text, patterns[from]) then Some(from)
    else Scan(patterns, text, from + 1)
  }

  /** The scan with one entry made conditional: a match on entry `skip` is passed
      over when `excused` holds; any other match stops the scan. */
  function ScanExcept(patterns: seq<string>, text: string, from: nat, skip: nat, excused: bool): (r: Option<nat>)
    requires from <= |patterns|
    ensures r.Some? ==> && from <= r.value < |patterns| && Contains(text, patterns[r.value])
                        && !(r.value == skip && excused)
    ensures r.Some? ==> forall j :: from <= j < r.value && Contains(text, patterns[j]) ==> j == skip && excused
    ensures r.None? ==> forall j :: from <= j < |patterns| && Contains(text, patterns[j]) ==> j == skip && excused
    decreases |patterns| - from
  {
    if from == |patterns| then None
    else if Contains(text, patterns[from]) then
      if from == skip && excused then ScanExcept(patterns, text, from + 1, skip, excused)
      else Some(from)
    else ScanExcept(patterns, text, from + 1, skip, excused)
  }

  /** An excused entry that contains an earlier entry never changes the scan: by
      the time the scan could reach it, the earlier entry has already matched. */
  lemma {:induction false} ShadowedExceptionInert(patterns: seq<string>, text: string, from: nat,
                                                 skip: nat, excused: bool, early: nat)
    requires from <= |patterns|
    requires early < skip < |patterns| && Contains(patterns[skip], patterns[early])
    requires from <= early || !Contains(text, patterns[skip])
    ensures ScanExcept(patterns, text, from, skip, excused) == Scan(patterns, text, from)
    decreases |patterns| - from
  {
    if from < |patterns| && !Contains(text, patterns[from]) {
      if from == early {
        AbsentShortAbsentLong(text, patterns[skip], patterns[early]);
      }
      ShadowedExceptionInert(patterns, text, from + 1, skip, excused, early);
    }
  }

  lemma AbsentShortAbsentLong(text: string, long: string, short: string)
    requires Contains(long, short) && !Contains(text, short)
    ensures !Contains(text, long)
  {
    if Contains(text, long) {
      ContainsTransitive(text, long, short);
    }
  }

  /** The whole-list scan finds nothing exactly when no pattern occurs, and when it
      finds something it finds the first match. */
  lemma ScanFromStart(patterns: seq<string>, text: string)
    ensures Scan(patterns, text, 0).None? <==> NoneOccur(patterns, text)
    ensures Scan(patterns, text, 0).Some? ==>
              IsFirstMatch(patterns, text, patterns[Scan(patterns, text, 0).value])
  {
    var r := Scan(patterns, text, 0);
    if r.Some? {
      assert patterns[r.value] == patterns[r.value];
    }
  }

  /** A pattern listed after one of its own substrings is never where the scan
      stops: the earlier, shorter pattern always matches first. */
  lemma ShadowedNeverFirst(patterns: seq<string>, text: string, i: nat, j: nat)
    requires i < j < |patterns| && Contains(patterns[j], patterns[i])
    ensures Scan(patterns, text, 0) != Some(j)
  {
    if Scan(patterns, text, 0) == Some(j) {
      ContainsTransitive(text, patterns[j], patterns[i]);
    }
  }

  /** Two texts in which every pattern occurs alike are scanned alike. */
  lemma {:induction false} ScanCongruent(patterns: seq<string>, a: string, b: string, from: nat)
    requires from <= |patterns|
    requires forall j :: 0 <= j < |patterns| ==> (Contains(a, patterns[j]) <==> Contains(b, patterns[j]))
    ensures Scan(patterns, a, from) == Scan(patterns, b, from)
    decreases |patterns| - from
  {
    if from < |patterns| && !Contains(a, patterns[from]) {
      ScanCongruent(patterns, a, b, from + 1);
    }
  }

  /** Once some pattern occurs, it still occurs after text is appended. */
  lemma OccurrenceSurvivesAppend(patterns: seq<string>, text: string, suffix: string)
    requires !NoneOccur(patterns, text)
    ensures !NoneOccur(patterns, text + suffix)
  {
    var j :| 0 <= j < |patterns| && Contains(text, patterns[j]);
    ContainsAppend(text, suffix, patterns[j]);
  }

  /** Letterless patterns occur in the lower-cased text exactly when they occur in
      the text itself, so the scan cannot tell the two apart. */
  lemma ScanIgnoresCaseOfLetterless(patterns: seq<string>, text: string)
    requires forall j :: 0 <= j < |patterns| ==> Letterless(patterns[j])
    ensures Scan(patterns, Lower(text), 0) == Scan(patterns, text, 0)
  {
    forall j | 0 <= j < |patterns|
      ensures Contains(Lower(text), patterns[j]) <==> Contains(text, patterns[j])
    {
      ContainsLowerLetterless(text, patterns[j]);
    }
    ScanCongruent(patterns, Lower(text), text, 0);
  }
}
