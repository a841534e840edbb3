/** `truncate_8k_filing` (main.py:72-79): keep the filing from its `FORM 8-K` heading on. */
module Truncation {
  import opened Wrappers
  import opened Text

  /** End of the run of whitespace that starts at `j`: what the greedy `\s+` consumes. */
  function SkipSpaces(s: string, j: nat): (e: nat)
    requires j <= |s|
    ensures j <= e <= |s|
    ensures forall k :: j <= k < e ==> IsSpace(s[k])
    ensures e < |s| ==> !IsSpace(s[e])
    decreases |s| - j
  {
    if j < |s| && IsSpace(s[j]) then SkipSpaces(s, j + 1) else j
  }

  /** The pattern `FORM\s+8-K` matches at `i`, computed the way the regex engine does:
      take the whole whitespace run, then look for `8-K`. */
  predicate HeadingAt(s: string, i: nat)
  {
    StartsAt(s, i, "FORM") &&
    var e := SkipSpaces(s, i + 4);
    e > i + 4 && StartsAt(s, e, "8-K")
  }

  /** The pattern `FORM\s+8-K` matches at `i`, as the regular expression reads: some
      non-empty run of whitespace between `FORM` and `8-K`. */
  ghost predicate RegexHeadingAt(s: string, i: nat)
  {
    StartsAt(s, i, "FORM") &&
    exists e :: i + 4 < e <= |s| && (forall k :: i + 4 <= k < e ==> IsSpace(s[k])) && StartsAt(s, e, "8-K")
  }

  /** Taking the whole whitespace run loses no match: backtracking into `\s+` can only
      leave a whitespace character where `8` is needed. */
  lemma HeadingAtIff(s: string, i: nat)
    ensures HeadingAt(s, i) <==> RegexHeadingAt(s, i)
  {
    if RegexHeadingAt(s, i) {
      var e :| i + 4 < e <= |s| && (forall k :: i + 4 <= k < e ==> IsSpace(s[k])) && StartsAt(s, e, "8-K");
      var e' := SkipSpaces(s, i + 4);
      assert s[e] == '8' by { assert s[e..e + 3] == "8-K"; }
      assert !IsSpace(s[e]);
      assert e' == e;
    }
  }

  /** Whether `FORM\s+8-K` matches at `i` depends only on the text from `i` on. */
  lemma HeadingAtSuffix(s: string, i: nat)
    requires i <= |s|
    ensures HeadingAt(s, i) <==> HeadingAt(s[i..], 0)
  {
    HeadingAtIff(s, i);
    HeadingAtIff(s[i..], 0);
    var t := s[i..];
    if RegexHeadingAt(s, i) {
      var e :| i + 4 < e <= |s| && (forall k :: i + 4 <= k < e ==> IsSpace(s[k])) && StartsAt(s, e, "8-K");
      assert t[0..4] == s[i..i + 4];
      assert t[e - i..e - i + 3] == s[e..e + 3];
      assert forall k :: 4 <= k < e - i ==> IsSpace(t[k]) by {
        forall k | 4 <= k < e - i ensures IsSpace(t[k]) { assert t[k] == s[i + k]; }
      }
      assert RegexHeadingAt(t, 0);
    }
    if RegexHeadingAt(t, 0) {
      var e :| 4 < e <= |t| && (forall k :: 4 <= k < e ==> IsSpace(t[k])) && StartsAt(t, e, "8-K");
      assert s[i..i + 4] == t[0..4];
      assert s[i + e..i + e + 3] == t[e..e + 3];
      assert forall k :: i + 4 <= k < i + e ==> IsSpace(s[k]) by {
        forall k | i + 4 <= k < i + e ensures IsSpace(s[k]) { assert s[k] == t[k - i]; }
      }
      assert RegexHeadingAt(s, i);
    }
  }

  /** `re.search`: the leftmost index at or after `from` where the heading matches. */
  function SearchHeading(s: string, from: nat): (r: Option<nat>)
    ensures r.Some? ==> from <= r.value <= |s| && HeadingAt(s, r.value)
    ensures r.Some? ==> forall k :: from <= k < r.value ==> !HeadingAt(s, k)
    ensures r.None? ==> forall k :: from <= k ==> !HeadingAt(s, k)
    decreases |s| - from
  {
    if from + 4 > |s| then None
    else if HeadingAt(s, from) then Some(from)
    else SearchHeading(s, from + 1)
  }

  /** `truncate_8k_filing`: the pattern ends in `.*$` under DOTALL, so a match runs to
      the end of the text and `group(0)` is the suffix from the match on; with no match
      `match.group` raises, the handler catches it and the text comes back unchanged. */
  function TruncateFiling(s: string): (r: string)
    ensures exists k :: 0 <= k <= |s| && r == s[k..]
    ensures |r| <= |s|
  {
    match SearchHeading(s, 0)
    case Some(i) => s[i..]
    case None => assert s[0..] == s; s
  }

  /** With a heading in the text, the result is the suffix from the leftmost heading. */
  lemma TruncateAtLeftmostHeading(s: string, i: nat)
    requires i <= |s| && HeadingAt(s, i)
    requires forall k :: 0 <= k < i ==> !HeadingAt(s, k)
    ensures TruncateFiling(s) == s[i..]
  {
    assert SearchHeading(s, 0) == Some(i);
  }

  /** Without a heading anywhere, the filing is returned unchanged. */
  lemma TruncateWithoutHeading(s: string)
    requires forall k :: 0 <= k <= |s| ==> !HeadingAt(s, k)
    ensures TruncateFiling(s) == s
  {
    assert SearchHeading(s, 0).None?;
  }

  /** A truncated filing starts with the heading whenever the input had one. */
  lemma TruncatedStartsWithHeading(s: string)
    requires exists k :: 0 <= k <= |s| && HeadingAt(s, k)
    ensures HeadingAt(TruncateFiling(s), 0)
  {
    var k :| 0 <= k <= |s| && HeadingAt(s, k);
    var r := SearchHeading(s, 0);
    assert r.Some?;
    HeadingAtSuffix(s, r.value);
  }

  /** Truncating twice gives the same text as truncating once. */
  lemma {:induction false} TruncateIdempotent(s: string)
    ensures TruncateFiling(TruncateFiling(s)) == TruncateFiling(s)
  {
    match SearchHeading(s, 0)
    case None =>
    case Some(i) =>
      var t := s[i..];
      HeadingAtSuffix(s, i);
      assert SearchHeading(t, 0) == Some(0);
      assert t[0..] == t;
  }
}
