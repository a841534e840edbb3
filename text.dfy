/** Character and substring primitives shared by the pattern searches of main.py. */
module Text {
  import opened Wrappers

  /** The characters Python's `str.isspace()` accepts, which are also what `\s`
      matches in a `str` pattern: the ASCII controls 0x09-0x0D and 0x1C-0x1F, the
      space, and the Unicode spaces and line/paragraph separators. */
  predicate IsSpace(c: char)
  {
    ('\U{9}' <= c <= '\U{D}') || ('\U{1C}' <= c <= '\U{20}') ||
    c == '\U{85}' || c == '\U{A0}' || c == '\U{1680}' ||
    ('\U{2000}' <= c <= '\U{200A}') || c == '\U{2028}' || c == '\U{2029}' ||
    c == '\U{202F}' || c == '\U{205F}' || c == '\U{3000}'
  }

  /** `p` occurs in `s` starting at index `i`, compared one character at a time. */
  predicate StartsAt(s: string, i: nat, p: string)
    decreases |p|
  {
    i + |p| <= |s| && (p == [] || (s[i] == p[0] && StartsAt(s, i + 1, p[1..])))
  }

  /** `StartsAt` holds exactly when every character of `p` is found at its place. */
  lemma {:induction false} StartsAtChars(s: string, i: nat, p: string)
    ensures StartsAt(s, i, p) <==> i + |p| <= |s| && forall j :: 0 <= j < |p| ==> s[i + j] == p[j]
    decreases |p|
  {
    if p != [] && i + |p| <= |s| {
      StartsAtChars(s, i + 1, p[1..]);
      if forall j :: 0 <= j < |p| ==> s[i + j] == p[j] {
        forall j | 0 <= j < |p| - 1 ensures s[i + 1 + j] == p[1..][j] {
          assert s[i + (j + 1)] == p[j + 1];
        }
      }
      if StartsAt(s, i, p) {
        forall j | 0 <= j < |p| ensures s[i + j] == p[j] {
          if j > 0 {
            assert s[i + 1 + (j - 1)] == p[1..][j - 1];
          }
        }
      }
    }
  }

  /** Leftmost occurrence of `p` in `s` at or after `from` (Python `str.find(p, from)`). */
  function Find(s: string, p: string, from: nat): (r: Option<nat>)
    ensures r.Some? ==> from <= r.value && StartsAt(s, r.value, p)
    decreases |s| - from
  {
    if from + |p| > |s| then None
    else if StartsAt(s, from, p) then Some(from)
    else Find(s, p, from + 1)
  }

  /** `Find` misses nothing: `p` occurs nowhere between `from` and the occurrence it
      returns, nor anywhere from `from` on when it returns none. */
  lemma {:induction false} FindLeftmost(s: string, p: string, from: nat, k: nat)
    requires from <= k
    requires Find(s, p, from).Some? ==> k < Find(s, p, from).value
    ensures !StartsAt(s, k, p)
    decreases |s| - from
  {
    if from + |p| <= |s| && !StartsAt(s, from, p) && from < k {
      FindLeftmost(s, p, from + 1, k);
    }
  }

  /** An occurrence with none before it is the one `Find` returns. */
  lemma FindFirst(s: string, p: string, from: nat, i: nat)
    requires from <= i && StartsAt(s, i, p)
    requires forall k :: from <= k < i ==> !StartsAt(s, k, p)
    ensures Find(s, p, from) == Some(i)
  {
    var r := Find(s, p, from);
    if r.None? || i < r.value {
      FindLeftmost(s, p, from, i);
      assert false;
    }
  }

  /** An occurrence inside a slice is an occurrence in the whole text, shifted. */
  lemma StartsAtSlice(s: string, a: nat, b: nat, j: nat, p: string)
    requires a <= b <= |s| && a + j + |p| <= b
    ensures StartsAt(s[a..b], j, p) <==> StartsAt(s, a + j, p)
  {
    var t := s[a..b];
    StartsAtChars(t, j, p);
    StartsAtChars(s, a + j, p);
    assert forall i :: j <= i < j + |p| ==> t[i] == s[a + i];
  }

  /** Python's `p in s` for strings: `p` is a substring of `s`. */
  predicate Contains(s: string, p: string)
  {
    Find(s, p, 0).Some?
  }

  /** `Contains` agrees with the plain definition of a substring. */
  lemma ContainsIff(s: string, p: string)
    ensures Contains(s, p) <==> exists k: nat :: StartsAt(s, k, p)
  {
    if Contains(s, p) {
      var k := Find(s, p, 0).value;
      assert StartsAt(s, k, p);
      assert exists j: nat :: StartsAt(s, j, p);
    } else {
      forall k: nat ensures !StartsAt(s, k, p) {
        FindLeftmost(s, p, 0, k);
      }
    }
  }

  /** Number of leading whitespace characters of `s`. */
  function LeadingSpaces(s: string): (n: nat)
    ensures n <= |s|
    ensures forall k :: 0 <= k < n ==> IsSpace(s[k])
    ensures n < |s| ==> !IsSpace(s[n])
  {
    if s != [] && IsSpace(s[0]) then 1 + LeadingSpaces(s[1..]) else 0
  }

  /** Number of trailing whitespace characters of `s`. */
  function TrailingSpaces(s: string): (n: nat)
    ensures n <= |s|
    ensures forall k :: |s| - n <= k < |s| ==> IsSpace(s[k])
    ensures n < |s| ==> !IsSpace(s[|s| - n - 1])
  {
    if s != [] && IsSpace(s[|s| - 1]) then 1 + TrailingSpaces(s[..|s| - 1]) else 0
  }

  /** Python's `s.strip()`: drop leading and trailing whitespace. */
  function Strip(s: string): (r: string)
    ensures exists a, b :: 0 <= a <= b <= |s| && r == s[a..b] &&
                           (forall k :: 0 <= k < a ==> IsSpace(s[k])) &&
                           (forall k :: b <= k < |s| ==> IsSpace(s[k]))
    ensures r != [] ==> !IsSpace(r[0]) && !IsSpace(r[|r| - 1])
    ensures (forall k :: 0 <= k < |s| ==> IsSpace(s[k])) ==> r == []
  {
    var t := s[LeadingSpaces(s)..];
    var r := t[..|t| - TrailingSpaces(t)];
    assert r == s[LeadingSpaces(s)..|s| - TrailingSpaces(t)];
    r
  }

  /** Stripping twice is stripping once. */
  lemma StripIdempotent(s: string)
    ensures Strip(Strip(s)) == Strip(s)
  {
    var r := Strip(s);
    if r != [] {
      assert LeadingSpaces(r) == 0;
      assert TrailingSpaces(r) == 0;
    }
  }

  /** Python's `s.replace('\n', ' ')`. */
  function ReplaceNewlines(s: string): (r: string)
    ensures |r| == |s|
    ensures forall k :: 0 <= k < |s| ==> r[k] == (if s[k] == '\n' then ' ' else s[k])
  {
    if s == [] then []
    else [if s[0] == '\n' then ' ' else s[0]] + ReplaceNewlines(s[1..])
  }
}
