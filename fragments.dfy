/** The non-greedy tag searches of main.py: `re.findall(r"<entry>.*?</entry>", text, re.DOTALL)`
    (main.py:104-105), the same for `<company-info>` (main.py:108-109), and
    `re.search(r"<items-desc>.*?</items-desc>", entry, re.DOTALL)` (main.py:118-119). */
module Fragments {
  import opened Wrappers
  import opened Text

  /** The three tags the script cuts out of a filing feed. */
  datatype Tag = Entry | CompanyInfo | ItemsDesc
  {
    function Open(): (t: string)
      ensures |t| > 0
    {
      match this
      case Entry => "<entry>"
      case CompanyInfo => "<company-info>"
      case ItemsDesc => "<items-desc>"
    }

    /** The closing tag is the opening one with a slash after the `<`. */
    function Close(): (t: string)
      ensures |t| > 0
      ensures t == "</" + Open()[1..]
    {
      match this
      case Entry => "</entry>"
      case CompanyInfo => "</company-info>"
      case ItemsDesc => "</items-desc>"
    }
  }

  /** A match `s[start..end]`. */
  datatype Span = Span(start: nat, end: nat)

  /** `s[i..e]` is what the pattern `open.*?close` (DOTALL) matches at `i`: it opens with
      the tag, ends with the closing tag, and `.*?` takes the fewest characters, so no
      closing tag starts in between. */
  ghost predicate LazyMatch(s: string, tag: Tag, i: nat, e: nat)
  {
    StartsAt(s, i, tag.Open()) &&
    i + |tag.Open()| + |tag.Close()| <= e <= |s| &&
    StartsAt(s, e - |tag.Close()|, tag.Close()) &&
    forall k :: i + |tag.Open()| <= k < e - |tag.Close()| ==> !StartsAt(s, k, tag.Close())
  }

  /** Where the pattern matching at `i` ends, if it matches there: at the first closing
      tag after the opening one. */
  function MatchEnd(s: string, tag: Tag, i: nat): (r: Option<nat>)
    ensures r.Some? ==> i + |tag.Open()| + |tag.Close()| <= r.value <= |s|
  {
    if !StartsAt(s, i, tag.Open()) then None
    else match Find(s, tag.Close(), i + |tag.Open()|)
      case Some(j) => Some(j + |tag.Close()|)
      case None => None
  }

  /** The match `MatchEnd` finds is what the pattern matches. */
  lemma MatchEndIsLazy(s: string, tag: Tag, i: nat, e: nat)
    requires MatchEnd(s, tag, i) == Some(e)
    ensures LazyMatch(s, tag, i, e)
  {
    var op, cl := tag.Open(), tag.Close();
    forall k | i + |op| <= k < e - |cl|
      ensures !StartsAt(s, k, cl)
    {
      FindLeftmost(s, cl, i + |op|, k);
    }
  }

  /** Where the pattern matches, `MatchEnd` finds that match. */
  lemma LazyIsMatchEnd(s: string, tag: Tag, i: nat, e: nat)
    requires LazyMatch(s, tag, i, e)
    ensures MatchEnd(s, tag, i) == Some(e)
  {
    var op, cl := tag.Open(), tag.Close();
    var c := e - |cl|;
    FindFirst(s, cl, i + |op|, c);
    assert Find(s, cl, i + |op|) == Some(c);
  }

  /** `MatchEnd` finds a match exactly where the pattern has one, and that match is the
      only one starting there. */
  lemma MatchEndIff(s: string, tag: Tag, i: nat, e: nat)
    ensures MatchEnd(s, tag, i) == Some(e) <==> LazyMatch(s, tag, i, e)
  {
    if MatchEnd(s, tag, i) == Some(e) {
      MatchEndIsLazy(s, tag, i, e);
    }
    if LazyMatch(s, tag, i, e) {
      LazyIsMatchEnd(s, tag, i, e);
    }
  }

  /** `re.search` from `from`: the leftmost position at or after `from` where the pattern
      matches, with the end of that match. */
  function NextMatch(s: string, tag: Tag, from: nat): (r: Option<Span>)
    ensures r.Some? ==> from <= r.value.start < r.value.end <= |s|
    decreases |s| - from
  {
    if from + |tag.Open()| > |s| then None
    else match MatchEnd(s, tag, from)
      case Some(e) => Some(Span(from, e))
      case None => NextMatch(s, tag, from + 1)
  }

  /** What `re.search` finds is a match of the pattern. */
  lemma {:induction false} NextMatchIsMatch(s: string, tag: Tag, from: nat)
    requires NextMatch(s, tag, from).Some?
    ensures MatchEnd(s, tag, NextMatch(s, tag, from).value.start) == Some(NextMatch(s, tag, from).value.end)
    decreases |s| - from
  {
    if MatchEnd(s, tag, from).None? {
      NextMatchIsMatch(s, tag, from + 1);
    }
  }

  /** The match `re.search` finds is the leftmost one: the pattern matches nowhere
      between `from` and it, nor anywhere from `from` on when it finds none. */
  lemma {:induction false} NextMatchLeftmost(s: string, tag: Tag, from: nat, q: nat)
    requires from <= q
    requires NextMatch(s, tag, from).Some? ==> q < NextMatch(s, tag, from).value.start
    ensures MatchEnd(s, tag, q).None?
    decreases |s| - from
  {
    if from + |tag.Open()| <= |s| && MatchEnd(s, tag, from).None? && from < q {
      NextMatchLeftmost(s, tag, from + 1, q);
    }
  }

  /** The scan `re.findall` performs: after each match, carry on from where it ended. */
  function Scan(s: string, tag: Tag, from: nat): (spans: seq<Span>)
    ensures forall k :: 0 <= k < |spans| ==> from <= spans[k].start < spans[k].end <= |s|
    decreases |s| - from
  {
    match NextMatch(s, tag, from)
    case None => []
    case Some(sp) =>
      var rest := Scan(s, tag, sp.end);
      [sp] + rest
  }

  /** The scan is empty when there is no match, and otherwise takes the leftmost match
      and carries on after it. */
  lemma ScanCons(s: string, tag: Tag, from: nat)
    ensures NextMatch(s, tag, from).None? ==> Scan(s, tag, from) == []
    ensures NextMatch(s, tag, from).Some? ==>
      Scan(s, tag, from) == [NextMatch(s, tag, from).value] + Scan(s, tag, NextMatch(s, tag, from).value.end)
  {
  }

  /** Every span the scan returns is a match of the pattern. */
  lemma {:induction false} ScanMatches(s: string, tag: Tag, from: nat, k: nat)
    requires k < |Scan(s, tag, from)|
    ensures MatchEnd(s, tag, Scan(s, tag, from)[k].start) == Some(Scan(s, tag, from)[k].end)
    decreases k
  {
    ScanCons(s, tag, from);
    var sp := NextMatch(s, tag, from).value;
    if k == 0 {
      NextMatchIsMatch(s, tag, from);
    } else {
      ScanMatches(s, tag, sp.end, k - 1);
    }
  }

  /** Each span ends before the next one starts. */
  lemma {:induction false} ScanAdjacent(s: string, tag: Tag, from: nat, k: nat)
    requires k + 1 < |Scan(s, tag, from)|
    ensures Scan(s, tag, from)[k].end <= Scan(s, tag, from)[k + 1].start
    decreases k
  {
    var sp := NextMatch(s, tag, from).value;
    var rest := Scan(s, tag, sp.end);
    assert Scan(s, tag, from)[k + 1] == rest[k];
    if k > 0 {
      ScanAdjacent(s, tag, sp.end, k - 1);
      assert Scan(s, tag, from)[k] == rest[k - 1];
    }
  }

  /** Spans that each end before the next one starts are in order. */
  lemma {:induction false} ChainedSpansInOrder(spans: seq<Span>, k: nat, l: nat)
    requires forall i, j :: 0 <= i && j == i + 1 && j < |spans| ==> spans[i].end <= spans[j].start
    requires forall i :: 0 <= i < |spans| ==> spans[i].start < spans[i].end
    requires k < l < |spans|
    ensures spans[k].end <= spans[l].start
    decreases l
  {
    if k < l - 1 {
      ChainedSpansInOrder(spans, k, l - 1);
      assert spans[l - 1].end <= spans[l].start;
    }
  }

  /** The spans appear in the order of the text and do not overlap. */
  lemma ScanInOrder(s: string, tag: Tag, from: nat, k: nat, l: nat)
    requires k < l < |Scan(s, tag, from)|
    ensures Scan(s, tag, from)[k].end <= Scan(s, tag, from)[l].start
  {
    var spans := Scan(s, tag, from);
    forall i, j | 0 <= i && j == i + 1 && j < |spans|
      ensures spans[i].end <= spans[j].start
    {
      ScanAdjacent(s, tag, from, i);
    }
    ChainedSpansInOrder(spans, k, l);
  }

  /** Every position where the pattern could match lies in one of the spans: the scan
      skips no match except those that would overlap a match already taken. */
  lemma {:induction false} ScanComplete(s: string, tag: Tag, from: nat, q: nat) returns (k: nat)
    requires from <= q && MatchEnd(s, tag, q).Some?
    ensures k < |Scan(s, tag, from)| && Scan(s, tag, from)[k].start <= q < Scan(s, tag, from)[k].end
    decreases |s| - from
  {
    match NextMatch(s, tag, from)
    case None =>
      NextMatchLeftmost(s, tag, from, q);
      assert false;
    case Some(sp) =>
      ScanCons(s, tag, from);
      if q < sp.start {
        NextMatchLeftmost(s, tag, from, q);
        assert false;
      } else if q < sp.end {
        k := 0;
      } else {
        var k' := ScanComplete(s, tag, sp.end, q);
        k := k' + 1;
      }
  }

  /** `re.findall(open.*?close, s, re.DOTALL)`: the matched texts, left to right. */
  function FindAll(s: string, tag: Tag): (fs: seq<string>)
    ensures |fs| == |Scan(s, tag, 0)|
    ensures forall k :: 0 <= k < |fs| ==> fs[k] == s[Scan(s, tag, 0)[k].start..Scan(s, tag, 0)[k].end]
  {
    var spans := Scan(s, tag, 0);
    seq(|spans|, k requires 0 <= k < |spans| => s[spans[k].start..spans[k].end])
  }

  /** The text of one match opens with the tag, ends with its closing tag, and holds no
      closing tag before that last one (the non-greedy `.*?`). */
  predicate WellFormed(f: string, tag: Tag)
  {
    |f| >= |tag.Open()| + |tag.Close()| &&
    StartsAt(f, 0, tag.Open()) &&
    StartsAt(f, |f| - |tag.Close()|, tag.Close()) &&
    forall j :: |tag.Open()| <= j < |f| - |tag.Close()| ==> !StartsAt(f, j, tag.Close())
  }

  /** The text of any match is well formed. */
  lemma MatchWellFormed(s: string, tag: Tag, a: nat, b: nat)
    requires MatchEnd(s, tag, a) == Some(b)
    ensures a <= b <= |s| && WellFormed(s[a..b], tag)
  {
    MatchEndIff(s, tag, a, b);
    var op, cl := tag.Open(), tag.Close();
    var f := s[a..b];
    StartsAtSlice(s, a, b, 0, op);
    StartsAtSlice(s, a, b, |f| - |cl|, cl);
    forall j | |op| <= j < |f| - |cl|
      ensures !StartsAt(f, j, cl)
    {
      StartsAtSlice(s, a, b, j, cl);
    }
  }

  /** Each fragment `re.findall` returns is well formed. */
  lemma FragmentShape(s: string, tag: Tag, k: nat)
    requires k < |FindAll(s, tag)|
    ensures WellFormed(FindAll(s, tag)[k], tag)
  {
    var sp := Scan(s, tag, 0)[k];
    ScanMatches(s, tag, 0, k);
    MatchWellFormed(s, tag, sp.start, sp.end);
  }

  /** An `<entry>` fragment holds no `</entry>` anywhere but at its end. */
  lemma EntryHasOneClose(s: string, k: nat)
    requires k < |FindAll(s, Entry)|
    ensures var f := FindAll(s, Entry)[k];
      forall j :: 0 <= j < |f| - 8 ==> !StartsAt(f, j, "</entry>")
  {
    FragmentShape(s, Entry, k);
    var f := FindAll(s, Entry)[k];
    StartsAtChars(f, 0, "<entry>");
    forall j | 0 <= j < 7 && j < |f| - 8
      ensures !StartsAt(f, j, "</entry>")
    {
      StartsAtChars(f, j, "</entry>");
      assert f[0 + j] == "<entry>"[j];
      if j == 0 {
        assert f[0 + 1] == "<entry>"[1];
      }
    }
  }

  /** `re.search` finds a match exactly when `re.findall` finds at least one, and the
      match it finds is the first fragment. */
  lemma SearchIsFirstFragment(s: string, tag: Tag)
    ensures NextMatch(s, tag, 0).Some? <==> |FindAll(s, tag)| > 0
    ensures NextMatch(s, tag, 0).Some? ==>
      FindAll(s, tag)[0] == s[NextMatch(s, tag, 0).value.start..NextMatch(s, tag, 0).value.end]
  {
  }
}
