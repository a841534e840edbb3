/** The deterministic decisions of the `__main__` block of main.py (main.py:81-170) and of
    `get_8k_filing_content` (main.py:43-70): which entries reach the language model, which
    answers let a finding through, and which rows end up in the output file. */
module Pipeline {
  import opened Wrappers
  import opened Text
  import opened Truncation
  import opened Fragments
  import opened Tickers
  import opened Output

  /** A question put to the language model, identified by the data its prompt is built
      from; the wording of each prompt is fixed in the script. */
  datatype Query =
    | CompanyNameOf(companyInfo: seq<string>)            // main.py:111-114
    | FilingDateOf(entry: string)                        // main.py:127-131
    | FilingHrefOf(entry: string)                        // main.py:137-139
    | DocumentLinkIn(detailPage: string)                 // main.py:48-51
    | LooksLikeEightK(filing: string)                    // main.py:61-62
    | ProductLaunchesIn(filing: string)                  // main.py:145-150
    | ProductNameIn(launches: string)                    // main.py:155-157
    | ProductDescriptionOf(product: string, company: string)  // main.py:161-164

  /** Everything the script consults outside itself, as fixed functions: `fetch` is
      `get_data_from_url` (a body, or `None` on any failure; the script also turns an
      empty body into `None`, so a world that models it never answers `Some("")`), `ask`
      is `query_ollama`'s trimmed answer, and `pageText` is the text BeautifulSoup
      extracts from a page. */
  datatype World = World(fetch: string -> Option<string>, ask: Query -> string, pageText: string -> string)

  /** The answer the prompts ask for when nothing is found. */
  const NA: string := "NA"

  /** The character of a decimal digit. */
  function Digit(d: nat): (c: char)
    requires d < 10
    ensures '0' <= c <= '9'
  {
    ('0' as int + d) as char
  }

  /** The number a string of decimal digits denotes, most significant digit first. */
  function DecimalValue(s: string): nat
  {
    if s == [] then 0
    else
      var c := s[|s| - 1];
      DecimalValue(s[..|s| - 1]) * 10 + (if '0' <= c <= '9' then c as int - '0' as int else 0)
  }

  /** Decimal digits of a number, as an f-string prints an `int`: at least one digit,
      only digits, and no leading zero unless the number is zero. */
  function Decimal(n: nat): (r: string)
    ensures |r| > 0
    ensures forall k :: 0 <= k < |r| ==> '0' <= r[k] <= '9'
    ensures r[0] == '0' ==> n == 0
  {
    if n < 10 then [Digit(n)] else Decimal(n / 10) + [Digit(n % 10)]
  }

  /** Reading the digits back gives the number. */
  lemma {:induction false} DecimalRoundTrip(n: nat)
    ensures DecimalValue(Decimal(n)) == n
  {
    var r := Decimal(n);
    if n < 10 {
      assert r[..0] == [];
    } else {
      DecimalRoundTrip(n / 10);
      assert r[..|r| - 1] == Decimal(n / 10);
    }
  }

  /** The filing-index feed of a company (main.py:99-100). */
  function FeedUrl(cik: nat): string
  {
    "https://www.sec.gov/cgi-bin/browse-edgar?action=getcompany&CIK=" + Decimal(cik) + "&type=8-K&count=300&output=atom"
  }

  /** Different companies get different feeds: the CIK can be read back from the URL. */
  lemma FeedUrlInjective(a: nat, b: nat)
    requires FeedUrl(a) == FeedUrl(b)
    ensures a == b
  {
    var pre := "https://www.sec.gov/cgi-bin/browse-edgar?action=getcompany&CIK=";
    var post := "&type=8-K&count=300&output=atom";
    var u := FeedUrl(a);
    assert u[|pre|..|u| - |post|] == Decimal(a);
    assert FeedUrl(b)[|pre|..|FeedUrl(b)| - |post|] == Decimal(b);
    DecimalRoundTrip(a);
    DecimalRoundTrip(b);
  }

  /** The filing text handed to the model: the page text, stripped, on one line, from its
      `FORM 8-K` heading on (main.py:59). */
  function FilingText(page: string): (r: string)
    ensures '\n' !in r
    ensures exists k :: 0 <= k <= |Strip(page)| && r == ReplaceNewlines(Strip(page))[k..]
  {
    TruncateFiling(ReplaceNewlines(Strip(page)))
  }

  /** The disclosure-item codes that let an entry through (main.py:124). */
  const ItemCodes: seq<string> := ["8.01", "9.01", "8.02"]

  /** Why the run stops: an uncaught exception. */
  datatype Failure = NoItemsDesc

  /** main.py:118-125: look at the first `<items-desc>` fragment of the entry; keep the
      entry when it mentions one of the item codes. Without such a fragment
      `new_items.group(0)` is called on `None`, and nothing catches that error. */
  function ItemsFilter(entry: string): (r: Result<bool, Failure>)
  {
    match NextMatch(entry, ItemsDesc, 0)
    case None => Err(NoItemsDesc)
    case Some(sp) =>
      var items := entry[sp.start..sp.end];
      Ok(Contains(items, "8.01") || Contains(items, "9.01") || Contains(items, "8.02"))
  }

  /** The filter fails exactly on entries with no `<items-desc>` fragment, and keeps an
      entry exactly when its first such fragment holds one of the item codes. */
  lemma ItemsFilterSpec(entry: string)
    ensures ItemsFilter(entry).Err? <==> FindAll(entry, ItemsDesc) == []
    ensures ItemsFilter(entry) == Ok(true) <==>
      |FindAll(entry, ItemsDesc)| > 0 &&
      exists i :: 0 <= i < |ItemCodes| && Contains(FindAll(entry, ItemsDesc)[0], ItemCodes[i])
  {
    SearchIsFirstFragment(entry, ItemsDesc);
    if |FindAll(entry, ItemsDesc)| > 0 {
      var items := FindAll(entry, ItemsDesc)[0];
      assert ItemCodes[0] == "8.01" && ItemCodes[1] == "9.01" && ItemCodes[2] == "8.02";
      assert ItemsFilter(entry) == Ok(Contains(items, "8.01") || Contains(items, "9.01") || Contains(items, "8.02"));
    }
  }

  /** `get_8k_filing_content` (main.py:43-70): the filing text, or `None` when a fetch
      fails (the `.text` of `None` raises and the handler returns `None`), when the
      model's link contains "NA", or when the model answers exactly "no" to the 8-K check. */
  function FilingContent(w: World, detailUrl: string): (r: Option<string>)
    ensures r.Some? ==> '\n' !in r.value
  {
    match w.fetch(detailUrl)
    case None => None
    case Some(page) =>
      var link := w.ask(DocumentLinkIn(page));
      if Contains(link, NA) then None
      else match w.fetch(link)
        case None => None
        case Some(doc) =>
          var text := FilingText(w.pageText(doc));
          if w.ask(LooksLikeEightK(text)) == "no" then None else Some(text)
  }

  /** The model's answers about one entry. */
  datatype Answers = Answers(companyName: string, filingDate: string, documentLink: string,
                             looksLikeEightK: string, productLaunches: string,
                             productName: string, productDescription: string)

  /** The acceptance gate (main.py:52, 64, 134, 152, 158, 165): every answer that may be
      "NA" is not exactly "NA", the document link does not contain "NA" anywhere, and the
      8-K check is not exactly "no". */
  predicate Accepts(a: Answers)
  {
    && a.companyName != NA
    && a.filingDate != NA
    && !Contains(a.documentLink, NA)
    && a.looksLikeEightK != "no"
    && a.productLaunches != NA
    && a.productName != NA
    && a.productDescription != NA
  }

  /** All the answers the model gives about an entry when both fetches succeed, whether
      or not the script gets as far as asking them. */
  function Gather(w: World, companyName: string, entry: string): Option<Answers>
  {
    match w.fetch(w.ask(FilingHrefOf(entry)))
    case None => None
    case Some(page) =>
      var link := w.ask(DocumentLinkIn(page));
      match w.fetch(link)
      case None => None
      case Some(doc) =>
        var text := FilingText(w.pageText(doc));
        var launches := w.ask(ProductLaunchesIn(text));
        var name := w.ask(ProductNameIn(launches));
        Some(Answers(companyName, w.ask(FilingDateOf(entry)), link, w.ask(LooksLikeEightK(text)),
                     launches, name, w.ask(ProductDescriptionOf(name, companyName))))
  }

  /** What one entry leads to: the run stops, the entry is skipped, or a row is written. */
  datatype Outcome = Halt | Skip | Emit(finding: Finding)

  /** One pass of the entry loop (main.py:116-170). */
  function ProcessEntry(w: World, ticker: string, companyName: string, entry: string): Outcome
  {
    match ItemsFilter(entry)
    case Err(_) => Halt
    case Ok(false) => Skip
    case Ok(true) =>
      var date := w.ask(FilingDateOf(entry));
      if date == NA || companyName == NA then Skip
      else match FilingContent(w, w.ask(FilingHrefOf(entry)))
        case None => Skip
        case Some(content) =>
          var launches := w.ask(ProductLaunchesIn(content));
          if launches == NA then Skip
          else
            var name := w.ask(ProductNameIn(launches));
            if name == NA then Skip
            else
              var description := w.ask(ProductDescriptionOf(name, companyName));
              if description == NA then Skip
              else Emit(Finding(companyName, ticker, date, name, description))
  }

  /** An entry yields a row exactly when it passes the item filter, both fetches succeed
      and the gate accepts the model's answers; the row holds those answers. */
  lemma EmitIffAccepted(w: World, ticker: string, companyName: string, entry: string)
    ensures ProcessEntry(w, ticker, companyName, entry).Emit? <==>
      ItemsFilter(entry) == Ok(true) && Gather(w, companyName, entry).Some? &&
      Accepts(Gather(w, companyName, entry).value)
    ensures ProcessEntry(w, ticker, companyName, entry).Emit? ==>
      var a := Gather(w, companyName, entry).value;
      ProcessEntry(w, ticker, companyName, entry).finding ==
        Finding(companyName, ticker, a.filingDate, a.productName, a.productDescription)
  {
  }

  /** The run stops at an entry exactly when the entry has no `<items-desc>` fragment. */
  lemma HaltIffNoItemsDesc(w: World, ticker: string, companyName: string, entry: string)
    ensures ProcessEntry(w, ticker, companyName, entry) == Halt <==> FindAll(entry, ItemsDesc) == []
  {
    ItemsFilterSpec(entry);
  }

  /** An entry whose item description holds none of the codes is skipped whatever the
      model and the network would answer: it never reaches content extraction. */
  lemma SkippedWithoutItemCodes(w: World, ticker: string, companyName: string, entry: string)
    requires ItemsFilter(entry) == Ok(false)
    ensures ProcessEntry(w, ticker, companyName, entry) == Skip
  {
  }

  /** A written row never carries "NA" where the gate checks for it, and names the
      company and ticker it was produced for. */
  lemma EmittedFields(w: World, ticker: string, companyName: string, entry: string)
    requires ProcessEntry(w, ticker, companyName, entry).Emit?
    ensures var f := ProcessEntry(w, ticker, companyName, entry).finding;
      f.companyName == companyName && f.ticker == ticker &&
      f.companyName != NA && f.filingDate != NA && f.productName != NA && f.productDescription != NA
  {
  }

  /** The rows written so far, and whether the run has stopped. */
  datatype Progress = Progress(rows: seq<Finding>, halted: bool)

  /** A loop that takes the outcomes one after the other, writing the row of each `Emit`,
      and stops at the first `Halt`. */
  function Collect(outcomes: seq<Outcome>): Progress
    decreases |outcomes|
  {
    if outcomes == [] then Progress([], false)
    else
      var p := Collect(outcomes[..|outcomes| - 1]);
      if p.halted then p
      else match outcomes[|outcomes| - 1]
        case Halt => Progress(p.rows, true)
        case Skip => p
        case Emit(f) => Progress(p.rows + [f], false)
  }

  /** One more step of the loop. */
  lemma CollectStep(outcomes: seq<Outcome>, i: nat)
    requires i < |outcomes| && !Collect(outcomes[..i]).halted
    ensures Collect(outcomes[..i + 1]) ==
      match outcomes[i]
      case Halt => Progress(Collect(outcomes[..i]).rows, true)
      case Skip => Collect(outcomes[..i])
      case Emit(f) => Progress(Collect(outcomes[..i]).rows + [f], false)
  {
    assert outcomes[..i + 1][..i] == outcomes[..i];
  }

  /** Once the loop has stopped, later outcomes change nothing. */
  lemma {:induction false} CollectHaltedStays(outcomes: seq<Outcome>, more: seq<Outcome>)
    requires Collect(outcomes).halted
    ensures Collect(outcomes + more) == Collect(outcomes)
    decreases |more|
  {
    if more == [] {
      assert outcomes + more == outcomes;
    } else {
      var all := outcomes + more;
      assert all[..|all| - 1] == outcomes + more[..|more| - 1];
      CollectHaltedStays(outcomes, more[..|more| - 1]);
    }
  }

  /** Outcomes are handled independently: the rows of a list of outcomes are the rows of
      its first part followed by the rows of the rest, with no de-duplication. */
  lemma {:induction false} CollectAppend(outcomes: seq<Outcome>, more: seq<Outcome>)
    requires !Collect(outcomes).halted
    ensures Collect(outcomes + more) == Progress(Collect(outcomes).rows + Collect(more).rows, Collect(more).halted)
    decreases |more|
  {
    var all := outcomes + more;
    var a := Collect(outcomes).rows;
    if more == [] {
      assert all == outcomes;
      assert a + [] == a;
    } else {
      var init := more[..|more| - 1];
      assert all[..|all| - 1] == outcomes + init;
      assert all[|all| - 1] == more[|more| - 1];
      CollectAppend(outcomes, init);
      var b := Collect(init).rows;
      if !Collect(init).halted {
        match more[|more| - 1]
        case Halt =>
        case Skip =>
        case Emit(f) =>
          assert (a + b) + [f] == a + (b + [f]);
      }
    }
  }

  /** The loop stops exactly when some outcome is `Halt`. */
  lemma {:induction false} CollectHaltedIff(outcomes: seq<Outcome>)
    ensures Collect(outcomes).halted <==> exists k :: 0 <= k < |outcomes| && outcomes[k] == Halt
    decreases |outcomes|
  {
    if outcomes != [] {
      var init := outcomes[..|outcomes| - 1];
      CollectHaltedIff(init);
      if exists k :: 0 <= k < |init| && init[k] == Halt {
        var k :| 0 <= k < |init| && init[k] == Halt;
        assert outcomes[k] == init[k];
      }
      if exists k :: 0 <= k < |outcomes| && outcomes[k] == Halt {
        var k :| 0 <= k < |outcomes| && outcomes[k] == Halt;
        if k < |init| {
          assert init[k] == outcomes[k];
        }
      }
    }
  }

  /** Every row written is the finding of one of the outcomes. */
  lemma {:induction false} CollectRowsFromEmits(outcomes: seq<Outcome>, j: nat)
    requires j < |Collect(outcomes).rows|
    ensures exists k :: 0 <= k < |outcomes| && outcomes[k] == Emit(Collect(outcomes).rows[j])
    decreases |outcomes|
  {
    var init := outcomes[..|outcomes| - 1];
    var p := Collect(init);
    if j < |p.rows| {
      CollectRowsFromEmits(init, j);
      var k :| 0 <= k < |init| && init[k] == Emit(p.rows[j]);
      assert outcomes[k] == init[k];
    }
  }

  /** The outcome of each entry, in order. */
  function Outcomes(w: World, ticker: string, companyName: string, entries: seq<string>): (os: seq<Outcome>)
    ensures |os| == |entries|
    ensures forall k :: 0 <= k < |entries| ==> os[k] == ProcessEntry(w, ticker, companyName, entries[k])
  {
    seq(|entries|, k requires 0 <= k < |entries| => ProcessEntry(w, ticker, companyName, entries[k]))
  }

  /** The entry loop over a list of entries (main.py:116-170). */
  function ProcessEntries(w: World, ticker: string, companyName: string, entries: seq<string>): Progress
  {
    Collect(Outcomes(w, ticker, companyName, entries))
  }

  /** The entry loop stops exactly when one of the entries has no `<items-desc>` fragment. */
  lemma HaltedIffSomeEntryFails(w: World, ticker: string, companyName: string, entries: seq<string>)
    ensures ProcessEntries(w, ticker, companyName, entries).halted <==>
      exists k :: 0 <= k < |entries| && FindAll(entries[k], ItemsDesc) == []
  {
    var os := Outcomes(w, ticker, companyName, entries);
    CollectHaltedIff(os);
    forall k | 0 <= k < |entries|
      ensures os[k] == Halt <==> FindAll(entries[k], ItemsDesc) == []
    {
      HaltIffNoItemsDesc(w, ticker, companyName, entries[k]);
    }
  }

  /** Every row written for a list of entries comes from one of those entries, which
      passed the item filter and the acceptance gate. */
  lemma RowsComeFromAcceptedEntries(w: World, ticker: string, companyName: string, entries: seq<string>, j: nat)
    requires j < |ProcessEntries(w, ticker, companyName, entries).rows|
    ensures exists k ::
      && 0 <= k < |entries|
      && ProcessEntry(w, ticker, companyName, entries[k]) == Emit(ProcessEntries(w, ticker, companyName, entries).rows[j])
      && ItemsFilter(entries[k]) == Ok(true)
      && Accepts(Gather(w, companyName, entries[k]).value)
  {
    var os := Outcomes(w, ticker, companyName, entries);
    CollectRowsFromEmits(os, j);
    var k :| 0 <= k < |os| && os[k] == Emit(Collect(os).rows[j]);
    EmitIffAccepted(w, ticker, companyName, entries[k]);
  }

  /** One company of the outer loop (main.py:96-170). The feed is fetched; if that fails,
      `.text` of `None` raises and nothing catches it. */
  function CompanyProgress(w: World, ticker: string, cik: nat): Progress
  {
    match w.fetch(FeedUrl(cik))
    case None => Progress([], true)
    case Some(feed) =>
      var companyName := w.ask(CompanyNameOf(FindAll(feed, CompanyInfo)));
      ProcessEntries(w, ticker, companyName, FindAll(feed, Entry))
  }

  /** A loop that runs the parts one after the other, keeping the rows of each, and stops
      after the first part that stopped. */
  function Chain(parts: seq<Progress>): Progress
    decreases |parts|
  {
    if parts == [] then Progress([], false)
    else
      var p := Chain(parts[..|parts| - 1]);
      if p.halted then p
      else Progress(p.rows + parts[|parts| - 1].rows, parts[|parts| - 1].halted)
  }

  /** One more step of the loop. */
  lemma ChainStep(parts: seq<Progress>, i: nat)
    requires i < |parts| && !Chain(parts[..i]).halted
    ensures Chain(parts[..i + 1]) == Progress(Chain(parts[..i]).rows + parts[i].rows, parts[i].halted)
  {
    assert parts[..i + 1][..i] == parts[..i];
  }

  /** Once a part has stopped the loop, later parts change nothing. */
  lemma {:induction false} ChainHaltedStays(parts: seq<Progress>, more: seq<Progress>)
    requires Chain(parts).halted
    ensures Chain(parts + more) == Chain(parts)
    decreases |more|
  {
    if more == [] {
      assert parts + more == parts;
    } else {
      var all := parts + more;
      assert all[..|all| - 1] == parts + more[..|more| - 1];
      ChainHaltedStays(parts, more[..|more| - 1]);
    }
  }

  /** The loop stops exactly when some part stops. */
  lemma {:induction false} ChainHaltedIff(parts: seq<Progress>)
    ensures Chain(parts).halted <==> exists k :: 0 <= k < |parts| && parts[k].halted
    decreases |parts|
  {
    if parts != [] {
      var init := parts[..|parts| - 1];
      ChainHaltedIff(init);
      if exists k :: 0 <= k < |init| && init[k].halted {
        var k :| 0 <= k < |init| && init[k].halted;
        assert parts[k] == init[k];
      }
      if exists k :: 0 <= k < |parts| && parts[k].halted {
        var k :| 0 <= k < |parts| && parts[k].halted;
        if k < |init| {
          assert init[k] == parts[k];
        }
      }
    }
  }

  /** Every row of the loop is a row of one of its parts. */
  lemma {:induction false} ChainRowsFromParts(parts: seq<Progress>, j: nat)
    requires j < |Chain(parts).rows|
    ensures exists k, i :: 0 <= k < |parts| && 0 <= i < |parts[k].rows| && parts[k].rows[i] == Chain(parts).rows[j]
    decreases |parts|
  {
    var init := parts[..|parts| - 1];
    var p := Chain(init);
    if j < |p.rows| {
      ChainRowsFromParts(init, j);
      var k, i :| 0 <= k < |init| && 0 <= i < |init[k].rows| && init[k].rows[i] == p.rows[j];
      assert parts[k] == init[k];
    } else {
      var last := parts[|parts| - 1];
      assert Chain(parts).rows == p.rows + last.rows;
      assert last.rows[j - |p.rows|] == Chain(parts).rows[j];
    }
  }

  /** The dictionary's items, in its iteration order. */
  function Items(records: seq<CompanyRecord>): (items: seq<CompanyRecord>)
    ensures |items| == |TickerOrder(records)|
    ensures forall k :: 0 <= k < |items| ==>
      items[k].ticker == TickerOrder(records)[k] && items[k].ticker in TickerMap(records) &&
      items[k].cik == TickerMap(records)[items[k].ticker]
  {
    TickerOrderKeys(records);
    var order := TickerOrder(records);
    var m := TickerMap(records);
    seq(|order|, k requires 0 <= k < |order| => CompanyRecord(order[k], m[order[k]]))
  }

  /** The progress of each company, in order. */
  function CompanyProgresses(w: World, items: seq<CompanyRecord>): (ps: seq<Progress>)
    ensures |ps| == |items|
    ensures forall k :: 0 <= k < |items| ==> ps[k] == CompanyProgress(w, items[k].ticker, items[k].cik)
  {
    seq(|items|, k requires 0 <= k < |items| => CompanyProgress(w, items[k].ticker, items[k].cik))
  }

  /** The whole run over the company directory (main.py:96-170). */
  function RunProgress(w: World, records: seq<CompanyRecord>): Progress
  {
    Chain(CompanyProgresses(w, Items(records)))
  }

  /** A company stops the run exactly when its feed cannot be fetched or one of the
      feed's entries has no `<items-desc>` fragment. */
  lemma CompanyHaltedIff(w: World, ticker: string, cik: nat)
    ensures CompanyProgress(w, ticker, cik).halted <==>
      match w.fetch(FeedUrl(cik))
      case None => true
      case Some(feed) =>
        exists k :: 0 <= k < |FindAll(feed, Entry)| && FindAll(FindAll(feed, Entry)[k], ItemsDesc) == []
  {
    match w.fetch(FeedUrl(cik))
    case None =>
    case Some(feed) =>
      var companyName := w.ask(CompanyNameOf(FindAll(feed, CompanyInfo)));
      HaltedIffSomeEntryFails(w, ticker, companyName, FindAll(feed, Entry));
  }

  /** The run stops exactly when one of the companies of the directory stops it. */
  lemma RunHaltedIff(w: World, records: seq<CompanyRecord>)
    ensures RunProgress(w, records).halted <==>
      exists k :: 0 <= k < |Items(records)| && CompanyProgress(w, Items(records)[k].ticker, Items(records)[k].cik).halted
  {
    var ps := CompanyProgresses(w, Items(records));
    ChainHaltedIff(ps);
  }

  /** Every row of a company carries its ticker, and none carries "NA" where the gate
      checks for it. */
  lemma CompanyRowsAccepted(w: World, ticker: string, cik: nat, j: nat)
    requires j < |CompanyProgress(w, ticker, cik).rows|
    ensures var f := CompanyProgress(w, ticker, cik).rows[j];
      f.ticker == ticker &&
      f.companyName != NA && f.filingDate != NA && f.productName != NA && f.productDescription != NA
  {
    var feed := w.fetch(FeedUrl(cik)).value;
    var companyName := w.ask(CompanyNameOf(FindAll(feed, CompanyInfo)));
    var entries := FindAll(feed, Entry);
    RowsComeFromAcceptedEntries(w, ticker, companyName, entries, j);
    var k :| 0 <= k < |entries| &&
      ProcessEntry(w, ticker, companyName, entries[k]) == Emit(ProcessEntries(w, ticker, companyName, entries).rows[j]);
    EmittedFields(w, ticker, companyName, entries[k]);
  }

  /** Every row of the run names a ticker of the company directory, and none carries
      "NA" where the gate checks for it. */
  lemma RunRowsAccepted(w: World, records: seq<CompanyRecord>, j: nat)
    requires j < |RunProgress(w, records).rows|
    ensures var f := RunProgress(w, records).rows[j];
      (exists r :: r in records && r.ticker == f.ticker) &&
      f.companyName != NA && f.filingDate != NA && f.productName != NA && f.productDescription != NA
  {
    var items := Items(records);
    var ps := CompanyProgresses(w, items);
    ChainRowsFromParts(ps, j);
    var k, i :| 0 <= k < |ps| && 0 <= i < |ps[k].rows| && ps[k].rows[i] == Chain(ps).rows[j];
    CompanyRowsAccepted(w, items[k].ticker, items[k].cik, i);
    TickerMapKeys(records);
    assert items[k].ticker in TickerMap(records);
  }

  /** Once the loop over some outcomes has stopped, or has seen them all, the rest change
      nothing. */
  lemma CollectDone(outcomes: seq<Outcome>, i: nat)
    requires i <= |outcomes|
    requires i == |outcomes| || Collect(outcomes[..i]).halted
    ensures Collect(outcomes) == Collect(outcomes[..i])
  {
    if i < |outcomes| {
      CollectHaltedStays(outcomes[..i], outcomes[i..]);
      assert outcomes[..i] + outcomes[i..] == outcomes;
    } else {
      assert outcomes[..i] == outcomes;
    }
  }

  /** Once the loop over some parts has stopped, or has seen them all, the rest change
      nothing. */
  lemma ChainDone(parts: seq<Progress>, i: nat)
    requires i <= |parts|
    requires i == |parts| || Chain(parts[..i]).halted
    ensures Chain(parts) == Chain(parts[..i])
  {
    if i < |parts| {
      ChainHaltedStays(parts[..i], parts[i..]);
      assert parts[..i] + parts[i..] == parts;
    } else {
      assert parts[..i] == parts;
    }
  }

  /** The entry loop (main.py:116-170), appending each accepted row to the file as it goes. */
  method RunEntries(out: OutputFile, w: World, ticker: string, companyName: string, entries: seq<string>)
    returns (halted: bool)
    modifies out
    ensures out.contents == old(out.contents) + Rows(ProcessEntries(w, ticker, companyName, entries).rows)
    ensures halted == ProcessEntries(w, ticker, companyName, entries).halted
  {
    ghost var os := Outcomes(w, ticker, companyName, entries);
    ghost var before := out.contents;
    ghost var written: seq<Finding> := [];
    halted := false;
    var i := 0;
    while i < |entries| && !halted
      invariant 0 <= i <= |entries|
      invariant Collect(os[..i]) == Progress(written, halted)
      invariant out.contents == before + Rows(written)
    {
      var o := ProcessEntry(w, ticker, companyName, entries[i]);
      assert o == os[i];
      CollectStep(os, i);
      if o.Halt? {
        halted := true;
      } else if o.Emit? {
        out.Append(o.finding);
        AppendRow(before, written, o.finding);
        written := written + [o.finding];
      }
      i := i + 1;
    }
    CollectDone(os, i);
  }

  /** One company of the outer loop (main.py:99-170): fetch its feed, ask for its name,
      then run the entry loop. A failed feed fetch stops the run. */
  method RunCompany(out: OutputFile, w: World, ticker: string, cik: nat) returns (halted: bool)
    modifies out
    ensures out.contents == old(out.contents) + Rows(CompanyProgress(w, ticker, cik).rows)
    ensures halted == CompanyProgress(w, ticker, cik).halted
  {
    var feed := w.fetch(FeedUrl(cik));
    if feed.None? {
      assert Rows([]) == [];
      return true;
    }
    var entries := FindAll(feed.value, Entry);
    var companyName := w.ask(CompanyNameOf(FindAll(feed.value, CompanyInfo)));
    halted := RunEntries(out, w, ticker, companyName, entries);
  }

  /** The whole run (main.py:81-170): build the ticker dictionary, write the header, then
      handle the companies in the dictionary's order until one stops the run. */
  method Run(w: World, records: seq<CompanyRecord>) returns (out: OutputFile, halted: bool)
    ensures fresh(out)
    ensures out.contents == Header + Rows(RunProgress(w, records).rows)
    ensures halted == RunProgress(w, records).halted
  {
    var m, order := BuildTickerMap(records);
    out := new OutputFile.Create();
    ghost var ps := CompanyProgresses(w, Items(records));
    TickerOrderKeys(records);
    halted := false;
    var i := 0;
    ghost var written: seq<Finding> := [];
    while i < |order| && !halted
      invariant 0 <= i <= |order|
      invariant Chain(ps[..i]) == Progress(written, halted)
      invariant out.contents == Header + Rows(written)
    {
      ChainStep(ps, i);
      var ticker := order[i];
      ghost var p := ps[i];
      assert p == CompanyProgress(w, ticker, m[ticker]);
      var stopped := RunCompany(out, w, ticker, m[ticker]);
      AppendRows(Header, written, p.rows);
      written := written + p.rows;
      halted := stopped;
      i := i + 1;
    }
    ChainDone(ps, i);
  }
}
