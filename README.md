# LLM 8-K Document Analysis — a Dafny model of its deterministic core

The script `main.py` walks the SEC company directory, downloads each company's
8-K filing feed, cuts it into `<entry>` fragments, keeps the entries whose
`<items-desc>` mentions item 8.01, 9.01 or 8.02, asks a local language model a
chain of questions about each remaining filing, and appends one
`company | ticker | date | product | description` row to `output.csv` for
every filing whose answers pass the "NA"/"no" gate. A row is one line when no
field holds a newline; the model's answers are stripped only at their ends
(main.py:41), so an answer with a line break inside spreads its row over
several lines.

This project models the decisions the script takes on the text it receives,
and proves what they guarantee; what is abstracted (the network, the language
model, HTML parsing, the prompt texts) is listed under "## Left out":

- `Truncation` — `truncate_8k_filing`: the `FORM\s+8-K.*$` search (DOTALL),
  with the greedy whitespace run proved equivalent to the regular expression's
  reading, and the fallback to the unchanged text when nothing matches.
- `Fragments` — the non-greedy `<tag>.*?</tag>` searches: `re.findall` for
  `<entry>` and `<company-info>`, `re.search` for `<items-desc>`. Matches are
  leftmost, shortest, in order, non-overlapping, and none is missed.
- `Text` — substring search (`in`), `str.strip` over the full
  `str.isspace` set, and `replace('\n', ' ')`.
- `Tickers` — the ticker → CIK dictionary built from the directory. The last
  record wins the value, and a key keeps the place of its first insertion, as a
  Python `dict` does.
- `Output` — the header line and the row format of `output.csv`, as a class
  whose `Append` method adds one row to the file (one line when no field holds
  a newline).
- `Pipeline` — the item filter, `get_8k_filing_content`, the acceptance gate,
  the entry loop, the company loop and the whole run. Each loop is a method
  that writes to the output file, proved against a function of the inputs.

The outside world is a parameter, `World`:
- `fetch` is `get_data_from_url`; it gives a non-empty body, or `None` on failure.
- `ask` is `query_ollama`, keyed by the data its prompt is built from.
- `pageText` is the text BeautifulSoup extracts from a page.

Behaviours of the code worth noting, all modelled as written:
- An entry without an `<items-desc>` fragment makes `new_items.group(0)`
  raise at main.py:120. Nothing catches that, so the run stops; the entry is
  not skipped.
- A feed that cannot be fetched makes `.text` raise at main.py:102, and the
  run stops there too.
- The document link is refused when it *contains* "NA" anywhere (main.py:52).
  The other answers are refused only when they *equal* "NA".
- The 8-K check refuses only the exact answer "no" (main.py:64).

## Model

| member | source | states |
|---|---|---|
| Truncation.SkipSpaces | main.py:74 | what the greedy `\s+` consumes: the end of the whitespace run that starts at an index, with only whitespace before it and none at it |
| Truncation.HeadingAt | main.py:74 | definition of a `FORM\s+8-K` match at one index, computed the way the regex engine does; properties stated by `Truncation.HeadingAtIff` and `Truncation.HeadingAtSuffix` |
| Truncation.HeadingAtIff | main.py:74-75 | taking the whole whitespace run after `FORM` finds `8-K` exactly when some non-empty whitespace run does, so the scan agrees with the regular expression |
| Truncation.HeadingAtSuffix | main.py:74-75 | whether the heading matches at `i` depends only on the text from `i` on |
| Truncation.SearchHeading | main.py:74-75 | `re.search` for the heading: a reported index is a heading with none between the start and it, and none is reported only when no heading follows the start |
| Truncation.TruncateFiling | main.py:72-79 | the result is a suffix of the filing, never longer than it |
| Truncation.TruncateAtLeftmostHeading | main.py:74-76 | with a heading in the text, the result is the suffix that starts at the leftmost heading |
| Truncation.TruncateWithoutHeading | main.py:77-79 | with no heading anywhere, the filing comes back unchanged |
| Truncation.TruncatedStartsWithHeading | main.py:74-76 | when the filing has a heading, the truncated text starts with one |
| Truncation.TruncateIdempotent | main.py:72-79 | truncating twice gives the same text as truncating once |
| Text.IsSpace | main.py:74 | definition of the characters `\s` and `str.strip` treat as whitespace (`str.isspace`); used by `Truncation.HeadingAtIff` and `Text.Strip` |
| Text.Find | main.py:52 | a reported index is at or after the start and `p` occurs there; that it is the leftmost is stated by `Text.FindLeftmost` |
| Text.Contains | main.py:124 | definition of Python's `p in s`; properties stated by `Text.ContainsIff` |
| Text.FindLeftmost | main.py:124 | the substring search misses no occurrence before the one it reports, nor any when it reports none |
| Text.FindFirst | main.py:124 | an occurrence with none before it is the one the search reports |
| Text.ContainsIff | main.py:124 | `p in s` holds exactly when `p` occurs at some index of `s` |
| Text.Strip | main.py:59 | the result is a slice of the input with only whitespace cut from each end; it neither starts nor ends with whitespace, and all-whitespace input gives the empty string |
| Text.StripIdempotent | main.py:59 | stripping twice is stripping once |
| Text.ReplaceNewlines | main.py:59 | the result has the input's length, with every newline replaced by a space and every other character kept |
| Fragments.MatchEnd | main.py:104-105 | the lazy `<tag>.*?</tag>` match at one index: a reported end leaves room for both tags and lies inside the text; properties stated by `Fragments.MatchEndIff` |
| Fragments.MatchEndIff | main.py:104-105 | the computed match at `i` is exactly the non-greedy match: the opening tag at `i`, a closing tag at the end, and no closing tag in between |
| Fragments.NextMatch | main.py:119 | `re.search` for a tag fragment: a reported span lies inside the text from the start on; properties stated by `Fragments.NextMatchIsMatch` and `Fragments.NextMatchLeftmost` |
| Fragments.Scan | main.py:105 | the spans `re.findall` visits all lie inside the text from the start on; properties stated by `Fragments.ScanMatches`, `Fragments.ScanInOrder` and `Fragments.ScanComplete` |
| Fragments.NextMatchIsMatch | main.py:118-119 | the match `re.search` reports is a match of the pattern |
| Fragments.NextMatchLeftmost | main.py:118-119 | the pattern matches at no index between the search start and the reported match, nor anywhere when none is reported |
| Fragments.ScanMatches | main.py:104-105 | every span `re.findall` reports is a non-greedy match of the pattern |
| Fragments.ScanInOrder | main.py:104-105 | the reported spans come in text order and do not overlap |
| Fragments.ScanComplete | main.py:104-105 | every index where the pattern matches lies inside one of the reported spans, so no match is missed |
| Fragments.FindAll | main.py:104-109 | definition of `re.findall`: the text of each span of `Fragments.Scan`; properties stated by `Fragments.FragmentShape`, `Fragments.EntryHasOneClose` and `Fragments.SearchIsFirstFragment`, and of its spans by `Fragments.ScanMatches`, `Fragments.ScanInOrder` and `Fragments.ScanComplete` |
| Fragments.MatchWellFormed | main.py:104-105 | the text of a match opens with the tag, ends with the closing tag, and holds no closing tag before it |
| Fragments.FragmentShape | main.py:104-105 | every fragment `re.findall` returns is well formed in that sense |
| Fragments.EntryHasOneClose | main.py:104-105 | an `<entry>` fragment holds `</entry>` only at its end |
| Fragments.SearchIsFirstFragment | main.py:118-119 | `re.search` finds a match exactly when `re.findall` finds one, and that match is the first fragment |
| Tickers.TickerMap | main.py:88-90 | definition of the dictionary after the loop; properties stated by `Tickers.TickerMapKeys` and `Tickers.TickerMapLastWins` |
| Tickers.TickerOrder | main.py:88-96 | definition of the dictionary's key order; properties stated by `Tickers.TickerOrderKeys` and `Tickers.TickerOrderFirstAppearance` |
| Tickers.BuildTickerMap | main.py:88-90 | the loop builds the ticker → CIK map and the key order of the `dict` |
| Tickers.TickerMapKeys | main.py:88-90 | the keys are exactly the tickers of the directory |
| Tickers.TickerMapLastWins | main.py:89-90 | each ticker maps to the CIK of the last record carrying it |
| Tickers.TickerOrderKeys | main.py:88-96 | the iteration order lists every key exactly once and nothing else |
| Tickers.TickerOrderFirstAppearance | main.py:88-96 | tickers are visited in the order of their first appearance in the directory |
| Output.Header | main.py:93 | definition of the header line; properties stated by `Output.HeaderIsRowOfColumnNames` and `Output.HeaderIsOneLine` |
| Output.Row | main.py:170 | definition of the line written for a finding; properties stated by `Output.RowIsJoin`, `Output.RowReadsBack`, `Output.RowInjective`, `Output.RowAmbiguousWithSeparatorInField` and `Output.RowIsOneLine` |
| Output.RowIsJoin | main.py:170 | a row is the five fields joined by the separator (space, bar, space) and ended by a newline |
| Output.SplitJoin | main.py:170 | splitting at the separator gives back fields that hold no bar |
| Output.RowReadsBack | main.py:170 | a row whose fields hold no bar splits back into those fields |
| Output.RowInjective | main.py:170 | two findings whose fields hold no bar and that give the same row are equal |
| Output.RowAmbiguousWithSeparatorInField | main.py:170 | a field holding the separator makes two different findings write the same row |
| Output.HeaderIsRowOfColumnNames | main.py:93 | the header line is the row of the five column names |
| Output.HeaderIsOneLine | main.py:93 | the header is exactly one line |
| Output.OneLinePerFinding | main.py:93-170 | with single-line answers, the file holds one line per finding plus the header |
| Output.OutputFile.Create | main.py:92-93 | a new file holds exactly the header |
| Output.OutputFile.Append | main.py:169-170 | appending adds exactly the finding's row at the end of the file |
| Pipeline.Decimal | main.py:99 | the `{cik}` of the f-string: at least one character, only decimal digits, and no leading zero unless the CIK is zero |
| Pipeline.DecimalRoundTrip | main.py:99 | reading the digits back gives the CIK |
| Pipeline.FeedUrl | main.py:99-100 | definition of a company's feed URL; properties stated by `Pipeline.FeedUrlInjective` |
| Pipeline.FeedUrlInjective | main.py:99-100 | two CIKs with the same feed URL are equal |
| Pipeline.Items | main.py:96 | `company_ciks_dict.items()`: one pair per key, in the dictionary's key order, each with the key's value in the map |
| Pipeline.FilingText | main.py:59 | the filing text is a suffix of the stripped page text with its newlines made spaces, and holds no newline |
| Pipeline.ItemsFilterSpec | main.py:118-125 | the filter fails exactly on an entry with no `<items-desc>` fragment, and keeps an entry exactly when its first such fragment contains one of 8.01, 9.01, 8.02 |
| Pipeline.ItemsFilter | main.py:118-125 | definition of the item filter; properties stated by `Pipeline.ItemsFilterSpec` |
| Pipeline.Accepts | main.py:52-166 | definition of the acceptance gate over all the answers (main.py:52, 64, 134, 152, 158, 165); properties stated by `Pipeline.EmitIffAccepted` |
| Pipeline.Gather | main.py:127-164 | definition of the answers the model gives about an entry; properties stated by `Pipeline.EmitIffAccepted` |
| Pipeline.ProcessEntry | main.py:116-170 | definition of one pass of the entry loop; properties stated by `Pipeline.EmitIffAccepted`, `Pipeline.HaltIffNoItemsDesc`, `Pipeline.SkippedWithoutItemCodes` and `Pipeline.EmittedFields` |
| Pipeline.Collect | main.py:116-170 | definition of the entry loop over outcomes, stopping at the first halt; properties stated by `Pipeline.CollectAppend`, `Pipeline.CollectHaltedIff` and `Pipeline.CollectRowsFromEmits` |
| Pipeline.CollectAppend | main.py:116-170 | when the loop has not stopped after a first run of outcomes, continuing over a second run yields the rows of both in order, with nothing dropped or merged, and stops exactly when the second run stops it |
| Pipeline.ProcessEntries | main.py:116-170 | definition of the entry loop over a company's entries; properties stated by `Pipeline.HaltedIffSomeEntryFails` and `Pipeline.RowsComeFromAcceptedEntries` |
| Pipeline.CompanyProgress | main.py:96-170 | definition of one pass of the company loop: the feed fetch, the company-name question and the entry loop; properties stated by `Pipeline.CompanyHaltedIff` and `Pipeline.CompanyRowsAccepted` |
| Pipeline.Chain | main.py:96 | definition of the company loop over per-company results, stopping after the first halt; properties stated by `Pipeline.ChainHaltedIff` and `Pipeline.ChainRowsFromParts` |
| Pipeline.RunProgress | main.py:81-170 | definition of the whole run in dictionary order; properties stated by `Pipeline.RunHaltedIff` and `Pipeline.RunRowsAccepted` |
| Pipeline.FilingContent | main.py:43-70 | a filing text that comes back holds no newline |
| Pipeline.EmitIffAccepted | main.py:116-170 | an entry yields a row exactly when it passes the item filter, both fetches succeed and the gate accepts every answer; the row carries those answers |
| Pipeline.HaltIffNoItemsDesc | main.py:118-120 | the run stops at an entry exactly when it has no `<items-desc>` fragment |
| Pipeline.SkippedWithoutItemCodes | main.py:124-125 | an entry without an item code is skipped whatever the network and the model would answer |
| Pipeline.EmittedFields | main.py:134-170 | a written row names its company and ticker and carries no "NA" where the gate checks |
| Pipeline.HaltedIffSomeEntryFails | main.py:116-120 | the entry loop stops exactly when some entry has no `<items-desc>` fragment |
| Pipeline.RowsComeFromAcceptedEntries | main.py:116-170 | every row of a company comes from an entry whose answers the gate accepts |
| Pipeline.CompanyHaltedIff | main.py:99-120 | a company stops the run exactly when its feed cannot be fetched or one of its entries has no `<items-desc>` fragment |
| Pipeline.RunHaltedIff | main.py:96-170 | the run stops exactly when one of the directory's companies stops it |
| Pipeline.CompanyRowsAccepted | main.py:96-170 | every row of a company carries its ticker and no "NA" where the gate checks |
| Pipeline.RunRowsAccepted | main.py:81-170 | every row of the file names a ticker of the directory and carries no "NA" where the gate checks |
| Pipeline.RunEntries | main.py:116-170 | the entry loop appends exactly the rows of the accepted entries, in order, up to the first entry that stops the run, and reports whether it stopped |
| Pipeline.RunCompany | main.py:99-170 | one company appends exactly its accepted rows, or stops the run when its feed cannot be fetched |
| Pipeline.Run | main.py:81-170 | the file holds the header and then the rows of every company in dictionary order, up to the first company that stops the run |

## Left out

- `get_data_from_url` (main.py:16-31): the HTTP request, its headers and its error handling are the `World.fetch` parameter. The function turns an empty body into `None` (main.py:25-29); the model does not enforce that a world never answers `Some("")`, so it also covers worlds the script cannot meet (an empty feed gives no entries in the model, while the script would stop at main.py:102).
- `query_ollama` (main.py:33-41): the subprocess, the command line and the exact prompt texts are the `World.ask` parameter. A `Query` names only the data each prompt is built from.
- An exception raised by `query_ollama` is not modelled: `World.ask` always answers.
- `World.ask` and `World.fetch` are fixed functions, so the model treats the language model and the network as deterministic: the same question always gets the same answer and the same URL always gives the same body. The script samples from a language model (main.py:37-41) and makes live HTTP requests, so two identical prompts or requests may get different answers. The script asks each question at most once per entry, and fetches each URL at most once per entry except the detail page and the document link, which may be the same URL fetched twice (main.py:45, 55); there, and across entries and companies, equal requests get equal answers only in the model.
- BeautifulSoup parsing is the `World.pageText` parameter. The `find('table')` step of main.py:47 is folded into the `DocumentLinkIn` question about the page.
- The download and JSON decoding of `company_tickers.json` (main.py:83-85) are not modelled: the directory records are an input.
- `print` calls (main.py:78, 98, 106, 144) are not modelled. They write to the console only.
- The Python `repr` of the `company_info` list that goes into the company-name prompt is not modelled: the question carries the list itself.
- Files are not opened or closed; `output.csv` is a string held by `Output.OutputFile`.
- The `with open(..., 'w')` at main.py:92 truncating an existing file is modelled only as a fresh, header-only file.
- Pipeline.FilingContent: its own contract states only that a returned text holds no newline. When it returns nothing is stated through `Pipeline.Gather` and `Pipeline.Accepts` by `Pipeline.EmitIffAccepted`.
