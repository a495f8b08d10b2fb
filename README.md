# Business-registry crawler: a Dafny model

This project models the generated crawler of the AI-powered scraper builder.
The crawler starts at one business detail page of the Florida registry. It
pulls a fixed set of fields out of each page, saves them in a three-table
SQLite database (`businesses`, `filing_details`, `annual_reports`), and follows
the page's "Next On List" link until the link is missing, the record limit is
reached or a request fails. The model also covers the builder's parsing of the
typed record limit and script name, and the viewer's by-id reads and cell
truncation.

Modules, one per component:

- `Wrappers` (`wrappers.dfy`): `Option` and `Result`.
- `OrderedDict` (`ordered_dict.dfy`): Python dict semantics for `filing_info`.
  It is insertion-ordered. Re-assigning a key keeps its first position and
  takes the new value.
- `Extraction` (`extraction.dfy`): a `Page` holds what each HTML selector
  found. Pure functions give each field's rules and fallbacks. Methods mirror
  the two `for` loops that build `filing_info` and `annual_reports`.
- `Schema` (`schema.dfy`): rows and tables as values. SQLite's rowid is the
  last id plus one, starting at 1. `Insert` is the save of one record and
  `SaveAll` is a sequence of saves. Lemmas cover referential integrity and
  append-only growth.
- `Storage` (`storage.dfy`): the connection as a `Store` class. Only
  `SaveBusiness` (the inserts and the commit) appends to its table sequences,
  in place. `CreateTables` sets the tables-exist flag and `Close` the open
  flag; both leave the rows as they are.
- `Viewer` (`viewer.dfy`): the viewer's reads by business id, and the
  truncation of label and value cells.
- `Crawler` (`crawler.dfy`): the pagination loop as a method. It is proved
  against `Follow`, the walk along the next-link chain. The fetch oracle is a
  map from each URL that loads to its page; any other URL raises
  `RequestException`.
- `Builder` (`builder.dfy`): parsing of the limit input and normalisation of
  the script-name suffix.

Three behaviours of the code are worth noting; the model follows the code:

- Repeated labels in the filing block end up as ONE `filing_details` row, at
  the label's first position and holding the last value. The code builds a
  Python dict.
- A "Principal Address" span that has no following `span` sibling raises
  `AttributeError`. `RequestException` does not catch it, so it escapes
  `scrape_and_save`. `Crawl` returns `Raised`, and the rows committed before it
  stay.
- The generated crawler binds `limit = 10` itself. `ScrapeAndSave` uses that
  constant. `Crawl` takes any limit, including the `-1` sentinel.

## Model

| member | source | states |
|---|---|---|
| `OrderedDict.Lookup` | scraping_output/my_scraper.py.py:63 | `dict.get`: the value stored under the key at its position among the keys, or nothing |
| `OrderedDict.LookupSemantics` | scraping_output/my_scraper.py.py:63 | a value is found exactly when the key is present; it is the value of the first entry holding the key, and in a dict without repeated keys of any entry holding it |
| `OrderedDict.PutSemantics` | scraping_output/my_scraper.py.py:61 | `d[k] = v` keeps keys distinct, appends a new key, keeps an existing key's position, stores `v` and leaves other keys' values alone |
| `Extraction.Name` | scraping_output/my_scraper.py.py:49-50 | the stripped name text, or "N/A" when the element is missing |
| `Extraction.FilingInfo` | scraping_output/my_scraper.py.py:52-61 | the dict after assigning every label that has a value span, in document order |
| `Extraction.FilingInfoValid` | scraping_output/my_scraper.py.py:52-61 | `filing_info` holds no key twice and has at most one entry per label |
| `Extraction.FilingInfoKeys` | scraping_output/my_scraper.py.py:52-61 | the keys of `filing_info` are the valued labels' keys, each once, at its first occurrence |
| `Extraction.FilingInfoLookups` | scraping_output/my_scraper.py.py:56-63 | each key's value in `filing_info` is the last value any label gave it |
| `Extraction.LastValueExists` | scraping_output/my_scraper.py.py:56-61 | a key has a value exactly when some label with that key has a following span |
| `Extraction.BuildFilingInfo` | scraping_output/my_scraper.py.py:52-61 | the loop over the labels yields exactly `FilingInfo`, or the empty dict without a container |
| `Extraction.Status` | scraping_output/my_scraper.py.py:63 | `filing_info["Status"]`, or "N/A" when the key is absent |
| `Extraction.Address` | scraping_output/my_scraper.py.py:65-79 | two-stage address with the crash of the missing sibling span |
| `Extraction.AddressFallback` | scraping_output/my_scraper.py.py:65-79 | crash iff span without sibling; a non-"N/A" principal block wins; an empty block gives "" and no fallback; whenever the first stage leaves exactly "N/A" (no span, no block, or a block reading "N/A") the owners block or "N/A" |
| `Extraction.AnnualReports` | scraping_output/my_scraper.py.py:81-91 | header row dropped, two-cell rows kept, missing table gives none |
| `Extraction.TwoCellReportsAppend` | scraping_output/my_scraper.py.py:86-91 | the row filter commutes with concatenation, so report order is row order |
| `Extraction.TwoCellReportsMembers` | scraping_output/my_scraper.py.py:86-91 | a report (y, d) is kept exactly when some body row is the two cells [y, d] |
| `Extraction.AnnualReportsBound` | scraping_output/my_scraper.py.py:86-88 | the header row never yields a report, and there is at most one report per body row |
| `Extraction.CollectAnnualReports` | scraping_output/my_scraper.py.py:81-91 | the loop over the table rows yields exactly `AnnualReports` |
| `Extraction.NextUrl` | scraping_output/my_scraper.py.py:111-116 | the origin followed by the link's href, or no URL without a link |
| `Extraction.NextUrlShape` | scraping_output/my_scraper.py.py:111-116 | a URL exactly when there is a link; it starts with the origin and the href can be split off again |
| `Extraction.Extract` | scraping_output/my_scraper.py.py:48-91 | the record of one page, or the `AttributeError` |
| `Extraction.ParsePage` | scraping_output/my_scraper.py.py:48-116 | the extraction statements of the loop body compute exactly `Extract` |
| `Extraction.ExtractFields` | scraping_output/my_scraper.py.py:49-63 | extraction fails only on the crash path; name defaults to "N/A"; status is the last "Status" value or "N/A"; next URL is origin + href |
| `Schema.NextId` | scraping_output/my_scraper.py.py:97 | `lastrowid` is positive and above every id already in the table |
| `Schema.Insert` | scraping_output/my_scraper.py.py:94-107 | one save: the business row, then one child row per dict entry and per report, all with the new id |
| `Schema.InsertWellFormed` | scraping_output/my_scraper.py.py:94-107 | a save keeps ids increasing and every child row's parent present; the new id is fresh |
| `Schema.SaveAllInvariants` | scraping_output/my_scraper.py.py:94-109 | successive saves keep referential integrity, only append, and add one business row per record |
| `Storage.Store.Connect` | scraping_output/my_scraper.py.py:129 | a connection to a new file (no tables) or to the tables of an earlier run |
| `Storage.Store.CreateTables` | scraping_output/my_scraper.py.py:7-35 | afterwards the tables exist; existing rows are unchanged; a second call changes nothing |
| `Storage.Store.SaveBusiness` | scraping_output/my_scraper.py.py:94-107 | the tables become `Insert` of the old tables; the returned id is the new business id |
| `Storage.Store.InsertFilingDetails` | scraping_output/my_scraper.py.py:99-101 | the loop appends one `filing_details` row per dict entry, in dict order, with consecutive ids; other tables unchanged |
| `Storage.Store.InsertAnnualReports` | scraping_output/my_scraper.py.py:103-105 | the loop appends one `annual_reports` row per report, in list order, with consecutive ids; other tables unchanged |
| `Storage.Store.Close` | scraping_output/my_scraper.py.py:137-138 | the connection is closed and the rows stay |
| `Viewer.Truncate` | view_data.py:37-38 | short text unchanged; long text cut to `width` characters plus "..", never longer than `width + 2`, prefix kept |
| `Viewer.DisplayLabel` | view_data.py:37 | a shown label fits its 20-character column |
| `Viewer.DisplayValue` | view_data.py:38 | a shown value fits its 23-character column |
| `Viewer.TruncateIdempotent` | view_data.py:37-38 | truncating twice equals truncating once |
| `Viewer.FilingDetailsOf` | view_data.py:23-25 | filing details of one business, in storage order |
| `Viewer.AnnualReportsOf` | view_data.py:42-44 | annual reports of one business, in storage order |
| `Viewer.FilingDetailsOfMembers` | view_data.py:24 | a pair is read exactly when a stored filing row with that business id holds it |
| `Viewer.AnnualReportsOfMembers` | view_data.py:43 | a pair is read exactly when a stored report row with that business id holds it |
| `Viewer.FilingDetailsOfAppend` | view_data.py:24-25 | the filing read distributes over concatenation of the table |
| `Viewer.AnnualReportsOfAppend` | view_data.py:43-44 | the report read distributes over concatenation of the table |
| `Viewer.FindBusiness` | view_data.py:60-61 | a business is found exactly when a row has the id, and the found row is one of them |
| `Viewer.ViewFilingDetails` | view_data.py:35-39 | one shown row per stored filing row, each cell within its column |
| `Viewer.ShowBusinessDetails` | view_data.py:58-75 | "not found" exactly when no business row has the id (no child reads then); otherwise a stored business row with that id, its filing details as displayed, and its reports |
| `Viewer.InsertReadBack` | view_data.py:23-44 | right after a save, reading by the new id returns the business, its filing pairs and its reports in their original order |
| `Viewer.InsertKeepsOtherReads` | view_data.py:58-75 | a save leaves everything the viewer reads and shows for every other business id unchanged: its business row, filing details and reports |
| `Crawler.VisitPage` | scraping_output/my_scraper.py.py:43-122 | one loop pass: a failed request, the `AttributeError`, or the page's record |
| `Crawler.VisitAndSave` | scraping_output/my_scraper.py.py:43-107 | the pass fetches, extracts and saves exactly as `VisitPage` says; the tables change only when a record is saved, and then by `Insert` |
| `Crawler.Follow` | scraping_output/my_scraper.py.py:42-122 | the records a walk of at most n fetches saves, and its one ending: the chain's end, a failed request, the crash, or the budget spent |
| `Crawler.Crawl` | scraping_output/my_scraper.py.py:37-124 | the tables become the old tables plus the saves of `Follow`'s records; the result is their count, or `Raised` on the crash |
| `Crawler.FollowEnds` | scraping_output/my_scraper.py.py:120-122 | at a falsy URL, spent budget or failed request nothing more is saved; the crash path is marked crashed |
| `Crawler.FollowStep` | scraping_output/my_scraper.py.py:107-116 | a successful page saves its record and the walk continues from its next URL |
| `Crawler.CrawlSummary` | scraping_output/my_scraper.py.py:94-124 | after a crawl: integrity kept, rows only appended, one business row per counted record, count within the budget |
| `Crawler.ScrapeAndSave` | scraping_output/my_scraper.py.py:37-42 | the generated function with its limit of 10 |
| `Crawler.RunScraper` | scraping_output/my_scraper.py.py:126-138 | tables created, crawl run, connection closed on every path |
| `Crawler.Fetches` | scraping_output/my_scraper.py.py:42-45 | the pages a walk requests: one per saved record, plus the failed or crashing one |
| `Crawler.FetchesWithinBudget` | scraping_output/my_scraper.py.py:42-45 | a walk requests at most its budget of pages: one per saved record, plus one exactly when it ends at a failed request or the crash |
| `Crawler.FollowWithinBudget` | scraping_output/my_scraper.py.py:40-42 | a walk never saves more records than its fetch budget |
| `Crawler.CutOffSavesBudget` | scraping_output/my_scraper.py.py:42-116 | a walk the budget cuts off has saved a record for every fetch it was allowed |
| `Crawler.BudgetLeft` | scraping_output/my_scraper.py.py:42 | with the unlimited sentinel the loop never runs out of budget on a chain that ends |
| `Crawler.FollowBeyondChainEnd` | scraping_output/my_scraper.py.py:42 | with the unlimited sentinel, once the chain ends the bound used for the proof does not change the result |
| `Crawler.FollowGoodChain` | scraping_output/my_scraper.py.py:42-116 | on a chain of at least n good pages, a budget of n saves exactly n records |
| `Crawler.NonPositiveLimit` | scraping_output/my_scraper.py.py:40-42 | a limit of 0 or below, other than -1, requests no page (the walk is the same with no page available), saves nothing and returns 0 |
| `Crawler.LastPageStops` | scraping_output/my_scraper.py.py:111-116 | for any limit of 1 or more, or -1, a page without a next link ends the crawl after exactly its record |
| `Builder.Upper` | normalized-scraper-builder.py:163 | upper-casing keeps the length and maps each character |
| `Builder.ParseInt` | normalized-scraper-builder.py:161 | `int()`: trimmed, optional sign, ASCII digits |
| `Builder.ShowNat` | normalized-scraper-builder.py:161 | decimal text of a natural number: nonempty, digits only |
| `Builder.ParseShowInt` | normalized-scraper-builder.py:161 | every integer's decimal text parses back to the integer |
| `Builder.ParseLimit` | normalized-scraper-builder.py:160-167 | a typed integer is the limit; otherwise -1 or 5; -1 only from "-1" or "ALL"; 5 from another input only when it is neither an integer nor "ALL" |
| `Builder.LimitOfInteger` | normalized-scraper-builder.py:160-161 | a typed integer (0 and negatives included) is the limit; "-1" is the unlimited sentinel |
| `Builder.LimitOfAll` | normalized-scraper-builder.py:162-164 | "ALL" in any letter case, with surrounding whitespace, gives -1 |
| `Builder.NormalizeScriptName` | normalized-scraper-builder.py:169-170 | result ends in ".py"; unchanged exactly when the name already ends in ".py", else the name followed by ".py" |
| `Builder.NormalizeIdempotent` | normalized-scraper-builder.py:169-170 | normalising twice equals normalising once |

## Left out

- HTML parsing: BeautifulSoup and its CSS and sibling selectors are not modelled. A `Page` holds their results, with texts already stripped; `stripped_strings` is given as its list of fragments.
- HTTP: the `curl_cffi` session, `raise_for_status` and the one-second `time.sleep` are not modelled. Fetching is a map lookup; a URL outside the map is a `RequestException`.
- Crawl termination with the `-1` limit: a cyclic chain of next links never ends. `Crawl` therefore takes a proof-only bound on the chain's length, and `FollowBeyondChainEnd` shows the bound does not change the result.
- SQLite internals: SQL parsing, foreign-key enforcement (off by default) and result order without `ORDER BY` are not modelled. Reads return rows in insertion order. A new rowid is the last id plus one; under append-only growth that equals SQLite's largest-rowid-plus-one. Inserts cannot fail in the model, so no `sqlite3` error path exists.
- Commit and atomicity: a record's inserts and its commit form one `SaveBusiness` call. No intermediate state is observable and no insert can fail, so partial writes are not modelled.
- `Storage.Store.SaveBusiness` requires that the tables exist. In the source, `main` always calls `create_tables` first.
- `Builder.ParseInt`: Python `int()` also accepts underscores between digits and non-ASCII digits and whitespace. Those forms are not modelled; `Builder.IsSpace` covers ASCII whitespace only. Python 3.11 and later also reject text of more than 4300 digits with `ValueError`, after which the builder falls back to 5; the model parses any number of digits.
- `Builder.Upper`: upper-cases ASCII letters only.
- The viewer's `choice.isdigit()` check and `int(choice)` are not modelled; the business id is a `nat`.
- Console I/O is not modelled: the builder's prompts and agent orchestration (LLM client, credentials, team, streaming), the viewer's menu loop, screen clearing and printing, and all `print` calls. The hard-coded start URL and database paths are not modelled either; the start URL is a parameter.
