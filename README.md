# houzz_parser, modelled in Dafny

A scraper for a contractor directory. It walks the directory's listing
pages with a pool of browser sessions. On each page it collects one stub
record per contractor card: name, url, page and expected page. It then cuts
the stubs into chunks. Each chunk goes to a contractor parser. For every
record, the parser opens the detail page and, in place, adds:

- the project count;
- the business-detail key/value pairs;
- the review count and the rating.

The browser is replaced by observations:

- a `Listing` for each listing URL: whether the "anywhere" item appears,
  the radius field, the cards, and the selected page number;
- a `Page` for each detail URL: the outcomes of the three readiness waits,
  the projects label, the detail cells, and the rating and reviews texts;
- Python's `float` as a parameter `parseFloat`.

Worker threads and processes run one after another, in submission order.

Files:

- `common.dfy`: `Option`, `Result`, dictionary records (`map<string, Value>`)
  and list flattening.
- `text.dfy`: the first decimal digit run (`re.findall(r'\d+', s)[0]`), `int`
  and `str` on decimal strings, and `str.split(sep)[0]` and `[-1]`.
- `driver_pool.dfy`: `WebDriverPool`, a FIFO queue of opaque sessions.
  - The ghost multiset `outstanding` tracks the sessions that are checked
    out.
  - Its invariant `Valid` is a conservation law: every session started is
    either queued, checked out or quit, exactly once.
- `contractor_parser.dfy`: one step of `__parse_contractor` as the
  specification function `Enrich`, and the step as the source runs it
  (`ParseContractor`).
  - `Enrich` keeps any partial writes made before an exception.
  - The loop of `parse_contractors` is the class `ContractorsParser`, whose
    `contractors` field is updated in place.
- `pipeline.dfy`: `main.py`. It covers URL construction and splitting, link
  gathering, `run_gather_links` on the pool, chunking, and the two phases of
  `main`.

The model follows the code as written:

- The "anywhere" location item is clicked unconditionally. The radius field
  only has to appear; its text is only logged. There is no idempotent
  normalisation step.
- The readiness loop always runs all three waits, even after a success. It
  re-navigates once per timed-out wait.
- There is no per-record guard. The first record whose step raises ends
  `parse_contractors`, and with it `main`. A record is never kept as an
  unenriched stub.
- There is no per-page retry in `run_gather_links`. Any exception gives
  `[]`.
- A projects label without digits raises; it is not skipped.
- A rating with no reviews element raises `NoSuchElementException`, which
  is not caught. If the reviews text has no digits, the call raises before
  `rating` is written. If the rating text is not a float, `review_count` is
  already written.
- The contractor parser uses its own browser session, not one from the
  pool.

## Model

| member | source | states |
|---|---|---|
| Common.ConcatLength | main.py:90-94 | the length of the extended list is the sum of the lengths of the lists extending it |
| Common.ConcatCons | main.py:109-112 | extending by a first list and then the rest is that list followed by the rest's concatenation |
| Common.ConcatForall | main.py:90-92 | a property of every element of every extending list holds of every element of the result |
| Text.FirstDigitRun | contractor_parser.py:50-51 | the first digit run exists exactly when the text has a digit, and it is non-empty and all digits |
| Text.FirstDigitRunIs | contractor_parser.py:50-51 | the run is pinned down by its position: no digit before it, digits throughout, and no digit right after |
| Text.FirstInt | contractor_parser.py:50-52 | `int(re.findall(r'\d+', s)[0])` gives the first digit run's value exactly when s has a digit and that run has at most 4300 digits; otherwise it reports the IndexError of a digit-less s or the ValueError of a longer run |
| Text.FirstIntOfLabel | contractor_parser.py:50-52 | "128 projects" yields 128 |
| Text.FirstIntLimit | contractor_parser.py:50-52 | a run of 4301 digits raises ValueError, and a run of 4300 digits is read |
| Text.NatToDecimal | main.py:87 | `str` of a natural number is a non-empty digit string with no leading zero except for 0 |
| Text.IntToDecimal | main.py:87 | `str` of an integer is non-empty, begins with '-' exactly when the integer is negative, and is digits elsewhere |
| Text.DecimalValue | contractor_parser.py:50-52 | defines Python's `int` on a string of digits, leading zeros allowed |
| Text.DecimalRoundTrip | main.py:87 | reading back the decimal rendering of n gives n |
| Text.SplitFirst | main.py:25 | `split(sep)[0]` is the prefix before the first occurrence of sep, or the whole string when there is none |
| Text.SplitFirstAt | main.py:25 | with sep at i and nowhere before, `split(sep)[0]` is exactly the text before i |
| Text.SplitLast | main.py:48 | `split(sep)[-1]` is a suffix of the string |
| Text.SplitLastWhole | main.py:48 | without any occurrence of sep, `split(sep)[-1]` is the whole string |
| Text.SplitLastAt | main.py:48 | with sep at i, no later occurrence and no overlapping earlier one, `split(sep)[-1]` is the text after sep |
| DriverPool.SpawnedOnce | driver_pool.py:14-19 | the started sessions are pairwise distinct, one per worker |
| DriverPool.ConservedCount | driver_pool.py:14-32 | queued, checked-out and quit sessions add up to max_workers |
| DriverPool.ConservedDisjoint | driver_pool.py:24-32 | a checked-out session is neither queued nor quit, and a session is quit at most once |
| DriverPool.WebDriverPool.constructor | driver_pool.py:14-19 | the queue holds the max_workers started sessions in order, none checked out or quit |
| DriverPool.WebDriverPool.Enter | driver_pool.py:21-22 | `__enter__` returns the pool itself |
| DriverPool.WebDriverPool.Acquire | driver_pool.py:28-29 | returns and removes the front session, which becomes checked out; the invariant holds |
| DriverPool.WebDriverPool.Release | driver_pool.py:31-32 | appends the session at the back, the rest unchanged; releasing a checked-out session keeps the invariant |
| DriverPool.WebDriverPool.Exit | driver_pool.py:24-26 | drains the queue, quitting each queued session once in queue order; checked-out sessions are not quit |
| DriverPool.LifecycleQuitsAll | driver_pool.py:14-26 | a pool made, entered and exited quits every started session exactly once |
| ContractorParser.AwaitReady | contractor_parser.py:33-40 | navigations are 1 plus the number of timed-out waits, all to the record's URL; the loop never raises |
| ContractorParser.VisitsBounded | contractor_parser.py:34-40 | the page is visited 1 to 4 times: once when every wait succeeds, four times when none does |
| ContractorParser.FirstMalformed | contractor_parser.py:56-61 | the index of the first cell lacking its h3 or its p, with every cell before it well formed |
| ContractorParser.ApplyCells | contractor_parser.py:62 | defines `contractor[key] = value` applied for the given cells in order |
| ContractorParser.ScanCells | contractor_parser.py:55-62 | defines the `for … break` scan: the cells before the first malformed one are written, nothing after it is read |
| ContractorParser.ApplyCellsAt | contractor_parser.py:62 | each key holds the value of the last cell naming it; other keys, name and url included, keep their value; nothing is removed |
| ContractorParser.ScanCellsAt | contractor_parser.py:55-62 | after the scan, a detail key holds the last value written for it before the first malformed cell; other keys are unchanged |
| ContractorParser.ScanStopsAtMalformed | contractor_parser.py:56-61 | the scan stops at the first malformed cell; later cells, well formed or not, are never read |
| ContractorParser.ScanExample | contractor_parser.py:55-62 | two good cells, then a malformed one, then a good one add exactly the first two pairs |
| ContractorParser.ScanDetailCells | contractor_parser.py:55-62 | the `for … break` loop writes what the scan specification writes |
| ContractorParser.ProjectsStep | contractor_parser.py:43-53 | the projects block keeps every key and changes no key other than project_count |
| ContractorParser.RatingStep | contractor_parser.py:63-77 | without a rating it changes nothing; its only errors are a missing reviews element, a digit-less or too long review number and a bad float; it changes nothing but review_count and rating |
| ContractorParser.Enrich | contractor_parser.py:31-79 | defines `__parse_contractor` on one record: the url read, the readiness waits, the projects block, the detail scan and the rating block, in source order, giving the record, the visits and the first error raised |
| ContractorParser.ParseContractor | contractor_parser.py:31-79 | the imperative step yields the record, the visits and the error that `Enrich` specifies |
| ContractorParser.EnrichKeyErrors | contractor_parser.py:31-53 | a missing url raises before any visit; a non-string url cannot be navigated; a missing name raises in the projects block unless an unreadable label raises first; a record with url and name never fails on a key |
| ContractorParser.EnrichVisits | contractor_parser.py:33-40 | the detail page is visited 1 plus the number of timeouts, between 1 and 4 times, always at the record's URL |
| ContractorParser.EnrichProjectCount | contractor_parser.py:49-53 | with digits in the projects label, project_count is the value of their first run unless a detail cell overwrites it |
| ContractorParser.EnrichProjectsWithoutDigits | contractor_parser.py:43-52 | a projects label without digits fails the step, and the record is unchanged |
| ContractorParser.EnrichProjectsTooLong | contractor_parser.py:43-52 | a projects label whose first digit run has more than 4300 digits fails the step with ValueError, and the record is unchanged |
| ContractorParser.EnrichProjectsAbsent | contractor_parser.py:43-48 | without a projects label, no project_count is added |
| ContractorParser.EnrichRatingAbsent | contractor_parser.py:63-77 | without a rating element the step succeeds and adds neither rating nor review_count |
| ContractorParser.EnrichReviewsMissing | contractor_parser.py:63-68 | a rating without a reviews element fails the step |
| ContractorParser.EnrichReviewsWithoutDigits | contractor_parser.py:70-73 | a review text without digits fails the step and rating is never set |
| ContractorParser.EnrichRatingPaired | contractor_parser.py:63-75 | a successful step with a rating sets review_count to the first digit run of the review text and rating to the parsed float |
| ContractorParser.EnrichKeepsFields | contractor_parser.py:31-79 | a key that neither the step nor a detail cell writes keeps its value, or stays absent |
| ContractorParser.EnrichKeepsKeys | contractor_parser.py:31-79 | the step removes no key, whether it succeeds or fails |
| ContractorParser.EnrichDetailOverwrites | contractor_parser.py:55-62 | a detail cell before the first malformed one overwrites the key it names, `name` and `url` included, in the record the step returns, whether or not the rating block then fails |
| ContractorParser.ParseWith | contractor_parser.py:26-29 | defines the loop of `parse_contractors` for any step: each record in turn is replaced by its step's result until one raises |
| ContractorParser.ParseAll | contractor_parser.py:26-29 | defines `parse_contractors` as that loop with `__parse_contractor` as the step |
| ContractorParser.FirstFailing | contractor_parser.py:27-28 | the index of the first record whose step fails, with every record before it succeeding |
| ContractorParser.ParseWithLength | contractor_parser.py:26-29 | the loop leaves the list as long as it was |
| ContractorParser.ParseWithFailure | contractor_parser.py:26-29 | the loop fails exactly when some record fails, with the first failing record's error |
| ContractorParser.ParseWithPrefix | contractor_parser.py:27-28 | records up to and including the first failing one are as their step left them |
| ContractorParser.ParseWithSuffix | contractor_parser.py:27-28 | records after the first failing one are untouched |
| ContractorParser.ParseWithAt | contractor_parser.py:26-29 | the whole loop combined: length, order, enriched prefix, failing record, untouched rest, and the error |
| ContractorParser.ParseWithSnoc | contractor_parser.py:27-28 | a record that passes its step leaves the loop running with one more enriched record |
| ContractorParser.ParseWithStops | contractor_parser.py:27-28 | once a record fails, the rest of the list is left as it is |
| ContractorParser.ParseTurn | contractor_parser.py:27-28 | one in-place update of the loop moves the list from one prefix's state to the next |
| ContractorParser.ParseOne | contractor_parser.py:28 | one turn of the loop performs the specified step |
| ContractorParser.ContractorsParser.constructor | contractor_parser.py:16-24 | the parser holds the list it was given |
| ContractorParser.ContractorsParser.ParseContractors | contractor_parser.py:26-29 | the list is updated in place as the loop specification says, and the same list is returned unless a step raised |
| ContractorParser.RunContractorsParser | contractor_parser.py:82-83 | a fresh parser's result: the enriched list, or the first error |
| ContractorParser.RunContractorsParserSuccess | contractor_parser.py:82-83 | on success the list has the same length and order, each record the enrichment of the one given |
| ContractorParser.ParseAllSucceeds | contractor_parser.py:26-29 | the loop succeeds exactly when every record's step succeeds, and then yields every record enriched |
| ContractorParser.EverySucceedsAppend | main.py:109-112 | every record of two lists succeeds exactly when every record of each does |
| Pipeline.PageUrl | main.py:87 | defines the listing URL of page p, with `fi=` set to 15 * (p - 1) |
| Pipeline.BaseUrl | main.py:25 | the base URL is the prefix before the first '?', or the whole URL |
| Pipeline.ExpectedPage | main.py:48 | the expected page is a suffix of the URL |
| Pipeline.ExpectedPageAt | main.py:48 | in any URL, with "fi=" at i and none later, the expected page is the text after that "fi=" |
| Pipeline.BasePathPlain | main.py:87 | the listing's base path holds no '?' |
| Pipeline.PageUrlBase | main.py:85-88 | the base URL of every constructed page URL is the listing's base path |
| Pipeline.PageUrlExpected | main.py:85-88 | the expected page of page p's URL is the decimal string of 15 * (p - 1) |
| Pipeline.PageUrlOffset | main.py:85-88 | for p >= 1 the expected page is all digits, and its value is the offset 15 * (p - 1) |
| Pipeline.Stubs | main.py:50-60 | defines the comprehension over the cards, failing at the first card without a name or an anchor |
| Pipeline.Stub | main.py:51-58 | a stub has exactly the keys name, url, page and expected_page |
| Pipeline.StubsShape | main.py:50-60 | the comprehension succeeds exactly when every card has a name and an anchor, giving one stub per card in card order |
| Pipeline.GatherClicksUnconditionally | main.py:27-31 | the base URL is opened first, and the "anywhere" item is clicked exactly when it appears |
| Pipeline.GatherLinks | main.py:23-60 | defines `gather_links`: the navigation to the base URL, the click, the navigation to the page URL, the four page waits and the stubs; or the error of the first wait that times out or of the first unreadable card |
| Pipeline.GatherLinksShape | main.py:23-60 | gathering succeeds exactly when every wait is met and every card is readable; the stubs share the selected page and the URL's expected page |
| Pipeline.LinksOrEmpty | main.py:63-71 | defines what `run_gather_links` returns: the stubs, or [] when gathering raised |
| Pipeline.LinksOrEmptyStubs | main.py:50-71 | every record `run_gather_links` returns for a URL has the four stub keys, string name and page, and the expected page that URL gives |
| Pipeline.RunGatherLinks | main.py:63-71 | returns the stubs, or [] on an exception; the session is released on every path, so the pool only rotates |
| Pipeline.PageLinksAreStubs | main.py:50-60 | every record gathered from page p is a stub that expects page offset 15 * (p - 1) |
| Pipeline.PerPage | main.py:85-92 | one list per page, in page order: list k is the links of page k + 1 |
| Pipeline.Gathered | main.py:85-92 | defines `contractors` after the gathering loop: the pages' lists extended in page order |
| Pipeline.PerPageStubs | main.py:85-92 | every per-page list holds only stubs |
| Pipeline.GatheredShape | main.py:90-94 | the gathered total is the sum of the page counts, and every gathered record is a stub |
| Pipeline.StubHasKeys | main.py:50-58 | the step on a gathered stub never fails on a missing url or name key |
| Pipeline.Slices | main.py:102-105 | defines the comprehension `[xs[i:i + step] for i in range(0, len(xs), step)]` |
| Pipeline.Chunks | main.py:99-105 | defines the chunking of `main`: the step is `len // workers`, and a zero divisor or a zero step raises; in `main` the zero divisor is never reached, because `ProcessPoolExecutor(0)` raises first |
| Pipeline.SlicesConcat | main.py:102-105 | the chunks put back together are the list |
| Pipeline.SlicesSizes | main.py:102-105 | every chunk but the last has exactly `step` items, and the last is non-empty |
| Pipeline.SlicesCount | main.py:102-105 | the number of chunks is the number of starts `range(0, len, step)` yields |
| Pipeline.SliceAt | main.py:102-105 | chunk k is `contractors[k * step : k * step + step]`, clipped at the end |
| Pipeline.ChunksDefined | main.py:100-105 | chunking succeeds exactly when there is at least one item per worker, and the chunks then concatenate to the list |
| Pipeline.MainChunks | main.py:99-105 | with one worker, a non-empty list is one chunk, and an empty list raises on the zero step |
| Pipeline.MoreChunksThanWorkers | main.py:100-105 | five items over three workers give five chunks, more than the workers |
| Pipeline.ParseChunks | main.py:106-112 | defines the parse loop over the chunks: each chunk parsed in turn and extended into the results, stopping at the first error |
| Pipeline.ParsePhase | main.py:97-112 | defines the parse phase of `main`: chunking, then the parse loop over the chunks |
| Pipeline.ParseChunksShape | main.py:106-112 | the parse phase succeeds exactly when every record succeeds, and then yields every record enriched, in order |
| Pipeline.ParseChunksTurn | main.py:109-112 | one turn of the chunk loop: a chunk that parses extends the results by its records, one that raises ends the loop with its error |
| Pipeline.ParseChunksStops | main.py:109-110 | after the first chunk that raises, later chunks change nothing |
| Pipeline.ParsePhaseShape | main.py:97-112 | the phase succeeds exactly when something was gathered and every record succeeds; then it yields one enriched record per gathered record, in order |
| Pipeline.RunParsePhase | main.py:97-112 | chunking, one parser per chunk and extending the results compute the parse-phase specification |
| Pipeline.PerPageNext | main.py:90-92 | gathering one more page extends the list by that page's links |
| Pipeline.GatherPages | main.py:85-92 | the gather loop yields the pages' lists extended in page order; the pool stays valid with the same sessions queued (in rotated order), none more checked out and none more quit |
| Pipeline.Scrape | main.py:76-112 | `main` gathers every page, quits every pool session exactly once, and then returns the parse-phase result |

## Left out

- Selenium itself is not modelled: `driver.get`, `WebDriverWait`, `find_element(s)`, `execute_script`, `set_window_size` and `time.sleep(10)`. The model replaces them with the `Listing` and `Page` observations and a log of actions or visits. The five-second wait timeouts are not modelled either.
- Threads, processes, the `Queue`'s blocking and thread safety, and `as_completed`'s completion order are not modelled. Tasks run one after another in submission order, so the first error raised is the first failing chunk's. With `MAX_WORKERS = PAGE_COUNT = 1`, as the code has them, the order is the only one possible.
- The pool's default size, `os.cpu_count()`, which can be `None`, is not modelled: `main` always builds the pool with one session.
- The interpreter's digit limit for `int` is fixed at its default of 4300. Changing it through `sys.set_int_max_str_digits` or the environment is not modelled.
- DriverPool.WebDriverPool.Acquire: needs a session in the queue. The real call blocks until one is released, which a sequential caller never meets.
- `float(rating_element.text)` is the parameter `parseFloat`, because floating-point parsing is not modelled.
- Logging, the log lines' reads of `contractor["name"]` after that key is known to be present, and JSON output are not modelled; they are I/O.
- settings.py is not part of this model. No other file imports it.
- `\d` is taken as the ASCII digits '0' to '9'. Python's Unicode digits are not modelled.
- A process-pool worker works on a copy of its chunk, so the model returns the parsed list. Dictionaries shared between two list entries (aliasing) are not modelled; each record is its own value.
- The parser's own `webdriver.Chrome()` is never quit by the code. Outside the actions it takes, it is not modelled.
- ContractorParser.ParseContractor: `driver.get` on a URL value that is not a string is modelled as a `NotNavigable` error. What Selenium does with such a value is not visible from this code.
