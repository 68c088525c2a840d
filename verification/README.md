# scrapper.js — a verified model of the crawl controller

`scrapper.js` crawls a procurement portal in three levels:
- the portal's table of notices (`scrapeNotices`);
- each notice's paginated listing of lots (`scrapeLots`);
- each lot's detail table (`scrapeLotTable`).

The lot tables of a notice are fetched in batches of at most `BATCH_SIZE` = 100 concurrent fetches (`scrapeLotDetailsForLotsInBatch`). They are merged back onto the lots by index. Each notice then gets its lots attached (`scrapeLotTablesInBatch`).

This project models that orchestration in Dafny and proves what it does for every answer the browser could give.

- **The browser** is a value, `Site.Site`. For each URL it says:
  - whether navigating there throws;
  - whether the awaited table appears;
  - which rows the page shows;
  - for a listing, its pages in "next" order, each with its rows, its "next" control (absent, disabled or enabled) and whether a browser call on it throws.
- **Page bookkeeping.** An operation returns a `Run`: its `Outcome` together with a `PageUse`, the pages it opened and the pages it closed.
- **Outcomes.** `Done(v)` is a returned value. A caught failure is `Done([])`, as the code's catch blocks return. `Thrown` is an exception that escapes the function.
- **Strings** are `seq<char>`, with the code's string operations written out:
  - `trim` over the ECMAScript white-space and line-terminator characters;
  - `replace` with a string pattern, which replaces only the first occurrence;
  - `split(' ').pop()`.
- **Modules:**
  - `Common`: `Option`, `Outcome`, `Min`.
  - `Text`: the string operations.
  - `Records`: the row mappers and the lot number, link and URL.
  - `Site`: the browser oracle.
  - `Paginator`: `scrapeLots`.
  - `Async`: `Promise.all`, and cutting a sequence into batches.
  - `LotDetails`: `scrapeLotTable`, the batch loop and the merge.
  - `Crawler`: the notice loop and `scrapeNotices`.
- **Loops are methods.** Each loop of the code is a method with a loop. Each method is proved equal to a loop-free specification function, and the properties are lemmas about that function:
  - `Paginator.ScrapeLots` against `ScrapeLotsRun`;
  - `LotDetails.ScrapeLotDetailsForLotsInBatch` against `DetailsOutcome`;
  - `Crawler.ScrapeLotTablesInBatch` against `AllNotices`;
  - `Crawler.ScrapeNotices` against `CrawlOf`.

### Behaviour of the code worth knowing

The model follows the code, including these behaviours:

- **Pagination failure discards the rows.** A failure in `scrapeLots` returns `[]`, not the rows gathered so far (`scrapper.js:117-120`).
- **Navigation failures escape.** Navigations to a lot listing (`scrapper.js:69`) and to a lot page (`scrapper.js:156`) sit outside the `try` blocks, so their failures are not isolated.
  - A failing lot-page navigation rejects the whole `Promise.all` batch (`scrapper.js:131`). That ends the notice loop and reaches the catch of `scrapeNotices`, so the whole run returns `[]` (`scrapper.js:45-50`). `Crawler.LotNavigationFailureThrows` and `Crawler.LotNavigationFailureEmptiesRun` state this.
  - A failing listing navigation is awaited directly by the notice loop (`scrapper.js:58`), outside any `Promise.all`. It ends the notice loop and the run returns `[]` the same way. The first ensures of `Crawler.NoticeDetails`, `Crawler.CrawlShape` and `Crawler.ListingNavigationFailureEmptiesRun` state this.

  The page opened for the failing navigation is not closed. A failing navigation to the portal itself (`scrapper.js:15`) escapes `scrapeNotices` with the browser still open.
- **A page is opened before the empty-number check.** `scrapeLotTable` opens a page (`scrapper.js:147`) before it checks the lot number. For an empty number it returns without closing that page (`scrapper.js:151`). `LotDetails.ListedLotClosesItsPage` shows this path is unreachable for ids produced by the lot-row mapper: a trimmed, non-empty id always has a non-empty number.
- **Lot URLs are unique only up to the lot number.** "Lote 7" and "7" give the same URL (`Records.LotIdsSharingUrl`). `Records.LotUrlInjective` is the exact statement.
- **The merge overwrites each lot's own link** with the notice link (`scrapper.js:138`).

## Model

| member | source | states |
|---|---|---|
| Text.Trim | scrapper.js:143 | `trim` returns a string no longer than its input that is empty or neither starts nor ends with white space |
| Text.TrimKeepsMiddle | scrapper.js:79 | what `trim` keeps is one contiguous middle part of the input, and everything before and after it is white space |
| Text.TrimOfTrimmed | scrapper.js:149 | a string without white space at either end is left unchanged by `trim` |
| Text.TrimEmptyIffBlank | scrapper.js:143 | `s.trim() === ""` holds exactly when every character of `s` is white space |
| Text.TrimIdempotent | scrapper.js:79 | trimming twice is trimming once |
| Text.ReplaceFirst | scrapper.js:149 | `replace` with a string pattern returns the string unchanged when the pattern does not occur in it; when the pattern occurs the result is exactly one pattern length shorter and one replacement length longer |
| Text.ReplaceFirstAtFirstOccurrence | scrapper.js:149 | `replace` with a string pattern substitutes the first occurrence only, leaving the rest of the string as it was |
| Text.ReplaceFirstOfPrefix | scrapper.js:149 | a string starting with the pattern loses exactly that prefix |
| Text.LastToken | scrapper.js:23 | `split(' ').pop()` is no longer than the string it comes from |
| Text.LastTokenIsLastWord | scrapper.js:23 | `split(' ').pop()` is the space-free suffix after the last space, preceded by a space unless it is the whole string, and the whole string when there is no space |
| Text.RemoveFirstKeepsNonBlank | scrapper.js:149-151 | removing the first occurrence of a pattern that ends in white space from a non-empty string without white space at its ends leaves a string that is not blank |
| Records.CellText | scrapper.js:25-26 | a missing cell gives `''`; a present cell gives the trimmed text of the cell, no longer than it; either way the text neither starts nor ends with white space |
| Records.NoticeFromCells | scrapper.js:22-27 | a row without the edital anchor gives empty link, code and description; a row without the lot-count cell gives `lots` = 0 |
| Records.NoticeDescription | scrapper.js:23-24 | a notice's description is the part of its trimmed code after the last space, preceded by a space unless it is the whole code, and the whole code when the code has no space |
| Records.NoticeFields | scrapper.js:22-34 | the record keeps the anchor's href as link, its trimmed text as code, the trimmed date cells, and the parsed lot count |
| Records.LotNumber | scrapper.js:149 | the lot number is no longer than the lot id |
| Records.LotUrl | scrapper.js:154 | a lot's detail URL starts with the notice link followed by "/lote/" and is no longer than the notice link, "/lote/" and the lot id together |
| Records.LotLink | scrapper.js:93 | a lot's link is `''` when the notice link is empty, and otherwise the lot URL built from the notice link and the lot number |
| Records.LotFromCells | scrapper.js:79-93 | the lot-row mapper keeps the trimmed lot cell as `lot` and gives it the link derived from that id and the notice link |
| Records.DetailFromCells | scrapper.js:163-173 | every field of a detail row is the trimmed text of its cell (`Trim` of the cell's text), so none starts or ends with white space, and a missing cell gives `''` |
| Records.StripLotPrefix | scrapper.js:149 | removing "Lote " from "Lote n" gives n |
| Records.LotNumberOfPrefixed | scrapper.js:149 | the number of the id "Lote n" is trim(n) |
| Records.LotUrlInjective | scrapper.js:154 | two lots of one notice get the same detail URL exactly when their numbers are equal |
| Records.PlainLotNumber | scrapper.js:149 | an id in which "Lote " does not occur has its trimmed self as its number |
| Records.LotIdsSharingUrl | scrapper.js:154 | "Lote 7" and "7" get the same detail URL, so URLs are unique only up to the number |
| Records.TrimmedLotNumberNonEmpty | scrapper.js:150-152 | a non-empty trimmed lot id never has an empty number |
| Records.LotUrlMatchesRowLink | scrapper.js:93 | for a non-empty notice link, a lot's link is `link + "/lote/" + trim(replaceFirst(lot, "Lote ", ""))` |
| Paginator.PageLots | scrapper.js:77-96 | one lot record per row of the page, in row order: record k is the lot-row mapper applied to row k |
| Paginator.Paginate | scrapper.js:74-113 | every lot the walk yields carries the link the lot-row mapper derives from its id and the notice link |
| Paginator.ScrapeLotsRun | scrapper.js:67-121 | `scrapeLots` opens one page and closes it unless it throws; every lot it returns is linked below the notice |
| Paginator.Unroll | scrapper.js:74-112 | after i working pages with an enabled "next" control, the walk has accumulated the rows of those i pages in visit order, in front of whatever the rest of the walk yields |
| Paginator.PaginationStops | scrapper.js:74-116 | a walk that stops at page k, the first working page without an enabled control, returns the rows of pages 0..k concatenated in visit order |
| Paginator.PaginationNeedsStop | scrapper.js:100-107 | a walk that returns rows has a page at which it stopped |
| Paginator.StopIsUnique | scrapper.js:100-107 | the page at which a walk stops is unique |
| Paginator.ScrapeLotsResult | scrapper.js:67-121 | `scrapeLots` throws exactly when navigating to the listing fails, leaving its page open. Otherwise it closes its page and returns the rows of pages 0..k when the walk stops at k, or `[]` when a page fails, discarding rows already gathered |
| Paginator.ZeroRowListing | scrapper.js:74-120 | a listing of one page without rows gives `[]`, one page opened and closed, and no escaping failure, whether the wait for rows times out or not and whatever the page's "next" control |
| Paginator.ScrapeLots | scrapper.js:67-122 | the `while (true)` loop returns exactly what `ScrapeLotsRun` specifies, with the same pages opened and closed |
| Async.Launch | scrapper.js:130 | `batch.map(fetch)` launches one fetch per item, in batch order |
| Async.AwaitAll | scrapper.js:131 | `Promise.all` rejects exactly when one of its promises rejects; otherwise it resolves to every value, each at its promise's position |
| Async.BatchThrows | scrapper.js:131 | a batch xs[i..end] that `Promise.all` rejects contains an item, at an index between i and end, whose fetch throws; so some item of xs throws |
| Async.BatchSettles | scrapper.js:131-132 | pushing a resolved batch extends the results so far, each item's result at its item's index |
| Async.AllSettled | scrapper.js:131 | when every item's result is known, nothing threw and `Promise.all` over all of them yields those results |
| Async.BatchesPartition | scrapper.js:128-129 | the slices taken at i = 0, B, 2B, … are non-empty, hold at most B items, and concatenate to the input |
| Async.BatchAt | scrapper.js:128-129 | slice j starts j·B items in and ends at min(j·B + B, length) |
| LotDetails.DetailRows | scrapper.js:161-175 | one detail row per table row, in row order: row k is the detail-row mapper applied to table row k |
| LotDetails.ScrapeLotTable | scrapper.js:142-184 | `scrapeLotTable` opens at most one page and closes no more than it opens; when it opens none it returns `[]`; when it throws, its one page is left open |
| LotDetails.LotTableGuards | scrapper.js:142-184 | a blank id returns `[]` before any page is opened. An id with an empty number returns `[]` leaving one page open. A failing navigation to the lot URL throws, leaving the page open. On every other path exactly one page is opened and closed, and the result is the table's rows, or `[]` when the table never appears |
| LotDetails.ListedLotClosesItsPage | scrapper.js:147-152 | for a lot id produced by the lot-row mapper, every non-throwing path of `scrapeLotTable` closes every page it opened |
| LotDetails.AttachTable | scrapper.js:135-139 | attaching a table keeps every lot field except `link`, which becomes the notice link, and carries the given table |
| LotDetails.MergeTables | scrapper.js:135-139 | the merge has one element per lot |
| LotDetails.MergeKeepsLots | scrapper.js:135-139 | the merge keeps the lots' order and fields, gives lot k table k (`[]` when there is none) and the notice link |
| LotDetails.AllTables | scrapper.js:128-133 | one table per lot |
| LotDetails.AllFetched | scrapper.js:128-133 | once every lot's fetch has settled, nothing threw and the results are each lot's own table, in lot order |
| LotDetails.DetailsOutcome | scrapper.js:125-140 | when the batched fetch does not throw, it yields one detailed lot per lot, each with the notice link |
| LotDetails.DetailsShape | scrapper.js:125-140 | the batched fetch throws exactly when some lot's fetch throws. Otherwise there is one detailed lot per lot, in lot order, each with its own table, so a caught failure of one lot gives that lot `[]` and leaves its siblings' tables untouched |
| LotDetails.ScrapeLotDetailsForLotsInBatch | scrapper.js:125-140 | the `for` loop with `i += BATCH_SIZE` returns exactly `DetailsOutcome`, and on success its batches are the partition of the lots into slices of `BATCH_SIZE` |
| Crawler.PortalNotices | scrapper.js:20-37 | one notice per portal row |
| Crawler.AttachLots | scrapper.js:61 | attaching the lots keeps every notice field and carries the given lots |
| Crawler.NoticeAggregation | scrapper.js:53-65 | the notice loop throws exactly when some notice's iteration throws; otherwise it yields exactly one record per notice, in notice order, with the notice's fields and the lots found for it |
| Crawler.NoticeDetailsThrows | scrapper.js:58-60 | a notice's iteration throws exactly when navigating to its listing fails, or when one of its listed lots' fetch throws |
| Crawler.NoticeDetails | scrapper.js:58-60 | an iteration whose listing navigation fails throws; a completed iteration gives every lot the notice link |
| Crawler.NoticesSettled | scrapper.js:56-62 | when every iteration has produced its record, the loop's result is those records |
| Crawler.NoticeThrows | scrapper.js:56-62 | an iteration that throws makes the whole loop throw |
| Crawler.ScrapeLotTablesInBatch | scrapper.js:53-65 | the `for ... of` loop returns exactly `AllNotices` |
| Crawler.CrawlOf | scrapper.js:9-51 | `scrapeNotices` throws exactly when navigating to the portal fails, and only then is the browser left open; a notice table that never appears gives `[]` |
| Crawler.CrawlShape | scrapper.js:17-50 | once the portal's notice table has been read, the run yields `[]` if some notice's iteration throws, and otherwise one record per portal row, in row order, each with that row's notice |
| Crawler.ListingNavigationFailureEmptiesRun | scrapper.js:58 | a failing navigation to one notice's lot listing, once the portal's notice table was read, escapes the notice loop and the whole run yields `[]` |
| Crawler.LotNavigationFailureThrows | scrapper.js:156 | a failing navigation to the detail page of a listed lot with a non-empty number makes that notice's iteration throw |
| Crawler.LotNavigationFailureEmptiesRun | scrapper.js:156 | a failing navigation to the detail page of any listed lot with a non-empty number makes the whole run yield `[]` |
| Crawler.ScrapeNotices | scrapper.js:9-51 | `scrapeNotices` returns exactly `CrawlOf`, including whether the browser is closed |

## Left out

- Browser lifecycle and waits. The puppeteer calls (`launch`, `newPage`, `goto`, `waitForSelector`, `waitForNavigation`, `click`, `close`), their timeouts and the `networkidle2` policy are not modelled. Their effect is the oracle's per-URL answer (throws, never shows the table, shows these rows). Page opens and closes are counted instead of performed.
- DOM work. The CSS selectors and `$$eval` queries are not modelled. A row is given as its cells, each present or missing. `textContent` and the image `title` are given as strings.
- `parseInt`. The notice's lot count is given already parsed, so `NaN` and partial parses are not modelled.
- Concurrency. Real concurrency of `Promise.all` is not modelled; the model fixes the result order by index, which is what the code relies on. Because all fetches of a batch are launched before any is awaited, later members of a rejected batch still run; the model does not track their pages.
- Pages opened across operations. They are counted per operation (`scrapeLots`, `scrapeLotTable`), not summed over a whole run. `browser.close()` is modelled only as whether `scrapeNotices` closes the browser.
- Site answers that change over time. The site answers every navigation the same way, so answers that change between visits are not modelled.
- Endless listings. A listing is a finite sequence of pages; going past its last page counts as a navigation that never settles. So the model has no listing whose "next" control stays enabled forever. The code would loop on such a listing.
- Unknown URLs. A URL the site does not list loads without the awaited table.
- `console.time`, `console.timeEnd` and `console.error` logging.
- `saveToJson`, `fs.writeFileSync`, `JSON.stringify` and `main`: file I/O and the entry point.
- `lotId` that is `undefined` or `null` (the `!lotId` test at `scrapper.js:143`). The row mapper always produces a string, so the model's ids are strings.
