/** scrapeLotTable and scrapeLotDetailsForLotsInBatch: fetch every lot's detail table in
    batches of at most BatchSize concurrent fetches, then attach each table to its lot. */
module LotDetails {
  import opened Common
  import opened Text
  import opened Records
  import opened Site
  import opened Async

  /** The most detail fetches launched together. */
  const BatchSize: nat := 100

  /** The detail-row mapper over a whole table, in row order. */
  function DetailRows(rows: seq<DetailCells>): (r: seq<DetailRow>)
    ensures |r| == |rows|
    ensures forall k :: 0 <= k < |rows| ==> r[k] == DetailFromCells(rows[k])
  {
    seq(|rows|, k requires 0 <= k < |rows| => DetailFromCells(rows[k]))
  }

  /** scrapeLotTable: a blank id returns [] before any page is opened; an id whose number
      is empty returns [] after opening a page it never closes; a failing navigation to the
      lot's URL escapes, leaving the page open; a table that never appears gives [];
      otherwise the table's rows. */
  function ScrapeLotTable(site: Site, noticeLink: string, lotId: string): (r: Run<seq<DetailRow>>)
    ensures r.pages.closes <= r.pages.opens <= 1
    ensures r.pages.opens == 0 ==> r.outcome == Done([])
    ensures r.outcome.Thrown? ==> r.pages == PageUse(1, 0)
  {
    if Trim(lotId) == [] then Run(Done([]), PageUse(0, 0))
    else if LotNumber(lotId) == [] then Run(Done([]), PageUse(1, 0))
    else
      var page := site.LotPageAt(LotUrl(noticeLink, lotId));
      if page.gotoFails then Run(Thrown, PageUse(1, 0))
      else if page.tableFails then Run(Done([]), PageUse(1, 1))
      else Run(Done(DetailRows(page.rows)), PageUse(1, 1))
  }

  /** The guards of scrapeLotTable, what it returns and which pages it leaves open. */
  lemma LotTableGuards(site: Site, noticeLink: string, lotId: string)
    ensures var run := ScrapeLotTable(site, noticeLink, lotId);
      var page := site.LotPageAt(LotUrl(noticeLink, lotId));
      && (Blank(lotId) <==> run.pages.opens == 0)
      && (Blank(lotId) ==> run.outcome == Done([]))
      && (!Blank(lotId) && LotNumber(lotId) == [] ==> run == Run(Done([]), PageUse(1, 0)))
      && (run.outcome.Thrown? <==> !Blank(lotId) && LotNumber(lotId) != [] && page.gotoFails)
      && (run.pages == PageUse(1, 1) <==> !Blank(lotId) && LotNumber(lotId) != [] && !page.gotoFails)
      && (!Blank(lotId) && LotNumber(lotId) != [] && !page.gotoFails && page.tableFails ==>
            run.outcome == Done([]))
      && (!Blank(lotId) && LotNumber(lotId) != [] && !page.gotoFails && !page.tableFails ==>
            run.outcome == Done(DetailRows(page.rows)))
  {
    TrimEmptyIffBlank(lotId);
  }

  /** For a lot id produced by the lot-row mapper, the page opened for its table is closed
      on every path that does not throw. */
  lemma ListedLotClosesItsPage(site: Site, noticeLink: string, c: LotCells)
    ensures var run := ScrapeLotTable(site, noticeLink, LotFromCells(c, noticeLink).lot);
      run.outcome.Done? ==> run.pages.opens == run.pages.closes
  {
    var lot := LotFromCells(c, noticeLink).lot;
    if c.lot.Some? {
      TrimIdempotent(c.lot.value);
      if lot != [] {
        TrimmedLotNumberNonEmpty(lot);
      }
    }
  }

  // ---------------------------------------------------------------- results

  /** What the fetch of one lot's table settles to. */
  function Fetch(site: Site, noticeLink: string, l: LotRecord): Outcome<seq<DetailRow>> {
    ScrapeLotTable(site, noticeLink, l.lot).outcome
  }

  /** The fetch of a lot's table, as the function the batch loop maps over a batch. */
  function Fetcher(site: Site, noticeLink: string): LotRecord -> Outcome<seq<DetailRow>> {
    l => Fetch(site, noticeLink, l)
  }

  /** The table a lot gets: what its fetch yielded, [] when it threw. */
  function TableOf(site: Site, noticeLink: string, l: LotRecord): seq<DetailRow> {
    match Fetch(site, noticeLink, l)
    case Done(t) => t
    case Thrown => []
  }

  /** A lot with its table attached and its link replaced by the notice link: every other
      field of the lot is kept, and dropping the table gives the lot back with that link. */
  function AttachTable(l: LotRecord, table: seq<DetailRow>, noticeLink: string): (d: DetailedLot)
    ensures LotPart(d) == l.(link := noticeLink)
    ensures d.lotTable == table
  {
    DetailedLot(l.lot, l.minPrice, l.saleType, l.status, l.person, l.errataWarnings, noticeLink, table)
  }

  /** The lot fields of a detailed lot, without its table. */
  function LotPart(d: DetailedLot): LotRecord {
    LotRecord(d.lot, d.minPrice, d.saleType, d.status, d.person, d.errataWarnings, d.link)
  }

  /** Each lot with the table at its index attached ([] when there is none) and the notice
      link as its link. */
  function MergeTables(lots: seq<LotRecord>, tables: seq<seq<DetailRow>>, noticeLink: string): (r: seq<DetailedLot>)
    ensures |r| == |lots|
  {
    seq(|lots|, k requires 0 <= k < |lots| =>
      AttachTable(lots[k], if k < |tables| then tables[k] else [], noticeLink))
  }

  /** The merge keeps the lots' order and fields, gives lot k table k (or [] when there is
      none) and the notice link. */
  lemma MergeKeepsLots(lots: seq<LotRecord>, tables: seq<seq<DetailRow>>, noticeLink: string)
    ensures var r := MergeTables(lots, tables, noticeLink);
      && |r| == |lots|
      && forall k :: 0 <= k < |r| ==>
           && LotPart(r[k]) == lots[k].(link := noticeLink)
           && r[k].lotTable == (if k < |tables| then tables[k] else [])
           && r[k].link == noticeLink
  {
  }

  /** Every lot's table, in lot order, as if fetched one by one. */
  function AllTables(site: Site, noticeLink: string, lots: seq<LotRecord>): (r: seq<seq<DetailRow>>)
    ensures |r| == |lots|
  {
    seq(|lots|, k requires 0 <= k < |lots| => TableOf(site, noticeLink, lots[k]))
  }

  /** scrapeLotDetailsForLotsInBatch, stated without batches: it throws when some lot's
      fetch throws; otherwise every lot gets its own table, in lot order. */
  function DetailsOutcome(site: Site, lots: seq<LotRecord>, noticeLink: string): (r: Outcome<seq<DetailedLot>>)
    ensures r.Done? ==> |r.value| == |lots|
    ensures r.Done? ==> forall k :: 0 <= k < |r.value| ==> r.value[k].link == noticeLink
  {
    if SomeThrows(Fetcher(site, noticeLink), lots) then Thrown
    else Done(MergeTables(lots, AllTables(site, noticeLink, lots), noticeLink))
  }

  /** One detailed lot per lot, same order, each with the table fetched for that lot: a
      lot whose fetch failed and was caught gets [] and its siblings keep theirs. */
  lemma DetailsShape(site: Site, lots: seq<LotRecord>, noticeLink: string)
    ensures DetailsOutcome(site, lots, noticeLink).Thrown? <==> SomeThrows(Fetcher(site, noticeLink), lots)
    ensures match DetailsOutcome(site, lots, noticeLink)
      case Thrown => true
      case Done(d) =>
        && |d| == |lots|
        && forall k :: 0 <= k < |d| ==>
             && LotPart(d[k]) == lots[k].(link := noticeLink)
             && d[k].lotTable == TableOf(site, noticeLink, lots[k])
             && d[k].link == noticeLink
  {
  }

  /** Once every lot has been fetched, nothing threw and the tables are every lot's own. */
  lemma AllFetched(site: Site, noticeLink: string, lots: seq<LotRecord>, tables: seq<seq<DetailRow>>)
    requires Settled(Fetcher(site, noticeLink), lots, tables) && |tables| == |lots|
    ensures !SomeThrows(Fetcher(site, noticeLink), lots) && tables == AllTables(site, noticeLink, lots)
  {
  }

  /** The batch loop of scrapeLotDetailsForLotsInBatch followed by the merge. */
  method ScrapeLotDetailsForLotsInBatch(site: Site, lots: seq<LotRecord>, noticeLink: string)
    returns (r: Outcome<seq<DetailedLot>>, ghost batches: seq<seq<LotRecord>>)
    ensures r == DetailsOutcome(site, lots, noticeLink)
    ensures r.Done? ==> batches == Batches(lots, BatchSize, 0)
  {
    var fetch := Fetcher(site, noticeLink);
    var allLotDetails: seq<seq<DetailRow>> := [];
    var i := 0;
    batches := [];
    while i < |lots|
      invariant |allLotDetails| == Min(i, |lots|)
      invariant Settled(fetch, lots, allLotDetails)
      invariant batches + Batches(lots, BatchSize, |allLotDetails|) == Batches(lots, BatchSize, 0)
    {
      var end := Min(i + BatchSize, |lots|);
      var batch := lots[i..end];
      var results := AwaitAll(Launch(fetch, batch));
      if results.Thrown? {
        BatchThrows(fetch, lots, i, end);
        return Thrown, batches + [batch];
      }
      BatchSettles(fetch, lots, allLotDetails, end);
      allLotDetails := allLotDetails + results.value;
      batches := batches + [batch];
      i := i + BatchSize;
    }
    AllFetched(site, noticeLink, lots, allLotDetails);
    r := Done(MergeTables(lots, allLotDetails, noticeLink));
  }
}
