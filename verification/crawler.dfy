/** scrapeLotTablesInBatch and scrapeNotices: every notice of the portal gets its lots and
    their tables; an exception that escapes a notice empties the whole run. */
module Crawler {
  import opened Common
  import opened Text
  import opened Records
  import opened Site
  import opened Async
  import opened Paginator
  import opened LotDetails

  /** The notices the portal's rows map to, in row order. */
  function PortalNotices(portal: Portal): (r: seq<Notice>)
    ensures |r| == |portal.rows|
    ensures forall k :: 0 <= k < |portal.rows| ==> r[k] == NoticeFromCells(portal.rows[k])
  {
    seq(|portal.rows|, k requires 0 <= k < |portal.rows| => NoticeFromCells(portal.rows[k]))
  }

  /** A notice with the lots found for it attached; the notice itself is kept as it is. */
  function AttachLots(n: Notice, lotsDetails: seq<DetailedLot>): (d: DetailedNotice)
    ensures NoticePart(d) == n
    ensures d.lotsDetails == lotsDetails
  {
    DetailedNotice(n.link, n.code, n.description, n.startDate, n.endDate, n.lots, lotsDetails)
  }

  /** The notice fields of a detailed notice. */
  function NoticePart(d: DetailedNotice): Notice {
    Notice(d.link, d.code, d.description, d.startDate, d.endDate, d.lots)
  }

  /** One iteration of the notice loop: scrapeLots, then the batched lot details; an
      exception from either escapes. */
  function NoticeDetails(site: Site, n: Notice): (r: Outcome<seq<DetailedLot>>)
    ensures site.ListingAt(n.link).gotoFails ==> r.Thrown?
    ensures r.Done? ==> forall k :: 0 <= k < |r.value| ==> r.value[k].link == n.link
  {
    match ScrapeLotsRun(site, n).outcome
    case Thrown => Thrown
    case Done(lots) => DetailsOutcome(site, lots, n.link)
  }

  /** The loop body as a function of the notice, for the loop invariant. */
  function NoticeFetcher(site: Site): Notice -> Outcome<DetailedNotice> {
    n => match NoticeDetails(site, n)
         case Thrown => Thrown
         case Done(d) => Done(AttachLots(n, d))
  }

  /** scrapeLotTablesInBatch, stated without its loop: it throws when some notice's
      iteration throws, and otherwise yields one detailed notice per notice. */
  function AllNotices(site: Site, notices: seq<Notice>): Outcome<seq<DetailedNotice>> {
    if exists k :: 0 <= k < |notices| && NoticeDetails(site, notices[k]).Thrown? then Thrown
    else Done(seq(|notices|, k requires 0 <= k < |notices| =>
                AttachLots(notices[k], NoticeDetails(site, notices[k]).value)))
  }

  /** Exactly one record per notice, in notice order, each the notice's own fields plus the
      lots found for it; or an escaping exception from one of the notices. */
  lemma NoticeAggregation(site: Site, notices: seq<Notice>)
    ensures AllNotices(site, notices).Thrown? <==>
      exists k :: 0 <= k < |notices| && NoticeDetails(site, notices[k]).Thrown?
    ensures match AllNotices(site, notices)
      case Thrown => true
      case Done(d) =>
        && |d| == |notices|
        && forall k :: 0 <= k < |d| ==>
             && NoticePart(d[k]) == notices[k]
             && NoticeDetails(site, notices[k]) == Done(d[k].lotsDetails)
  {
  }

  /** A notice's iteration throws exactly when navigating to its listing fails, or when it
      reaches the lot details and one lot's fetch throws. */
  lemma NoticeDetailsThrows(site: Site, n: Notice)
    ensures NoticeDetails(site, n).Thrown? <==>
      || site.ListingAt(n.link).gotoFails
      || (var lots := ScrapeLotsRun(site, n).outcome;
          lots.Done? && SomeThrows(Fetcher(site, n.link), lots.value))
  {
    ScrapeLotsResult(site, n);
    var lots := ScrapeLotsRun(site, n).outcome;
    if lots.Done? {
      DetailsShape(site, lots.value, n.link);
    }
  }

  /** Iterations that all settled give the loop's result. */
  lemma NoticesSettled(site: Site, notices: seq<Notice>, acc: seq<DetailedNotice>)
    requires Settled(NoticeFetcher(site), notices, acc) && |acc| == |notices|
    ensures AllNotices(site, notices) == Done(acc)
  {
    forall k | 0 <= k < |notices|
      ensures !NoticeDetails(site, notices[k]).Thrown?
      ensures acc[k] == AttachLots(notices[k], NoticeDetails(site, notices[k]).value)
    {
      assert NoticeFetcher(site)(notices[k]) == Done(acc[k]);
    }
    var d := seq(|notices|, k requires 0 <= k < |notices| =>
               AttachLots(notices[k], NoticeDetails(site, notices[k]).value));
    assert d == acc;
  }

  /** An iteration that throws makes the loop throw. */
  lemma NoticeThrows(site: Site, notices: seq<Notice>, i: nat)
    requires i < |notices| && NoticeFetcher(site)(notices[i]).Thrown?
    ensures AllNotices(site, notices) == Thrown
  {
    assert NoticeDetails(site, notices[i]).Thrown?;
  }

  /** The notice loop of scrapeLotTablesInBatch. */
  method ScrapeLotTablesInBatch(site: Site, notices: seq<Notice>) returns (r: Outcome<seq<DetailedNotice>>)
    ensures r == AllNotices(site, notices)
  {
    var allDetailedNotices: seq<DetailedNotice> := [];
    var i := 0;
    while i < |notices|
      invariant i <= |notices| && |allDetailedNotices| == i
      invariant Settled(NoticeFetcher(site), notices, allDetailedNotices)
    {
      var notice := notices[i];
      var lots, pages := ScrapeLots(site, notice);
      if lots.Thrown? {
        NoticeThrows(site, notices, i);
        return Thrown;
      }
      var lotTablesInBatch, batches := ScrapeLotDetailsForLotsInBatch(site, lots.value, notice.link);
      if lotTablesInBatch.Thrown? {
        NoticeThrows(site, notices, i);
        return Thrown;
      }
      allDetailedNotices := allDetailedNotices + [AttachLots(notice, lotTablesInBatch.value)];
      i := i + 1;
    }
    NoticesSettled(site, notices, allDetailedNotices);
    r := Done(allDetailedNotices);
  }

  /** What a whole run yields, and whether it closes the browser. */
  datatype Crawl = Crawl(outcome: Outcome<seq<DetailedNotice>>, browserClosed: bool)

  /** scrapeNotices: a failing navigation to the portal escapes and leaves the browser
      open; a notice table that never appears, or an exception escaping the notice loop,
      gives []; otherwise one detailed notice per portal row. The browser is closed on
      every path inside the try. */
  function CrawlOf(site: Site): (r: Crawl)
    ensures r.outcome.Thrown? <==> site.portal.gotoFails
    ensures r.browserClosed <==> !site.portal.gotoFails
    ensures !site.portal.gotoFails && site.portal.tableFails ==> r.outcome == Done([])
  {
    if site.portal.gotoFails then Crawl(Thrown, false)
    else if site.portal.tableFails then Crawl(Done([]), true)
    else match AllNotices(site, PortalNotices(site.portal))
      case Thrown => Crawl(Done([]), true)
      case Done(d) => Crawl(Done(d), true)
  }

  /** Once the portal's notice table has been read, the run yields [] when some notice's
      iteration throws, and otherwise one record per portal row, in row order. */
  lemma CrawlShape(site: Site)
    ensures var notices := PortalNotices(site.portal);
      !site.portal.gotoFails && !site.portal.tableFails ==>
        if exists k :: 0 <= k < |notices| && NoticeDetails(site, notices[k]).Thrown?
        then CrawlOf(site).outcome == Done([])
        else
          && CrawlOf(site).outcome.Done?
          && |CrawlOf(site).outcome.value| == |site.portal.rows|
          && forall k :: 0 <= k < |site.portal.rows| ==>
               NoticePart(CrawlOf(site).outcome.value[k]) == NoticeFromCells(site.portal.rows[k])
  {
    NoticeAggregation(site, PortalNotices(site.portal));
  }

  /** A failing navigation to one notice's lot listing is awaited directly by the notice
      loop, so it escapes that loop and the whole run yields []. */
  lemma ListingNavigationFailureEmptiesRun(site: Site, k: nat)
    requires !site.portal.gotoFails && !site.portal.tableFails && k < |site.portal.rows|
    requires site.ListingAt(PortalNotices(site.portal)[k].link).gotoFails
    ensures CrawlOf(site).outcome == Done([])
  {
    var notices := PortalNotices(site.portal);
    assert NoticeDetails(site, notices[k]).Thrown?;
    CrawlShape(site);
  }

  /** A lot page whose navigation fails, for a lot of a notice whose listing was read,
      makes that notice's iteration throw. */
  lemma LotNavigationFailureThrows(site: Site, n: Notice, j: nat)
    requires var lots := ScrapeLotsRun(site, n).outcome;
      && lots.Done? && j < |lots.value|
      && !Blank(lots.value[j].lot) && LotNumber(lots.value[j].lot) != []
      && site.LotPageAt(LotUrl(n.link, lots.value[j].lot)).gotoFails
    ensures NoticeDetails(site, n).Thrown?
  {
    var lots := ScrapeLotsRun(site, n).outcome.value;
    LotTableGuards(site, n.link, lots[j].lot);
    assert Fetcher(site, n.link)(lots[j]).Thrown?;
  }

  /** A lot page whose navigation fails, for a lot of a notice whose listing was read,
      throws out of Promise.all and the notice loop, and the whole run yields []. */
  lemma LotNavigationFailureEmptiesRun(site: Site, k: nat, j: nat)
    requires !site.portal.gotoFails && !site.portal.tableFails && k < |site.portal.rows|
    requires var n := PortalNotices(site.portal)[k];
      var lots := ScrapeLotsRun(site, n).outcome;
      && lots.Done? && j < |lots.value|
      && !Blank(lots.value[j].lot) && LotNumber(lots.value[j].lot) != []
      && site.LotPageAt(LotUrl(n.link, lots.value[j].lot)).gotoFails
    ensures CrawlOf(site).outcome == Done([])
  {
    var notices := PortalNotices(site.portal);
    LotNavigationFailureThrows(site, notices[k], j);
    CrawlShape(site);
  }

  /** scrapeNotices. */
  method ScrapeNotices(site: Site) returns (r: Outcome<seq<DetailedNotice>>, ghost browserClosed: bool)
    ensures r == CrawlOf(site).outcome
    ensures browserClosed == CrawlOf(site).browserClosed
  {
    if site.portal.gotoFails {
      return Thrown, false;
    }
    if site.portal.tableFails {
      return Done([]), true;
    }
    var rows := PortalNotices(site.portal);
    var detailedNotices := ScrapeLotTablesInBatch(site, rows);
    browserClosed := true;
    if detailedNotices.Thrown? {
      return Done([]), browserClosed;
    }
    r := detailedNotices;
  }
}
