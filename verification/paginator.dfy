/** scrapeLots: walk a notice's paginated lot listing, collecting every visited page's
    rows until the "next" control is missing or disabled. */
module Paginator {
  import opened Common
  import opened Records
  import opened Site

  /** The records the lot-row mapper makes of one page's rows, in row order. */
  function PageLots(p: ListingPage, noticeLink: string): (r: seq<LotRecord>)
    ensures |r| == |p.rows|
    ensures forall k :: 0 <= k < |p.rows| ==> r[k] == LotFromCells(p.rows[k], noticeLink)
  {
    seq(|p.rows|, k requires 0 <= k < |p.rows| => LotFromCells(p.rows[k], noticeLink))
  }

  /** The records of pages 0 .. n-1, page after page. */
  function Visited(pages: seq<ListingPage>, noticeLink: string, n: nat): seq<LotRecord>
    requires n <= |pages|
  {
    if n == 0 then [] else Visited(pages, noticeLink, n - 1) + PageLots(pages[n - 1], noticeLink)
  }

  /** Page k is where a failure-free walk stops: every earlier page works and offers an
      enabled "next" control, page k works and its control is missing or disabled. */
  predicate StopsAt(pages: seq<ListingPage>, k: nat) {
    && k < |pages|
    && (forall j :: 0 <= j < k ==> !pages[j].fails && pages[j].next == Enabled)
    && !pages[k].fails && pages[k].next != Enabled
  }

  /** Every lot carries the link the lot-row mapper derives from its id and the notice link. */
  predicate LinkedBelow(lots: seq<LotRecord>, noticeLink: string) {
    forall k :: 0 <= k < |lots| ==> lots[k].link == LotLink(noticeLink, lots[k].lot)
  }

  /** The walk from page i on: the rows of the pages it visits, or None when a page
      fails (or the walk runs past the last page). Every lot it yields is linked below
      the notice. */
  function Paginate(pages: seq<ListingPage>, noticeLink: string, i: nat): (r: Option<seq<LotRecord>>)
    requires i <= |pages|
    ensures r.Some? ==> LinkedBelow(r.value, noticeLink)
    decreases |pages| - i
  {
    if i == |pages| || pages[i].fails then None
    else if pages[i].next != Enabled then Some(PageLots(pages[i], noticeLink))
    else Prepend(PageLots(pages[i], noticeLink), Paginate(pages, noticeLink, i + 1))
  }

  /** Rows collected so far, in front of what the rest of the walk yields. */
  function Prepend(acc: seq<LotRecord>, rest: Option<seq<LotRecord>>): Option<seq<LotRecord>> {
    match rest
    case None => None
    case Some(more) => Some(acc + more)
  }

  /** scrapeLots as a whole: a failing navigation to the listing escapes and leaves the
      page open; otherwise the page is closed and the rows of a failure-free walk are
      returned, or [] when the walk failed. */
  function ScrapeLotsRun(site: Site, notice: Notice): (r: Run<seq<LotRecord>>)
    ensures r.pages.opens == 1
    ensures r.pages.closes == 0 <==> r.outcome.Thrown?
    ensures r.outcome.Done? ==> LinkedBelow(r.outcome.value, notice.link)
  {
    var listing := site.ListingAt(notice.link);
    if listing.gotoFails then Run(Thrown, PageUse(1, 0))
    else
      match Paginate(listing.pages, notice.link, 0)
      case None => Run(Done([]), PageUse(1, 1))
      case Some(lots) => Run(Done(lots), PageUse(1, 1))
  }

  lemma PrependTwice(a: seq<LotRecord>, b: seq<LotRecord>, rest: Option<seq<LotRecord>>)
    ensures Prepend(a, Prepend(b, rest)) == Prepend(a + b, rest)
  {
    if rest.Some? {
      assert a + (b + rest.value) == (a + b) + rest.value;
    }
  }

  lemma PrependNothing(rest: Option<seq<LotRecord>>)
    ensures Prepend([], rest) == rest
  {
    if rest.Some? {
      assert [] + rest.value == rest.value;
    }
  }

  /** Walking the first i pages, all working and all enabled, accumulates exactly
      Visited(i) in front of the rest of the walk. */
  lemma {:induction false} Unroll(pages: seq<ListingPage>, noticeLink: string, i: nat)
    requires i <= |pages|
    requires forall j :: 0 <= j < i ==> !pages[j].fails && pages[j].next == Enabled
    ensures Paginate(pages, noticeLink, 0) == Prepend(Visited(pages, noticeLink, i), Paginate(pages, noticeLink, i))
  {
    if i == 0 {
      PrependNothing(Paginate(pages, noticeLink, 0));
    } else {
      Unroll(pages, noticeLink, i - 1);
      PrependTwice(Visited(pages, noticeLink, i - 1), PageLots(pages[i - 1], noticeLink),
                   Paginate(pages, noticeLink, i));
    }
  }

  /** A walk that stops at page k returns the rows of pages 0 .. k in visit order. */
  lemma PaginationStops(pages: seq<ListingPage>, noticeLink: string, k: nat)
    requires StopsAt(pages, k)
    ensures Paginate(pages, noticeLink, 0) == Some(Visited(pages, noticeLink, k + 1))
  {
    Unroll(pages, noticeLink, k);
  }

  /** The walk yields rows only when some page k is where it stops. */
  lemma {:induction false} PaginationNeedsStop(pages: seq<ListingPage>, noticeLink: string, i: nat)
    requires i <= |pages|
    requires forall j :: 0 <= j < i ==> !pages[j].fails && pages[j].next == Enabled
    requires Paginate(pages, noticeLink, i).Some?
    ensures exists k :: StopsAt(pages, k)
    decreases |pages| - i
  {
    if pages[i].next != Enabled {
      assert StopsAt(pages, i);
    } else {
      PaginationNeedsStop(pages, noticeLink, i + 1);
    }
  }

  /** Where a walk stops is unique: the first page whose control is not enabled. */
  lemma StopIsUnique(pages: seq<ListingPage>, k1: nat, k2: nat)
    requires StopsAt(pages, k1) && StopsAt(pages, k2)
    ensures k1 == k2
  {
  }

  /** What scrapeLots returns and which pages it leaves open, for every listing. */
  lemma ScrapeLotsResult(site: Site, notice: Notice)
    ensures var run := ScrapeLotsRun(site, notice); var listing := site.ListingAt(notice.link);
      && (listing.gotoFails <==> run.outcome.Thrown?)
      && (listing.gotoFails ==> run.pages == PageUse(1, 0))
      && (!listing.gotoFails ==> run.pages == PageUse(1, 1))
      && (forall k: nat :: StopsAt(listing.pages, k) && !listing.gotoFails ==>
            run.outcome == Done(Visited(listing.pages, notice.link, k + 1)))
      && ((forall k: nat :: !StopsAt(listing.pages, k)) && !listing.gotoFails ==>
            run.outcome == Done([]))
  {
    var listing := site.ListingAt(notice.link);
    forall k: nat | StopsAt(listing.pages, k)
      ensures Paginate(listing.pages, notice.link, 0) == Some(Visited(listing.pages, notice.link, k + 1))
    {
      PaginationStops(listing.pages, notice.link, k);
    }
    if Paginate(listing.pages, notice.link, 0).Some? {
      PaginationNeedsStop(listing.pages, notice.link, 0);
    }
  }

  /** A listing of one page without rows gives no lots, no escaping failure and its page
      closed, whether the wait for rows times out (the page fails) or not, and whatever
      its "next" control. */
  lemma ZeroRowListing(site: Site, notice: Notice, control: NextControl, fails: bool)
    requires site.ListingAt(notice.link) == Listing(false, [ListingPage([], control, fails)])
    ensures ScrapeLotsRun(site, notice) == Run(Done([]), PageUse(1, 1))
  {
    var pages := [ListingPage([], control, fails)];
    assert PageLots(pages[0], notice.link) == [];
    if !fails && control == Enabled {
      assert Paginate(pages, notice.link, 1) == None;
    }
  }

  /** The lot-listing loop of scrapeLots. */
  method ScrapeLots(site: Site, notice: Notice) returns (r: Outcome<seq<LotRecord>>, ghost pages: PageUse)
    ensures r == ScrapeLotsRun(site, notice).outcome
    ensures pages == ScrapeLotsRun(site, notice).pages
  {
    pages := PageUse(1, 0);
    var listing := site.ListingAt(notice.link);
    if listing.gotoFails {
      return Thrown, pages;
    }
    var lots: seq<LotRecord> := [];
    var i := 0;
    var failed := false;
    PrependNothing(Paginate(listing.pages, notice.link, 0));
    while true
      invariant i <= |listing.pages|
      invariant Paginate(listing.pages, notice.link, 0) == Prepend(lots, Paginate(listing.pages, notice.link, i))
      decreases |listing.pages| - i
    {
      if i == |listing.pages| || listing.pages[i].fails {
        failed := true;
        break;
      }
      var page := listing.pages[i];
      PrependTwice(lots, PageLots(page, notice.link), Paginate(listing.pages, notice.link, i + 1));
      lots := lots + PageLots(page, notice.link);
      if page.next != Enabled {
        break;
      }
      i := i + 1;
    }
    pages := PageUse(1, 1);
    r := if failed then Done([]) else Done(lots);
  }
}
