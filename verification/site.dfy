/** The browser, seen from the scraper: a fixed web site that answers each navigation.
    Nothing here is fetched; every answer the browser could give is a field of `Site`,
    so that the scraper's control flow can be stated over all possible answers. */
module Site {
  import opened Common
  import opened Records

  /** The "next" control of a listing page: missing, present but
      inside a disabled item, or clickable. */
  datatype NextControl = Absent | Disabled | Enabled

  /** One page of a notice's lot listing. `fails` says that a browser call made while this
      page is current throws: the navigation that brought it up never settles, its rows
      never appear within the wait, or extracting them or inspecting the control throws. */
  datatype ListingPage = ListingPage(rows: seq<LotCells>, next: NextControl, fails: bool)

  /** A notice's lot listing: whether navigating to it throws, and its pages in the
      order the "next" control reaches them. Reaching past the last page is a navigation
      that never settles. */
  datatype Listing = Listing(gotoFails: bool, pages: seq<ListingPage>)

  /** A lot's detail page: whether navigating to it throws, whether its table never
      appears (or its extraction throws), and the table's rows. */
  datatype TablePage = TablePage(gotoFails: bool, tableFails: bool, rows: seq<DetailCells>)

  /** The portal page listing the notices, read once without pagination. */
  datatype Portal = Portal(gotoFails: bool, tableFails: bool, rows: seq<NoticeCells>)

  datatype Site = Site(portal: Portal, listings: map<string, Listing>, lotPages: map<string, TablePage>)
  {
    /** The listing at a URL. A URL the site does not serve loads a page without rows,
        so waiting for them fails. */
    function ListingAt(url: string): Listing {
      if url in listings then listings[url] else Listing(false, [])
    }

    /** The detail page at a URL; a URL the site does not serve has no table. */
    function LotPageAt(url: string): TablePage {
      if url in lotPages then lotPages[url] else TablePage(false, true, [])
    }
  }

  /** How many browser pages one operation opened and how many of those it closed. */
  datatype PageUse = PageUse(opens: nat, closes: nat)

  /** What one operation returns (or throws) together with its page bookkeeping. */
  datatype Run<T> = Run(outcome: Outcome<T>, pages: PageUse)
}
