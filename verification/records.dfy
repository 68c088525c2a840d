/** The records the scraper produces and the row mappers that build them from the cells of
    one table row. A DOM query that finds no element is `None`; the text a query returns is
    the element's text content before trimming. */
module Records {
  import opened Common
  import opened Text

  /** The link cell of a notice row: the anchor's href and its text. */
  datatype Anchor = Anchor(href: string, text: string)

  /** One row of the portal's notice table. The lot-count cell is given already parsed. */
  datatype NoticeCells = NoticeCells(anchor: Option<Anchor>, startDate: Option<string>,
                                     endDate: Option<string>, lotCount: Option<int>)

  datatype Notice = Notice(link: string, code: string, description: string,
                           startDate: string, endDate: string, lots: int)

  /** One row of a notice's lot listing; `person` is an image title, which is not trimmed. */
  datatype LotCells = LotCells(lot: Option<string>, minPrice: Option<string>,
                               saleType: Option<string>, status: Option<string>,
                               person: Option<string>, errataWarnings: Option<string>)

  datatype LotRecord = LotRecord(lot: string, minPrice: string, saleType: string, status: string,
                                 person: string, errataWarnings: string, link: string)

  /** One row of a lot's detail table. */
  datatype DetailCells = DetailCells(venue: Option<string>, quantity: Option<string>,
                                     unit: Option<string>, description: Option<string>)

  datatype DetailRow = DetailRow(venue: string, quantity: string, unit: string, description: string)

  /** A lot with its detail table attached. */
  datatype DetailedLot = DetailedLot(lot: string, minPrice: string, saleType: string, status: string,
                                     person: string, errataWarnings: string, link: string,
                                     lotTable: seq<DetailRow>)

  /** A notice with its lots attached. */
  datatype DetailedNotice = DetailedNotice(link: string, code: string, description: string,
                                           startDate: string, endDate: string, lots: int,
                                           lotsDetails: seq<DetailedLot>)

  /** The text of a cell: empty when the cell is missing, otherwise its text trimmed. */
  function CellText(cell: Option<string>): (r: string)
    ensures Trimmed(r)
    ensures cell.None? ==> r == []
    ensures cell.Some? ==> r == Trim(cell.value) && |r| <= |cell.value|
  {
    match cell
    case None => []
    case Some(t) => Trim(t)
  }

  // ---------------------------------------------------------------- notices

  /** The notice-row mapper: link and code come from the anchor, the description is the
      last space-separated word of the code, a missing lot-count cell gives 0. */
  function NoticeFromCells(c: NoticeCells): (n: Notice)
    ensures c.anchor.None? ==> n.link == [] && n.code == [] && n.description == []
    ensures c.lotCount.None? ==> n.lots == 0
  {
    var link := if c.anchor.Some? then c.anchor.value.href else [];
    var code := if c.anchor.Some? then Trim(c.anchor.value.text) else [];
    var description := if c.anchor.Some? then LastToken(Trim(c.anchor.value.text)) else [];
    Notice(link, code, description, CellText(c.startDate), CellText(c.endDate),
           if c.lotCount.Some? then c.lotCount.value else 0)
  }

  /** The description is the part of the trimmed code after its last space: a space-free
      suffix of the code, preceded by a space unless it is the whole code. */
  lemma NoticeDescription(c: NoticeCells)
    ensures var n := NoticeFromCells(c);
      && n.code == n.code[..|n.code| - |n.description|] + n.description
      && ' ' !in n.description
      && (|n.description| == |n.code| || n.code[|n.code| - |n.description| - 1] == ' ')
      && (' ' !in n.code ==> n.description == n.code)
  {
    if c.anchor.Some? {
      LastTokenIsLastWord(Trim(c.anchor.value.text));
    }
  }

  /** The cells of a notice are kept, trimmed, in the record. */
  lemma NoticeFields(c: NoticeCells)
    ensures var n := NoticeFromCells(c);
      && (c.anchor.Some? ==> n.link == c.anchor.value.href && n.code == Trim(c.anchor.value.text))
      && n.startDate == CellText(c.startDate) && n.endDate == CellText(c.endDate)
      && (c.lotCount.Some? ==> n.lots == c.lotCount.value)
  {
  }

  // ---------------------------------------------------------------- lots

  const LotPrefix: string := "Lote "
  const LotPath: string := "/lote/"

  /** The lot's number: the id with its first "Lote " removed, then trimmed. */
  function LotNumber(lotId: string): (r: string)
    ensures |r| <= |lotId|
  {
    Trim(ReplaceFirst(lotId, LotPrefix, []))
  }

  /** The URL of a lot's detail page below its notice's page. */
  function LotUrl(noticeLink: string, lotId: string): (r: string)
    ensures noticeLink + LotPath <= r
    ensures |r| <= |noticeLink| + |LotPath| + |lotId|
  {
    noticeLink + LotPath + LotNumber(lotId)
  }

  /** The link the lot-row mapper gives a lot: empty when the notice has no link. */
  function LotLink(noticeLink: string, lotId: string): (r: string)
    ensures noticeLink == [] ==> r == []
    ensures noticeLink != [] ==> r == LotUrl(noticeLink, lotId)
  {
    if noticeLink != [] then LotUrl(noticeLink, lotId) else []
  }

  /** The lot-row mapper. */
  function LotFromCells(c: LotCells, noticeLink: string): (l: LotRecord)
    ensures l.lot == CellText(c.lot)
    ensures l.link == LotLink(noticeLink, l.lot)
  {
    var lot := CellText(c.lot);
    LotRecord(lot, CellText(c.minPrice), CellText(c.saleType), CellText(c.status),
              if c.person.Some? then c.person.value else [], CellText(c.errataWarnings),
              LotLink(noticeLink, lot))
  }

  /** The detail-row mapper: every field is the trimmed text of its cell, empty when the
      cell is missing. */
  function DetailFromCells(c: DetailCells): (d: DetailRow)
    ensures Trimmed(d.venue) && Trimmed(d.quantity) && Trimmed(d.unit) && Trimmed(d.description)
    ensures c.venue.None? ==> d.venue == []
    ensures c.quantity.None? ==> d.quantity == []
    ensures c.unit.None? ==> d.unit == []
    ensures c.description.None? ==> d.description == []
    ensures c.venue.Some? ==> d.venue == Trim(c.venue.value)
    ensures c.quantity.Some? ==> d.quantity == Trim(c.quantity.value)
    ensures c.unit.Some? ==> d.unit == Trim(c.unit.value)
    ensures c.description.Some? ==> d.description == Trim(c.description.value)
  {
    DetailRow(CellText(c.venue), CellText(c.quantity), CellText(c.unit), CellText(c.description))
  }

  /** Removing "Lote " from "Lote <n>" leaves n. */
  lemma StripLotPrefix(n: string)
    ensures ReplaceFirst(LotPrefix + n, LotPrefix, []) == n
  {
    var s := LotPrefix + n;
    ReplaceFirstOfPrefix(s, LotPrefix, []);
    assert s[|LotPrefix|..] == n;
  }

  /** A lot id written "Lote <n>" has number trim(n). */
  lemma LotNumberOfPrefixed(n: string)
    ensures LotNumber(LotPrefix + n) == Trim(n)
  {
    StripLotPrefix(n);
  }

  /** Two lots of one notice get the same URL exactly when their numbers agree. */
  lemma LotUrlInjective(noticeLink: string, a: string, b: string)
    ensures LotUrl(noticeLink, a) == LotUrl(noticeLink, b) <==> LotNumber(a) == LotNumber(b)
  {
    if LotUrl(noticeLink, a) == LotUrl(noticeLink, b) {
      CancelPrefix(noticeLink + LotPath, LotNumber(a), LotNumber(b));
    }
  }

  /** An id in which "Lote " does not occur has its trimmed self as its number. */
  lemma PlainLotNumber(lotId: string)
    requires forall j: nat :: !OccursAt(lotId, LotPrefix, j)
    ensures LotNumber(lotId) == Trim(lotId)
  {
  }

  /** The derivation only looks at the number, so "Lote 7" and "7" share a URL. */
  lemma LotIdsSharingUrl(noticeLink: string)
    ensures LotUrl(noticeLink, "Lote 7") == LotUrl(noticeLink, "7")
  {
    assert "Lote 7" == LotPrefix + "7";
    LotNumberOfPrefixed("7");
    PlainLotNumber("7");
    TrimOfTrimmed("7");
  }

  /** A non-empty trimmed lot id (what the lot-row mapper produces) always has a non-empty
      number: stripping "Lote " cannot leave it blank. */
  lemma TrimmedLotNumberNonEmpty(lotId: string)
    requires lotId != [] && Trim(lotId) == lotId
    ensures LotNumber(lotId) != []
  {
    var t := ReplaceFirst(lotId, LotPrefix, []);
    RemoveFirstKeepsNonBlank(lotId, LotPrefix);
    TrimEmptyIffBlank(t);
  }

  /** The URL the detail fetch builds from a lot's id is the link the lot-row mapper gave it. */
  lemma LotUrlMatchesRowLink(c: LotCells, noticeLink: string)
    requires noticeLink != []
    ensures var l := LotFromCells(c, noticeLink);
      l.link == noticeLink + "/lote/" + Trim(ReplaceFirst(l.lot, "Lote ", ""))
  {
  }
}
