/** The page-layout cursor of the PDF export (`App.tsx`, lines 232-370),
    without the rasteriser and the PDF library: every block of the review
    page arrives with its height already measured, and the export is a
    sequence of steps on a cursor `y`, a page counter, the list of blocks
    placed so far and the list of footers stamped so far. This module is the
    specification; `PdfExport` runs the same steps imperatively. */
module PdfLayout {
  import opened ReportTypes
  import opened Text

  // ---------------------------------------------------------------------
  // Page geometry (A4 portrait, in millimetres)
  // ---------------------------------------------------------------------

  const PAGE_WIDTH: real := 210.0
  const PAGE_HEIGHT: real := 297.0
  const MARGIN: real := 15.0
  const CONTENT_WIDTH: real := PAGE_WIDTH - MARGIN * 2.0
  /** The lowest a block may end and still count as fitting. */
  const BOTTOM: real := PAGE_HEIGHT - MARGIN
  /** The gap left after every block placed by `addElement` and after the
      machine table. */
  const PADDING: real := 4.0

  /** A block's height at the content width. */
  type Height = h: real | h >= 0.0

  // ---------------------------------------------------------------------
  // The document being built
  // ---------------------------------------------------------------------

  /** The blocks of the review page, in document order. */
  datatype Kind =
    | ReportHeader | GeneralInfoBlock
    | ConfigTitle | StatsBox | ConfigCaption | TableHeader | TableRow(index: nat)
    | ImagesBlock
    | RecsTitle | RecGroup(index: nat)
    | SignatureFooter

  /** A block drawn on page `page` (1-based) with its top edge at `top`. */
  datatype Placement = Placement(kind: Kind, page: nat, top: real, height: Height)

  function End(p: Placement): real { p.top + p.height }

  /** A footer line drawn on page `page`. */
  datatype Stamp = Stamp(page: nat, text: string)

  /** `page` is the page being filled (`pageNumber`); earlier pages are
      finished. */
  datatype Sheet = Sheet(page: nat, placed: seq<Placement>, stamps: seq<Stamp>)

  /** The sheet together with the cursor `y` on its current page. */
  datatype Cursor = Cursor(y: real, sheet: Sheet)

  // ---------------------------------------------------------------------
  // Footers (addPageFooter)
  // ---------------------------------------------------------------------

  const FOOTER_SEPARATOR := "  |  "
  const PAGE_LABEL := "Trang "

  /** Footers are drawn when page numbers are on or a custom text is set. */
  predicate FootersOn(opts: PdfOptions)
  {
    opts.includePageNumbers || opts.customFooterText != ""
  }

  /** The footer of page `n`: the custom text when set, then the page
      label when page numbers are on, joined by the separator; nothing
      when both are off. */
  function FooterText(opts: PdfOptions, n: nat): (r: Option<string>)
    ensures r.None? <==> !FootersOn(opts)
    ensures opts.includePageNumbers && opts.customFooterText != "" ==>
      r == Some(opts.customFooterText + FOOTER_SEPARATOR + PAGE_LABEL + NatToString(n))
    ensures opts.includePageNumbers && opts.customFooterText == "" ==>
      r == Some(PAGE_LABEL + NatToString(n))
    ensures !opts.includePageNumbers && opts.customFooterText != "" ==>
      r == Some(opts.customFooterText)
  {
    if !opts.includePageNumbers && opts.customFooterText == "" then None
    else
      var custom := if opts.customFooterText != "" then [opts.customFooterText] else [];
      var numbered := if opts.includePageNumbers then [PAGE_LABEL + NatToString(n)] else [];
      var parts := custom + numbered;
      if opts.includePageNumbers && opts.customFooterText != "" then
        JoinPair(opts.customFooterText, PAGE_LABEL + NatToString(n), FOOTER_SEPARATOR);
        assert parts == [opts.customFooterText, PAGE_LABEL + NatToString(n)];
        assert opts.customFooterText + FOOTER_SEPARATOR + (PAGE_LABEL + NatToString(n))
          == opts.customFooterText + FOOTER_SEPARATOR + PAGE_LABEL + NatToString(n);
        Some(Join(parts, FOOTER_SEPARATOR))
      else
        Some(Join(parts, FOOTER_SEPARATOR))
  }

  /** What `addPageFooter(n)` stamps: one line, or none. */
  function FooterStamp(opts: PdfOptions, n: nat): seq<Stamp>
  {
    match FooterText(opts, n)
    case None => []
    case Some(t) => [Stamp(n, t)]
  }

  /** The footers of pages 1 to `n`, in order. */
  function FooterStamps(opts: PdfOptions, n: nat): seq<Stamp>
    decreases n
  {
    if n == 0 then [] else FooterStamps(opts, n - 1) + FooterStamp(opts, n)
  }

  /** With footers on, pages 1 to `n` carry exactly one footer each, in page
      order; with footers off there is none at all. */
  lemma {:induction false} FooterStampsExact(opts: PdfOptions, n: nat)
    ensures !FootersOn(opts) ==> FooterStamps(opts, n) == []
    ensures FootersOn(opts) ==>
      var r := FooterStamps(opts, n);
      && |r| == n
      && forall i :: 0 <= i < n ==> r[i] == Stamp(i + 1, FooterText(opts, i + 1).value)
    decreases n
  {
    if n > 0 {
      FooterStampsExact(opts, n - 1);
    }
  }

  /** With page numbers on, no two pages carry the same footer. */
  lemma FooterTextsDistinct(opts: PdfOptions, m: nat, n: nat)
    requires opts.includePageNumbers && m != n
    ensures FooterText(opts, m) != FooterText(opts, n)
  {
    var prefix := if opts.customFooterText != "" then opts.customFooterText + FOOTER_SEPARATOR + PAGE_LABEL else PAGE_LABEL;
    assert FooterText(opts, m).value == prefix + NatToString(m);
    assert FooterText(opts, n).value == prefix + NatToString(n);
    if FooterText(opts, m) == FooterText(opts, n) {
      assert (prefix + NatToString(m))[|prefix|..] == NatToString(m);
      assert (prefix + NatToString(n))[|prefix|..] == NatToString(n);
      NatToStringInjective(m, n);
    }
  }

  /** A footer with text "Draft" and page numbers on reads
      "Draft  |  Trang <n>" on page n. */
  lemma DraftFooter(n: nat)
    ensures FooterText(PdfOptions(true, "Draft"), n) == Some("Draft  |  Trang " + NatToString(n))
  {
    assert "Draft" + FOOTER_SEPARATOR + PAGE_LABEL == "Draft  |  Trang ";
  }

  // ---------------------------------------------------------------------
  // addPage, addElement, addTableHeader and the row loop
  // ---------------------------------------------------------------------

  /** addPage: stamp the current page's footer and start the next page. */
  function AddPage(opts: PdfOptions, s: Sheet): Sheet
  {
    Sheet(s.page + 1, s.placed, s.stamps + FooterStamp(opts, s.page))
  }

  /** The cursor at the top margin of a blank page. */
  function NewPage(opts: PdfOptions, c: Cursor): Cursor
  {
    Cursor(MARGIN, AddPage(opts, c.sheet))
  }

  /** Draw a block at the cursor and move below it, leaving `gap`. */
  function Place(c: Cursor, kind: Kind, h: Height, gap: real): Cursor
  {
    Cursor(c.y + h + gap,
      c.sheet.(placed := c.sheet.placed + [Placement(kind, c.sheet.page, c.y, h)]))
  }

  /** addElement: an absent block changes nothing. A present block goes on
      a new page exactly when it would end below the bottom margin and the
      cursor is below the top margin; it is drawn whole, and the cursor
      moves to its end plus the padding. */
  function AddElement(opts: PdfOptions, c: Cursor, kind: Kind, h: Option<Height>): (r: Cursor)
    ensures h.None? ==> r == c
    ensures h.Some? ==>
      var broke := c.y + h.value > BOTTOM && c.y > MARGIN;
      var top := if broke then MARGIN else c.y;
      && r.sheet.page == (if broke then c.sheet.page + 1 else c.sheet.page)
      && r.sheet.placed == c.sheet.placed + [Placement(kind, r.sheet.page, top, h.value)]
      && r.y == top + h.value + PADDING
  {
    match h
    case None => c
    case Some(height) =>
      var s := if c.y + height > BOTTOM && c.y > MARGIN then NewPage(opts, c) else c;
      Place(s, kind, height, PADDING)
  }

  /** addElement stamps the current page's footer exactly when it starts a
      new page; otherwise the footers are untouched. */
  lemma AddElementStamps(opts: PdfOptions, c: Cursor, kind: Kind, h: Option<Height>)
    ensures var r := AddElement(opts, c, kind, h);
      && (h.Some? && c.y + h.value > BOTTOM && c.y > MARGIN ==>
            r.sheet.stamps == c.sheet.stamps + FooterStamp(opts, c.sheet.page))
      && (h.None? || c.y + h.value <= BOTTOM || c.y <= MARGIN ==> r.sheet.stamps == c.sheet.stamps)
  {
  }

  /** A block that exactly reaches the bottom margin stays on its page. */
  lemma ExactFitStays(opts: PdfOptions, c: Cursor, kind: Kind, h: Height)
    requires c.y + h == BOTTOM
    ensures var r := AddElement(opts, c, kind, Some(h));
      r.sheet.page == c.sheet.page && Last(r.sheet.placed).top == c.y
  {
  }

  /** A block taller than a whole page is drawn, unsplit, from the top
      margin of a page, and overflows the bottom margin. */
  lemma TallBlockAtTopMargin(opts: PdfOptions, c: Cursor, kind: Kind, h: Height)
    requires c.y >= MARGIN && h > BOTTOM - MARGIN
    ensures var r := AddElement(opts, c, kind, Some(h));
      Last(r.sheet.placed).top == MARGIN && End(Last(r.sheet.placed)) > BOTTOM
  {
  }

  /** addTableHeader: an absent header changes nothing. A present header
      goes through the same test as a block: it goes on a new page exactly
      when it would end below the bottom margin and the cursor is below the
      top margin, stamping the current page's footer; it is drawn whole and
      the cursor moves to its end, with no padding. */
  function AddTableHeader(opts: PdfOptions, c: Cursor, header: Option<Height>): (r: Cursor)
    ensures header.None? ==> r == c
    ensures header.Some? ==>
      var broke := c.y + header.value > BOTTOM && c.y > MARGIN;
      var top := if broke then MARGIN else c.y;
      && r.sheet.page == (if broke then c.sheet.page + 1 else c.sheet.page)
      && r.sheet.placed == c.sheet.placed + [Placement(TableHeader, r.sheet.page, top, header.value)]
      && r.sheet.stamps == (if broke then c.sheet.stamps + FooterStamp(opts, c.sheet.page) else c.sheet.stamps)
      && r.y == top + header.value
  {
    match header
    case None => c
    case Some(height) =>
      var s := if c.y + height > BOTTOM && c.y > MARGIN then NewPage(opts, c) else c;
      Place(s, TableHeader, height, 0.0)
  }

  /** One pass of the row loop: a row that would end below the bottom
      margin starts a new page, where the cached header is drawn first; the
      test has no top-margin guard. Rows are stacked without padding. */
  function AddRow(opts: PdfOptions, c: Cursor, header: Option<Height>, i: nat, h: Height): Cursor
  {
    var s := if c.y + h > BOTTOM then AddTableHeader(opts, NewPage(opts, c), header) else c;
    Place(s, TableRow(i), h, 0.0)
  }

  /** The row loop after its first `n` passes. */
  function Rows(opts: PdfOptions, c: Cursor, header: Option<Height>, rows: seq<Height>, n: nat): Cursor
    requires n <= |rows|
    decreases n
  {
    if n == 0 then c else AddRow(opts, Rows(opts, c, header, rows, n - 1), header, n - 1, rows[n - 1])
  }

  lemma RowsUnfold(opts: PdfOptions, c: Cursor, header: Option<Height>, rows: seq<Height>, n: nat)
    requires 0 < n <= |rows|
    ensures Rows(opts, c, header, rows, n) == AddRow(opts, Rows(opts, c, header, rows, n - 1), header, n - 1, rows[n - 1])
  {
  }

  /** One row causes at most one page break. Without a break the row goes
      right under the cursor; after one, the cached header (when there is
      one) is drawn at the top margin and the row right under it. Either
      way the cursor stops at the row's end: rows leave no padding. */
  lemma RowBreaksOnce(opts: PdfOptions, c: Cursor, header: Option<Height>, i: nat, h: Height)
    ensures var r := AddRow(opts, c, header, i, h);
      var page := c.sheet.page;
      && (c.y + h <= BOTTOM ==>
            r.sheet.page == page && r.sheet.placed == c.sheet.placed + [Placement(TableRow(i), page, c.y, h)])
      && (c.y + h > BOTTOM && header.None? ==>
            r.sheet.page == page + 1 && r.sheet.placed == c.sheet.placed + [Placement(TableRow(i), page + 1, MARGIN, h)])
      && (c.y + h > BOTTOM && header.Some? ==>
            r.sheet.page == page + 1
            && r.sheet.placed == c.sheet.placed + [
                 Placement(TableHeader, page + 1, MARGIN, header.value),
                 Placement(TableRow(i), page + 1, MARGIN + header.value, h)])
      && r.y == End(Last(r.sheet.placed))
  {
    if c.y + h > BOTTOM && header.Some? {
      var hh := header.value;
      var q1 := Placement(TableHeader, c.sheet.page + 1, MARGIN, hh);
      var q2 := Placement(TableRow(i), c.sheet.page + 1, MARGIN + hh, h);
      assert c.sheet.placed + [q1] + [q2] == c.sheet.placed + [q1, q2];
    }
  }

  // ---------------------------------------------------------------------
  // The review page and the whole export
  // ---------------------------------------------------------------------

  /** The machine table: its header, when present, and its body rows. */
  datatype Table = Table(header: Option<Height>, rows: seq<Height>)

  /** The machine section: title, summary box, caption and table, each
      possibly absent. */
  datatype ConfigSection = ConfigSection(
    title: Option<Height>, stats: Option<Height>, caption: Option<Height>, table: Option<Table>)

  /** The recommendations section: its title and one block per category
      group. */
  datatype RecsSection = RecsSection(title: Option<Height>, groups: seq<Height>)

  /** The measured review page; an absent section or block is `None`. */
  datatype Report = Report(
    header: Option<Height>,
    info: Option<Height>,
    config: Option<ConfigSection>,
    images: Option<Height>,
    recs: Option<RecsSection>,
    footer: Option<Height>)

  /** Page 1, cursor at the top margin, nothing drawn. */
  const START := Cursor(MARGIN, Sheet(1, [], []))

  /** The table: header once, the rows, then one padding. */
  function AddTable(opts: PdfOptions, c: Cursor, t: Table): Cursor
  {
    var withHeader := AddTableHeader(opts, c, t.header);
    var withRows := Rows(opts, withHeader, t.header, t.rows, |t.rows|);
    withRows.(y := withRows.y + PADDING)
  }

  function AddConfigSection(opts: PdfOptions, c: Cursor, section: Option<ConfigSection>): Cursor
  {
    match section
    case None => c
    case Some(cs) =>
      var c1 := AddElement(opts, c, ConfigTitle, cs.title);
      var c2 := AddElement(opts, c1, StatsBox, cs.stats);
      var c3 := AddElement(opts, c2, ConfigCaption, cs.caption);
      if cs.table.Some? then AddTable(opts, c3, cs.table.value) else c3
  }

  /** The recommendation-group loop after its first `n` passes. */
  function RecGroups(opts: PdfOptions, c: Cursor, groups: seq<Height>, n: nat): Cursor
    requires n <= |groups|
    decreases n
  {
    if n == 0 then c else AddElement(opts, RecGroups(opts, c, groups, n - 1), RecGroup(n - 1), Some(groups[n - 1]))
  }

  lemma RecGroupsUnfold(opts: PdfOptions, c: Cursor, groups: seq<Height>, n: nat)
    requires 0 < n <= |groups|
    ensures RecGroups(opts, c, groups, n) == AddElement(opts, RecGroups(opts, c, groups, n - 1), RecGroup(n - 1), Some(groups[n - 1]))
  {
  }

  function AddRecsSection(opts: PdfOptions, c: Cursor, section: Option<RecsSection>): Cursor
  {
    match section
    case None => c
    case Some(rs) => RecGroups(opts, AddElement(opts, c, RecsTitle, rs.title), rs.groups, |rs.groups|)
  }

  /** The signature footer starts a new page unless the cursor is within
      1 mm of the top margin. */
  function AddSignature(opts: PdfOptions, c: Cursor, footer: Option<Height>): Cursor
  {
    match footer
    case None => c
    case Some(h) =>
      var s := if c.y > MARGIN + 1.0 then NewPage(opts, c) else c;
      AddElement(opts, s, SignatureFooter, Some(h))
  }

  /** Everything up to the signature footer. */
  function BeforeSignature(opts: PdfOptions, report: Report): Cursor
  {
    var c1 := AddElement(opts, START, ReportHeader, report.header);
    var c2 := AddElement(opts, c1, GeneralInfoBlock, report.info);
    var c3 := AddConfigSection(opts, c2, report.config);
    var c4 := AddElement(opts, c3, ImagesBlock, report.images);
    AddRecsSection(opts, c4, report.recs)
  }

  /** handleDownloadPdf once the report element is found: all blocks, then
      the footer of the last page. */
  function Export(opts: PdfOptions, report: Report): Sheet
  {
    var c := AddSignature(opts, BeforeSignature(opts, report), report.footer);
    c.sheet.(stamps := c.sheet.stamps + FooterStamp(opts, c.sheet.page))
  }

  // ---------------------------------------------------------------------
  // The layout invariant
  // ---------------------------------------------------------------------

  function Last(ps: seq<Placement>): Placement
    requires ps != []
  {
    ps[|ps| - 1]
  }

  /** Something has been drawn on the page being filled. */
  predicate PageUsed(c: Cursor)
  {
    c.sheet.placed != [] && Last(c.sheet.placed).page == c.sheet.page
  }

  predicate PagesSorted(ps: seq<Placement>)
  {
    forall i, j :: 0 <= i < j < |ps| ==> ps[i].page <= ps[j].page
  }

  /** Consecutive blocks on one page never overlap: each starts at or below
      the end of the one before. */
  predicate Stacked(ps: seq<Placement>)
  {
    forall j :: 0 < j < |ps| && ps[j - 1].page == ps[j].page ==> ps[j].top >= End(ps[j - 1])
  }

  /** A block ends above the bottom margin, or it could not have been
      moved anywhere better: it starts at the top margin, or right under a
      table header that starts there. */
  predicate FitsOrLeads(ps: seq<Placement>, j: nat)
    requires j < |ps|
  {
    || End(ps[j]) <= BOTTOM
    || ps[j].top == MARGIN
    || (j > 0 && ps[j - 1].kind == TableHeader && ps[j - 1].page == ps[j].page
        && ps[j - 1].top == MARGIN && ps[j].top == End(ps[j - 1]))
  }

  predicate NeverSplit(ps: seq<Placement>)
  {
    forall j :: 0 <= j < |ps| ==> FitsOrLeads(ps, j)
  }

  /** Every block lies on one of pages 1 to `page`, at or below the top
      margin. */
  predicate OnPages(ps: seq<Placement>, page: nat)
  {
    forall j :: 0 <= j < |ps| ==> 1 <= ps[j].page <= page && ps[j].top >= MARGIN
  }

  predicate Shaped(ps: seq<Placement>, page: nat)
  {
    OnPages(ps, page) && PagesSorted(ps) && Stacked(ps) && NeverSplit(ps)
  }

  /** The cursor is below everything on its page; on an unused page it is
      at the top margin, or a full padding below it. */
  predicate CursorBelow(c: Cursor)
  {
    && c.y >= MARGIN
    && (PageUsed(c) ==> c.y >= End(Last(c.sheet.placed)))
    && (!PageUsed(c) ==> c.y == MARGIN || c.y >= MARGIN + PADDING)
  }

  /** What holds between any two steps of the export. */
  predicate Inv(opts: PdfOptions, c: Cursor)
  {
    && c.sheet.page >= 1
    && c.sheet.stamps == FooterStamps(opts, c.sheet.page - 1)
    && Shaped(c.sheet.placed, c.sheet.page)
    && CursorBelow(c)
  }

  /** What holds between blocks, outside the table's rows: the padding
      after the last block has been added. */
  predicate Settled(opts: PdfOptions, c: Cursor)
  {
    Inv(opts, c) && (PageUsed(c) ==> c.y >= End(Last(c.sheet.placed)) + PADDING)
  }

  lemma NewPageSettled(opts: PdfOptions, c: Cursor)
    requires Inv(opts, c)
    ensures Settled(opts, NewPage(opts, c)) && !PageUsed(NewPage(opts, c))
  {
    var s := c.sheet;
    assert FooterStamps(opts, s.page) == FooterStamps(opts, s.page - 1) + FooterStamp(opts, s.page);
  }

  lemma PlaceInv(opts: PdfOptions, c: Cursor, kind: Kind, h: Height, gap: real)
    requires Inv(opts, c) && gap >= 0.0
    requires FitsOrLeads(Place(c, kind, h, gap).sheet.placed, |c.sheet.placed|)
    ensures Inv(opts, Place(c, kind, h, gap))
    ensures gap >= PADDING ==> Settled(opts, Place(c, kind, h, gap))
  {
    var ps := c.sheet.placed;
    var q := Placement(kind, c.sheet.page, c.y, h);
    assert Place(c, kind, h, gap).sheet.placed == ps + [q];
    AppendShaped(ps, q, c.sheet.page);
  }

  /** Appending a block on the current page, below the last block there,
      keeps the document's shape. */
  lemma AppendShaped(ps: seq<Placement>, q: Placement, page: nat)
    requires Shaped(ps, page) && page >= 1 && q.page == page && q.top >= MARGIN
    requires ps != [] && Last(ps).page == page ==> q.top >= End(Last(ps))
    requires FitsOrLeads(ps + [q], |ps|)
    ensures Shaped(ps + [q], page)
  {
    var r := ps + [q];
    assert forall j :: 0 <= j < |ps| ==> r[j] == ps[j];
    assert OnPages(r, page);
    assert PagesSorted(r) by {
      forall i, j | 0 <= i < j < |r| ensures r[i].page <= r[j].page {
        if j < |ps| {
          assert r[i] == ps[i] && r[j] == ps[j];
        } else {
          assert r[i] == ps[i];
        }
      }
    }
    assert Stacked(r) by {
      forall j | 0 < j < |r| && r[j - 1].page == r[j].page ensures r[j].top >= End(r[j - 1]) {
        if j < |ps| {
          assert r[j - 1] == ps[j - 1] && r[j] == ps[j];
        }
      }
    }
    assert NeverSplit(r) by {
      forall j | 0 <= j < |r| ensures FitsOrLeads(r, j) {
        if j < |ps| {
          assert FitsOrLeads(ps, j);
        }
      }
    }
  }

  lemma AddElementSettled(opts: PdfOptions, c: Cursor, kind: Kind, h: Option<Height>)
    requires Settled(opts, c)
    ensures Settled(opts, AddElement(opts, c, kind, h))
  {
    if h.Some? {
      var s := if c.y + h.value > BOTTOM && c.y > MARGIN then NewPage(opts, c) else c;
      if s != c {
        NewPageSettled(opts, c);
      }
      PlaceInv(opts, s, kind, h.value, PADDING);
    }
  }

  lemma AddTableHeaderInv(opts: PdfOptions, c: Cursor, header: Option<Height>)
    requires Inv(opts, c)
    ensures Inv(opts, AddTableHeader(opts, c, header))
  {
    if header.Some? {
      var s := if c.y + header.value > BOTTOM && c.y > MARGIN then NewPage(opts, c) else c;
      if s != c {
        NewPageSettled(opts, c);
      }
      PlaceInv(opts, s, TableHeader, header.value, 0.0);
    }
  }

  lemma AddRowInv(opts: PdfOptions, c: Cursor, header: Option<Height>, i: nat, h: Height)
    requires Inv(opts, c)
    ensures Inv(opts, AddRow(opts, c, header, i, h))
  {
    if c.y + h > BOTTOM {
      var blank := NewPage(opts, c);
      NewPageSettled(opts, c);
      var s := AddTableHeader(opts, blank, header);
      AddTableHeaderInv(opts, blank, header);
      var ps := Place(s, TableRow(i), h, 0.0).sheet.placed;
      var n := |s.sheet.placed|;
      if header.Some? {
        assert s == Place(blank, TableHeader, header.value, 0.0);
        assert ps[n - 1] == Placement(TableHeader, blank.sheet.page, MARGIN, header.value);
        assert FitsOrLeads(ps, n);
      }
      PlaceInv(opts, s, TableRow(i), h, 0.0);
    } else {
      PlaceInv(opts, c, TableRow(i), h, 0.0);
    }
  }

  lemma {:induction false} RowsInv(opts: PdfOptions, c: Cursor, header: Option<Height>, rows: seq<Height>, n: nat)
    requires Inv(opts, c) && n <= |rows|
    ensures Inv(opts, Rows(opts, c, header, rows, n))
    decreases n
  {
    if n > 0 {
      RowsInv(opts, c, header, rows, n - 1);
      RowsInvStep(opts, c, header, rows, n);
    }
  }

  lemma RowsInvStep(opts: PdfOptions, c: Cursor, header: Option<Height>, rows: seq<Height>, n: nat)
    requires 0 < n <= |rows|
    requires Inv(opts, Rows(opts, c, header, rows, n - 1))
    ensures Inv(opts, Rows(opts, c, header, rows, n))
  {
    RowsUnfold(opts, c, header, rows, n);
    AddRowInv(opts, Rows(opts, c, header, rows, n - 1), header, n - 1, rows[n - 1]);
  }

  lemma AddTableSettled(opts: PdfOptions, c: Cursor, t: Table)
    requires Inv(opts, c)
    ensures Settled(opts, AddTable(opts, c, t))
  {
    var withHeader := AddTableHeader(opts, c, t.header);
    AddTableHeaderInv(opts, c, t.header);
    RowsInv(opts, withHeader, t.header, t.rows, |t.rows|);
    PaddedSettled(opts, Rows(opts, withHeader, t.header, t.rows, |t.rows|));
  }

  /** Padding below a cursor that keeps the invariant settles it. */
  lemma PaddedSettled(opts: PdfOptions, c: Cursor)
    requires Inv(opts, c)
    ensures Settled(opts, c.(y := c.y + PADDING))
  {
  }

  lemma AddConfigSectionSettled(opts: PdfOptions, c: Cursor, section: Option<ConfigSection>)
    requires Settled(opts, c)
    ensures Settled(opts, AddConfigSection(opts, c, section))
  {
    if section.Some? {
      var cs := section.value;
      var c1 := AddElement(opts, c, ConfigTitle, cs.title);
      AddElementSettled(opts, c, ConfigTitle, cs.title);
      var c2 := AddElement(opts, c1, StatsBox, cs.stats);
      AddElementSettled(opts, c1, StatsBox, cs.stats);
      var c3 := AddElement(opts, c2, ConfigCaption, cs.caption);
      AddElementSettled(opts, c2, ConfigCaption, cs.caption);
      if cs.table.Some? {
        AddTableSettled(opts, c3, cs.table.value);
      }
    }
  }

  lemma {:induction false} RecGroupsSettled(opts: PdfOptions, c: Cursor, groups: seq<Height>, n: nat)
    requires Settled(opts, c) && n <= |groups|
    ensures Settled(opts, RecGroups(opts, c, groups, n))
    decreases n
  {
    if n > 0 {
      RecGroupsSettled(opts, c, groups, n - 1);
      RecGroupsUnfold(opts, c, groups, n);
      RecGroupSettledStep(opts, RecGroups(opts, c, groups, n - 1), RecGroups(opts, c, groups, n), n - 1, groups[n - 1]);
    }
  }

  lemma RecGroupSettledStep(opts: PdfOptions, prev: Cursor, next: Cursor, i: nat, h: Height)
    requires next == AddElement(opts, prev, RecGroup(i), Some(h)) && Settled(opts, prev)
    ensures Settled(opts, next)
  {
    AddElementSettled(opts, prev, RecGroup(i), Some(h));
  }

  lemma AddRecsSectionSettled(opts: PdfOptions, c: Cursor, section: Option<RecsSection>)
    requires Settled(opts, c)
    ensures Settled(opts, AddRecsSection(opts, c, section))
  {
    if section.Some? {
      var rs := section.value;
      AddElementSettled(opts, c, RecsTitle, rs.title);
      RecGroupsSettled(opts, AddElement(opts, c, RecsTitle, rs.title), rs.groups, |rs.groups|);
    }
  }

  /** Before the signature footer is drawn, the cursor stands at the top
      margin of a page that holds nothing yet. */
  lemma SignaturePageEmpty(opts: PdfOptions, c: Cursor)
    requires Settled(opts, c)
    ensures var s := if c.y > MARGIN + 1.0 then NewPage(opts, c) else c;
      Settled(opts, s) && !PageUsed(s) && s.y == MARGIN
  {
    if c.y > MARGIN + 1.0 {
      NewPageSettled(opts, c);
    } else if PageUsed(c) {
      assert false;
    }
  }

  lemma AddSignatureSettled(opts: PdfOptions, c: Cursor, footer: Option<Height>)
    requires Settled(opts, c)
    ensures Settled(opts, AddSignature(opts, c, footer))
  {
    if footer.Some? {
      SignaturePageEmpty(opts, c);
      var s := if c.y > MARGIN + 1.0 then NewPage(opts, c) else c;
      AddElementSettled(opts, s, SignatureFooter, footer);
    }
  }

  lemma BeforeSignatureSettled(opts: PdfOptions, report: Report)
    ensures Settled(opts, BeforeSignature(opts, report))
  {
    var c1 := AddElement(opts, START, ReportHeader, report.header);
    AddElementSettled(opts, START, ReportHeader, report.header);
    var c2 := AddElement(opts, c1, GeneralInfoBlock, report.info);
    AddElementSettled(opts, c1, GeneralInfoBlock, report.info);
    var c3 := AddConfigSection(opts, c2, report.config);
    AddConfigSectionSettled(opts, c2, report.config);
    var c4 := AddElement(opts, c3, ImagesBlock, report.images);
    AddElementSettled(opts, c3, ImagesBlock, report.images);
    AddRecsSectionSettled(opts, c4, report.recs);
  }

  // ---------------------------------------------------------------------
  // Properties of the finished document
  // ---------------------------------------------------------------------

  /** The last page's footer completes the footers and leaves the blocks
      as they are. */
  lemma FinalFooter(opts: PdfOptions, c: Cursor)
    requires Inv(opts, c)
    ensures var d := c.sheet.(stamps := c.sheet.stamps + FooterStamp(opts, c.sheet.page));
      && d.page >= 1
      && d.stamps == FooterStamps(opts, d.page)
      && Shaped(d.placed, d.page)
  {
    assert FooterStamps(opts, c.sheet.page) == FooterStamps(opts, c.sheet.page - 1) + FooterStamp(opts, c.sheet.page);
  }

  /** The finished document: every page 1..N carries exactly its own
      footer (none when footers are off); every block lies on one of those
      pages at or below the top margin; pages only grow in document order;
      blocks on one page never overlap; and a block that ends below the
      bottom margin starts at the top of its page or right under the table
      header there. */
  lemma ExportLayout(opts: PdfOptions, report: Report)
    ensures var d := Export(opts, report);
      && d.page >= 1
      && d.stamps == FooterStamps(opts, d.page)
      && (forall j :: 0 <= j < |d.placed| ==> 1 <= d.placed[j].page <= d.page && d.placed[j].top >= MARGIN)
      && PagesSorted(d.placed)
      && Stacked(d.placed)
      && NeverSplit(d.placed)
  {
    var b := BeforeSignature(opts, report);
    BeforeSignatureSettled(opts, report);
    var c := AddSignature(opts, b, report.footer);
    AddSignatureSettled(opts, b, report.footer);
    FinalFooter(opts, c);
    var d := c.sheet.(stamps := c.sheet.stamps + FooterStamp(opts, c.sheet.page));
    assert Export(opts, report) == d;
    assert Shaped(d.placed, d.page);
  }

  /** On a settled, unused page every block drawn so far is on an earlier
      page. */
  lemma EarlierPages(opts: PdfOptions, s: Cursor)
    requires Settled(opts, s) && !PageUsed(s)
    ensures forall j :: 0 <= j < |s.sheet.placed| ==> s.sheet.placed[j].page < s.sheet.page
  {
    var ps := s.sheet.placed;
    if ps != [] {
      assert Last(ps).page < s.sheet.page;
    }
  }

  /** The signature footer is the last block, alone at the top margin of
      its own page: every other block is on an earlier page. */
  lemma SignatureStartsPage(opts: PdfOptions, report: Report)
    requires report.footer.Some?
    ensures var ps := Export(opts, report).placed;
      && ps != []
      && Last(ps).kind == SignatureFooter
      && Last(ps).top == MARGIN
      && forall j :: 0 <= j < |ps| - 1 ==> ps[j].page < Last(ps).page
  {
    var b := BeforeSignature(opts, report);
    BeforeSignatureSettled(opts, report);
    SignaturePageEmpty(opts, b);
    var s := if b.y > MARGIN + 1.0 then NewPage(opts, b) else b;
    EarlierPages(opts, s);
    var q := Placement(SignatureFooter, s.sheet.page, MARGIN, report.footer.value);
    var r := AddElement(opts, s, SignatureFooter, report.footer);
    assert r.sheet.placed == s.sheet.placed + [q];
    assert AddSignature(opts, b, report.footer) == r;
    assert Export(opts, report).placed == s.sheet.placed + [q];
  }

  // ---------------------------------------------------------------------
  // The table header leads every page of rows
  // ---------------------------------------------------------------------

  /** Every body row directly follows, on the same page, the table header
      or another row; so the first row of each page is drawn under the
      header, and the header ends where it begins (`Stacked`). */
  predicate RowsLed(ps: seq<Placement>)
  {
    forall j :: 0 <= j < |ps| ==> LedAt(ps, j)
  }

  /** Block `j`, if it is a row, follows the header or a row on its page. */
  predicate LedAt(ps: seq<Placement>, j: nat)
    requires j < |ps|
  {
    ps[j].kind.TableRow? ==>
      j > 0 && ps[j - 1].page == ps[j].page && (ps[j - 1].kind == TableHeader || ps[j - 1].kind.TableRow?)
  }

  /** The last block is the table header or a row, on the current page. */
  predicate TableOpen(c: Cursor)
  {
    PageUsed(c) && (Last(c.sheet.placed).kind == TableHeader || Last(c.sheet.placed).kind.TableRow?)
  }

  lemma PlaceLed(c: Cursor, kind: Kind, h: Height, gap: real)
    requires RowsLed(c.sheet.placed)
    requires kind.TableRow? ==> TableOpen(c)
    ensures RowsLed(Place(c, kind, h, gap).sheet.placed)
  {
    var ps := c.sheet.placed;
    var r := ps + [Placement(kind, c.sheet.page, c.y, h)];
    forall j | 0 <= j < |r| ensures LedAt(r, j) {
      if j < |ps| {
        assert LedAt(ps, j);
        assert r[j] == ps[j];
        if j > 0 {
          assert r[j - 1] == ps[j - 1];
        }
      }
    }
  }

  lemma AddElementLed(opts: PdfOptions, c: Cursor, kind: Kind, h: Option<Height>)
    requires RowsLed(c.sheet.placed) && !kind.TableRow?
    ensures RowsLed(AddElement(opts, c, kind, h).sheet.placed)
  {
    if h.Some? {
      var s := if c.y + h.value > BOTTOM && c.y > MARGIN then NewPage(opts, c) else c;
      PlaceLed(s, kind, h.value, PADDING);
    }
  }

  lemma AddTableHeaderLed(opts: PdfOptions, c: Cursor, header: Option<Height>)
    requires RowsLed(c.sheet.placed)
    ensures RowsLed(AddTableHeader(opts, c, header).sheet.placed)
    ensures header.Some? ==> TableOpen(AddTableHeader(opts, c, header))
  {
    if header.Some? {
      var s := if c.y + header.value > BOTTOM && c.y > MARGIN then NewPage(opts, c) else c;
      PlaceLed(s, TableHeader, header.value, 0.0);
    }
  }

  lemma AddRowLed(opts: PdfOptions, c: Cursor, header: Option<Height>, i: nat, h: Height)
    requires header.Some? && RowsLed(c.sheet.placed) && TableOpen(c)
    ensures RowsLed(AddRow(opts, c, header, i, h).sheet.placed)
  {
    var s := if c.y + h > BOTTOM then AddTableHeader(opts, NewPage(opts, c), header) else c;
    if c.y + h > BOTTOM {
      AddTableHeaderLed(opts, NewPage(opts, c), header);
    }
    PlaceLed(s, TableRow(i), h, 0.0);
  }

  /** After the first row, the table is open: a row is the last block. */
  lemma RowsOpen(opts: PdfOptions, c: Cursor, header: Option<Height>, rows: seq<Height>, n: nat)
    requires TableOpen(c) && n <= |rows|
    ensures TableOpen(Rows(opts, c, header, rows, n))
  {
    if n > 0 {
      var prev := Rows(opts, c, header, rows, n - 1);
      var s := if prev.y + rows[n - 1] > BOTTOM then AddTableHeader(opts, NewPage(opts, prev), header) else prev;
      assert Rows(opts, c, header, rows, n) == Place(s, TableRow(n - 1), rows[n - 1], 0.0);
    }
  }

  lemma {:induction false} RowsLedAll(opts: PdfOptions, c: Cursor, header: Option<Height>, rows: seq<Height>, n: nat)
    requires header.Some? && RowsLed(c.sheet.placed) && TableOpen(c) && n <= |rows|
    ensures RowsLed(Rows(opts, c, header, rows, n).sheet.placed)
    decreases n
  {
    if n > 0 {
      RowsLedAll(opts, c, header, rows, n - 1);
      RowsLedStep(opts, c, header, rows, n);
    }
  }

  lemma RowsLedStep(opts: PdfOptions, c: Cursor, header: Option<Height>, rows: seq<Height>, n: nat)
    requires header.Some? && TableOpen(c) && 0 < n <= |rows|
    requires RowsLed(Rows(opts, c, header, rows, n - 1).sheet.placed)
    ensures RowsLed(Rows(opts, c, header, rows, n).sheet.placed)
  {
    var prev := Rows(opts, c, header, rows, n - 1);
    RowsOpen(opts, c, header, rows, n - 1);
    RowsUnfold(opts, c, header, rows, n);
    RowLedAt(opts, prev, Rows(opts, c, header, rows, n), header, n - 1, rows[n - 1]);
  }

  lemma RowLedAt(opts: PdfOptions, prev: Cursor, next: Cursor, header: Option<Height>, i: nat, h: Height)
    requires next == AddRow(opts, prev, header, i, h)
    requires header.Some? && RowsLed(prev.sheet.placed) && TableOpen(prev)
    ensures RowsLed(next.sheet.placed)
  {
    AddRowLed(opts, prev, header, i, h);
  }

  /** A table's rows are led by its header when it has one. */
  predicate HeaderIfRows(section: Option<ConfigSection>)
  {
    section.Some? && section.value.table.Some? ==> section.value.table.value.header.Some?
  }

  lemma AddConfigSectionLed(opts: PdfOptions, c: Cursor, section: Option<ConfigSection>)
    requires RowsLed(c.sheet.placed) && HeaderIfRows(section)
    ensures RowsLed(AddConfigSection(opts, c, section).sheet.placed)
  {
    if section.Some? {
      var cs := section.value;
      var c1 := AddElement(opts, c, ConfigTitle, cs.title);
      AddElementLed(opts, c, ConfigTitle, cs.title);
      var c2 := AddElement(opts, c1, StatsBox, cs.stats);
      AddElementLed(opts, c1, StatsBox, cs.stats);
      var c3 := AddElement(opts, c2, ConfigCaption, cs.caption);
      AddElementLed(opts, c2, ConfigCaption, cs.caption);
      if cs.table.Some? {
        var t := cs.table.value;
        AddTableHeaderLed(opts, c3, t.header);
        RowsLedAll(opts, AddTableHeader(opts, c3, t.header), t.header, t.rows, |t.rows|);
      }
    }
  }

  lemma {:induction false} RecGroupsLed(opts: PdfOptions, c: Cursor, groups: seq<Height>, n: nat)
    requires RowsLed(c.sheet.placed) && n <= |groups|
    ensures RowsLed(RecGroups(opts, c, groups, n).sheet.placed)
    decreases n
  {
    if n > 0 {
      RecGroupsLed(opts, c, groups, n - 1);
      RecGroupsUnfold(opts, c, groups, n);
      RecGroupLedStep(opts, RecGroups(opts, c, groups, n - 1), RecGroups(opts, c, groups, n), n - 1, groups[n - 1]);
    }
  }

  lemma RecGroupLedStep(opts: PdfOptions, prev: Cursor, next: Cursor, i: nat, h: Height)
    requires next == AddElement(opts, prev, RecGroup(i), Some(h))
    requires RowsLed(prev.sheet.placed)
    ensures RowsLed(next.sheet.placed)
  {
    AddElementLed(opts, prev, RecGroup(i), Some(h));
  }

  /** When the machine table has a header, every body row in the document
      is drawn directly under the header or under another row of its own
      page. */
  lemma HeaderLeadsRows(opts: PdfOptions, report: Report)
    requires HeaderIfRows(report.config)
    ensures RowsLed(Export(opts, report).placed)
  {
    var c1 := AddElement(opts, START, ReportHeader, report.header);
    AddElementLed(opts, START, ReportHeader, report.header);
    var c2 := AddElement(opts, c1, GeneralInfoBlock, report.info);
    AddElementLed(opts, c1, GeneralInfoBlock, report.info);
    var c3 := AddConfigSection(opts, c2, report.config);
    AddConfigSectionLed(opts, c2, report.config);
    var c4 := AddElement(opts, c3, ImagesBlock, report.images);
    AddElementLed(opts, c3, ImagesBlock, report.images);
    var c5 := AddRecsSection(opts, c4, report.recs);
    if report.recs.Some? {
      var rs := report.recs.value;
      AddElementLed(opts, c4, RecsTitle, rs.title);
      RecGroupsLed(opts, AddElement(opts, c4, RecsTitle, rs.title), rs.groups, |rs.groups|);
    }
    if report.footer.Some? {
      var s := if c5.y > MARGIN + 1.0 then NewPage(opts, c5) else c5;
      AddElementLed(opts, s, SignatureFooter, report.footer);
    }
  }

  // ---------------------------------------------------------------------
  // Every block is drawn once, in document order
  // ---------------------------------------------------------------------

  /** The kinds of the blocks drawn, leaving out the table header, which
      is the only block that may be drawn more than once. */
  function Drawn(ps: seq<Placement>): seq<Kind>
  {
    if ps == [] then []
    else (if ps[0].kind == TableHeader then [] else [ps[0].kind]) + Drawn(ps[1..])
  }

  lemma {:induction false} DrawnAppend(a: seq<Placement>, b: seq<Placement>)
    ensures Drawn(a + b) == Drawn(a) + Drawn(b)
  {
    if a == [] {
      assert a + b == b;
    } else {
      assert (a + b)[1..] == a[1..] + b;
      DrawnAppend(a[1..], b);
    }
  }

  /** `[k]` for a present block, `[]` for an absent one. */
  function IfPresent(k: Kind, h: Option<Height>): seq<Kind>
  {
    if h.Some? then [k] else []
  }

  /** `[TableRow(0), ..., TableRow(n - 1)]` */
  function RowKinds(n: nat): seq<Kind>
  {
    if n == 0 then [] else RowKinds(n - 1) + [TableRow(n - 1)]
  }

  /** `[RecGroup(0), ..., RecGroup(n - 1)]` */
  function GroupKinds(n: nat): seq<Kind>
  {
    if n == 0 then [] else GroupKinds(n - 1) + [RecGroup(n - 1)]
  }

  lemma AppendChain(x0: seq<Kind>, x1: seq<Kind>, x2: seq<Kind>, x3: seq<Kind>, x4: seq<Kind>,
                    a: seq<Kind>, b: seq<Kind>, d: seq<Kind>, e: seq<Kind>)
    requires x1 == x0 + a && x2 == x1 + b && x3 == x2 + d && x4 == x3 + e
    ensures x4 == x0 + (a + b + d + e)
  {
  }

  lemma SnocStep(x0: seq<Kind>, x1: seq<Kind>, x2: seq<Kind>, ks: seq<Kind>, k: Kind)
    requires x1 == x0 + ks && x2 == x1 + [k]
    ensures x2 == x0 + (ks + [k])
  {
  }

  lemma ConcatAssoc(a: seq<Kind>, b: seq<Kind>, c: seq<Kind>)
    ensures a + b + c == a + (b + c)
  {
  }

  /** The machine section's blocks, in order. */
  function ConfigKinds(section: Option<ConfigSection>): seq<Kind>
  {
    match section
    case None => []
    case Some(cs) =>
      IfPresent(ConfigTitle, cs.title) + IfPresent(StatsBox, cs.stats) + IfPresent(ConfigCaption, cs.caption)
      + (if cs.table.Some? then RowKinds(|cs.table.value.rows|) else [])
  }

  /** The recommendations section's blocks, in order. */
  function RecsKinds(section: Option<RecsSection>): seq<Kind>
  {
    match section
    case None => []
    case Some(rs) => IfPresent(RecsTitle, rs.title) + GroupKinds(|rs.groups|)
  }

  /** The review page's blocks in document order, the table header left
      out. */
  function DocumentOrder(report: Report): seq<Kind>
  {
    IfPresent(ReportHeader, report.header) + IfPresent(GeneralInfoBlock, report.info)
    + ConfigKinds(report.config) + IfPresent(ImagesBlock, report.images)
    + RecsKinds(report.recs) + IfPresent(SignatureFooter, report.footer)
  }

  lemma PlaceDrawn(c: Cursor, kind: Kind, h: Height, gap: real)
    ensures Drawn(Place(c, kind, h, gap).sheet.placed)
      == Drawn(c.sheet.placed) + (if kind == TableHeader then [] else [kind])
  {
    var q := Placement(kind, c.sheet.page, c.y, h);
    DrawnAppend(c.sheet.placed, [q]);
    assert [q][1..] == [];
  }

  lemma AddElementDrawn(opts: PdfOptions, c: Cursor, kind: Kind, h: Option<Height>)
    requires kind != TableHeader
    ensures Drawn(AddElement(opts, c, kind, h).sheet.placed) == Drawn(c.sheet.placed) + IfPresent(kind, h)
  {
    if h.Some? {
      var s := if c.y + h.value > BOTTOM && c.y > MARGIN then NewPage(opts, c) else c;
      PlaceDrawn(s, kind, h.value, PADDING);
    } else {
      assert Drawn(c.sheet.placed) + [] == Drawn(c.sheet.placed);
    }
  }

  lemma AddTableHeaderDrawn(opts: PdfOptions, c: Cursor, header: Option<Height>)
    ensures Drawn(AddTableHeader(opts, c, header).sheet.placed) == Drawn(c.sheet.placed)
  {
    if header.Some? {
      var s := if c.y + header.value > BOTTOM && c.y > MARGIN then NewPage(opts, c) else c;
      PlaceDrawn(s, TableHeader, header.value, 0.0);
      assert Drawn(s.sheet.placed) + [] == Drawn(s.sheet.placed);
    }
  }

  lemma AddRowDrawn(opts: PdfOptions, c: Cursor, header: Option<Height>, i: nat, h: Height)
    ensures Drawn(AddRow(opts, c, header, i, h).sheet.placed) == Drawn(c.sheet.placed) + [TableRow(i)]
  {
    var s := if c.y + h > BOTTOM then AddTableHeader(opts, NewPage(opts, c), header) else c;
    if c.y + h > BOTTOM {
      AddTableHeaderDrawn(opts, NewPage(opts, c), header);
    }
    PlaceDrawn(s, TableRow(i), h, 0.0);
  }

  lemma {:induction false} RowsDrawn(opts: PdfOptions, c: Cursor, header: Option<Height>, rows: seq<Height>, n: nat)
    requires n <= |rows|
    ensures Drawn(Rows(opts, c, header, rows, n).sheet.placed) == Drawn(c.sheet.placed) + RowKinds(n)
    decreases n
  {
    if n == 0 {
      assert Drawn(c.sheet.placed) + [] == Drawn(c.sheet.placed);
    } else {
      RowsDrawn(opts, c, header, rows, n - 1);
      RowsDrawnStep(opts, c, header, rows, n);
    }
  }

  lemma RowsDrawnStep(opts: PdfOptions, c: Cursor, header: Option<Height>, rows: seq<Height>, n: nat)
    requires 0 < n <= |rows|
    requires Drawn(Rows(opts, c, header, rows, n - 1).sheet.placed) == Drawn(c.sheet.placed) + RowKinds(n - 1)
    ensures Drawn(Rows(opts, c, header, rows, n).sheet.placed) == Drawn(c.sheet.placed) + RowKinds(n)
  {
    var prev := Rows(opts, c, header, rows, n - 1);
    AddRowDrawn(opts, prev, header, n - 1, rows[n - 1]);
    SnocStep(Drawn(c.sheet.placed), Drawn(prev.sheet.placed),
      Drawn(AddRow(opts, prev, header, n - 1, rows[n - 1]).sheet.placed), RowKinds(n - 1), TableRow(n - 1));
  }

  lemma AddConfigSectionDrawn(opts: PdfOptions, c: Cursor, section: Option<ConfigSection>)
    ensures Drawn(AddConfigSection(opts, c, section).sheet.placed) == Drawn(c.sheet.placed) + ConfigKinds(section)
  {
    if section.None? {
      assert Drawn(c.sheet.placed) + [] == Drawn(c.sheet.placed);
    } else {
      var cs := section.value;
      var c1 := AddElement(opts, c, ConfigTitle, cs.title);
      AddElementDrawn(opts, c, ConfigTitle, cs.title);
      var c2 := AddElement(opts, c1, StatsBox, cs.stats);
      AddElementDrawn(opts, c1, StatsBox, cs.stats);
      var c3 := AddElement(opts, c2, ConfigCaption, cs.caption);
      AddElementDrawn(opts, c2, ConfigCaption, cs.caption);
      var tail: seq<Kind>;
      if cs.table.Some? {
        var t := cs.table.value;
        AddTableHeaderDrawn(opts, c3, t.header);
        RowsDrawn(opts, AddTableHeader(opts, c3, t.header), t.header, t.rows, |t.rows|);
        tail := RowKinds(|t.rows|);
      } else {
        tail := [];
      }
      assert Drawn(AddConfigSection(opts, c, section).sheet.placed) == Drawn(c3.sheet.placed) + tail;
      AppendChain(Drawn(c.sheet.placed), Drawn(c1.sheet.placed), Drawn(c2.sheet.placed), Drawn(c3.sheet.placed),
        Drawn(AddConfigSection(opts, c, section).sheet.placed),
        IfPresent(ConfigTitle, cs.title), IfPresent(StatsBox, cs.stats), IfPresent(ConfigCaption, cs.caption), tail);
    }
  }

  lemma {:induction false} RecGroupsDrawn(opts: PdfOptions, c: Cursor, groups: seq<Height>, n: nat)
    requires n <= |groups|
    ensures Drawn(RecGroups(opts, c, groups, n).sheet.placed) == Drawn(c.sheet.placed) + GroupKinds(n)
    decreases n
  {
    if n > 0 {
      RecGroupsDrawn(opts, c, groups, n - 1);
      RecGroupsUnfold(opts, c, groups, n);
      RecGroupsDrawnStep(opts, RecGroups(opts, c, groups, n - 1), RecGroups(opts, c, groups, n), n - 1, groups[n - 1],
        Drawn(c.sheet.placed), GroupKinds(n - 1));
    }
  }

  lemma RecGroupsDrawnStep(opts: PdfOptions, prev: Cursor, next: Cursor, i: nat, h: Height, x0: seq<Kind>, ks: seq<Kind>)
    requires next == AddElement(opts, prev, RecGroup(i), Some(h))
    requires Drawn(prev.sheet.placed) == x0 + ks
    ensures Drawn(next.sheet.placed) == x0 + (ks + [RecGroup(i)])
  {
    AddElementDrawn(opts, prev, RecGroup(i), Some(h));
  }

  lemma AddRecsSectionDrawn(opts: PdfOptions, c: Cursor, section: Option<RecsSection>)
    ensures Drawn(AddRecsSection(opts, c, section).sheet.placed) == Drawn(c.sheet.placed) + RecsKinds(section)
  {
    if section.None? {
      assert Drawn(c.sheet.placed) + [] == Drawn(c.sheet.placed);
    } else {
      var rs := section.value;
      var c1 := AddElement(opts, c, RecsTitle, rs.title);
      AddElementDrawn(opts, c, RecsTitle, rs.title);
      RecGroupsDrawn(opts, c1, rs.groups, |rs.groups|);
      ConcatAssoc(Drawn(c.sheet.placed), IfPresent(RecsTitle, rs.title), GroupKinds(|rs.groups|));
    }
  }

  lemma AddSignatureDrawn(opts: PdfOptions, c: Cursor, footer: Option<Height>)
    ensures Drawn(AddSignature(opts, c, footer).sheet.placed) == Drawn(c.sheet.placed) + IfPresent(SignatureFooter, footer)
  {
    if footer.Some? {
      var s := if c.y > MARGIN + 1.0 then NewPage(opts, c) else c;
      AddElementDrawn(opts, s, SignatureFooter, footer);
    } else {
      assert Drawn(c.sheet.placed) + [] == Drawn(c.sheet.placed);
    }
  }

  /** Nothing is lost and nothing is repeated but the table header: the
      blocks drawn, header aside, are exactly the present blocks of the
      review page, each once, in document order. */
  lemma ExportDrawsDocumentOrder(opts: PdfOptions, report: Report)
    ensures Drawn(Export(opts, report).placed) == DocumentOrder(report)
  {
    var c1 := AddElement(opts, START, ReportHeader, report.header);
    AddElementDrawn(opts, START, ReportHeader, report.header);
    var c2 := AddElement(opts, c1, GeneralInfoBlock, report.info);
    AddElementDrawn(opts, c1, GeneralInfoBlock, report.info);
    var c3 := AddConfigSection(opts, c2, report.config);
    AddConfigSectionDrawn(opts, c2, report.config);
    var c4 := AddElement(opts, c3, ImagesBlock, report.images);
    AddElementDrawn(opts, c3, ImagesBlock, report.images);
    var c5 := AddRecsSection(opts, c4, report.recs);
    AddRecsSectionDrawn(opts, c4, report.recs);
    assert c5 == BeforeSignature(opts, report);
    AddSignatureDrawn(opts, c5, report.footer);
    assert Drawn(START.sheet.placed) == [];
    assert [] + IfPresent(ReportHeader, report.header) == IfPresent(ReportHeader, report.header);
  }

  // ---------------------------------------------------------------------
  // Two layouts the row loop allows
  // ---------------------------------------------------------------------

  /** A page can end with the table header and none of its rows: the
      opening header is tested alone, so here page 1 ends with the header
      and the only row goes to page 2 under a repeated header. */
  lemma OrphanHeader(opts: PdfOptions)
    ensures var report := Report(None, Some(255.0),
        Some(ConfigSection(None, None, None, Some(Table(Some(5.0), [10.0])))), None, None, None);
      Export(opts, report).placed == [
        Placement(GeneralInfoBlock, 1, 15.0, 255.0),
        Placement(TableHeader, 1, 274.0, 5.0),
        Placement(TableHeader, 2, 15.0, 5.0),
        Placement(TableRow(0), 2, 20.0, 10.0)]
  {
  }

  /** The row test has no top-margin guard: a row taller than a page
      starts a new page even when nothing was drawn on the current one, so
      page 1 is left blank. */
  lemma TallRowLeavesBlankPage(opts: PdfOptions)
    ensures var report := Report(None, None,
        Some(ConfigSection(None, None, None, Some(Table(None, [300.0])))), None, None, None);
      var d := Export(opts, report);
      d.page == 2 && d.placed == [Placement(TableRow(0), 2, 15.0, 300.0)]
  {
  }
}
