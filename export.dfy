/** handleDownloadPdf as the imperative procedure it is (`App.tsx`, lines
    232-370): a PDF object and the `pageNumber` counter shared by the
    `addPageFooter`, `addPage`, `addElement` and `addTableHeader` closures,
    driven by the cursor `y` through the review page's blocks. Each step is
    proved to do what the matching function of `PdfLayout` specifies, so
    every property proved there holds of the document built here. */
module PdfExport {
  import opened ReportTypes
  import opened Text
  import opened PdfLayout

  /** The PDF under construction together with the page counter. */
  class PdfWriter {
    const opts: PdfOptions
    var pageNumber: nat
    var placed: seq<Placement>
    var stamps: seq<Stamp>

    /** The document so far, as a value. */
    function Current(): Sheet
      reads this
    {
      Sheet(pageNumber, placed, stamps)
    }

    /** A new document: page 1, nothing drawn. */
    constructor(opts: PdfOptions)
      ensures this.opts == opts && Current() == START.sheet
    {
      this.opts := opts;
      pageNumber := 1;
      placed := [];
      stamps := [];
    }

    /** addPageFooter: nothing when page numbers are off and the custom text
        is empty; otherwise the custom text and the page label, whichever
        apply, joined into one footer line for page `pageNum`. */
    method AddPageFooter(pageNum: nat)
      modifies this
      ensures stamps == old(stamps) + FooterStamp(opts, pageNum)
      ensures pageNumber == old(pageNumber) && placed == old(placed)
    {
      if !opts.includePageNumbers && opts.customFooterText == "" {
        return;
      }
      var parts: seq<string> := [];
      if opts.customFooterText != "" {
        parts := parts + [opts.customFooterText];
      }
      if opts.includePageNumbers {
        parts := parts + [PAGE_LABEL + NatToString(pageNum)];
      }
      stamps := stamps + [Stamp(pageNum, Join(parts, FOOTER_SEPARATOR))];
    }

    /** addPage: the current page's footer, then the next page; the cursor
        goes back to the top margin. */
    method AddPage() returns (top: real)
      modifies this
      ensures top == MARGIN
      ensures Current() == PdfLayout.AddPage(opts, old(Current()))
    {
      AddPageFooter(pageNumber);
      pageNumber := pageNumber + 1;
      top := MARGIN;
    }

    /** pdf.addImage: one block drawn on the current page at `top`. */
    method AddImage(kind: Kind, top: real, h: Height)
      modifies this
      ensures placed == old(placed) + [Placement(kind, pageNumber, top, h)]
      ensures pageNumber == old(pageNumber) && stamps == old(stamps)
    {
      placed := placed + [Placement(kind, pageNumber, top, h)];
    }

    /** addElement: place a block, if present, starting a new page first
        when it would overflow a page that is not empty. */
    method AddElement(kind: Kind, element: Option<Height>, currentY: real) returns (y: real)
      modifies this
      ensures Cursor(y, Current()) == PdfLayout.AddElement(opts, Cursor(currentY, old(Current())), kind, element)
    {
      if element.None? {
        return currentY;
      }
      var elementHeight := element.value;
      y := currentY;
      if y + elementHeight > BOTTOM && y > MARGIN {
        y := AddPage();
      }
      AddImage(kind, y, elementHeight);
      y := y + elementHeight + PADDING;
    }

    /** addTableHeader: the cached header, with the same test and no
        padding. */
    method AddTableHeader(header: Option<Height>, currentY: real) returns (y: real)
      modifies this
      ensures Cursor(y, Current()) == PdfLayout.AddTableHeader(opts, Cursor(currentY, old(Current())), header)
    {
      if header.None? {
        return currentY;
      }
      var headerHeight := header.value;
      y := currentY;
      if y + headerHeight > BOTTOM && y > MARGIN {
        y := AddPage();
      }
      AddImage(TableHeader, y, headerHeight);
      y := y + headerHeight;
    }

    /** One pass of the row loop: a row that would overflow the page starts
        a new page and repeats the header; the row goes under the cursor
        with no padding. */
    method DrawRow(header: Option<Height>, i: nat, rowHeight: Height, currentY: real) returns (y: real)
      modifies this
      ensures Cursor(y, Current()) == PdfLayout.AddRow(opts, Cursor(currentY, old(Current())), header, i, rowHeight)
    {
      y := currentY;
      if y + rowHeight > BOTTOM {
        y := AddPage();
        y := AddTableHeader(header, y);
      }
      AddImage(TableRow(i), y, rowHeight);
      y := y + rowHeight;
    }

    /** The machine table: the header once, then the rows, each row that
        would overflow the page starting a new page that repeats the header;
        one padding after the table. */
    method DrawTable(table: Table, currentY: real) returns (y: real)
      modifies this
      ensures Cursor(y, Current()) == PdfLayout.AddTable(opts, Cursor(currentY, old(Current())), table)
    {
      y := AddTableHeader(table.header, currentY);
      ghost var c0 := Cursor(y, Current());
      var i := 0;
      while i < |table.rows|
        invariant 0 <= i <= |table.rows|
        invariant Cursor(y, Current()) == Rows(opts, c0, table.header, table.rows, i)
      {
        y := DrawRow(table.header, i, table.rows[i], y);
        i := i + 1;
      }
      y := y + PADDING;
    }

    /** The machine section, when the review page has one. */
    method DrawConfigSection(section: Option<ConfigSection>, currentY: real) returns (y: real)
      modifies this
      ensures Cursor(y, Current()) == AddConfigSection(opts, Cursor(currentY, old(Current())), section)
    {
      y := currentY;
      if section.Some? {
        var configSection := section.value;
        y := AddElement(ConfigTitle, configSection.title, y);
        y := AddElement(StatsBox, configSection.stats, y);
        y := AddElement(ConfigCaption, configSection.caption, y);
        if configSection.table.Some? {
          y := DrawTable(configSection.table.value, y);
        }
      }
    }

    /** The recommendations section: its title, then one block per group. */
    method DrawRecsSection(section: Option<RecsSection>, currentY: real) returns (y: real)
      modifies this
      ensures Cursor(y, Current()) == AddRecsSection(opts, Cursor(currentY, old(Current())), section)
    {
      y := currentY;
      if section.Some? {
        var recsSection := section.value;
        y := AddElement(RecsTitle, recsSection.title, y);
        ghost var c0 := Cursor(y, Current());
        var i := 0;
        while i < |recsSection.groups|
          invariant 0 <= i <= |recsSection.groups|
          invariant Cursor(y, Current()) == RecGroups(opts, c0, recsSection.groups, i)
        {
          y := AddElement(RecGroup(i), Some(recsSection.groups[i]), y);
          i := i + 1;
        }
      }
    }

    /** The signature footer, on a page of its own unless the cursor is
        still at the top margin. */
    method DrawSignature(footer: Option<Height>, currentY: real) returns (y: real)
      modifies this
      ensures Cursor(y, Current()) == AddSignature(opts, Cursor(currentY, old(Current())), footer)
    {
      y := currentY;
      if footer.Some? {
        if y > MARGIN + 1.0 {
          y := AddPage();
        }
        y := AddElement(SignatureFooter, footer, y);
      }
    }
  }

  /** handleDownloadPdf: without the report element there is no document
      (the user is alerted); otherwise the blocks are placed in document
      order, the table row by row with its header repeated after each
      break, and the last page gets its footer. The result is the document
      `Export` specifies. */
  method DownloadPdf(opts: PdfOptions, report: Option<Report>) returns (doc: Option<Sheet>)
    ensures report.None? ==> doc.None?
    ensures report.Some? ==> doc == Some(Export(opts, report.value))
  {
    if report.None? {
      return None;
    }
    var r := report.value;
    var pdf := new PdfWriter(opts);
    var y := MARGIN;
    y := pdf.AddElement(ReportHeader, r.header, y);
    y := pdf.AddElement(GeneralInfoBlock, r.info, y);
    y := pdf.DrawConfigSection(r.config, y);
    y := pdf.AddElement(ImagesBlock, r.images, y);
    y := pdf.DrawRecsSection(r.recs, y);
    assert Cursor(y, pdf.Current()) == BeforeSignature(opts, r);
    y := pdf.DrawSignature(r.footer, y);
    pdf.AddPageFooter(pdf.pageNumber);
    doc := Some(pdf.Current());
  }
}
