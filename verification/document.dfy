/**
 * Multi-page documents: a builder that collects pages in order and the
 * immutable document it becomes, rendered as one ESC/P stream.
 */
module Documents {
  import opened Base
  import opened Pages
  import opened Escp
  import opened EscpDecode
  import opened EscpProofs

  datatype DocumentBuilder = DocumentBuilder(pages: seq<Page>)

  datatype Document = Document(pages: seq<Page>)

  /** `DocumentBuilder::new` (also `Document::builder`): no pages yet. */
  function NewDocumentBuilder(): (b: DocumentBuilder)
    ensures |b.pages| == 0
  {
    DocumentBuilder([])
  }

  /** `add_page`: the page goes after every page added before it. */
  function AddPage(b: DocumentBuilder, p: Page): (r: DocumentBuilder)
    ensures |r.pages| == |b.pages| + 1
    ensures r.pages[..|b.pages|] == b.pages && r.pages[|b.pages|] == p
  {
    DocumentBuilder(b.pages + [p])
  }

  /** A sequence of `add_page` calls, in order. */
  function AddPages(b: DocumentBuilder, ps: seq<Page>): (r: DocumentBuilder)
    decreases |ps|
  {
    if |ps| == 0 then b else AddPages(AddPage(b, ps[0]), ps[1..])
  }

  /** `build`: the document holds the builder's pages, unchanged. */
  function BuildDocument(b: DocumentBuilder): (d: Document)
    ensures PageCount(d) == |b.pages|
    ensures forall i | 0 <= i < |b.pages| :: d.pages[i] == b.pages[i]
  {
    Document(b.pages)
  }

  /** `page_count`. */
  function PageCount(d: Document): (n: nat)
    ensures n == |d.pages|
  {
    |d.pages|
  }

  /**
   * `Document::render`: a printer that reads these bytes from power-on
   * prints exactly the document's pages, one sheet per page, in order.
   */
  function Render(d: Document): (r: seq<U8>)
    ensures Run(POWER_ON, r) == Some(Printer(false, false, true, 0, [], [], Sheets(d.pages)))
    ensures CountByte(r, FF) == PageCount(d)
  {
    RenderDocumentRoundTrip(d.pages);
    FormFeedCount(d.pages);
    RenderDocument(d.pages)
  }

  /** Adding pages one by one keeps them in insertion order. */
  lemma {:induction false} AddPagesOrder(b: DocumentBuilder, ps: seq<Page>)
    ensures AddPages(b, ps).pages == b.pages + ps
    decreases |ps|
  {
    if |ps| == 0 {
      assert b.pages + ps == b.pages;
    } else {
      AddPagesOrder(AddPage(b, ps[0]), ps[1..]);
      assert b.pages + [ps[0]] + ps[1..] == b.pages + ps;
    }
  }

  /**
   * `page_count` equals the number of `add_page` calls, and the rendering of
   * the built document is the init codes followed by each page's bytes and a
   * form feed, in the order the pages were added.
   */
  lemma BuiltDocument(ps: seq<Page>)
    ensures PageCount(BuildDocument(AddPages(NewDocumentBuilder(), ps))) == |ps|
    ensures Render(BuildDocument(AddPages(NewDocumentBuilder(), ps))) == RenderDocument(ps)
    ensures BuildDocument(AddPages(NewDocumentBuilder(), ps)).pages == ps
  {
    AddPagesOrder(NewDocumentBuilder(), ps);
    assert [] + ps == ps;
  }

  /** An empty document renders to ESC @ SI and nothing else. */
  lemma EmptyDocumentRender()
    ensures Render(BuildDocument(NewDocumentBuilder())) == [0x1B, 0x40, 0x0F]
  {
    EmptyDocument();
  }
}
