/**
 * The page-by-page rebuild of `compress_pdf_pymupdf`: every source page is
 * planned, rendered, encoded and placed on a new page of the output document,
 * which is then saved. Opening, rendering, encoding and saving belong to
 * PyMuPDF and Pillow; whether each of them raises is an input of the model.
 */
module Rebuild {
  import opened PagePlan

  /**
   * One page of the opened source document. `renders` is false when anything
   * done for this page (text extraction, rendering, decoding, encoding, page
   * creation) raises.
   */
  datatype SourcePage = SourcePage(layout: TextLayout, renderedMode: string, rect: Rect, renders: bool)

  /** The source file as `fitz.open` sees it, and whether saving the new document succeeds. */
  datatype SourceDocument = SourceDocument(opens: bool, pages: seq<SourcePage>, saves: bool)

  /** An image drawn into `rect` of a page, produced as `image` describes. */
  datatype Placement = Placement(rect: Rect, image: Plan)

  /** A page of the new document: its size and the images inserted into it. */
  datatype OutputPage = OutputPage(width: real, height: real, images: seq<Placement>)

  /** The document `fitz.open()` creates and the loop fills page by page. */
  class OutputDocument {
    var pages: seq<OutputPage>

    constructor ()
      ensures pages == []
    {
      pages := [];
    }

    /** `new_doc.new_page(width=..., height=...)`; the result identifies the page by its index. */
    method NewPage(width: real, height: real) returns (index: nat)
      modifies this
      ensures pages == old(pages) + [OutputPage(width, height, [])]
      ensures index == |old(pages)|
    {
      index := |pages|;
      pages := pages + [OutputPage(width, height, [])];
    }

    /** `page.insert_image(rect, stream=...)` on the page at `index`. */
    method InsertImage(index: nat, rect: Rect, image: Plan)
      requires index < |pages|
      modifies this
      ensures |pages| == |old(pages)|
      ensures pages[index] == old(pages[index]).(images := old(pages[index]).images + [Placement(rect, image)])
      ensures forall j :: 0 <= j < |pages| && j != index ==> pages[j] == old(pages[j])
    {
      var p := pages[index];
      pages := pages[index := p.(images := p.images + [Placement(rect, image)])];
    }
  }

  function PlanOf(page: SourcePage, quality: int, dpi: int): Plan {
    PlanPage(page.layout, page.renderedMode, quality, dpi, page.rect)
  }

  /** The output page the loop body makes from one source page. */
  function RebuiltPage(page: SourcePage, quality: int, dpi: int): OutputPage {
    OutputPage(page.rect.Width(), page.rect.Height(), [Placement(page.rect, PlanOf(page, quality, dpi))])
  }

  /** The output pages made from a run of source pages, in order. */
  function RebuiltPages(pages: seq<SourcePage>, quality: int, dpi: int): seq<OutputPage>
    decreases |pages|
  {
    if pages == [] then []
    else RebuiltPages(pages[..|pages| - 1], quality, dpi) + [RebuiltPage(pages[|pages| - 1], quality, dpi)]
  }

  /** The index of the first page whose processing raises, or the page count if none does. */
  function FirstFailure(pages: seq<SourcePage>): (k: nat)
    ensures k <= |pages|
    ensures forall j :: 0 <= j < k ==> pages[j].renders
    ensures k < |pages| ==> !pages[k].renders
  {
    if pages == [] then 0
    else if !pages[0].renders then 0
    else 1 + FirstFailure(pages[1..])
  }

  /** `compress_pdf_pymupdf` returns True: the file opens, every page goes through, the save works. */
  predicate RebuildSucceeds(src: SourceDocument)
    ensures RebuildSucceeds(src) <==> src.opens && src.saves && forall j :: 0 <= j < |src.pages| ==> src.pages[j].renders
  {
    src.opens && FirstFailure(src.pages) == |src.pages| && src.saves
  }

  /** The loop body for a page that goes through: plan it, make its page, insert its image. */
  method AddPage(out: OutputDocument, page: SourcePage, quality: int, dpi: int)
    modifies out
    ensures out.pages == old(out.pages) + [RebuiltPage(page, quality, dpi)]
  {
    var plan := PlanPage(page.layout, page.renderedMode, quality, dpi, page.rect);
    ghost var before := out.pages;
    var index := out.NewPage(page.rect.Width(), page.rect.Height());
    out.InsertImage(index, page.rect, plan);
    assert [] + [Placement(page.rect, plan)] == [Placement(page.rect, plan)];
    assert out.pages[index] == RebuiltPage(page, quality, dpi);
    assert out.pages == before + [RebuiltPage(page, quality, dpi)];
  }

  /**
   * `compress_pdf_pymupdf`. `out` is null when the source does not open;
   * otherwise it holds the pages built before the loop ended, which is every
   * page when no page raised. Its save options are left out of the model.
   */
  method RebuildDocument(src: SourceDocument, quality: int, dpi: int) returns (ok: bool, out: OutputDocument?)
    ensures ok <==> RebuildSucceeds(src)
    ensures out == null <==> !src.opens
    ensures out != null ==> fresh(out) && out.pages == RebuiltPages(src.pages[..FirstFailure(src.pages)], quality, dpi)
  {
    if !src.opens {
      return false, null;
    }
    out := new OutputDocument();
    var k := FirstFailure(src.pages);
    for i := 0 to |src.pages|
      invariant i <= k
      invariant out.pages == RebuiltPages(src.pages[..i], quality, dpi)
    {
      var page := src.pages[i];
      if !page.renders {
        assert i == k;
        return false, out;
      }
      AddPage(out, page, quality, dpi);
      assert src.pages[..i + 1][..i] == src.pages[..i];
    }
    assert k == |src.pages| && src.pages[..k] == src.pages;
    ok := src.saves;
  }

  /**
   * The rebuilt pages correspond one to one, in order, to the source pages:
   * each has the source page's width and height and exactly one image,
   * inserted into the source page's rectangle and planned from that page.
   */
  lemma {:induction false} RebuiltPagesMatchSource(pages: seq<SourcePage>, quality: int, dpi: int)
    ensures |RebuiltPages(pages, quality, dpi)| == |pages|
    ensures forall i :: 0 <= i < |pages| ==>
      var o := RebuiltPages(pages, quality, dpi)[i];
      o.width == pages[i].rect.Width() && o.height == pages[i].rect.Height() &&
      o.images == [Placement(pages[i].rect, PlanOf(pages[i], quality, dpi))]
    decreases |pages|
  {
    if pages != [] {
      RebuiltPagesMatchSource(pages[..|pages| - 1], quality, dpi);
    }
  }

  /** Rebuilding a concatenation rebuilds each part: no page depends on another. */
  lemma {:induction false} RebuiltPagesAppend(a: seq<SourcePage>, b: seq<SourcePage>, quality: int, dpi: int)
    ensures RebuiltPages(a + b, quality, dpi) == RebuiltPages(a, quality, dpi) + RebuiltPages(b, quality, dpi)
    decreases |b|
  {
    if b == [] {
      assert a + b == a;
    } else {
      var b' := b[..|b| - 1];
      assert (a + b)[..|a + b| - 1] == a + b';
      RebuiltPagesAppend(a, b', quality, dpi);
    }
  }

  /** Number of text-dominant pages. */
  function TextPages(pages: seq<SourcePage>): nat
    decreases |pages|
  {
    if pages == [] then 0
    else TextPages(pages[..|pages| - 1]) + (if Classify(pages[|pages| - 1].layout) == TextDominant then 1 else 0)
  }

  /** Number of output pages whose first image is PNG-encoded. */
  function PngPages(out: seq<OutputPage>): nat
    decreases |out|
  {
    if out == [] then 0
    else
      var last := out[|out| - 1];
      PngPages(out[..|out| - 1]) + (if |last.images| > 0 && last.images[0].image.encoding == Png then 1 else 0)
  }

  /**
   * In a successful rebuild the PNG pages are exactly the text-dominant pages
   * when `quality >= 90`, and there are none below that threshold.
   */
  lemma {:induction false} PngPagesAreTextPages(pages: seq<SourcePage>, quality: int, dpi: int)
    ensures PngPages(RebuiltPages(pages, quality, dpi)) == if quality >= PngThreshold then TextPages(pages) else 0
    decreases |pages|
  {
    if pages != [] {
      var init := pages[..|pages| - 1];
      PngPagesAreTextPages(init, quality, dpi);
      var out := RebuiltPages(pages, quality, dpi);
      assert out[..|out| - 1] == RebuiltPages(init, quality, dpi);
    }
  }

  /**
   * Every image of a rebuilt document is JPEG at exactly `quality`, except on
   * text-dominant pages at `quality >= 90`, which are PNG; text pages are
   * scaled by dpi/72 and the others by 6/5.
   */
  lemma EncodingOfEveryPage(pages: seq<SourcePage>, quality: int, dpi: int)
    ensures |RebuiltPages(pages, quality, dpi)| == |pages|
    ensures forall i, placed :: 0 <= i < |pages| && placed in RebuiltPages(pages, quality, dpi)[i].images ==>
      var img := placed.image;
      var text := Classify(pages[i].layout) == TextDominant;
      img.encoding == (if text && quality >= PngThreshold then Png else Jpeg(quality)) &&
      img.matrix == (if text then TextScale(dpi) else ImageScale())
  {
    RebuiltPagesMatchSource(pages, quality, dpi);
  }
}
