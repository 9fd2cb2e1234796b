/**
 * The per-page decision of `compress_pdf_pymupdf`: how a page is classified,
 * at what scale it is rasterized, which colour mode reaches the encoder and
 * which image format is written. The layout, the rendered image's mode and the
 * page rectangle are what PyMuPDF and Pillow supply; they are inputs here.
 */
module PagePlan {

  /** The quality from which text pages are written as PNG instead of JPEG. */
  const PngThreshold: int := 90

  /** The baseline resolution a PDF page is measured in (points per inch). */
  const BaseDpi: int := 72

  /** What `page.get_text("dict")` says about blocks: no "blocks" key, or a list of some length. */
  datatype TextLayout = NoBlocksKey | Blocks(count: nat)

  datatype Kind = TextDominant | ImageDominant

  /** An exact scale factor num/den, standing for the float the source passes to `fitz.Matrix`. */
  datatype Ratio = Ratio(num: int, den: int)

  /** `fitz.Matrix(sx, sy)`: independent horizontal and vertical scale. */
  datatype Matrix = Matrix(sx: Ratio, sy: Ratio)

  /** How the rendered page is written; both formats are saved with `optimize=True`. */
  datatype Encoding = Png | Jpeg(quality: int)

  /** A page rectangle as PyMuPDF reports it. */
  datatype Rect = Rect(x0: real, y0: real, x1: real, y1: real) {
    function Width(): real { x1 - x0 }
    function Height(): real { y1 - y0 }
  }

  /** Everything decided about one page before its image goes into the new document. */
  datatype Plan = Plan(kind: Kind, matrix: Matrix, alpha: bool, mode: string, encoding: Encoding, rect: Rect)

  /** `len(text_dict.get("blocks", []))`. */
  function BlockCount(layout: TextLayout): nat {
    match layout
    case NoBlocksKey => 0
    case Blocks(n) => n
  }

  /** `has_text`: a page is text-dominant iff its layout lists at least one block. */
  function Classify(layout: TextLayout): (k: Kind)
    ensures k == TextDominant <==> layout.Blocks? && layout.count > 0
    ensures layout.NoBlocksKey? ==> k == ImageDominant
  {
    if BlockCount(layout) > 0 then TextDominant else ImageDominant
  }

  /** The uniform scale `dpi/72` used for text-dominant pages. */
  function TextScale(dpi: int): Matrix {
    Matrix(Ratio(dpi, BaseDpi), Ratio(dpi, BaseDpi))
  }

  /** The fixed scale 1.2 = 6/5 used for image-dominant pages. */
  function ImageScale(): Matrix {
    Matrix(Ratio(6, 5), Ratio(6, 5))
  }

  /** `if img.mode in ('RGBA', 'LA'): img = img.convert('RGB')`. */
  function DropAlpha(mode: string): (m: string)
    ensures m != "RGBA" && m != "LA"
    ensures mode == "RGBA" || mode == "LA" ==> m == "RGB"
    ensures mode != "RGBA" && mode != "LA" ==> m == mode
  {
    if mode == "RGBA" || mode == "LA" then "RGB" else mode
  }

  /** The two branches of the page loop body, as a value. */
  function PlanPage(layout: TextLayout, mode: string, quality: int, dpi: int, rect: Rect): (p: Plan)
    ensures p.kind == TextDominant <==> BlockCount(layout) > 0
    ensures p.encoding == Png <==> p.kind == TextDominant && quality >= PngThreshold
    ensures p.encoding != Png ==> p.encoding == Jpeg(quality)
    ensures p.kind == TextDominant ==> p.matrix.sx == p.matrix.sy == Ratio(dpi, BaseDpi)
    ensures p.kind == ImageDominant ==> p.matrix.sx == p.matrix.sy == Ratio(6, 5)
    ensures !p.alpha
    ensures p.mode != "RGBA" && p.mode != "LA"
    ensures mode == "RGBA" || mode == "LA" ==> p.mode == "RGB"
    ensures mode != "RGBA" && mode != "LA" ==> p.mode == mode
    ensures p.rect == rect
  {
    var kind := Classify(layout);
    if kind == TextDominant then
      Plan(kind, TextScale(dpi), false, DropAlpha(mode), if quality >= PngThreshold then Png else Jpeg(quality), rect)
    else
      Plan(kind, ImageScale(), false, DropAlpha(mode), Jpeg(quality), rect)
  }

  /** An image-dominant page is planned the same whatever `dpi` is requested. */
  lemma ImagePlanIgnoresDpi(layout: TextLayout, mode: string, quality: int, dpi1: int, dpi2: int, rect: Rect)
    requires Classify(layout) == ImageDominant
    ensures PlanPage(layout, mode, quality, dpi1, rect) == PlanPage(layout, mode, quality, dpi2, rect)
  {
  }

  /** A text-dominant page's plan depends on `quality` only through the PNG threshold and the JPEG quality. */
  lemma TextPlanAboveThreshold(layout: TextLayout, mode: string, q1: int, q2: int, dpi: int, rect: Rect)
    requires Classify(layout) == TextDominant && q1 >= PngThreshold && q2 >= PngThreshold
    ensures PlanPage(layout, mode, q1, dpi, rect) == PlanPage(layout, mode, q2, dpi, rect)
  {
  }
}
