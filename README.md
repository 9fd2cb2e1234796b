# pdf-compressor, modelled in Dafny

The PDF compressor looks for `*.pdf` files in the working directory. It skips
earlier outputs, whose names end in `_compressed.pdf`. The batch loop hands the
candidates to the compressor one at a time. Because of an unconditional
`break` at compressor.py:217, it stops after the first file whose processing
does not raise, so later files are never touched (see "## Findings"). A file
that is processed is rebuilt page by page:

- a page whose text layout lists at least one block is *text-dominant*. It is
  rasterized at `dpi/72` and written as PNG when `quality >= 90`, as JPEG at
  `quality` otherwise;
- any other page is *image-dominant*. It is rasterized at 1.2 and always
  written as JPEG at `quality`.

RGBA and LA images are converted to RGB before encoding. Each image is placed
on a new page that has the source page's rectangle. When the rebuild fails,
the program falls back to a structural PyPDF2 pass. A file counts as
compressed only if a method succeeded and the output file exists. The batch
loop in `main` adds up sizes and successes.

PDF opening, rendering, image coding, PyPDF2 and the filesystem are external
libraries. Here they are inputs:

- per page: the text layout, the rendered image's mode, the rectangle, and
  whether processing the page raises;
- per document: whether it opens and whether the save succeeds;
- per file: what the PyPDF2 pass returns, whether the output path exists, and
  the file sizes in bytes;
- per run: the names the glob yields, in the order it yields them.

Modules, one per component of `compressor.py`:

- `Naming` (`naming.dfy`): `Path.stem` / `Path.suffix`, the output name, and
  `find_pdf_files`.
- `PagePlan` (`page_plan.dfy`): the per-page classification and the scale,
  mode and format decision, as a pure function.
- `Rebuild` (`rebuild.dfy`): the output document as a class whose page list is
  updated in place, and `compress_pdf_pymupdf` as a loop over the source pages.
- `Orchestrator` (`orchestrator.dfy`): `compress_single_pdf` with its
  `success` flag and the method dispatch.
- `Batch` (`batch.dfy`): the loop of `main`, as written with its `break`, and
  the same loop without it.

The code has these behaviours, and the model follows them:

- Only the modes `"RGBA"` and `"LA"` are converted to RGB. Other four-channel
  modes such as CMYK are passed through unchanged.
- The fallback runs after a failed rebuild only in `"auto"` mode. In
  `"pypdf2"` mode it always runs. In `"pymupdf"` mode it never runs.
- An unknown method name runs neither method, and the file fails.
- If compression succeeds on a file whose original size is zero, the ratio
  computation raises `ZeroDivisionError`. That error escapes
  `compress_single_pdf`, and `main`'s handler skips the file without reaching
  the `break`.

## Model

| member | source | states |
|---|---|---|
| `Naming.LastIndexOf` | compressor.py:118 | the index of the last occurrence of the character, or -1: that position holds it and no later one does |
| `Naming.Suffix` | compressor.py:118 | the suffix is empty exactly when the name is empty, ends in a dot, or has no dot after its first character; otherwise it is a dot followed by at least one dot-free character, shorter than the name and ending it |
| `Naming.Stem` | compressor.py:118 | stem followed by suffix gives back the name, so the stem is the whole name exactly when there is no suffix; the stem of a non-empty name is non-empty |
| `Naming.OutputName` | compressor.py:118 | a name without a suffix (such as `.pdf` itself) becomes the name followed by `_compressed`; a name with a suffix keeps that suffix, and its stem becomes the input stem followed by `_compressed`; either way the name grows by the length of `_compressed` |
| `Naming.IsCompressedName` | compressor.py:154 | a name the filter treats as already compressed is a `.pdf` name at least as long as `_compressed.pdf` |
| `Naming.Candidates` | compressor.py:152-156 | a name is kept iff it was globbed and does not end in `_compressed.pdf`; never more names than globbed |
| `Naming.FindPdfFiles` | compressor.py:150-156 | the appending loop returns exactly the filtered list, in discovery order |
| `Naming.CandidatesAppend` | compressor.py:153-156 | filtering a concatenation filters each part and concatenates: discovery order is preserved |
| `Naming.CandidatesSingle` | compressor.py:154-155 | a single name is kept exactly when it does not end in `_compressed.pdf` |
| `Naming.OutputNameIsMarked` | compressor.py:118 | for every input name, an output name `stem + "_compressed" + suffix` that ends in `.pdf` ends in `_compressed.pdf`, the name the filter at line 154 drops |
| `Naming.MarkedNameIsOutput` | compressor.py:118 | every marked name longer than `_compressed.pdf` is the output name of the `.pdf` file obtained by dropping `_compressed` |
| `Naming.PdfNameSplit` | compressor.py:118 | a name `X.pdf` with non-empty `X` has suffix `.pdf` and output name `X_compressed.pdf` |
| `Naming.RerunSkipsOutputs` | compressor.py:150-156 | when the glob yields only `.pdf` names, no output name of any file is ever a candidate |
| `Naming.OnlyOutputsYieldNothing` | compressor.py:152-156 | a directory holding only `_compressed.pdf` names yields no candidates |
| `PagePlan.Classify` | compressor.py:55-58 | a page is text-dominant iff its layout has a "blocks" list of length at least one; a layout without the key is image-dominant |
| `PagePlan.DropAlpha` | compressor.py:71-72 | RGBA and LA become RGB, every other mode is unchanged, and the result is never RGBA or LA |
| `PagePlan.PlanPage` | compressor.py:58-98 | text-dominant iff blocks > 0; PNG iff text-dominant and quality >= 90, otherwise JPEG at exactly quality; scale dpi/72 on both axes for text pages and 6/5 on both axes for image pages; no alpha; RGBA and LA become exactly "RGB", other modes kept; the page rectangle carried over |
| `PagePlan.ImagePlanIgnoresDpi` | compressor.py:86-98 | an image-dominant page gets the same plan whatever dpi is requested |
| `PagePlan.TextPlanAboveThreshold` | compressor.py:75-76 | at quality >= 90 a text-dominant page gets the same plan whatever the quality |
| `Rebuild.OutputDocument.constructor` | compressor.py:48 | the new document starts with no pages |
| `Rebuild.OutputDocument.NewPage` | compressor.py:84 | appends one empty page of the given width and height, leaves earlier pages alone and returns its index |
| `Rebuild.OutputDocument.InsertImage` | compressor.py:85 | adds the image into the given rectangle of that page only; the page count is unchanged |
| `Rebuild.AddPage` | compressor.py:51-103 | one pass of the page loop (plan, new page, inserted image) appends exactly the rebuilt page of that source page to the new document, leaving earlier pages as they were |
| `Rebuild.FirstFailure` | compressor.py:50-63 | the index of the first page whose processing raises: every earlier page goes through, that one does not |
| `Rebuild.RebuildSucceeds` | compressor.py:41-113 | `compress_pdf_pymupdf` returns True exactly when the source opens, every page renders and the save succeeds |
| `Rebuild.RebuildDocument` | compressor.py:41-113 | returns True iff the source opens, no page raises and the save succeeds; no document when the source does not open; otherwise the new document holds, in order, the rebuilt pages of every source page before the first one that raised |
| `Rebuild.RebuiltPagesMatchSource` | compressor.py:50-103 | exactly one output page per source page, in source order, each with the source page's width and height and one image inserted into the source rectangle, planned from that page |
| `Rebuild.RebuiltPagesAppend` | compressor.py:50-103 | rebuilding a concatenation of page runs concatenates their rebuilds: pages are processed independently and in order |
| `Rebuild.PngPagesAreTextPages` | compressor.py:58-78 | the number of PNG pages equals the number of text-dominant pages when quality >= 90, and is zero below |
| `Rebuild.EncodingOfEveryPage` | compressor.py:58-98 | every image of page i is PNG when that page is text-dominant and quality >= 90, JPEG at exactly quality otherwise, scaled by dpi/72 for text pages and 6/5 for the others |
| `Orchestrator.Attempts` | compressor.py:127-132 | the rebuild is tried iff the method is "pymupdf" or "auto"; the fallback iff the method is "pypdf2", or "auto" after a failed rebuild; when both run the rebuild comes first; any other method tries nothing |
| `Orchestrator.OutcomeOf` | compressor.py:125-148 | the call does not return False iff the output exists and some attempted method returned True; it raises iff that holds and the original size is zero; a result not smaller than the original is still a success, with the note set |
| `Orchestrator.TryMethods` | compressor.py:125-132 | the flag-updating dispatch tries exactly the methods `Attempts` names, in that order, and the flag ends True iff the last method tried returned True |
| `Orchestrator.CompressSingle` | compressor.py:115-148 | the flag-updating code computes the output name `stem_compressed.suffix`, tries the methods `Attempts` names and ends as `OutcomeOf` says |
| `Orchestrator.AutoFallbackDecides` | compressor.py:130-134 | in "auto" mode after a failed rebuild the file succeeds iff the fallback returns True and the output exists |
| `Orchestrator.SizeDoesNotDecide` | compressor.py:134-145 | the compressed size never decides whether the call fails |
| `Batch.StepOf` | compressor.py:205-219 | a body that raises before the call reaches the handler and not the `break`; the original total grows by the size read, if any |
| `Batch.StepOfMeaning` | compressor.py:205-214 | one pass of the loop body adds a success exactly when the file compresses with its output present, adds compressed bytes only with that success, never adds a success when it raises, and adds the original size whenever that size was read |
| `Batch.ProcessFile` | compressor.py:205-214 | what one pass of the loop body adds to the accumulators and whether it ends normally or raises |
| `Batch.Tally` | compressor.py:199-219 | the loop as written gathers what the files up to the first one whose body ends add, that file included, and nothing from later files |
| `Batch.TallyAll` | compressor.py:199-215 | the loop without `break` gathers every file's step, with at most one success per file |
| `Batch.RunBatch` | compressor.py:199-219 | the loop, `break` included, produces the accumulators of `Tally`: files whose body raises are skipped, and the first one whose body ends stops the loop |
| `Batch.CompressDirectory` | compressor.py:179-219 | no report when no candidate is found; otherwise the candidate count and the loop's totals, with at most one success |
| `Batch.BreakTotals` | compressor.py:204-217 | when every earlier file raised, the first file whose body ends adds its totals and the loop stops there |
| `Batch.NoBreakTotals` | compressor.py:204-219 | when every file raises, the loop as written adds every file's original size, as the loop without `break` would |
| `Batch.AtMostOneSuccess` | compressor.py:204-219 | the loop as written counts at most one success, and with no success the compressed total stays zero |
| `Batch.SuccessIsFirstFinishedFile` | compressor.py:204-219 | a success is counted iff the first file whose loop body does not raise compresses with its output present |
| `Batch.LaterFilesIgnored` | compressor.py:204-219 | files after the first one whose body ends without raising do not affect the totals |
| `Batch.RunAll` | compressor.py:204-215 | the loop without `break` produces `TallyAll`: every candidate file contributes its step |
| `Batch.CompressDirectoryAll` | compressor.py:179-215 | the corrected run reports the candidate count and the totals of all files, with at most one success per file |
| `Batch.RunAllCountsEverySuccess` | compressor.py:204-215 | without the `break`, when every file compresses, every file is counted |
| `Batch.RunBatchCountsOneSuccess` | compressor.py:217 | with the `break`, when every file compresses, exactly one success is counted |
| `Batch.TwoFilesOneCounted` | compressor.py:217 | two PDFs that both compress: the loop as written counts 1 success, the loop without `break` counts 2 |

## Findings

| source | as written | input that shows it | evidently intended | confidence | as-written member | corrected member |
|---|---|---|---|---|---|---|
| compressor.py:217 | the loop body ends in an unconditional `break`, so only the first file whose body does not raise is processed, while the summary reports `len(pdf_files)` files processed | a directory with `a.pdf` and `b.pdf` that both compress: 1 success is counted and `b.pdf` is never touched | every candidate file is compressed ("Process each PDF file", "compress all PDFs in current directory") | not executed; high | `Batch.TwoFilesOneCounted` (on `Batch.RunBatch`) | `Batch.RunAllCountsEverySuccess` (on `Batch.RunAll`) |

## Left out

- Opening, text extraction, rendering, saving and closing through PyMuPDF (compressor.py:45-48, 55, 63, 106-108). They are foreign calls. The model reduces them to a layout, a mode, a rectangle and whether each step raises.
- The save options `garbage=4, deflate=True, clean=True, pretty=True` (compressor.py:106). They only affect the bytes of the saved file, which the model does not represent.
- Pillow decoding and encoding (compressor.py:66-67, 76-78, 98). The model records which format, quality and mode reach the encoder, not the encoded bytes.
- `compress_pdf_pypdf2` (compressor.py:18-39). Its page copy and de-duplication belong to PyPDF2. It appears only as the boolean it returns.
- File sizes in MB, compression ratios and the overall percentage (compressor.py:14-16, 136, 232). These are floating point. Sizes are carried as byte counts. Dividing by 2^20 is exact, so "not smaller" compares the same way.
- The glob, `mkdir`, `exists` and file writes (compressor.py:153, 174-175, 134, 211). The glob's results and the existence of the output are inputs. Both existence checks of one file give the same answer. Both reads of the original size (compressor.py:122, 206) give the same number, `Job.originalSize`, and both reads of the compressed size (compressor.py:135, 212) give `Job.compressedSize`. Inside `compress_single_pdf` the two size reads (compressor.py:122, 135) never raise, so `Orchestrator.Outcome` has no case for them; in the batch loop a failing read of the original size is covered by `Batch.FileRun.SizeFails`.
- The console output and the import check ending in `sys.exit(1)` (compressor.py:160-171, 185-197, 221-240). These are I/O and process control.
- `Rebuild.RebuildDocument`: a page that raises is modelled as raising before its output page is created. The partly built document is abandoned either way.
- `Naming.Stem`, `Naming.Suffix`: they follow CPython 3.12 `pathlib`, where a leading or trailing dot does not start a suffix. Names are single path components.
- The output directory `./compressed_pdfs/` (compressor.py:174). Output names are modelled without their directory.
