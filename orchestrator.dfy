/**
 * `compress_single_pdf`: pick the methods to try according to the method
 * name, fall back to the structural PyPDF2 pass when the rebuild did not
 * succeed, and count the file as compressed only when a method succeeded and
 * the output file exists. What PyPDF2 and the filesystem answer is an input.
 */
module Orchestrator {
  import opened Naming
  import opened Rebuild

  /** The two compression methods: the raster rebuild and the PyPDF2 fallback. */
  datatype Engine = PyMuPdf | PyPdf2

  /**
   * What one call meets: the source as PyMuPDF sees it, whether the PyPDF2
   * pass returns True, whether the output path exists afterwards, and the two
   * file sizes (in bytes).
   */
  datatype Job = Job(source: SourceDocument, fallbackOk: bool, outputExists: bool, originalSize: nat, compressedSize: nat)

  /**
   * How the call ends: it returns True (noting when the output is not
   * smaller), it returns False, or the compression ratio divides by an
   * original size of zero and the ZeroDivisionError escapes to the caller.
   */
  datatype Outcome = Compressed(notSmaller: bool) | Failed | RaisedZeroDivision

  predicate RunsRebuild(methodName: string) {
    methodName == "pymupdf" || methodName == "auto"
  }

  predicate MayFallBack(methodName: string) {
    methodName == "pypdf2" || methodName == "auto"
  }

  /** What an attempted method returns for this job. */
  predicate Returns(e: Engine, job: Job) {
    match e
    case PyMuPdf => RebuildSucceeds(job.source)
    case PyPdf2 => job.fallbackOk
  }

  /** The methods tried, in the order they are tried. */
  function Attempts(methodName: string, rebuildOk: bool): (a: seq<Engine>)
    ensures PyMuPdf in a <==> methodName == "pymupdf" || methodName == "auto"
    ensures PyPdf2 in a <==> methodName == "pypdf2" || (methodName == "auto" && !rebuildOk)
    ensures |a| <= 2 && (|a| == 2 ==> a == [PyMuPdf, PyPdf2])
    ensures methodName != "pymupdf" && methodName != "auto" && methodName != "pypdf2" ==> a == []
  {
    var first := RunsRebuild(methodName);
    var success := first && rebuildOk;
    (if first then [PyMuPdf] else []) + (if !success && MayFallBack(methodName) then [PyPdf2] else [])
  }

  /** The end of a call, from the result of the last method tried and the filesystem. */
  function OutcomeOf(methodName: string, job: Job): (o: Outcome)
    ensures var a := Attempts(methodName, RebuildSucceeds(job.source));
      !o.Failed? <==> job.outputExists && exists e :: e in a && Returns(e, job)
    ensures o.RaisedZeroDivision? <==> !o.Failed? && job.originalSize == 0
    ensures o.Compressed? ==> o.notSmaller == (job.compressedSize >= job.originalSize)
  {
    var a := Attempts(methodName, RebuildSucceeds(job.source));
    var success := |a| > 0 && Returns(a[|a| - 1], job);
    if success && job.outputExists then
      if job.originalSize == 0 then RaisedZeroDivision
      else Compressed(job.compressedSize >= job.originalSize)
    else Failed
  }

  /**
   * The method dispatch of `compress_single_pdf` (compressor.py:125-132): the
   * `success` flag ends as what the last method tried returned.
   */
  method TryMethods(methodName: string, quality: int, dpi: int, job: Job) returns (success: bool, attempts: seq<Engine>)
    ensures attempts == Attempts(methodName, RebuildSucceeds(job.source))
    ensures success <==> |attempts| > 0 && Returns(attempts[|attempts| - 1], job)
  {
    attempts := [];
    success := false;
    if RunsRebuild(methodName) {
      var rebuilt;
      success, rebuilt := RebuildDocument(job.source, quality, dpi);
      attempts := attempts + [PyMuPdf];
    }
    ghost var first := attempts;
    assert success == (RunsRebuild(methodName) && RebuildSucceeds(job.source));
    if !success && MayFallBack(methodName) {
      success := job.fallbackOk;
      attempts := attempts + [PyPdf2];
    }
    assert attempts == first + (if !(RunsRebuild(methodName) && RebuildSucceeds(job.source)) && MayFallBack(methodName) then [PyPdf2] else []);
  }

  /**
   * `compress_single_pdf(file, output_dir, method, quality, dpi)`: the
   * output name, the methods tried and how the call ends.
   */
  method CompressSingle(fileName: string, methodName: string, quality: int, dpi: int, job: Job)
    returns (outputName: string, attempts: seq<Engine>, outcome: Outcome)
    ensures outputName == OutputName(fileName)
    ensures attempts == Attempts(methodName, RebuildSucceeds(job.source))
    ensures outcome == OutcomeOf(methodName, job)
  {
    outputName := OutputName(fileName);
    var success;
    success, attempts := TryMethods(methodName, quality, dpi, job);
    if success && job.outputExists {
      if job.originalSize == 0 {
        outcome := RaisedZeroDivision;
      } else {
        outcome := Compressed(job.compressedSize >= job.originalSize);
      }
    } else {
      outcome := Failed;
    }
  }

  /** In "auto" mode, once the rebuild has failed, the fallback alone decides the result. */
  lemma AutoFallbackDecides(job: Job)
    requires !RebuildSucceeds(job.source)
    ensures OutcomeOf("auto", job).Failed? <==> !(job.fallbackOk && job.outputExists)
  {
    assert Attempts("auto", false) == [PyMuPdf, PyPdf2];
  }

  /** The sizes never turn a success into a failure or back: only the "not smaller" note depends on them. */
  lemma SizeDoesNotDecide(methodName: string, job: Job, compressedSize: nat)
    ensures OutcomeOf(methodName, job).Failed? == OutcomeOf(methodName, job.(compressedSize := compressedSize)).Failed?
  {
  }
}
