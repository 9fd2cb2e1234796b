/**
 * The processing loop of `main`: for each candidate file, add its size to the
 * original total, compress it, and on success add the output's size and count
 * it. As written, the loop body ends in an unconditional `break`, so the loop
 * stops after the first file whose body does not raise; a file whose body
 * raises is reported and the next one is tried. `RunAll` is the loop without
 * that `break`.
 */
module Batch {
  import opened Naming
  import opened PagePlan
  import opened Rebuild
  import opened Orchestrator

  /** The settings `main` fixes before the loop. */
  const MethodName: string := "auto"
  const Quality: int := 80
  const Dpi: int := 300

  /**
   * How the body of the loop goes for one file, as far as the model cannot
   * decide it: its size cannot be read (nothing is added), something raises
   * after the size was added (outside what `CompressSingle` decides), or the
   * call `compress_single_pdf` is made with the given job.
   */
  datatype FileRun = SizeFails | RaisesAfterSize(originalSize: nat) | Runs(job: Job)

  /** The accumulators of `main`. */
  datatype Totals = Totals(successful: nat, totalOriginal: nat, totalCompressed: nat)

  /** What `main` reports: nothing to do, or the file count and the accumulators. */
  datatype Report = NoPdfFiles | Summary(filesFound: nat, totals: Totals)

  /** What one pass of the loop body does: either the exception handler runs, or the body ends. */
  datatype Step = Skipped(originalAdded: nat) | Finished(delta: Totals)

  const Zero: Totals := Totals(0, 0, 0)

  function Plus(a: Totals, b: Totals): Totals {
    Totals(a.successful + b.successful, a.totalOriginal + b.totalOriginal, a.totalCompressed + b.totalCompressed)
  }

  /** A file that `main` counts as successfully compressed. */
  predicate CountsAsSuccess(run: FileRun) {
    run.Runs? && OutcomeOf(MethodName, run.job).Compressed?
  }

  /**
   * What the loop body does for one file: what it adds, and whether it
   * reaches the `break`. A body that raises before the call never reaches
   * it, and the original total grows by the size read, if any.
   */
  function StepOf(run: FileRun): (step: Step)
    ensures !run.Runs? ==> step.Skipped?
    ensures Delta(step).totalOriginal == match run
      case SizeFails => 0
      case RaisesAfterSize(s) => s
      case Runs(job) => job.originalSize
  {
    match run
    case SizeFails => Skipped(0)
    case RaisesAfterSize(s) => Skipped(s)
    case Runs(job) =>
      match OutcomeOf(MethodName, job)
      case RaisedZeroDivision => Skipped(job.originalSize)
      case Failed => Finished(Totals(0, job.originalSize, 0))
      case Compressed(_) => Finished(Totals(1, job.originalSize, job.compressedSize))
  }

  /**
   * The success count and the compressed total grow only for a file that
   * counts as compressed, and only a body that ends (rather than raises) can
   * make them grow.
   */
  lemma StepOfMeaning(run: FileRun)
    ensures StepOf(run).Finished? && StepOf(run).delta.successful == 1 <==> CountsAsSuccess(run)
    ensures WellFormed(StepOf(run))
  {
  }

  /** What a step adds to the accumulators. */
  function Delta(step: Step): Totals {
    match step
    case Skipped(s) => Totals(0, s, 0)
    case Finished(d) => d
  }

  /** A step adds at most one success, and compressed bytes only together with it. */
  predicate WellFormed(step: Step) {
    Delta(step).successful <= 1 &&
    (Delta(step).successful == 0 ==> Delta(step).totalCompressed == 0) &&
    (step.Skipped? ==> Delta(step).successful == 0)
  }

  /** The step of every file, in order. */
  function StepsOf(files: seq<string>, run: string -> FileRun): (steps: seq<Step>)
    ensures |steps| == |files|
    ensures forall j :: 0 <= j < |files| ==> steps[j] == StepOf(run(files[j]))
  {
    seq(|files|, j requires 0 <= j < |files| => StepOf(run(files[j])))
  }

  /**
   * The accumulators the loop as written gathers from position `i` on: a
   * skipped file adds its step and the loop goes on, the first finished step
   * ends it.
   */
  function TallyFrom(steps: seq<Step>, i: nat): Totals
    decreases |steps| - i
  {
    if i >= |steps| then Zero
    else
      match steps[i]
      case Skipped(s) => Plus(Totals(0, s, 0), TallyFrom(steps, i + 1))
      case Finished(d) => d
  }

  /** Every one of the first `i` steps was skipped. */
  predicate SkippedBefore(steps: seq<Step>, i: nat)
    requires i <= |steps|
  {
    i == 0 || (steps[i - 1].Skipped? && SkippedBefore(steps, i - 1))
  }

  /** What the first `i` steps add when every one of them is taken. */
  function PrefixTotals(steps: seq<Step>, i: nat): Totals
    requires i <= |steps|
  {
    if i == 0 then Zero
    else Plus(PrefixTotals(steps, i - 1), Delta(steps[i - 1]))
  }

  /**
   * The accumulators after the loop as written: what the files up to the
   * first one whose body ends add, that file included, and nothing after it.
   */
  function Tally(files: seq<string>, run: string -> FileRun): (t: Totals)
    ensures var steps := StepsOf(files, run);
      var k := FirstFinished(steps, 0);
      t == if k < |steps| then Plus(PrefixTotals(steps, k), steps[k].delta) else PrefixTotals(steps, k)
  {
    var steps := StepsOf(files, run);
    var k := FirstFinished(steps, 0);
    SkippedBeforeFirst(steps, k);
    if k < |steps| then
      BreakTotals(steps, k);
      TallyFrom(steps, 0)
    else
      NoBreakTotals(steps);
      TallyFrom(steps, 0)
  }

  /** The accumulators if every file were processed: at most one success per file. */
  function TallyAll(files: seq<string>, run: string -> FileRun): (t: Totals)
    ensures t.successful <= |files|
  {
    var steps := StepsOf(files, run);
    StepsWellFormed(files, run);
    SuccessesAtMostSteps(steps, |files|);
    PrefixTotals(steps, |files|)
  }

  /** Every step of a run satisfies `WellFormed`. */
  lemma StepsWellFormed(files: seq<string>, run: string -> FileRun)
    ensures forall j :: 0 <= j < |files| ==> WellFormed(StepsOf(files, run)[j])
  {
    var steps := StepsOf(files, run);
    forall j | 0 <= j < |steps|
      ensures WellFormed(steps[j])
    {
      StepOfMeaning(run(files[j]));
    }
  }

  /** The steps before the first finished one are all skipped. */
  lemma {:induction false} SkippedBeforeFirst(steps: seq<Step>, i: nat)
    requires i <= |steps|
    requires forall j :: 0 <= j < i ==> steps[j].Skipped?
    ensures SkippedBefore(steps, i)
  {
    if i > 0 {
      SkippedBeforeFirst(steps, i - 1);
    }
  }

  /**
   * The body of the loop for one file (compressor.py:206-214): what it adds
   * to the accumulators, and whether it ran to its end (where the `break`
   * is) or raised into the handler.
   */
  method ProcessFile(file: string, run: FileRun) returns (step: Step)
    ensures step == StepOf(run)
  {
    match run {
      case SizeFails =>
        step := Skipped(0);
      case RaisesAfterSize(s) =>
        step := Skipped(s);
      case Runs(job) =>
        var outputName, attempts, outcome := CompressSingle(file, MethodName, Quality, Dpi, job);
        if outcome.RaisedZeroDivision? {
          step := Skipped(job.originalSize);
        } else if outcome.Compressed? && job.outputExists {
          step := Finished(Totals(1, job.originalSize, job.compressedSize));
        } else {
          step := Finished(Totals(0, job.originalSize, 0));
        }
    }
  }

  /** The loop of `main` (compressor.py:199-219), `break` included. */
  method RunBatch(files: seq<string>, run: string -> FileRun) returns (totals: Totals)
    ensures totals == Tally(files, run)
  {
    ghost var steps := StepsOf(files, run);
    totals := Zero;
    var i := 0;
    while i < |files|
      invariant 0 <= i <= |files|
      invariant SkippedBefore(steps, i)
      invariant totals == PrefixTotals(steps, i)
    {
      var step := ProcessFile(files[i], run(files[i]));
      assert step == steps[i];
      if step.Finished? {
        BreakTotals(steps, i);
        totals := Plus(totals, step.delta);
        break;
      }
      totals := Plus(totals, Delta(step));
      i := i + 1;
    }
    if i == |files| {
      NoBreakTotals(steps);
    }
  }

  /**
   * While every step so far was skipped, the loop as written has gathered
   * what taking every step would, and the rest of the run is still to come.
   */
  lemma {:induction false} SkippedPrefix(steps: seq<Step>, i: nat)
    requires i <= |steps|
    requires SkippedBefore(steps, i)
    ensures TallyFrom(steps, 0) == Plus(PrefixTotals(steps, i), TallyFrom(steps, i))
  {
    if i > 0 {
      SkippedPrefix(steps, i - 1);
    }
  }

  /** The loop as written, stopped by the first finished step, has added exactly up to it. */
  lemma BreakTotals(steps: seq<Step>, i: nat)
    requires i < |steps| && SkippedBefore(steps, i) && steps[i].Finished?
    ensures TallyFrom(steps, 0) == Plus(PrefixTotals(steps, i), steps[i].delta)
  {
    SkippedPrefix(steps, i);
  }

  /** When no step finishes, the loop as written takes every step. */
  lemma NoBreakTotals(steps: seq<Step>)
    requires SkippedBefore(steps, |steps|)
    ensures TallyFrom(steps, 0) == PrefixTotals(steps, |steps|)
  {
    SkippedPrefix(steps, |steps|);
  }

  /** `main` from discovery to the report (the printing left out). */
  method CompressDirectory(globbed: seq<string>, run: string -> FileRun) returns (report: Report)
    ensures var files := Candidates(globbed);
      report == if files == [] then NoPdfFiles else Summary(|files|, Tally(files, run))
    ensures report.Summary? ==> report.totals.successful <= 1
  {
    var pdfFiles := FindPdfFiles(globbed);
    if pdfFiles == [] {
      return NoPdfFiles;
    }
    var totals := RunBatch(pdfFiles, run);
    AtMostOneSuccess(pdfFiles, run);
    report := Summary(|pdfFiles|, totals);
  }

  /**
   * The loop as written counts at most one success, and without a success
   * nothing is added to the compressed total.
   */
  lemma AtMostOneSuccess(files: seq<string>, run: string -> FileRun)
    ensures Tally(files, run).successful <= 1
    ensures Tally(files, run).successful == 0 ==> Tally(files, run).totalCompressed == 0
  {
    StepsWellFormed(files, run);
    AtMostOneSuccessFrom(StepsOf(files, run), 0);
  }

  lemma {:induction false} AtMostOneSuccessFrom(steps: seq<Step>, i: nat)
    requires forall j :: 0 <= j < |steps| ==> WellFormed(steps[j])
    ensures TallyFrom(steps, i).successful <= 1
    ensures TallyFrom(steps, i).successful == 0 ==> TallyFrom(steps, i).totalCompressed == 0
    decreases |steps| - i
  {
    if i < |steps| {
      assert WellFormed(steps[i]);
      if steps[i].Skipped? {
        AtMostOneSuccessFrom(steps, i + 1);
      }
    }
  }

  /**
   * The position of the first step from `i` on that finishes, or the length
   * when every remaining step is skipped.
   */
  function FirstFinished(steps: seq<Step>, i: nat): (k: nat)
    requires i <= |steps|
    ensures i <= k <= |steps|
    ensures forall j :: i <= j < k ==> steps[j].Skipped?
    ensures k < |steps| ==> steps[k].Finished?
    decreases |steps| - i
  {
    if i == |steps| || steps[i].Finished? then i else FirstFinished(steps, i + 1)
  }

  /** The first file whose loop body ends without raising (or the count of files). */
  function FirstEnded(files: seq<string>, run: string -> FileRun): nat {
    FirstFinished(StepsOf(files, run), 0)
  }

  /**
   * The loop as written counts a success exactly when the first file whose
   * body does not raise compresses with its output present.
   */
  lemma SuccessIsFirstFinishedFile(files: seq<string>, run: string -> FileRun)
    ensures FirstEnded(files, run) <= |files|
    ensures Tally(files, run).successful == 1 <==>
      FirstEnded(files, run) < |files| && CountsAsSuccess(run(files[FirstEnded(files, run)]))
  {
    var steps := StepsOf(files, run);
    SuccessesOfFirstFinished(steps, 0);
    var k := FirstFinished(steps, 0);
    if k < |files| {
      StepOfMeaning(run(files[k]));
    }
  }

  /** What the loop as written gathers from `i` on is what the first finishing step adds, if any. */
  lemma {:induction false} SuccessesOfFirstFinished(steps: seq<Step>, i: nat)
    requires i <= |steps|
    ensures var k := FirstFinished(steps, i);
      TallyFrom(steps, i).successful == if k < |steps| then steps[k].delta.successful else 0
    decreases |steps| - i
  {
    if i < |steps| && steps[i].Skipped? {
      SuccessesOfFirstFinished(steps, i + 1);
    }
  }

  /**
   * Files after the first one whose body ends without raising are never
   * looked at: whatever would happen to them, the totals are the same.
   */
  lemma LaterFilesIgnored(files: seq<string>, run: string -> FileRun, other: string -> FileRun, k: nat)
    requires k < |files| && StepOf(run(files[k])).Finished?
    requires forall j :: 0 <= j < k ==> StepOf(run(files[j])).Skipped?
    requires forall j :: 0 <= j <= k ==> other(files[j]) == run(files[j])
    ensures Tally(files, run) == Tally(files, other)
  {
    LaterStepsIgnored(StepsOf(files, run), StepsOf(files, other), k, 0);
  }

  lemma {:induction false} LaterStepsIgnored(steps: seq<Step>, others: seq<Step>, k: nat, i: nat)
    requires i <= k < |steps| && k < |others| && steps[k].Finished?
    requires forall j :: i <= j < k ==> steps[j].Skipped?
    requires forall j :: i <= j <= k ==> others[j] == steps[j]
    ensures TallyFrom(steps, i) == TallyFrom(others, i)
    decreases k - i
  {
    if i < k {
      LaterStepsIgnored(steps, others, k, i + 1);
    }
  }

  /** The loop of `main` without the `break`: every candidate file is processed. */
  method RunAll(files: seq<string>, run: string -> FileRun) returns (totals: Totals)
    ensures totals == TallyAll(files, run)
  {
    ghost var steps := StepsOf(files, run);
    totals := Zero;
    for i := 0 to |files|
      invariant totals == PrefixTotals(steps, i)
    {
      var step := ProcessFile(files[i], run(files[i]));
      assert step == steps[i];
      totals := Plus(totals, Delta(step));
    }
  }

  /** `main` with the loop that processes every candidate file. */
  method CompressDirectoryAll(globbed: seq<string>, run: string -> FileRun) returns (report: Report)
    ensures var files := Candidates(globbed);
      report == if files == [] then NoPdfFiles else Summary(|files|, TallyAll(files, run))
    ensures report.Summary? ==> report.totals.successful <= report.filesFound
  {
    var pdfFiles := FindPdfFiles(globbed);
    if pdfFiles == [] {
      return NoPdfFiles;
    }
    var totals := RunAll(pdfFiles, run);
    report := Summary(|pdfFiles|, totals);
  }

  /** Without the `break`, the first `i` steps add at most `i` successes. */
  lemma {:induction false} SuccessesAtMostSteps(steps: seq<Step>, i: nat)
    requires i <= |steps|
    requires forall j :: 0 <= j < |steps| ==> WellFormed(steps[j])
    ensures PrefixTotals(steps, i).successful <= i
  {
    if i > 0 {
      assert WellFormed(steps[i - 1]);
      SuccessesAtMostSteps(steps, i - 1);
    }
  }

  /** Without the `break`, every file that succeeds is counted. */
  lemma RunAllCountsEverySuccess(files: seq<string>, run: string -> FileRun)
    requires forall f :: f in files ==> CountsAsSuccess(run(f))
    ensures TallyAll(files, run).successful == |files|
  {
    var steps := StepsOf(files, run);
    forall j | 0 <= j < |steps|
      ensures steps[j].Finished? && steps[j].delta.successful == 1
    {
      assert CountsAsSuccess(run(files[j]));
      StepOfMeaning(run(files[j]));
    }
    EverySuccessCounted(steps, |files|);
  }

  lemma {:induction false} EverySuccessCounted(steps: seq<Step>, i: nat)
    requires i <= |steps|
    requires forall j :: 0 <= j < |steps| ==> steps[j].Finished? && steps[j].delta.successful == 1
    ensures PrefixTotals(steps, i).successful == i
  {
    if i > 0 {
      EverySuccessCounted(steps, i - 1);
    }
  }

  /** With the `break`, however many files would succeed, exactly one is counted. */
  lemma RunBatchCountsOneSuccess(files: seq<string>, run: string -> FileRun)
    requires files != [] && forall f :: f in files ==> CountsAsSuccess(run(f))
    ensures Tally(files, run).successful == 1
  {
    assert CountsAsSuccess(run(files[0]));
    StepOfMeaning(run(files[0]));
  }

  /** A directory with two PDFs that both compress: the loop as written reports one success, not two. */
  lemma TwoFilesOneCounted()
    ensures var page := SourcePage(Blocks(3), "RGB", Rect(0.0, 0.0, 612.0, 792.0), true);
      var job := Job(SourceDocument(true, [page], true), false, true, 1000, 500);
      var run := (f: string) => Runs(job);
      Tally(["a.pdf", "b.pdf"], run).successful == 1 && TallyAll(["a.pdf", "b.pdf"], run).successful == 2
  {
    var page := SourcePage(Blocks(3), "RGB", Rect(0.0, 0.0, 612.0, 792.0), true);
    var job := Job(SourceDocument(true, [page], true), false, true, 1000, 500);
    var run := (f: string) => Runs(job);
    assert RebuildSucceeds(job.source);
    assert CountsAsSuccess(run("a.pdf"));
    assert CountsAsSuccess(run("b.pdf"));
    RunBatchCountsOneSuccess(["a.pdf", "b.pdf"], run);
    RunAllCountsEverySuccess(["a.pdf", "b.pdf"], run);
  }
}
