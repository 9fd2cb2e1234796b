/**
 * File names: the output name given to a compressed file and the filter that
 * keeps earlier outputs out of the candidate list.
 *
 * `Stem` and `Suffix` follow Python's `pathlib.PurePath.stem` / `.suffix`:
 * the suffix starts at the last '.', provided that dot is neither the first
 * nor the last character of the name.
 */
module Naming {

  /** The marker that `find_pdf_files` treats as "already compressed". */
  const CompressedMarker: string := "_compressed.pdf"

  /** The text inserted between stem and suffix of an output name. */
  const CompressedTag: string := "_compressed"

  predicate EndsWith(s: string, tail: string) {
    |tail| <= |s| && s[|s| - |tail|..] == tail
  }

  /** `str.rfind(c)`: the index of the last occurrence of `c`, or -1. */
  function LastIndexOf(s: string, c: char): (i: int)
    ensures -1 <= i < |s|
    ensures 0 <= i ==> s[i] == c
    ensures forall j :: i < j < |s| ==> s[j] != c
  {
    if s == [] then -1
    else if s[|s| - 1] == c then |s| - 1
    else LastIndexOf(s[..|s| - 1], c)
  }

  /** `PurePath.suffix`: empty, or a dot followed by at least one character and no further dot. */
  function Suffix(name: string): (r: string)
    ensures r == [] || (2 <= |r| < |name| && r[0] == '.' && forall j :: 1 <= j < |r| ==> r[j] != '.')
    ensures EndsWith(name, r)
    ensures r == [] <==> |name| == 0 || name[|name| - 1] == '.' || forall j :: 0 < j < |name| ==> name[j] != '.'
  {
    var i := LastIndexOf(name, '.');
    if 0 < i < |name| - 1 then name[i..] else []
  }

  /** `PurePath.stem`: what is left of the name once the suffix is taken off. */
  function Stem(name: string): (r: string)
    ensures r + Suffix(name) == name
    ensures r != [] || name == []
  {
    var i := LastIndexOf(name, '.');
    if 0 < i < |name| - 1 then name[..i] else name
  }

  /**
   * `f"{stem}_compressed{suffix}"` (compressor.py:118, 210). A name without
   * an extension gets the tag at its end; a name with one keeps it: read back
   * through `pathlib`, the output's suffix is the input's and its stem is the
   * input's stem with the tag appended.
   */
  function OutputName(name: string): (r: string)
    ensures |r| == |name| + |CompressedTag|
    ensures Suffix(name) == [] ==> r == name + CompressedTag
    ensures Suffix(name) != [] ==> Suffix(r) == Suffix(name) && Stem(r) == Stem(name) + CompressedTag
  {
    TaggedNameKeepsSuffix(name);
    Stem(name) + CompressedTag + Suffix(name)
  }

  /** Putting the tag between stem and suffix leaves the suffix where `pathlib` finds it. */
  lemma TaggedNameKeepsSuffix(name: string)
    ensures var r := Stem(name) + CompressedTag + Suffix(name);
      Suffix(name) != [] ==> Suffix(r) == Suffix(name) && Stem(r) == Stem(name) + CompressedTag
  {
    if Suffix(name) != [] {
      LastIndexOfAppend(Stem(name) + CompressedTag, Suffix(name), '.');
    }
  }

  /** The last occurrence in `a + b` of a character that `b` contains lies in `b`. */
  lemma LastIndexOfAppend(a: string, b: string, c: char)
    requires LastIndexOf(b, c) >= 0
    ensures LastIndexOf(a + b, c) == |a| + LastIndexOf(b, c)
  {
    var p := LastIndexOf(b, c);
    assert (a + b)[|a| + p] == c;
  }

  /** The test `name.endswith('_compressed.pdf')` of `find_pdf_files`. */
  predicate IsCompressedName(name: string)
    ensures IsCompressedName(name) ==> EndsWith(name, ".pdf") && |name| >= |CompressedMarker|
  {
    MarkerEndsInPdf(name);
    EndsWith(name, CompressedMarker)
  }

  /** A name ending in the marker ends in ".pdf", the marker's own last four characters. */
  lemma MarkerEndsInPdf(name: string)
    ensures EndsWith(name, CompressedMarker) ==> EndsWith(name, ".pdf")
  {
    if EndsWith(name, CompressedMarker) {
      assert name[|name| - 4..] == name[|name| - |CompressedMarker|..][|CompressedMarker| - 4..];
    }
  }

  /**
   * The names `find_pdf_files` keeps, in discovery order, out of the names the
   * glob yielded.
   */
  function Candidates(globbed: seq<string>): (r: seq<string>)
    ensures |r| <= |globbed|
    ensures forall x :: x in r <==> x in globbed && !IsCompressedName(x)
  {
    if globbed == [] then []
    else
      var last := globbed[|globbed| - 1];
      Candidates(globbed[..|globbed| - 1]) + (if IsCompressedName(last) then [] else [last])
  }

  /** `find_pdf_files`: one pass over the glob's results, appending the names that survive. */
  method FindPdfFiles(globbed: seq<string>) returns (pdfFiles: seq<string>)
    ensures pdfFiles == Candidates(globbed)
  {
    pdfFiles := [];
    for i := 0 to |globbed|
      invariant pdfFiles == Candidates(globbed[..i])
    {
      assert globbed[..i + 1][..i] == globbed[..i];
      if !IsCompressedName(globbed[i]) {
        pdfFiles := pdfFiles + [globbed[i]];
      }
    }
    assert globbed[..|globbed|] == globbed;
  }

  /** Filtering keeps discovery order: it works on each part of a listing separately. */
  lemma {:induction false} CandidatesAppend(a: seq<string>, b: seq<string>)
    ensures Candidates(a + b) == Candidates(a) + Candidates(b)
    decreases |b|
  {
    if b == [] {
      assert a + b == a;
    } else {
      var b' := b[..|b| - 1];
      assert (a + b)[..|a + b| - 1] == a + b';
      assert (a + b)[|a + b| - 1] == b[|b| - 1];
      CandidatesAppend(a, b');
    }
  }

  /** A one-name listing keeps its name exactly when it is not an earlier output. */
  lemma CandidatesSingle(x: string)
    ensures Candidates([x]) == if IsCompressedName(x) then [] else [x]
  {
    assert [x][..0] == [];
  }

  /**
   * Whatever the input name, an output name that matches `*.pdf` at all ends
   * in the "already compressed" marker, so `find_pdf_files` drops it.
   */
  lemma OutputNameIsMarked(name: string)
    ensures EndsWith(OutputName(name), ".pdf") ==> IsCompressedName(OutputName(name))
  {
    TaggedNameIsMarked(Stem(name), Suffix(name));
  }

  /** A name `stem + "_compressed" + suf`, with `suf` a possible suffix, that ends in ".pdf" ends in the marker. */
  lemma TaggedNameIsMarked(stem: string, suf: string)
    requires suf == [] || (2 <= |suf| && suf[0] == '.' && forall j :: 1 <= j < |suf| ==> suf[j] != '.')
    ensures var o := stem + CompressedTag + suf;
      EndsWith(o, ".pdf") ==> IsCompressedName(o)
  {
    var o := stem + CompressedTag + suf;
    if EndsWith(o, ".pdf") {
      var n := |o|;
      assert o[n - 4] == '.';
      if 4 <= |suf| {
        assert o[n - 4] == suf[|suf| - 4];
        assert |suf| == 4;
        assert o[n - |CompressedMarker|..] == CompressedTag + suf;
      }
    }
  }

  /** A `.pdf` name longer than the bare extension keeps ".pdf" as its suffix. */
  lemma PdfNameSplit(name: string)
    requires EndsWith(name, ".pdf") && |name| > 4
    ensures Suffix(name) == ".pdf"
    ensures OutputName(name) == name[..|name| - 4] + CompressedMarker
  {
    PdfSuffix(name);
    var stem := name[..|name| - 4];
    assert OutputName(name) == stem + CompressedTag + ".pdf";
    assert stem + CompressedTag + ".pdf" == stem + (CompressedTag + ".pdf");
    assert CompressedTag + ".pdf" == CompressedMarker;
  }

  /** The last dot of a `.pdf` name longer than the extension is the one before "pdf". */
  lemma PdfSuffix(name: string)
    requires EndsWith(name, ".pdf") && |name| > 4
    ensures Suffix(name) == ".pdf" && Stem(name) == name[..|name| - 4]
  {
    var n := |name|;
    assert name[n - 4..] == ".pdf";
    assert name[n - 4] == '.' && name[n - 3] != '.' && name[n - 2] != '.' && name[n - 1] != '.';
    assert LastIndexOf(name, '.') == n - 4;
  }

  /** A name that ends in `tail` is what precedes `tail` followed by `tail`. */
  lemma EndsWithSplit(s: string, tail: string)
    requires EndsWith(s, tail)
    ensures s == s[..|s| - |tail|] + tail
  {
    assert s == s[..|s| - |tail|] + s[|s| - |tail|..];
  }

  /** Every marked name longer than the marker is the output name of the `.pdf` file it was made from. */
  lemma MarkedNameIsOutput(name: string)
    requires IsCompressedName(name) && |name| > |CompressedMarker|
    ensures OutputName(name[..|name| - |CompressedMarker|] + ".pdf") == name
  {
    var prefix := name[..|name| - |CompressedMarker|];
    var source := prefix + ".pdf";
    assert OutputName(source) == prefix + CompressedMarker by {
      assert EndsWith(source, ".pdf");
      PdfNameSplit(source);
      assert source[..|source| - 4] == prefix;
    }
    EndsWithSplit(name, CompressedMarker);
  }

  /**
   * Re-running the discovery over a directory (whose glob yields only names
   * ending in ".pdf") never selects an output name produced from any file.
   */
  lemma RerunSkipsOutputs(globbed: seq<string>)
    requires forall x :: x in globbed ==> EndsWith(x, ".pdf")
    ensures forall name :: OutputName(name) !in Candidates(globbed)
  {
    forall name
      ensures OutputName(name) !in Candidates(globbed)
    {
      OutputNameIsMarked(name);
    }
  }

  /** A directory holding only earlier outputs yields no candidates. */
  lemma OnlyOutputsYieldNothing(globbed: seq<string>)
    requires forall x :: x in globbed ==> IsCompressedName(x)
    ensures Candidates(globbed) == []
  {
    if Candidates(globbed) != [] {
      assert Candidates(globbed)[0] in Candidates(globbed);
    }
  }
}
