/**
  The path of the fixed-layout PDF rendition of a source file
  (`_get_pdf_path` in basic_preprocessor_actual.py). The text and legacy
  word-processor loaders write their rendition there, and image extraction and
  bounding-box search read it back from there.
*/
module PdfPath {
  import Text

  /** Extensions rewritten to `.pdf`, in the order they are applied. */
  const ConvertibleExtensions: seq<string> := [".hwp", ".txt", ".json", ".md"]

  const PdfExtension: string := ".pdf"

  /** Every listed extension is a dot followed by dot-free characters. */
  predicate DotLed(e: string) {
    e != [] && e[0] == '.' && '.' !in e[1..]
  }

  predicate AllDotLed(exts: seq<string>) {
    forall i :: 0 <= i < |exts| ==> DotLed(exts[i])
  }

  /** Each extension of `exts` in turn replaced by `.pdf` everywhere in the path. */
  function RewriteAll(path: string, exts: seq<string>): string
    requires AllDotLed(exts)
    decreases |exts|
  {
    if exts == [] then path
    else RewriteAll(Text.ReplaceAll(path, exts[0], PdfExtension), exts[1..])
  }

  function PdfPathOf(filePath: string): string {
    RewriteAll(filePath, ConvertibleExtensions)
  }

  /** Each convertible extension in turn replaced by `.pdf` wherever it occurs, by a loop over the list. */
  method GetPdfPath(filePath: string) returns (pdfPath: string)
    ensures pdfPath == PdfPathOf(filePath)
  {
    pdfPath := filePath;
    for i := 0 to |ConvertibleExtensions|
      invariant RewriteAll(pdfPath, ConvertibleExtensions[i..]) == PdfPathOf(filePath)
    {
      assert ConvertibleExtensions[i..][1..] == ConvertibleExtensions[i + 1..];
      pdfPath := Text.ReplaceAll(pdfPath, ConvertibleExtensions[i], PdfExtension);
    }
  }

  /** A path mentioning none of the extensions is returned unchanged. */
  lemma {:induction false} RewriteAllAbsent(path: string, exts: seq<string>)
    requires AllDotLed(exts)
    requires forall i :: 0 <= i < |exts| ==> !Text.Contains(path, exts[i])
    ensures RewriteAll(path, exts) == path
    decreases |exts|
  {
    if exts != [] {
      Text.ReplaceAllAbsent(path, exts[0], PdfExtension);
      RewriteAllAbsent(path, exts[1..]);
    }
  }

  lemma PdfPathUnchanged(filePath: string)
    requires forall i :: 0 <= i < |ConvertibleExtensions| ==> !Text.Contains(filePath, ConvertibleExtensions[i])
    ensures PdfPathOf(filePath) == filePath
  {
    RewriteAllAbsent(filePath, ConvertibleExtensions);
  }

  lemma ReplaceKeepsDotHead(tail: string, pat: string)
    requires tail != [] && tail[0] == '.' && pat != []
    ensures var r := Text.ReplaceAll(tail, pat, PdfExtension); r != [] && r[0] == '.'
  {
  }

  /** The rewrite splits at every dot before which no extension can begin. */
  lemma {:induction false} RewriteAllSplit(stem: string, tail: string, exts: seq<string>)
    requires AllDotLed(exts)
    requires tail != [] && tail[0] == '.'
    ensures RewriteAll(stem + tail, exts) == RewriteAll(stem, exts) + RewriteAll(tail, exts)
    decreases |exts|
  {
    if exts != [] {
      var e := exts[0];
      Text.ReplaceAllSplit(stem, tail, e, PdfExtension);
      ReplaceKeepsDotHead(tail, e);
      RewriteAllSplit(Text.ReplaceAll(stem, e, PdfExtension), Text.ReplaceAll(tail, e, PdfExtension), exts[1..]);
    }
  }

  /** A file named with a convertible extension gets exactly that extension turned into `.pdf`. */
  lemma ConvertedExtension(stem: string, ext: string)
    requires ext in ConvertibleExtensions || ext == PdfExtension
    ensures PdfPathOf(stem + ext) == PdfPathOf(stem) + PdfExtension
  {
    RewriteAllSplit(stem, ext, ConvertibleExtensions);
    ExtensionRewrites(ext);
  }

  /** `.pdf` is a fixed point of each step, and each convertible extension is caught by its own step. */
  lemma ExtensionRewrites(ext: string)
    requires ext in ConvertibleExtensions || ext == PdfExtension
    ensures PdfPathOf(ext) == PdfExtension
  {
    assert ConvertibleExtensions[0..] == ConvertibleExtensions;
    if ext == PdfExtension {
      PdfFixed(0);
    } else if ext == ".hwp" {
      HwpRewrites();
    } else if ext == ".txt" {
      TxtRewrites();
    } else if ext == ".json" {
      JsonRewrites();
    } else {
      MdRewrites();
    }
  }

  /** One rewrite step, from the `k`-th extension on. */
  lemma RewriteFrom(path: string, k: nat)
    requires k < |ConvertibleExtensions|
    ensures RewriteAll(path, ConvertibleExtensions[k..]) ==
      RewriteAll(Text.ReplaceAll(path, ConvertibleExtensions[k], PdfExtension), ConvertibleExtensions[k + 1..])
  {
    assert ConvertibleExtensions[k..][1..] == ConvertibleExtensions[k + 1..];
  }

  /** No convertible extension occurs in `.pdf`. */
  lemma PdfUntouched(k: nat)
    requires k < |ConvertibleExtensions|
    ensures Text.ReplaceAll(PdfExtension, ConvertibleExtensions[k], PdfExtension) == PdfExtension
  {
    var e := ConvertibleExtensions[k];
    assert !Text.Contains(PdfExtension, e) by {
      forall i: nat | i + |e| <= |PdfExtension| ensures !Text.OccursAt(PdfExtension, e, i) {
        assert PdfExtension[i + 1] != e[1];
      }
    }
    Text.ReplaceAllAbsent(PdfExtension, e, PdfExtension);
  }

  /** The remaining steps leave `.pdf` alone. */
  lemma {:induction false} PdfFixed(k: nat)
    requires k <= |ConvertibleExtensions|
    ensures RewriteAll(PdfExtension, ConvertibleExtensions[k..]) == PdfExtension
    decreases |ConvertibleExtensions| - k
  {
    if k < |ConvertibleExtensions| {
      RewriteFrom(PdfExtension, k);
      PdfUntouched(k);
      PdfFixed(k + 1);
    }
  }

  lemma HwpRewrites()
    ensures RewriteAll(".hwp", ConvertibleExtensions[0..]) == PdfExtension
  {
    RewriteFrom(".hwp", 0);
    assert Text.ReplaceAll(".hwp", ".hwp", PdfExtension) == PdfExtension;
    PdfFixed(1);
  }

  lemma TxtRewrites()
    ensures RewriteAll(".txt", ConvertibleExtensions[0..]) == PdfExtension
  {
    RewriteFrom(".txt", 0);
    assert Text.ReplaceAll(".txt", ".hwp", PdfExtension) == ".txt" by {
      assert Text.ReplaceAll("txt", ".hwp", PdfExtension) == "txt";
    }
    RewriteFrom(".txt", 1);
    assert Text.ReplaceAll(".txt", ".txt", PdfExtension) == PdfExtension;
    PdfFixed(2);
  }

  lemma JsonRewrites()
    ensures RewriteAll(".json", ConvertibleExtensions[0..]) == PdfExtension
  {
    RewriteFrom(".json", 0);
    JsonKeeps(".hwp");
    RewriteFrom(".json", 1);
    JsonKeeps(".txt");
    RewriteFrom(".json", 2);
    assert Text.ReplaceAll(".json", ".json", PdfExtension) == PdfExtension;
    PdfFixed(3);
  }

  /** `.hwp` and `.txt` do not occur in `.json`. */
  lemma JsonKeeps(e: string)
    requires e == ".hwp" || e == ".txt"
    ensures Text.ReplaceAll(".json", e, PdfExtension) == ".json"
  {
    assert Text.ReplaceAll("son", e, PdfExtension) == "son";
    assert Text.ReplaceAll("json", e, PdfExtension) == "json";
  }

  lemma MdRewrites()
    ensures RewriteAll(".md", ConvertibleExtensions[0..]) == PdfExtension
  {
    RewriteFrom(".md", 0);
    assert Text.ReplaceAll(".md", ".hwp", PdfExtension) == ".md";
    RewriteFrom(".md", 1);
    assert Text.ReplaceAll(".md", ".txt", PdfExtension) == ".md";
    RewriteFrom(".md", 2);
    assert Text.ReplaceAll(".md", ".json", PdfExtension) == ".md";
    RewriteFrom(".md", 3);
    assert Text.ReplaceAll(".md", ".md", PdfExtension) == PdfExtension;
    PdfFixed(4);
  }

  /** `a/x.txt` is rendered to `a/x.pdf`. */
  lemma TextFileExample()
    ensures PdfPathOf("a/x.txt") == "a/x.pdf"
  {
    ConvertedExtension("a/x", ".txt");
    assert "a/x" + ".txt" == "a/x.txt";
    PlainStem();
  }

  /** `a/x` has no dot, so no extension occurs in it. */
  lemma StemKeeps(k: nat)
    requires k < |ConvertibleExtensions|
    ensures Text.ReplaceAll("a/x", ConvertibleExtensions[k], PdfExtension) == "a/x"
  {
    var e := ConvertibleExtensions[k];
    assert !Text.Contains("a/x", e) by {
      forall i: nat | i + |e| <= 3 ensures !Text.OccursAt("a/x", e, i) {
        assert "a/x"[i] != e[0];
      }
    }
    Text.ReplaceAllAbsent("a/x", e, PdfExtension);
  }

  lemma PlainStem()
    ensures PdfPathOf("a/x") == "a/x"
  {
    RewriteFrom("a/x", 0);
    StemKeeps(0);
    RewriteFrom("a/x", 1);
    StemKeeps(1);
    RewriteFrom("a/x", 2);
    StemKeeps(2);
    RewriteFrom("a/x", 3);
    StemKeeps(3);
    assert ConvertibleExtensions[0..] == ConvertibleExtensions;
  }
}
