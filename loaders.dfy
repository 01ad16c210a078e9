/**
  Choice of the document loader from the file name, and the extension rule
  of POSIX `os.path.splitext` that it relies on.
*/
module Loaders {
  import Text

  /** The loader families a document can be read with. */
  datatype LoaderKind =
    | PyMuPdf        // PDF read directly
    | WordDocument   // .doc, .docx
    | PowerPoint     // .ppt, .pptx
    | Image          // .jpg, .jpeg, .png
    | TextRender     // .txt, .json, .md rendered to PDF first
    | HwpRender      // .hwp converted to PDF first
    | GenericFile    // everything else

  /** Index of the last `c` in `s`, or -1. */
  function LastIndexOf(s: string, c: char): (r: int)
    ensures -1 <= r < |s|
    ensures r >= 0 ==> s[r] == c
    ensures forall j :: r < j < |s| ==> s[j] != c
    decreases |s|
  {
    if s == [] then -1
    else if s[|s| - 1] == c then |s| - 1
    else LastIndexOf(s[..|s| - 1], c)
  }

  /**
    The extension part of `os.path.splitext(p)`: from the last dot of the
    last path component, provided that component has something other than
    dots before it; otherwise the empty string.
  */
  function Extension(p: string): (ext: string)
    ensures ext == [] || (ext[0] == '.' && '/' !in ext && '.' !in ext[1..])
    ensures |ext| <= |p| && ext == p[|p| - |ext|..]
  {
    var sep := LastIndexOf(p, '/');
    var dot := LastIndexOf(p, '.');
    if dot > sep && exists k :: sep + 1 <= k < dot && p[k] != '.' then
      assert forall j :: dot < j < |p| ==> p[j] != '.';
      assert p[dot..][1..] == p[dot + 1..];
      p[dot..]
    else
      []
  }

  const ImageExtensions: seq<string> := [".jpg", ".jpeg", ".png"]
  const TextExtensions: seq<string> := [".txt", ".json", ".md"]

  /** The dispatch on an already lower-cased extension, in the source's order. */
  function LoaderForExtension(ext: string): LoaderKind {
    if ext == ".pdf" then PyMuPdf
    else if ext in [".doc", ".docx"] then WordDocument
    else if ext in [".ppt", ".pptx"] then PowerPoint
    else if ext in ImageExtensions then Image
    else if ext in TextExtensions then TextRender
    else if ext == ".hwp" then HwpRender
    else GenericFile
  }

  /** The table of listed extensions and the loader each one selects. */
  const LoaderTable: seq<(string, LoaderKind)> := [
    (".pdf", PyMuPdf),
    (".doc", WordDocument), (".docx", WordDocument),
    (".ppt", PowerPoint), (".pptx", PowerPoint),
    (".jpg", Image), (".jpeg", Image), (".png", Image),
    (".txt", TextRender), (".json", TextRender), (".md", TextRender),
    (".hwp", HwpRender)
  ]

  /**
    `get_loader`: the loader of the lower-cased extension. A listed extension
    gets the loader the table gives it, and only an unlisted one gets the
    generic loader.
  */
  function GetLoader(filePath: string): (k: LoaderKind)
    ensures forall i :: 0 <= i < |LoaderTable| && LoaderTable[i].0 == Text.Lower(Extension(filePath)) ==> k == LoaderTable[i].1
    ensures k == GenericFile <==> forall i :: 0 <= i < |LoaderTable| ==> LoaderTable[i].0 != Text.Lower(Extension(filePath))
  {
    var ext := Text.Lower(Extension(filePath));
    ListedLoader(ext);
    GenericIffUnlisted(ext);
    LoaderForExtension(Text.Lower(Extension(filePath)))
  }

  /** Every listed extension selects the loader the table gives it. */
  lemma LoaderTableAgrees(i: nat)
    requires i < |LoaderTable|
    ensures LoaderForExtension(LoaderTable[i].0) == LoaderTable[i].1
  {
  }

  lemma ListedLoader(ext: string)
    ensures forall i :: 0 <= i < |LoaderTable| && LoaderTable[i].0 == ext ==> LoaderForExtension(ext) == LoaderTable[i].1
  {
    forall i | 0 <= i < |LoaderTable| && LoaderTable[i].0 == ext
      ensures LoaderForExtension(ext) == LoaderTable[i].1
    {
      LoaderTableAgrees(i);
    }
  }

  /** An extension outside the table falls back to the generic loader, and only such an extension does. */
  lemma GenericIffUnlisted(ext: string)
    ensures LoaderForExtension(ext) == GenericFile <==> forall i :: 0 <= i < |LoaderTable| ==> LoaderTable[i].0 != ext
  {
    if LoaderForExtension(ext) != GenericFile {
      if ext == ".pdf" {
        assert LoaderTable[0].0 == ext;
      } else if ext == ".doc" {
        assert LoaderTable[1].0 == ext;
      } else if ext == ".docx" {
        assert LoaderTable[2].0 == ext;
      } else if ext == ".ppt" {
        assert LoaderTable[3].0 == ext;
      } else if ext == ".pptx" {
        assert LoaderTable[4].0 == ext;
      } else if ext == ".jpg" {
        assert LoaderTable[5].0 == ext;
      } else if ext == ".jpeg" {
        assert LoaderTable[6].0 == ext;
      } else if ext == ".png" {
        assert LoaderTable[7].0 == ext;
      } else if ext == ".txt" {
        assert LoaderTable[8].0 == ext;
      } else if ext == ".json" {
        assert LoaderTable[9].0 == ext;
      } else if ext == ".md" {
        assert LoaderTable[10].0 == ext;
      } else if ext == ".hwp" {
        assert LoaderTable[11].0 == ext;
      }
    }
  }

  /** The choice depends on the lower-cased extension only. */
  lemma LoaderByExtensionOnly(p: string, q: string)
    requires Text.Lower(Extension(p)) == Text.Lower(Extension(q))
    ensures GetLoader(p) == GetLoader(q)
  {
  }

  /**
    A file name made of a stem without dots and a separator-free extension
    has that extension: `dir/name.ext` for any directory.
  */
  lemma {:induction false} ExtensionOfNamedFile(dir: string, name: string, ext: string)
    requires name != [] && '.' !in name && '/' !in name
    requires ext != [] && ext[0] == '.' && '.' !in ext[1..] && '/' !in ext
    ensures Extension(dir + "/" + name + ext) == ext
  {
    var p := dir + "/" + name + ext;
    var sep := |dir|;
    var dot := |dir| + 1 + |name|;
    assert p[sep] == '/' && p[dot] == '.';
    assert forall j :: sep < j < |p| ==> p[j] != '/';
    assert forall j :: dot < j < |p| ==> p[j] != '.';
    LastIndexOfIs(p, '/', sep);
    LastIndexOfIs(p, '.', dot);
    assert p[sep + 1] == name[0];
    assert p[dot..] == ext;
  }

  lemma {:induction false} LastIndexOfIs(s: string, c: char, i: nat)
    requires i < |s| && s[i] == c
    requires forall j :: i < j < |s| ==> s[j] != c
    ensures LastIndexOf(s, c) == i
    decreases |s|
  {
    if i < |s| - 1 {
      LastIndexOfIs(s[..|s| - 1], c, i);
    }
  }

  /** `report.PDF` in any directory is read as a PDF: the extension is compared lower-cased. */
  lemma UpperCasePdfLoader(dir: string)
    ensures GetLoader(dir + "/" + "report" + ".PDF") == PyMuPdf
  {
    var p := dir + "/" + "report" + ".PDF";
    ExtensionOfNamedFile(dir, "report", ".PDF");
    var l := Text.Lower(Extension(p));
    assert |l| == 4 && l[0] == '.' && l[1] == 'p' && l[2] == 'd' && l[3] == 'f';
    assert l == ".pdf";
  }

  /** `notes.TXT` is rendered through the text loader. */
  lemma UpperCaseTextLoader(dir: string)
    ensures GetLoader(dir + "/" + "notes" + ".TXT") == TextRender
  {
    ExtensionOfNamedFile(dir, "notes", ".TXT");
    LowerTxt();
    TxtLoader();
  }

  lemma LowerTxt()
    ensures Text.Lower(".TXT") == ".txt"
  {
    var l := Text.Lower(".TXT");
    assert |l| == 4 && l[0] == '.' && l[1] == 't' && l[2] == 'x' && l[3] == 't';
  }

  lemma TxtLoader()
    ensures LoaderForExtension(".txt") == TextRender
  {
  }

  /** A dot file such as `.bashrc`, or a name without a dot, has no extension: the generic loader reads it. */
  lemma DotFileIsGeneric()
    ensures Extension("dir/.bashrc") == []
    ensures Extension("README") == []
    ensures GetLoader("dir/.bashrc") == GenericFile
  {
    LastIndexOfIs("dir/.bashrc", '/', 3);
    LastIndexOfIs("dir/.bashrc", '.', 4);
    assert LastIndexOf("README", '.') == -1;
  }
}
