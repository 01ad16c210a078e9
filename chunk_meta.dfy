/**
  The values the document pipeline of basic_preprocessor_actual.py passes
  between its stages, and the specification functions of each stage: chunk
  filtering and page correction, the per-chunk metadata record, and the
  page-to-image map of the rendered PDF.
*/
module ChunkMeta {
  import opened Wrappers
  import Text
  import Loaders
  import TextStats

  /** A `page` metadata value: an integer, or anything else a loader stored there. */
  datatype PageValue = PageNo(n: int) | OtherPage(repr: string)

  /** A loaded document or a split chunk: its text, its `page` metadata if any, and its `source` ('' when absent). */
  datatype RawChunk = RawChunk(content: string, page: Option<PageValue>, source: string)

  /** A chunk after `split_documents`: its page has been corrected and is always present. */
  datatype Chunk = Chunk(content: string, page: PageValue, source: string)

  /** A merged bounding box: the page tag it carries, if any, its type and its relative coordinates. */
  datatype BBox = BBox(page: Option<int>, kind: string, l: real, t: real, r: real, b: real)

  /** One entry of a page's image list. */
  datatype PageImage = PageImage(name: string, kind: string)

  /** A file handed to the upload service. */
  datatype UploadFile = UploadFile(path: string, name: string)

  /** What happened when one embedded image was converted and saved. */
  datatype ImageOutcome = Saved(name: string) | SaveFailed

  /**
    The rendered PDF as the pipeline observes it: for each page the outcome of
    saving each embedded image, and the merged bounding boxes found when a
    chunk's text is searched on a page (given by 0-based page index).
  */
  datatype RenderedPdf = RenderedPdf(images: seq<seq<ImageOutcome>>, search: (nat, string) -> seq<BBox>)

  /** The per-chunk metadata record. */
  datatype VectorRecord = VectorRecord(
    text: string,
    nChar: nat,
    nWord: nat,
    nLine: nat,
    iPage: int,
    ePage: int,
    iChunkOnPage: nat,
    nChunkOfPage: nat,
    iChunkOnDoc: nat,
    nChunkOfDoc: nat,
    nPage: int,
    regDate: string,
    chunkBboxes: Option<seq<BBox>>,
    mediaFiles: Option<seq<PageImage>>)

  datatype PipelineError =
    | EmptyDocument    // no chunk with content after splitting
    | Cancelled        // the request was cancelled at a checkpoint
    | NoChunks         // `max` over the pages of an empty chunk list
    | NonIntegerPage   // page arithmetic or comparison on a non-integer page

  // ---------------------------------------------------------------------------
  // Filtering and page correction (split_documents)
  // ---------------------------------------------------------------------------

  /** The chunks with non-empty content, in their order. */
  function KeepNonEmpty(chunks: seq<RawChunk>): (r: seq<RawChunk>)
    ensures |r| <= |chunks|
    ensures forall i :: 0 <= i < |r| ==> r[i].content != []
    decreases |chunks|
  {
    if chunks == [] then []
    else if chunks[|chunks| - 1].content == [] then KeepNonEmpty(chunks[..|chunks| - 1])
    else KeepNonEmpty(chunks[..|chunks| - 1]) + [chunks[|chunks| - 1]]
  }

  /** Every kept chunk is one of the input's, and every input chunk with content is kept. */
  lemma {:induction false} KeptExactlyNonEmpty(chunks: seq<RawChunk>)
    ensures forall c :: c in KeepNonEmpty(chunks) <==> c in chunks && c.content != []
    decreases |chunks|
  {
    if chunks != [] {
      var init := chunks[..|chunks| - 1];
      KeptExactlyNonEmpty(init);
      assert chunks == init + [chunks[|chunks| - 1]];
    }
  }

  /** When no chunk is empty, nothing is dropped. */
  lemma {:induction false} KeepAllNonEmpty(chunks: seq<RawChunk>)
    requires forall i :: 0 <= i < |chunks| ==> chunks[i].content != []
    ensures KeepNonEmpty(chunks) == chunks
    decreases |chunks|
  {
    if chunks != [] {
      var init := chunks[..|chunks| - 1];
      KeepAllNonEmpty(init);
      assert chunks == init + [chunks[|chunks| - 1]];
    }
  }

  /** The source names an image file (extension compared lower-cased). */
  predicate IsImageSource(source: string) {
    Text.Lower(Loaders.Extension(source)) in Loaders.ImageExtensions
  }

  /**
    The corrected page: a missing page counts as 1; image files are already
    1-based and only non-positive integers become 1; other files are 0-based
    and non-negative integers are shifted by one.
  */
  function CorrectPage(page: Option<PageValue>, source: string): PageValue {
    var p := page.GetOr(PageNo(1));
    if IsImageSource(source) then
      if p.PageNo? && p.n <= 0 then PageNo(1) else p
    else
      if p.PageNo? && p.n >= 0 then PageNo(p.n + 1) else p
  }

  function CorrectChunk(c: RawChunk): Chunk {
    Chunk(c.content, CorrectPage(c.page, c.source), c.source)
  }

  function CorrectAll(chunks: seq<RawChunk>): (r: seq<Chunk>)
    ensures |r| == |chunks| && forall i :: 0 <= i < |chunks| ==> r[i] == CorrectChunk(chunks[i])
  {
    seq(|chunks|, i requires 0 <= i < |chunks| => CorrectChunk(chunks[i]))
  }

  function PagesOf(chunks: seq<Chunk>): (ps: seq<PageValue>)
    ensures |ps| == |chunks| && forall i :: 0 <= i < |chunks| ==> ps[i] == chunks[i].page
  {
    seq(|chunks|, i requires 0 <= i < |chunks| => chunks[i].page)
  }

  /** Image pages: every integer result is at least 1, other values pass through, and correcting again changes nothing. */
  lemma ImagePageCorrection(page: Option<PageValue>, source: string)
    requires IsImageSource(source)
    ensures var r := CorrectPage(page, source);
      && (r.PageNo? ==> r.n >= 1)
      && (r.OtherPage? ==> page == Some(r))
      && (page.Some? && page.value.PageNo? && page.value.n >= 1 ==> r == page.value)
      && CorrectPage(Some(r), source) == r
  {
  }

  /**
    Other pages: a 0-based page `n >= 0` becomes `n + 1`, so the correction is
    undone by subtracting one; negative and non-integer pages pass through;
    a chunk without a page, taken as 1, ends on page 2.
  */
  lemma OtherPageCorrection(page: Option<PageValue>, source: string)
    requires !IsImageSource(source)
    ensures var r := CorrectPage(page, source);
      && (page == None ==> r == PageNo(2))
      && (page.Some? && page.value.PageNo? && page.value.n >= 0 ==> r.PageNo? && r.n >= 1 && r.n - 1 == page.value.n)
      && (page.Some? && !(page.value.PageNo? && page.value.n >= 0) ==> r == page.value)
  {
  }

  /** A chunk without a source is not an image chunk. */
  lemma NoSourceIsNotImage()
    ensures !IsImageSource("")
  {
  }

  /** Number of chunks whose corrected page is `p`. */
  function CountOnPage(chunks: seq<Chunk>, p: PageValue): nat
    decreases |chunks|
  {
    if chunks == [] then 0
    else CountOnPage(chunks[..|chunks| - 1], p) + (if chunks[|chunks| - 1].page == p then 1 else 0)
  }

  /**
    The page histogram of a list of chunks counts each chunk once under its
    page: its entry for `p` is the number of chunks on `p` and its total is
    the number of chunks.
  */
  lemma {:induction false} HistogramCounts(chunks: seq<Chunk>, p: PageValue)
    ensures multiset(PagesOf(chunks))[p] == CountOnPage(chunks, p)
    ensures |multiset(PagesOf(chunks))| == |chunks|
    decreases |chunks|
  {
    if chunks != [] {
      var init := chunks[..|chunks| - 1];
      HistogramCounts(init, p);
      assert PagesOf(chunks) == PagesOf(init) + [chunks[|chunks| - 1].page];
    }
  }

  // ---------------------------------------------------------------------------
  // The metadata record of each chunk (compose_vectors)
  // ---------------------------------------------------------------------------

  function SeqMin(xs: seq<int>): (m: int)
    requires xs != []
    ensures m in xs && forall i :: 0 <= i < |xs| ==> m <= xs[i]
    decreases |xs|
  {
    if |xs| == 1 then xs[0]
    else
      var rest := SeqMin(xs[1..]);
      assert forall i :: 1 <= i < |xs| ==> xs[i] == xs[1..][i - 1];
      if xs[0] <= rest then xs[0] else rest
  }

  function SeqMax(xs: seq<int>): (m: int)
    requires xs != []
    ensures m in xs && forall i :: 0 <= i < |xs| ==> xs[i] <= m
    decreases |xs|
  {
    if |xs| == 1 then xs[0]
    else
      var rest := SeqMax(xs[1..]);
      assert forall i :: 1 <= i < |xs| ==> xs[i] == xs[1..][i - 1];
      if xs[0] >= rest then xs[0] else rest
  }

  /** The page tags of the boxes that carry one, in order. */
  function TaggedPages(boxes: seq<BBox>): (ps: seq<int>)
    ensures |ps| <= |boxes|
    ensures forall i :: 0 <= i < |boxes| && boxes[i].page.Some? ==> boxes[i].page.value in ps
    ensures forall x :: x in ps ==> Some(x) in BoxPages(boxes)
    decreases |boxes|
  {
    if boxes == [] then []
    else
      var rest := TaggedPages(boxes[..|boxes| - 1]);
      var last := boxes[|boxes| - 1];
      assert BoxPages(boxes) == BoxPages(boxes[..|boxes| - 1]) + [last.page];
      if last.page.Some? then rest + [last.page.value] else rest
  }

  function BoxPages(boxes: seq<BBox>): (ps: seq<Option<int>>)
    ensures |ps| == |boxes| && forall i :: 0 <= i < |boxes| ==> ps[i] == boxes[i].page
  {
    seq(|boxes|, i requires 0 <= i < |boxes| => boxes[i].page)
  }

  predicate IntPages(chunks: seq<Chunk>) {
    forall i :: 0 <= i < |chunks| ==> chunks[i].page.PageNo?
  }

  function PageNumbers(chunks: seq<Chunk>): (ps: seq<int>)
    requires IntPages(chunks)
    ensures |ps| == |chunks| && forall i :: 0 <= i < |chunks| ==> ps[i] == chunks[i].page.n
  {
    seq(|chunks|, i requires 0 <= i < |chunks| => chunks[i].page.n)
  }

  function TotalPages(pdf: Option<RenderedPdf>): nat {
    if pdf.None? then 0 else |pdf.value.images|
  }

  /** The page is searched for boxes: the PDF exists and `page - 1` is one of its page indices. */
  predicate Searched(pdf: Option<RenderedPdf>, page: int) {
    pdf.Some? && TotalPages(pdf) > 0 && 0 <= page - 1 < TotalPages(pdf)
  }

  /** The merged boxes found for a chunk, when its page is searched. */
  function BoxesOf(pdf: Option<RenderedPdf>, c: Chunk): Option<seq<BBox>>
    requires c.page.PageNo?
  {
    if Searched(pdf, c.page.n) then Some(pdf.value.search(c.page.n - 1, c.content)) else None
  }

  /**
    The page span `(i_page, e_page)` of a chunk: the least and greatest tagged
    box page when the page is searched and some box carries a page, otherwise
    the chunk's own page twice.
  */
  function PageSpan(pdf: Option<RenderedPdf>, c: Chunk): (int, int)
    requires c.page.PageNo?
  {
    var boxes := BoxesOf(pdf, c);
    if boxes.Some? && TaggedPages(boxes.value) != [] then
      (SeqMin(TaggedPages(boxes.value)), SeqMax(TaggedPages(boxes.value)))
    else
      (c.page.n, c.page.n)
  }

  /**
    The `chunk_bboxes` entry of the shared metadata after the first `n`
    chunks: it is written each time a chunk's page is searched and otherwise
    keeps its last value; before any search it is absent.
  */
  function StickyBoxes(pdf: Option<RenderedPdf>, chunks: seq<Chunk>, n: nat): Option<seq<BBox>>
    requires n <= |chunks| && IntPages(chunks)
  {
    if n == 0 then None
    else if BoxesOf(pdf, chunks[n - 1]).Some? then BoxesOf(pdf, chunks[n - 1])
    else StickyBoxes(pdf, chunks, n - 1)
  }

  /** The running `i_chunk_on_page` counter: reset when the page changes, otherwise one more than before. */
  function IndexOnPage(pages: seq<int>, k: nat): nat
    requires k < |pages|
  {
    if k == 0 then 0
    else if pages[k] != pages[k - 1] then 0
    else IndexOnPage(pages, k - 1) + 1
  }

  /** The record of chunk `k`, before media files are attached. */
  function RecordAt(chunks: seq<Chunk>, k: nat, pdf: Option<RenderedPdf>, counts: multiset<PageValue>, now: string): VectorRecord
    requires k < |chunks| && IntPages(chunks)
  {
    var c := chunks[k];
    var span := PageSpan(pdf, c);
    VectorRecord(
      text := c.content,
      nChar := |c.content|,
      nWord := |TextStats.Words(c.content)|,
      nLine := |TextStats.Lines(c.content)|,
      iPage := span.0,
      ePage := span.1,
      iChunkOnPage := IndexOnPage(PageNumbers(chunks), k),
      nChunkOfPage := counts[c.page],
      iChunkOnDoc := k,
      nChunkOfDoc := |chunks|,
      nPage := SeqMax(PageNumbers(chunks)),
      regDate := now + "Z",
      chunkBboxes := StickyBoxes(pdf, chunks, k + 1),
      mediaFiles := None)
  }

  /** The records of the first `n` chunks: record `k` is chunk `k`'s, in chunk order. */
  function RecordsUpTo(chunks: seq<Chunk>, n: nat, pdf: Option<RenderedPdf>, counts: multiset<PageValue>, now: string): (vs: seq<VectorRecord>)
    requires IntPages(chunks) && n <= |chunks|
    ensures |vs| == n && forall k :: 0 <= k < n ==> vs[k] == RecordAt(chunks, k, pdf, counts, now)
  {
    if n == 0 then [] else RecordsUpTo(chunks, n - 1, pdf, counts, now) + [RecordAt(chunks, n - 1, pdf, counts, now)]
  }

  /**
    What `compose_vectors` returns: an error for an empty list (the maximum
    page is undefined) or a non-integer page, otherwise one record per chunk.
  */
  function ComposeSpec(chunks: seq<Chunk>, pdf: Option<RenderedPdf>, counts: multiset<PageValue>, now: string): Result<seq<VectorRecord>, PipelineError> {
    if chunks == [] then Failure(NoChunks)
    else if !IntPages(chunks) then Failure(NonIntegerPage)
    else Success(RecordsUpTo(chunks, |chunks|, pdf, counts, now))
  }

  /** The page span is ordered, and when boxes decide it, both ends are tagged box pages bounding all tags. */
  lemma PageSpanOrdered(pdf: Option<RenderedPdf>, c: Chunk)
    requires c.page.PageNo?
    ensures PageSpan(pdf, c).0 <= PageSpan(pdf, c).1
    ensures BoxesOf(pdf, c).None? || TaggedPages(BoxesOf(pdf, c).value) == [] ==> PageSpan(pdf, c) == (c.page.n, c.page.n)
    ensures BoxesOf(pdf, c).Some? && TaggedPages(BoxesOf(pdf, c).value) != [] ==>
      var tags := TaggedPages(BoxesOf(pdf, c).value);
      && PageSpan(pdf, c).0 in tags && PageSpan(pdf, c).1 in tags
      && forall i :: 0 <= i < |tags| ==> PageSpan(pdf, c).0 <= tags[i] <= PageSpan(pdf, c).1
  {
    var boxes := BoxesOf(pdf, c);
    if boxes.Some? && TaggedPages(boxes.value) != [] {
      var tags := TaggedPages(boxes.value);
      assert SeqMin(tags) <= tags[0] <= SeqMax(tags);
    }
  }

  /** Without a rendered PDF, or on a page outside it, the span is the chunk's page and no boxes are recorded for it. */
  lemma UnsearchedPageSpan(pdf: Option<RenderedPdf>, c: Chunk)
    requires c.page.PageNo? && !Searched(pdf, c.page.n)
    ensures PageSpan(pdf, c) == (c.page.n, c.page.n) && BoxesOf(pdf, c) == None
  {
  }

  /**
    `i_chunk_on_page` is the number of chunks just before chunk `k` that lie
    on the same page as it, stopping at the first one on another page.
  */
  lemma {:induction false} IndexOnPageRun(pages: seq<int>, k: nat)
    requires k < |pages|
    ensures var i := IndexOnPage(pages, k);
      && i <= k
      && (forall j :: k - i <= j <= k ==> pages[j] == pages[k])
      && (k - i == 0 || pages[k - i - 1] != pages[k])
  {
    if k > 0 && pages[k] == pages[k - 1] {
      IndexOnPageRun(pages, k - 1);
    }
  }

  /** The per-page position of a chunk is below the number of chunks the histogram holds for its page. */
  lemma IndexBelowPageCount(chunks: seq<Chunk>, k: nat)
    requires k < |chunks| && IntPages(chunks)
    ensures IndexOnPage(PageNumbers(chunks), k) < multiset(PagesOf(chunks))[chunks[k].page]
  {
    var i := IndexOnPage(PageNumbers(chunks), k);
    RunOnPage(chunks, k);
    RunCount(PagesOf(chunks), k - i, k + 1, chunks[k].page);
  }

  /** A run of equal values inside a sequence is counted by its multiset. */
  lemma RunCount(s: seq<PageValue>, a: nat, b: nat, p: PageValue)
    requires a <= b <= |s| && forall j :: a <= j < b ==> s[j] == p
    ensures b - a <= multiset(s)[p]
  {
    var run := s[a..b];
    assert forall j :: 0 <= j < |run| ==> run[j] == s[a + j];
    AllEqualCount(run, p);
    SliceCount(s, a, b, p);
  }

  /** The chunks counted by `i_chunk_on_page`, and the chunk itself, all lie on its page. */
  lemma RunOnPage(chunks: seq<Chunk>, k: nat)
    requires k < |chunks| && IntPages(chunks)
    ensures var i := IndexOnPage(PageNumbers(chunks), k);
      i <= k && forall j :: k - i <= j <= k ==> PagesOf(chunks)[j] == chunks[k].page
  {
    var pages := PageNumbers(chunks);
    var i := IndexOnPage(pages, k);
    IndexOnPageRun(pages, k);
    forall j | k - i <= j <= k ensures PagesOf(chunks)[j] == chunks[k].page {
      assert pages[j] == pages[k];
    }
  }

  lemma SliceCount(s: seq<PageValue>, i: nat, j: nat, p: PageValue)
    requires i <= j <= |s|
    ensures multiset(s[i..j])[p] <= multiset(s)[p]
  {
    assert s == s[..i] + s[i..j] + s[j..];
    assert multiset(s) == multiset(s[..i]) + multiset(s[i..j]) + multiset(s[j..]);
  }

  lemma {:induction false} AllEqualCount(s: seq<PageValue>, p: PageValue)
    requires forall j :: 0 <= j < |s| ==> s[j] == p
    ensures multiset(s)[p] == |s|
    decreases |s|
  {
    if s != [] {
      AllEqualCount(s[1..], p);
      assert s == [s[0]] + s[1..];
    }
  }

  /** The boxes recorded for chunk `n - 1` are those of the last chunk up to it whose page was searched, or none if there is none. */
  lemma {:induction false} StickyBoxesLast(pdf: Option<RenderedPdf>, chunks: seq<Chunk>, n: nat)
    requires n <= |chunks| && IntPages(chunks)
    ensures StickyBoxes(pdf, chunks, n).None? <==> forall j :: 0 <= j < n ==> BoxesOf(pdf, chunks[j]).None?
    ensures StickyBoxes(pdf, chunks, n).Some? ==>
      exists j :: 0 <= j < n && StickyBoxes(pdf, chunks, n) == BoxesOf(pdf, chunks[j])
        && forall l :: j < l < n ==> BoxesOf(pdf, chunks[l]).None?
  {
    if n > 0 {
      StickyBoxesLast(pdf, chunks, n - 1);
      if BoxesOf(pdf, chunks[n - 1]).Some? {
        assert StickyBoxes(pdf, chunks, n) == BoxesOf(pdf, chunks[n - 1]);
      }
    }
  }

  /**
    The document-level fields agree across the records: each record knows its
    index, the number of chunks and the largest page, and its text statistics
    are those of its own text.
  */
  lemma ComposeFields(chunks: seq<Chunk>, pdf: Option<RenderedPdf>, counts: multiset<PageValue>, now: string)
    requires ComposeSpec(chunks, pdf, counts, now).Success?
    ensures var vs := ComposeSpec(chunks, pdf, counts, now).value;
      && |vs| == |chunks|
      && forall k :: 0 <= k < |vs| ==>
        && vs[k].text == chunks[k].content
        && vs[k].nChar == |chunks[k].content|
        && vs[k].nWord == |TextStats.Words(chunks[k].content)|
        && vs[k].nLine == |TextStats.Lines(chunks[k].content)|
        && vs[k].iChunkOnDoc == k
        && vs[k].nChunkOfDoc == |chunks|
        && (forall j :: 0 <= j < |chunks| ==> chunks[j].page.n <= vs[k].nPage)
        && (exists j :: 0 <= j < |chunks| && chunks[j].page.n == vs[k].nPage)
        && vs[k].iPage <= vs[k].ePage
        && vs[k].mediaFiles.None?
  {
    var vs := ComposeSpec(chunks, pdf, counts, now).value;
    forall k | 0 <= k < |vs|
      ensures RecordFieldsHold(chunks, k, vs[k])
    {
      RecordFields(chunks, k, pdf, counts, now);
    }
  }

  /** The per-record facts of `ComposeFields`. */
  predicate RecordFieldsHold(chunks: seq<Chunk>, k: nat, v: VectorRecord)
    requires k < |chunks| && IntPages(chunks)
  {
    && v.text == chunks[k].content
    && v.nChar == |chunks[k].content|
    && v.nWord == |TextStats.Words(chunks[k].content)|
    && v.nLine == |TextStats.Lines(chunks[k].content)|
    && v.iChunkOnDoc == k
    && v.nChunkOfDoc == |chunks|
    && (forall j :: 0 <= j < |chunks| ==> chunks[j].page.n <= v.nPage)
    && (exists j :: 0 <= j < |chunks| && chunks[j].page.n == v.nPage)
    && v.iPage <= v.ePage
    && v.mediaFiles.None?
  }

  lemma RecordFields(chunks: seq<Chunk>, k: nat, pdf: Option<RenderedPdf>, counts: multiset<PageValue>, now: string)
    requires k < |chunks| && IntPages(chunks)
    ensures RecordFieldsHold(chunks, k, RecordAt(chunks, k, pdf, counts, now))
  {
    PageSpanOrdered(pdf, chunks[k]);
    var pages := PageNumbers(chunks);
    var j :| 0 <= j < |pages| && pages[j] == SeqMax(pages);
  }

  /**
    For the histogram of exactly these chunks (a fresh processor), each
    record's `n_chunk_of_page` is the number of chunks on its page, and its
    `i_chunk_on_page` is below it.
  */
  lemma FreshPageCounts(chunks: seq<Chunk>, pdf: Option<RenderedPdf>, now: string, k: nat)
    requires IntPages(chunks) && k < |chunks|
    ensures var v := RecordAt(chunks, k, pdf, multiset(PagesOf(chunks)), now);
      && v.nChunkOfPage == CountOnPage(chunks, chunks[k].page)
      && v.iChunkOnPage < v.nChunkOfPage
  {
    HistogramCounts(chunks, chunks[k].page);
    IndexBelowPageCount(chunks, k);
  }

  // ---------------------------------------------------------------------------
  // Page images of the rendered PDF (_extract_page_images) and media files
  // ---------------------------------------------------------------------------

  /** The name an image contributes: its own when it was saved, none when saving failed. */
  function OutcomeName(o: ImageOutcome): seq<string> {
    match o
    case Saved(name) => [name]
    case SaveFailed => []
  }

  /** The names of the images of one page that were saved, in page order. */
  function SavedNames(outcomes: seq<ImageOutcome>): (names: seq<string>)
    ensures |names| <= |outcomes|
    ensures forall x :: x in names <==> Saved(x) in outcomes
    decreases |outcomes|
  {
    if outcomes == [] then []
    else
      var init := outcomes[..|outcomes| - 1];
      assert outcomes == init + [outcomes[|outcomes| - 1]];
      SavedNames(init) + OutcomeName(outcomes[|outcomes| - 1])
  }

  /** A failed save only drops that image: the names of a concatenation are the concatenated names. */
  lemma {:induction false} SavedNamesAppend(a: seq<ImageOutcome>, b: seq<ImageOutcome>)
    ensures SavedNames(a + b) == SavedNames(a) + SavedNames(b)
    decreases |b|
  {
    if b == [] {
      assert a + b == a;
    } else {
      var b' := b[..|b| - 1];
      var ab := a + b;
      assert ab[..|ab| - 1] == a + b';
      assert ab[|ab| - 1] == b[|b| - 1];
      SavedNamesAppend(a, b');
      assert SavedNames(ab) == SavedNames(a + b') + OutcomeName(b[|b| - 1]);
      assert SavedNames(b) == SavedNames(b') + OutcomeName(b[|b| - 1]);
    }
  }

  function AsImages(names: seq<string>): (imgs: seq<PageImage>)
    ensures |imgs| == |names| && forall i :: 0 <= i < |names| ==> imgs[i] == PageImage(names[i], "image")
  {
    seq(|names|, i requires 0 <= i < |names| => PageImage(names[i], "image"))
  }

  function AsUploads(names: seq<string>): (ups: seq<UploadFile>)
    ensures |ups| == |names| && forall i :: 0 <= i < |names| ==> ups[i] == UploadFile("/tmp/" + names[i], names[i])
  {
    seq(|names|, i requires 0 <= i < |names| => UploadFile("/tmp/" + names[i], names[i]))
  }

  /** The image map after the first `n` pages: key `p` is page index `p - 1`, present when that page saved an image. */
  function PageImagesUpTo(pages: seq<seq<ImageOutcome>>, n: nat): map<int, seq<PageImage>>
    requires n <= |pages|
  {
    map p | 1 <= p <= n && SavedOnPage(pages, p) != [] :: AsImages(SavedOnPage(pages, p))
  }

  /** The saved image names of 1-based page `p`. */
  function SavedOnPage(pages: seq<seq<ImageOutcome>>, p: int): seq<string>
    requires 1 <= p <= |pages|
  {
    SavedNames(pages[p - 1])
  }

  /** Adding page `n + 1` to the image map adds its entry exactly when it saved an image. */
  lemma PageImagesStep(pages: seq<seq<ImageOutcome>>, n: nat)
    requires n < |pages|
    ensures n + 1 !in PageImagesUpTo(pages, n)
    ensures PageImagesUpTo(pages, n + 1) ==
      if SavedNames(pages[n]) == [] then PageImagesUpTo(pages, n)
      else PageImagesUpTo(pages, n)[n + 1 := AsImages(SavedNames(pages[n]))]
  {
    var m := PageImagesUpTo(pages, n);
    var m' := PageImagesUpTo(pages, n + 1);
    var names := SavedOnPage(pages, n + 1);
    var expected := if names == [] then m else m[n + 1 := AsImages(names)];
    forall p | p in m ensures p in m' && m'[p] == m[p] {
    }
    forall p | p in m' ensures p in expected && m'[p] == expected[p] {
      if p <= n {
        assert p in m;
      }
    }
    assert m'.Keys == expected.Keys;
  }

  /** The upload list after the first `n` pages. */
  function UploadsUpTo(pages: seq<seq<ImageOutcome>>, n: nat): seq<UploadFile>
    requires n <= |pages|
  {
    if n == 0 then [] else UploadsUpTo(pages, n - 1) + AsUploads(SavedOnPage(pages, n))
  }

  /** The page map `_extract_page_images` returns; empty when there is no rendered PDF. */
  function PageImagesOf(pdf: Option<RenderedPdf>): map<int, seq<PageImage>> {
    if pdf.None? then map[] else PageImagesUpTo(pdf.value.images, |pdf.value.images|)
  }

  function UploadsOf(pdf: Option<RenderedPdf>): seq<UploadFile> {
    if pdf.None? then [] else UploadsUpTo(pdf.value.images, |pdf.value.images|)
  }

  /** The media list a record gets for its `i_page`: the page's list, or empty when the map has none. */
  function MediaFor(pageMeta: map<int, seq<PageImage>>, page: int): seq<PageImage> {
    if page in pageMeta then pageMeta[page] else []
  }

  function WithMedia(vs: seq<VectorRecord>, pageMeta: map<int, seq<PageImage>>): (ws: seq<VectorRecord>)
    ensures |ws| == |vs| && forall k :: 0 <= k < |vs| ==> ws[k] == vs[k].(mediaFiles := Some(MediaFor(pageMeta, vs[k].iPage)))
  {
    seq(|vs|, k requires 0 <= k < |vs| => vs[k].(mediaFiles := Some(MediaFor(pageMeta, vs[k].iPage))))
  }

  /** The pipeline's result once media files are attached; errors pass through. */
  function WithMediaResult(r: Result<seq<VectorRecord>, PipelineError>, pageMeta: map<int, seq<PageImage>>): Result<seq<VectorRecord>, PipelineError> {
    match r
    case Failure(e) => Failure(e)
    case Success(vs) => Success(WithMedia(vs, pageMeta))
  }

  /**
    The images a page contributes: keys run over the 1-based page numbers of
    the rendered PDF, and a page's media list is exactly the images of that
    page that were saved, in order; a page with none, a page outside the
    PDF, or a missing PDF gives the empty list.
  */
  lemma MediaOfPage(pdf: Option<RenderedPdf>, page: int)
    ensures page in PageImagesOf(pdf) ==> pdf.Some? && 1 <= page <= |pdf.value.images|
    ensures MediaFor(PageImagesOf(pdf), page) ==
      if pdf.Some? && 1 <= page <= |pdf.value.images| then AsImages(SavedNames(pdf.value.images[page - 1])) else []
  {
  }

  /** After the merge every record carries the images saved on the page its `i_page` names, and nothing else changes. */
  lemma RecordMedia(vs: seq<VectorRecord>, pdf: Option<RenderedPdf>, k: nat)
    requires k < |vs|
    ensures var w := WithMedia(vs, PageImagesOf(pdf))[k];
      && w.(mediaFiles := vs[k].mediaFiles) == vs[k]
      && w.mediaFiles == Some(
        if pdf.Some? && 1 <= vs[k].iPage <= |pdf.value.images| then AsImages(SavedNames(pdf.value.images[vs[k].iPage - 1])) else [])
  {
    MediaOfPage(pdf, vs[k].iPage);
  }

  /**
    Uploads follow page order (the list after `m` pages is a prefix of the
    list after `n`), and every uploaded file is an image saved on one of those
    pages, under `/tmp/` and its own name.
  */
  lemma {:induction false} UploadsArePageImages(pages: seq<seq<ImageOutcome>>, n: nat, m: nat)
    requires m <= n <= |pages|
    ensures UploadsUpTo(pages, m) <= UploadsUpTo(pages, n)
    ensures forall u :: u in UploadsUpTo(pages, n) ==>
      u.path == "/tmp/" + u.name && exists p :: 0 <= p < n && Saved(u.name) in pages[p]
  {
    UploadsPrefix(pages, n, m);
    UploadsSaved(pages, n);
  }

  lemma {:induction false} UploadsPrefix(pages: seq<seq<ImageOutcome>>, n: nat, m: nat)
    requires m <= n <= |pages|
    ensures UploadsUpTo(pages, m) <= UploadsUpTo(pages, n)
    decreases n
  {
    if m < n {
      var b := UploadsUpTo(pages, n - 1);
      var x := AsUploads(SavedOnPage(pages, n));
      UploadsPrefix(pages, n - 1, m);
      assert UploadsUpTo(pages, n) == b + x;
      PrefixExtended(UploadsUpTo(pages, m), b, x);
    }
  }

  lemma PrefixExtended<T>(a: seq<T>, b: seq<T>, x: seq<T>)
    requires a <= b
    ensures a <= b + x
  {
    assert (b + x)[..|a|] == b[..|a|];
  }

  lemma {:induction false} UploadsSaved(pages: seq<seq<ImageOutcome>>, n: nat)
    requires n <= |pages|
    ensures forall u :: u in UploadsUpTo(pages, n) ==>
      u.path == "/tmp/" + u.name && exists p :: 0 <= p < n && Saved(u.name) in pages[p]
    decreases n
  {
    if n > 0 {
      UploadsSaved(pages, n - 1);
      forall u | u in UploadsUpTo(pages, n)
        ensures u.path == "/tmp/" + u.name && exists p :: 0 <= p < n && Saved(u.name) in pages[p]
      {
        if u !in UploadsUpTo(pages, n - 1) {
          PageUploadSaved(pages, n, u);
        }
      }
    }
  }

  /** An upload of page `n` is an image saved on that page. */
  lemma PageUploadSaved(pages: seq<seq<ImageOutcome>>, n: nat, u: UploadFile)
    requires 1 <= n <= |pages|
    requires u in AsUploads(SavedOnPage(pages, n))
    ensures u.path == "/tmp/" + u.name && Saved(u.name) in pages[n - 1]
  {
    var ups := AsUploads(SavedOnPage(pages, n));
    var i :| 0 <= i < |ups| && ups[i] == u;
    assert SavedOnPage(pages, n)[i] in SavedNames(pages[n - 1]);
  }
}
