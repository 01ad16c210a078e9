/**
  The document processor of basic_preprocessor_actual.py: it loads a file
  with the loader its extension selects, keeps the non-empty chunks and
  corrects their pages while counting chunks per page, collects the saved
  images of the rendered PDF per page, composes one metadata record per
  chunk and attaches to each the images of its first page.
  Loaders, the text splitter, the PDF renderer, text search with box merging,
  image saving, uploading, cancellation and the clock are inputs.
*/
module Preprocessor {
  import opened Wrappers
  import Text
  import PdfPath
  import Loaders
  import TextStats
  import opened ChunkMeta

  /** The points at which the request's cancellation is checked. */
  datatype Checkpoint = AfterLoad | AfterSplit | AfterImages

  class DocumentProcessor {
    /** The per-page chunk histogram (`page_chunk_counts`): how many chunks were counted under each page value. */
    var pageChunkCounts: multiset<PageValue>

    constructor()
      ensures pageChunkCounts == multiset{}
    {
      pageChunkCounts := multiset{};
    }

    /**
      Drops the chunks without content, fails when none remain, and otherwise
      corrects each chunk's page and counts it once under that page.
    */
    method SplitDocuments(chunks: seq<RawChunk>) returns (r: Result<seq<Chunk>, PipelineError>)
      modifies this
      ensures r.Failure? <==> KeepNonEmpty(chunks) == []
      ensures r.Failure? ==> r.error == EmptyDocument && pageChunkCounts == old(pageChunkCounts)
      ensures r.Success? ==>
        && r.value == CorrectAll(KeepNonEmpty(chunks))
        && pageChunkCounts == old(pageChunkCounts) + multiset(PagesOf(r.value))
    {
      var kept := KeepNonEmpty(chunks);
      if kept == [] {
        return Failure(EmptyDocument);
      }
      var out := CorrectAndCount(kept);
      return Success(out);
    }

    /** The loop of `split_documents` over the kept chunks: correct the page, store it, count it. */
    method CorrectAndCount(kept: seq<RawChunk>) returns (out: seq<Chunk>)
      modifies this
      ensures out == CorrectAll(kept)
      ensures pageChunkCounts == old(pageChunkCounts) + multiset(PagesOf(out))
    {
      out := [];
      for i := 0 to |kept|
        invariant out == CorrectAll(kept)[..i]
        invariant pageChunkCounts == old(pageChunkCounts) + multiset(PagesOf(out))
      {
        var page := CorrectPage(kept[i].page, kept[i].source);
        var c := Chunk(kept[i].content, page, kept[i].source);
        CountStep(out, c, pageChunkCounts);
        CorrectAllStep(kept, i, out);
        out := out + [c];
        pageChunkCounts := pageChunkCounts[page := pageChunkCounts[page] + 1];
      }
      assert CorrectAll(kept)[..|kept|] == CorrectAll(kept);
    }

    /**
      The saved images of each page of the rendered PDF, keyed by 1-based
      page number, and the files to upload; nothing when there is no PDF.
      A failed save skips that image only.
    */
    method ExtractPageImages(pdf: Option<RenderedPdf>) returns (pageMeta: map<int, seq<PageImage>>, uploads: seq<UploadFile>)
      ensures pageMeta == PageImagesOf(pdf)
      ensures uploads == UploadsOf(pdf)
    {
      pageMeta := map[];
      uploads := [];
      if pdf.None? {
        return;
      }
      var pages := pdf.value.images;
      for pageIndex := 0 to |pages|
        invariant pageMeta == PageImagesUpTo(pages, pageIndex)
        invariant uploads == UploadsUpTo(pages, pageIndex)
      {
        pageMeta, uploads := ExtractPage(pages, pageIndex, pageMeta, uploads);
      }
    }

    /** One page of the outer image loop: its saved images join the map and the upload list. */
    method ExtractPage(pages: seq<seq<ImageOutcome>>, pageIndex: nat, pageMeta0: map<int, seq<PageImage>>, uploads0: seq<UploadFile>)
      returns (pageMeta: map<int, seq<PageImage>>, uploads: seq<UploadFile>)
      requires pageIndex < |pages|
      requires pageMeta0 == PageImagesUpTo(pages, pageIndex) && uploads0 == UploadsUpTo(pages, pageIndex)
      ensures pageMeta == PageImagesUpTo(pages, pageIndex + 1) && uploads == UploadsUpTo(pages, pageIndex + 1)
    {
      PageImagesStep(pages, pageIndex);
      pageMeta, uploads := SavePageImages(pages[pageIndex], pageIndex + 1, pageMeta0, uploads0);
      assert SavedOnPage(pages, pageIndex + 1) == SavedNames(pages[pageIndex]);
    }

    /**
      The inner loop over the images of one page: each saved image is
      appended to the page's list under `key` (created on first use) and to
      the upload list; a failed save is skipped.
    */
    method SavePageImages(imgs: seq<ImageOutcome>, key: int, pageMeta0: map<int, seq<PageImage>>, uploads0: seq<UploadFile>)
      returns (pageMeta: map<int, seq<PageImage>>, uploads: seq<UploadFile>)
      requires key !in pageMeta0
      ensures pageMeta == if SavedNames(imgs) == [] then pageMeta0 else pageMeta0[key := AsImages(SavedNames(imgs))]
      ensures uploads == uploads0 + AsUploads(SavedNames(imgs))
    {
      pageMeta, uploads := pageMeta0, uploads0;
      for j := 0 to |imgs|
        invariant SavedUpTo(imgs, j, key, pageMeta0, uploads0, pageMeta, uploads)
      {
        pageMeta, uploads := SaveImage(imgs, j, key, pageMeta0, uploads0, pageMeta, uploads);
      }
      assert imgs[..|imgs|] == imgs;
    }

    /** One image of a page: a saved image is appended under `key` and to the uploads; a failed save is skipped. */
    method SaveImage(imgs: seq<ImageOutcome>, j: nat, key: int, pageMeta0: map<int, seq<PageImage>>, uploads0: seq<UploadFile>,
                     pageMeta1: map<int, seq<PageImage>>, uploads1: seq<UploadFile>)
      returns (pageMeta: map<int, seq<PageImage>>, uploads: seq<UploadFile>)
      requires j < |imgs| && key !in pageMeta0
      requires SavedUpTo(imgs, j, key, pageMeta0, uploads0, pageMeta1, uploads1)
      ensures SavedUpTo(imgs, j + 1, key, pageMeta0, uploads0, pageMeta, uploads)
    {
      pageMeta, uploads := pageMeta1, uploads1;
      SavedPrefixStep(imgs, j);
      if imgs[j].Saved? {
        var name := imgs[j].name;
        uploads := uploads + [UploadFile("/tmp/" + name, name)];
        var entry := PageImage(name, "image");
        ghost var names := SavedNames(imgs[..j]);
        if key in pageMeta {
          assert names != [] && pageMeta[key] == AsImages(names);
          pageMeta := pageMeta[key := pageMeta[key] + [entry]];
        } else {
          assert names == [] && AsImages(SavedNames(imgs[..j + 1])) == [entry];
          pageMeta := pageMeta[key := [entry]];
        }
      }
    }

    /**
      One metadata record per chunk, with the per-page counter, the page
      span from the boxes found on the rendered PDF and the shared
      `chunk_bboxes` entry, as `ComposeSpec` describes them.
    */
    method Compose(chunks: seq<Chunk>, filePath: string, files: string -> Option<RenderedPdf>, now: string)
      returns (r: Result<seq<VectorRecord>, PipelineError>)
      ensures r == ComposeSpec(chunks, files(PdfPath.PdfPathOf(filePath)), pageChunkCounts, now)
    {
      var pdfPath := PdfPath.GetPdfPath(filePath);
      var pdf := files(pdfPath);
      var totalPages := TotalPages(pdf);
      if chunks == [] {
        return Failure(NoChunks);
      }
      if !IntPages(chunks) {
        return Failure(NonIntegerPage);
      }
      var vectors := RecordLoop(chunks, pdf, totalPages, pageChunkCounts, now);
      return Success(vectors);
    }

    /** The loop of `compose_vectors` over the chunks, given that every page is an integer. */
    method RecordLoop(chunks: seq<Chunk>, pdf: Option<RenderedPdf>, totalPages: nat, counts: multiset<PageValue>, now: string)
      returns (vectors: seq<VectorRecord>)
      requires chunks != [] && IntPages(chunks) && totalPages == TotalPages(pdf)
      ensures vectors == RecordsUpTo(chunks, |chunks|, pdf, counts, now)
    {
      var nPage := SeqMax(PageNumbers(chunks));
      var currentPage: Option<int> := None;
      var chunkIndexOnPage: nat := 0;
      var sharedBoxes: Option<seq<BBox>> := None;
      vectors := [];
      for k := 0 to |chunks|
        invariant vectors == RecordsUpTo(chunks, k, pdf, counts, now)
        invariant AtPosition(chunks, k, currentPage, chunkIndexOnPage)
        invariant sharedBoxes == StickyBoxes(pdf, chunks, k)
      {
        var index, v;
        currentPage, index := NextPosition(chunks, k, currentPage, chunkIndexOnPage);
        v, sharedBoxes := NextRecord(chunks, k, pdf, totalPages, counts, now, nPage, index, sharedBoxes);
        vectors := vectors + [v];
        chunkIndexOnPage := index + 1;
      }
    }

    /** The page counter at chunk `k`: it restarts at 0 when the page changes. */
    method NextPosition(chunks: seq<Chunk>, k: nat, currentPage0: Option<int>, chunkIndexOnPage0: nat)
      returns (currentPage: Option<int>, chunkIndexOnPage: nat)
      requires IntPages(chunks) && k < |chunks|
      requires AtPosition(chunks, k, currentPage0, chunkIndexOnPage0)
      ensures chunkIndexOnPage == IndexOnPage(PageNumbers(chunks), k)
      ensures AtPosition(chunks, k + 1, currentPage, chunkIndexOnPage + 1)
    {
      currentPage, chunkIndexOnPage := currentPage0, chunkIndexOnPage0;
      var page := chunks[k].page.n;
      if currentPage != Some(page) {
        currentPage := Some(page);
        chunkIndexOnPage := 0;
      }
    }

    /** The record of chunk `k`, and the shared boxes once its page has been searched. */
    method NextRecord(chunks: seq<Chunk>, k: nat, pdf: Option<RenderedPdf>, totalPages: nat, counts: multiset<PageValue>,
                      now: string, nPage: int, chunkIndexOnPage: nat, sharedBoxes: Option<seq<BBox>>)
      returns (v: VectorRecord, boxes: Option<seq<BBox>>)
      requires IntPages(chunks) && k < |chunks| && totalPages == TotalPages(pdf)
      requires nPage == SeqMax(PageNumbers(chunks)) && chunkIndexOnPage == IndexOnPage(PageNumbers(chunks), k)
      requires sharedBoxes == StickyBoxes(pdf, chunks, k)
      ensures v == RecordAt(chunks, k, pdf, counts, now)
      ensures boxes == StickyBoxes(pdf, chunks, k + 1)
    {
      var text := chunks[k].content;
      var iPage, ePage, found := SearchPage(pdf, totalPages, chunks[k]);
      boxes := if found.Some? then found else sharedBoxes;
      v := VectorRecord(
        text := text,
        nChar := |text|,
        nWord := |TextStats.Words(text)|,
        nLine := |TextStats.Lines(text)|,
        iPage := iPage,
        ePage := ePage,
        iChunkOnPage := chunkIndexOnPage,
        nChunkOfPage := counts[chunks[k].page],
        iChunkOnDoc := k,
        nChunkOfDoc := |chunks|,
        nPage := nPage,
        regDate := now + "Z",
        chunkBboxes := boxes,
        mediaFiles := None);
    }

    /**
      The page span of one chunk: its own page by default; when the page is
      inside the rendered PDF, the boxes found for its text are returned and
      their tagged pages, if any, give the least and greatest page.
    */
    method SearchPage(pdf: Option<RenderedPdf>, totalPages: nat, c: Chunk) returns (iPage: int, ePage: int, found: Option<seq<BBox>>)
      requires c.page.PageNo? && totalPages == TotalPages(pdf)
      ensures (iPage, ePage) == PageSpan(pdf, c)
      ensures found == BoxesOf(pdf, c)
    {
      var page := c.page.n;
      iPage, ePage, found := page, page, None;
      if pdf.Some? && totalPages > 0 {
        var pageIndex := page - 1;
        if 0 <= pageIndex < totalPages {
          var merged := pdf.value.search(pageIndex, c.content);
          found := Some(merged);
          if merged != [] {
            var tagged := TaggedPages(merged);
            if tagged != [] {
              iPage := SeqMin(tagged);
              ePage := SeqMax(tagged);
            }
          }
        }
      }
    }

    /** The whole pipeline for one file, with the request's cancellation checked after each stage. */
    method Run(
      filePath: string,
      load: (Loaders.LoaderKind, string) -> seq<RawChunk>,
      split: seq<RawChunk> -> seq<RawChunk>,
      files: string -> Option<RenderedPdf>,
      cancelled: Checkpoint -> bool,
      now: string)
      returns (r: Result<seq<VectorRecord>, PipelineError>, uploads: seq<UploadFile>)
      modifies this
      ensures var raw := split(load(Loaders.GetLoader(filePath), filePath));
        var chunks := CorrectAll(KeepNonEmpty(raw));
        var pdf := files(PdfPath.PdfPathOf(filePath));
        var counts := old(pageChunkCounts) + multiset(PagesOf(chunks));
        if cancelled(AfterLoad) then
          r == Failure(Cancelled) && uploads == [] && pageChunkCounts == old(pageChunkCounts)
        else if KeepNonEmpty(raw) == [] then
          r == Failure(EmptyDocument) && uploads == [] && pageChunkCounts == old(pageChunkCounts)
        else if cancelled(AfterSplit) then
          r == Failure(Cancelled) && uploads == [] && pageChunkCounts == counts
        else if cancelled(AfterImages) then
          r == Failure(Cancelled) && uploads == UploadsOf(pdf) && pageChunkCounts == counts
        else
          && pageChunkCounts == counts
          && uploads == UploadsOf(pdf)
          && r == WithMediaResult(ComposeSpec(chunks, pdf, counts, now), PageImagesOf(pdf))
    {
      uploads := [];
      var documents := load(Loaders.GetLoader(filePath), filePath);
      if cancelled(AfterLoad) {
        return Failure(Cancelled), [];
      }
      var chunks := SplitDocuments(split(documents));
      if chunks.Failure? {
        return Failure(chunks.error), [];
      }
      if cancelled(AfterSplit) {
        return Failure(Cancelled), [];
      }
      var pdfPath := PdfPath.GetPdfPath(filePath);
      var pageMeta;
      pageMeta, uploads := ExtractPageImages(files(pdfPath));
      if cancelled(AfterImages) {
        return Failure(Cancelled), uploads;
      }
      var composed := Compose(chunks.value, filePath, files, now);
      if composed.Failure? {
        return Failure(composed.error), uploads;
      }
      var vs := composed.value;
      var records := new VectorRecord[|vs|](i requires 0 <= i < |vs| => vs[i]);
      assert records[..] == vs;
      AttachMedia(records, pageMeta);
      return Success(records[..]), uploads;
    }
  }

  /** Sets each record's `media_files` to the image list of its `i_page`, or to the empty list. */
  method AttachMedia(records: array<VectorRecord>, pageMeta: map<int, seq<PageImage>>)
    modifies records
    ensures records[..] == WithMedia(old(records[..]), pageMeta)
  {
    for k := 0 to records.Length
      invariant forall j :: 0 <= j < k ==> records[j] == old(records[j]).(mediaFiles := Some(MediaFor(pageMeta, old(records[j]).iPage)))
      invariant forall j :: k <= j < records.Length ==> records[j] == old(records[j])
    {
      var v := records[k];
      if v.iPage in pageMeta {
        records[k] := v.(mediaFiles := Some(pageMeta[v.iPage]));
      } else {
        records[k] := v.(mediaFiles := Some([]));
      }
    }
  }

  /** The page counter of the record loop before chunk `k`: no page yet, or the last page and its next index. */
  predicate AtPosition(chunks: seq<Chunk>, k: nat, currentPage: Option<int>, chunkIndexOnPage: nat)
    requires IntPages(chunks) && k <= |chunks|
  {
    && (k == 0 ==> currentPage == None && chunkIndexOnPage == 0)
    && (k > 0 ==> currentPage == Some(chunks[k - 1].page.n) && chunkIndexOnPage == IndexOnPage(PageNumbers(chunks), k - 1) + 1)
  }

  /** The state of the image loop of one page after its first `j` images. */
  predicate SavedUpTo(imgs: seq<ImageOutcome>, j: nat, key: int, pageMeta0: map<int, seq<PageImage>>, uploads0: seq<UploadFile>,
                      pageMeta: map<int, seq<PageImage>>, uploads: seq<UploadFile>)
    requires j <= |imgs|
  {
    && pageMeta == (if SavedNames(imgs[..j]) == [] then pageMeta0 else pageMeta0[key := AsImages(SavedNames(imgs[..j]))])
    && uploads == uploads0 + AsUploads(SavedNames(imgs[..j]))
  }

  lemma CorrectAllStep(kept: seq<RawChunk>, i: nat, out: seq<Chunk>)
    requires i < |kept| && out == CorrectAll(kept)[..i]
    ensures out + [CorrectChunk(kept[i])] == CorrectAll(kept)[..i + 1]
  {
  }

  /** Appending a chunk adds its page to the histogram once. */
  lemma CountStep(out: seq<Chunk>, c: Chunk, counts: multiset<PageValue>)
    ensures multiset(PagesOf(out + [c])) == multiset(PagesOf(out)) + multiset{c.page}
    ensures counts[c.page := counts[c.page] + 1] == counts + multiset{c.page}
  {
    assert PagesOf(out + [c]) == PagesOf(out) + [c.page];
  }

  /** One more image of a page: its name, if saved, is appended to the page's names, images and uploads. */
  lemma SavedPrefixStep(imgs: seq<ImageOutcome>, j: nat)
    requires j < |imgs|
    ensures SavedNames(imgs[..j + 1]) == SavedNames(imgs[..j]) + OutcomeName(imgs[j])
    ensures imgs[j].Saved? ==> AsImages(SavedNames(imgs[..j + 1])) == AsImages(SavedNames(imgs[..j])) + [PageImage(imgs[j].name, "image")]
    ensures imgs[j].Saved? ==> AsUploads(SavedNames(imgs[..j + 1])) == AsUploads(SavedNames(imgs[..j])) + [UploadFile("/tmp/" + imgs[j].name, imgs[j].name)]
    ensures imgs[j].SaveFailed? ==> SavedNames(imgs[..j + 1]) == SavedNames(imgs[..j])
  {
    assert imgs[..j + 1][..j] == imgs[..j];
  }
}
