/**
 * The document router and the four format parsers. Each parser turns what
 * its reader gave into chunks stamped with the session, the original file
 * name and format-specific provenance, and collects the URLs found in the
 * text; the router picks the parser by the lower-cased extension and
 * returns the chunks with the URLs deduplicated and sorted.
 *
 * The readers (PDF pages and their OCR images, DOCX paragraphs, the text
 * file, OCR of an image), URL extraction, sentence segmentation and the
 * uuid4 chunk ids are collaborators: what they give is an input.
 */
module MainParser {
  import opened Maybe
  import opened Models
  import opened Text
  import opened Ordering
  import TextSplitter

  /**
   * The collaborators the parsers call: URL extraction, sentence
   * segmentation (`None` when it raises) and the chunk id minted for the
   * `k`-th chunk a parser creates.
   */
  datatype Tools = Tools(
    findUrls: string -> seq<string>,
    tokenize: string -> Option<seq<string>>,
    mint: nat -> string)

  /**
   * What reading one PDF page gave: the directly extracted text (`None`
   * when extraction raises) and the OCR text of the page's image (`None`
   * when converting the page raises or yields no image).
   */
  datatype PageRead = PageRead(direct: Option<string>, ocr: Option<string>)

  /**
   * What the readers give for the uploaded file: whether the PDF
   * rasteriser works, the PDF's pages (`None` when the PDF cannot be
   * opened), the DOCX paragraphs (`None` when the document cannot be
   * opened), the text file (`None` when it cannot be read) and the OCR text
   * of an image (the OCR routine never raises; it gives "" on failure).
   */
  datatype Readings = Readings(
    popplerAvailable: bool,
    pdfPages: Option<seq<PageRead>>,
    docxParagraphs: Option<seq<string>>,
    txt: Option<string>,
    imageOcr: string)

  /**
   * What the readers give for a path that does not exist: no PDF, no DOCX,
   * no text, and "" from the OCR routine, which checks for the file first.
   */
  const NoFile := Readings(false, None, None, None, "")

  /** Chunks and URLs, as a parser or the router returns them. */
  datatype Parsed = Parsed(chunks: seq<DocumentChunk>, urls: seq<string>)

  /** The formats the router knows. */
  datatype Kind = Pdf | Docx | Txt | Image | Unsupported

  // ---------------------------------------------------------------------------
  // Routing.
  // ---------------------------------------------------------------------------

  /** Some character of `p[lo..hi]` is not a dot. */
  predicate HasNonDot(p: string, lo: int, hi: int)
    requires 0 <= lo && hi <= |p|
  {
    exists k :: lo <= k < hi && p[k] != '.'
  }

  /**
   * `os.path.splitext(p)[1]`: from the last dot of the last path component
   * to the end, unless the component has no character other than dots
   * before that dot (a leading-dot name has no extension).
   */
  function Ext(p: string): (r: string)
    ensures r == [] || (r[0] == '.' && |r| <= |p| && r == p[|p| - |r|..])
  {
    var sep := RFind(p, '/', 0, |p|);
    var dot := RFind(p, '.', 0, |p|);
    if dot > sep && HasNonDot(p, sep + 1, dot) then p[dot..] else []
  }

  /** The extension has no further dot and no slash. */
  lemma ExtSpec(p: string)
    ensures forall k :: 1 <= k < |Ext(p)| ==> Ext(p)[k] != '.' && Ext(p)[k] != '/'
  {
    var sep := RFind(p, '/', 0, |p|);
    var dot := RFind(p, '.', 0, |p|);
    if dot > sep && HasNonDot(p, sep + 1, dot) {
      forall k | 1 <= k < |Ext(p)| ensures Ext(p)[k] != '.' && Ext(p)[k] != '/' {
        assert Ext(p)[k] == p[dot + k];
      }
    }
  }

  /** The image extensions the router sends to OCR. */
  const ImageExtensions: seq<string> := [".png", ".jpg", ".jpeg", ".tiff", ".bmp", ".gif"]

  /** The parser `process_document` picks for a file name. */
  function KindOf(name: string): (k: Kind)
    ensures k == Pdf <==> Lower(Ext(name)) == ".pdf"
    ensures k == Image <==> Lower(Ext(name)) in ImageExtensions
    ensures k == Unsupported <==> Lower(Ext(name)) !in [".pdf", ".docx", ".txt"] + ImageExtensions
  {
    var e := Lower(Ext(name));
    if e == ".pdf" then Pdf
    else if e == ".docx" then Docx
    else if e == ".txt" then Txt
    else if e in ImageExtensions then Image
    else Unsupported
  }

  /** Routing ignores letter case. */
  lemma RoutingIgnoresCase()
    ensures KindOf("a.PDF") == Pdf
  {
    assert Ext("a.PDF") == ".PDF" by {
      assert RFind("a.PDF", '/', 0, 5) == -1;
      assert RFind("a.PDF", '.', 0, 5) == 1;
      assert HasNonDot("a.PDF", 0, 1) by { assert "a.PDF"[0] != '.'; }
    }
    assert Lower(".PDF") == ".pdf";
  }

  /** A name that is only a dot and an extension (a hidden file) has no extension. */
  lemma HiddenFileIsUnsupported()
    ensures KindOf(".pdf") == Unsupported
  {
    assert Ext(".pdf") == [] by {
      assert RFind(".pdf", '/', 0, 4) == -1;
      assert RFind(".pdf", '.', 0, 4) == 0;
      assert !HasNonDot(".pdf", 0, 0);
    }
    assert Lower([]) == [];
  }

  // ---------------------------------------------------------------------------
  // Chunk stamping.
  // ---------------------------------------------------------------------------

  /** `chunk_text(text)` with the configured size and overlap; `None` when segmentation raises. */
  function ChunkTextOf(tools: Tools, text: string): Option<seq<string>>
  {
    if text == [] then Some([])
    else
      match tools.tokenize(text)
      case None => None
      case Some(sentences) => Some(TextSplitter.Chunks(text, sentences, TextSplitter.ChunkSize, TextSplitter.ChunkOverlap))
  }

  /** The chunks created for `texts`, the first with the `first`-th minted id. */
  function Stamped(texts: seq<string>, sessionId: string, source: string, first: nat, mint: nat -> string,
                   page: Option<int>, metadata: map<string, MetaValue>): (r: seq<DocumentChunk>)
    ensures |r| == |texts|
  {
    seq(|texts|, k requires 0 <= k < |texts| => DocumentChunk(sessionId, source, mint(first + k), texts[k], page, metadata))
  }

  /** Every stamped chunk carries the session, the source and the page, and the `k`-th gets id `first + k`. */
  lemma StampedSpec(texts: seq<string>, sessionId: string, source: string, first: nat, mint: nat -> string,
                    page: Option<int>, metadata: map<string, MetaValue>)
    ensures forall k :: 0 <= k < |texts| ==>
      var c := Stamped(texts, sessionId, source, first, mint, page, metadata)[k];
      c.sessionId == sessionId && c.source == source && c.chunkId == mint(first + k)
      && c.text == texts[k] && c.page == page && c.metadata == metadata
  {
  }

  /** The `for text_chunk in split_chunks: chunks.append(DocumentChunk(...))` loop. */
  method StampChunks(texts: seq<string>, sessionId: string, source: string, first: nat, mint: nat -> string,
                     page: Option<int>, metadata: map<string, MetaValue>) returns (chunks: seq<DocumentChunk>)
    ensures chunks == Stamped(texts, sessionId, source, first, mint, page, metadata)
  {
    chunks := [];
    for i := 0 to |texts|
      invariant chunks == Stamped(texts[..i], sessionId, source, first, mint, page, metadata)
    {
      chunks := chunks + [DocumentChunk(sessionId, source, mint(first + i), texts[i], page, metadata)];
    }
    assert texts[..|texts|] == texts;
  }

  // ---------------------------------------------------------------------------
  // PDF.
  // ---------------------------------------------------------------------------

  /** The metadata of a PDF chunk. */
  function PdfMeta(ocrAttempted: bool): map<string, MetaValue>
  {
    map["parser" := MetaText("pypdf"), "ocr_attempted" := MetaFlag(ocrAttempted)]
  }

  /** The page's direct text counts only when it has a non-whitespace character. */
  predicate HasDirectText(page: PageRead)
  {
    page.direct.Some? && !IsBlank(page.direct.value)
  }

  /**
   * The content of one page and whether OCR was attempted for it: the
   * direct text when it is not blank; otherwise, with a working
   * rasteriser, the OCR text when it is not empty.
   */
  function PageContent(page: PageRead, poppler: bool): (r: (string, bool))
    ensures HasDirectText(page) ==> r == (page.direct.value, false)
    ensures !HasDirectText(page) ==> r.1 == poppler
    ensures !HasDirectText(page) ==> (r.0 != [] <==> poppler && page.ocr.Some? && page.ocr.value != [])
    ensures !HasDirectText(page) && r.0 != [] ==> r.0 == page.ocr.value
  {
    var direct := if HasDirectText(page) then page.direct.value else [];
    var attempted := direct == [] && poppler;
    var content := if attempted && page.ocr.Some? && page.ocr.value != [] then page.ocr.value else direct;
    (content, attempted)
  }

  /** The loop state of `_parse_pdf`: chunks, URLs, and whether an exception ended the loop. */
  datatype PdfAcc = PdfAcc(chunks: seq<DocumentChunk>, urls: seq<string>, failed: bool)

  /** One iteration of the page loop, for page `pageNum` (0-based). */
  function PdfStep(acc: PdfAcc, pageNum: nat, page: PageRead, poppler: bool, sessionId: string, name: string, tools: Tools): (r: PdfAcc)
    ensures acc.failed ==> r == acc
    ensures PageContent(page, poppler).0 == [] ==> r == acc
  {
    if acc.failed then acc
    else
      var (content, attempted) := PageContent(page, poppler);
      if content == [] then acc
      else
        var urls := acc.urls + tools.findUrls(content);
        match ChunkTextOf(tools, content)
        case None => PdfAcc(acc.chunks, urls, true)
        case Some(texts) =>
          PdfAcc(acc.chunks + Stamped(texts, sessionId, name, |acc.chunks|, tools.mint, Some(pageNum + 1), PdfMeta(attempted)), urls, false)
  }

  /** The loop state after the given pages. */
  function PdfRun(pages: seq<PageRead>, poppler: bool, sessionId: string, name: string, tools: Tools): PdfAcc
  {
    if pages == [] then PdfAcc([], [], false)
    else PdfStep(PdfRun(pages[..|pages| - 1], poppler, sessionId, name, tools), |pages| - 1, pages[|pages| - 1], poppler, sessionId, name, tools)
  }

  /** `_parse_pdf`: nothing when the PDF cannot be opened; what the page loop collected otherwise. */
  function ParsePdf(pages: Option<seq<PageRead>>, poppler: bool, sessionId: string, name: string, tools: Tools): Parsed
  {
    if pages.None? then Parsed([], [])
    else
      var acc := PdfRun(pages.value, poppler, sessionId, name, tools);
      Parsed(acc.chunks, acc.urls)
  }

  lemma PdfRunSnoc(pages: seq<PageRead>, i: nat, poppler: bool, sessionId: string, name: string, tools: Tools)
    requires i < |pages|
    ensures PdfRun(pages[..i + 1], poppler, sessionId, name, tools)
      == PdfStep(PdfRun(pages[..i], poppler, sessionId, name, tools), i, pages[i], poppler, sessionId, name, tools)
  {
    assert pages[..i + 1][..i] == pages[..i];
  }

  /** Once the loop has failed it stays failed with the same result. */
  lemma {:induction false} PdfRunFailedStays(pages: seq<PageRead>, n: nat, poppler: bool, sessionId: string, name: string, tools: Tools)
    requires n <= |pages| && PdfRun(pages[..n], poppler, sessionId, name, tools).failed
    ensures PdfRun(pages, poppler, sessionId, name, tools) == PdfRun(pages[..n], poppler, sessionId, name, tools)
    decreases |pages| - n
  {
    if n < |pages| {
      assert pages[..n + 1][..n] == pages[..n];
      PdfRunFailedStays(pages, n + 1, poppler, sessionId, name, tools);
    } else {
      assert pages[..n] == pages;
    }
  }

  /**
   * Chunk `c`, the `k`-th of the file, came from page `pageNum` (0-based):
   * it carries the session, the file name, the `k`-th minted id, the
   * 1-based page number and that page's OCR flag.
   */
  predicate FromPage(c: DocumentChunk, k: nat, pageNum: nat, page: PageRead, poppler: bool, sessionId: string, name: string, tools: Tools)
  {
    Carries(c, sessionId, name, tools.mint(k), Some(pageNum + 1), PdfMeta(PageContent(page, poppler).1))
  }

  /** A chunk carries these fields. */
  predicate Carries(c: DocumentChunk, sessionId: string, source: string, id: string, page: Option<int>, metadata: map<string, MetaValue>)
  {
    c.sessionId == sessionId && c.source == source && c.chunkId == id && c.page == page && c.metadata == metadata
  }

  /** Chunks stamped after a prefix: the one at position `k` carries id `mint(k)` and the common fields. */
  lemma StampedAfter(prefix: seq<DocumentChunk>, texts: seq<string>, sessionId: string, source: string, mint: nat -> string,
                     page: Option<int>, metadata: map<string, MetaValue>)
    ensures forall k :: |prefix| <= k < |prefix| + |texts| ==>
      Carries((prefix + Stamped(texts, sessionId, source, |prefix|, mint, page, metadata))[k], sessionId, source, mint(k), page, metadata)
  {
    var added := Stamped(texts, sessionId, source, |prefix|, mint, page, metadata);
    forall k | |prefix| <= k < |prefix| + |texts|
      ensures Carries((prefix + added)[k], sessionId, source, mint(k), page, metadata)
    {
      var j := k - |prefix|;
      assert (prefix + added)[k] == added[j];
      assert |prefix| + j == k;
    }
  }

  /** One page keeps the earlier chunks and appends chunks that all came from that page. */
  lemma PdfStepChunks(acc: PdfAcc, pageNum: nat, page: PageRead, poppler: bool, sessionId: string, name: string, tools: Tools)
    ensures |acc.chunks| <= |PdfStep(acc, pageNum, page, poppler, sessionId, name, tools).chunks|
    ensures PdfStep(acc, pageNum, page, poppler, sessionId, name, tools).chunks[..|acc.chunks|] == acc.chunks
    ensures forall k :: |acc.chunks| <= k < |PdfStep(acc, pageNum, page, poppler, sessionId, name, tools).chunks| ==>
      FromPage(PdfStep(acc, pageNum, page, poppler, sessionId, name, tools).chunks[k], k, pageNum, page, poppler, sessionId, name, tools)
  {
    var r := PdfStep(acc, pageNum, page, poppler, sessionId, name, tools);
    var (content, attempted) := PageContent(page, poppler);
    if !acc.failed && content != [] && ChunkTextOf(tools, content).Some? {
      var texts := ChunkTextOf(tools, content).value;
      assert r.chunks == acc.chunks + Stamped(texts, sessionId, name, |acc.chunks|, tools.mint, Some(pageNum + 1), PdfMeta(attempted));
      StampedAfter(acc.chunks, texts, sessionId, name, tools.mint, Some(pageNum + 1), PdfMeta(attempted));
    } else {
      assert r.chunks == acc.chunks;
    }
  }

  /**
   * Every PDF chunk came from one of the pages: it carries the session,
   * the file name, the 1-based page number and that page's OCR flag, and
   * the `k`-th chunk has the `k`-th minted id.
   */
  lemma {:induction false} PdfRunProvenance(pages: seq<PageRead>, poppler: bool, sessionId: string, name: string, tools: Tools)
    ensures forall k :: 0 <= k < |PdfRun(pages, poppler, sessionId, name, tools).chunks| ==>
      exists p :: 0 <= p < |pages| && FromPage(PdfRun(pages, poppler, sessionId, name, tools).chunks[k], k, p, pages[p], poppler, sessionId, name, tools)
    decreases |pages|
  {
    if pages != [] {
      var front := pages[..|pages| - 1];
      var last := |pages| - 1;
      PdfRunProvenance(front, poppler, sessionId, name, tools);
      var before := PdfRun(front, poppler, sessionId, name, tools);
      var acc := PdfRun(pages, poppler, sessionId, name, tools);
      assert acc == PdfStep(before, last, pages[last], poppler, sessionId, name, tools);
      PdfStepChunks(before, last, pages[last], poppler, sessionId, name, tools);
      forall k | 0 <= k < |acc.chunks|
        ensures exists p :: 0 <= p < |pages| && FromPage(acc.chunks[k], k, p, pages[p], poppler, sessionId, name, tools)
      {
        if k < |before.chunks| {
          var p :| 0 <= p < |front| && FromPage(before.chunks[k], k, p, front[p], poppler, sessionId, name, tools);
          assert acc.chunks[k] == acc.chunks[..|before.chunks|][k];
          assert front[p] == pages[p];
        } else {
          assert FromPage(acc.chunks[k], k, last, pages[last], poppler, sessionId, name, tools);
        }
      }
    } else {
      assert PdfRun(pages, poppler, sessionId, name, tools).chunks == [];
    }
  }

  /** PDF chunks carry page numbers within the document, in page order. */
  lemma {:induction false} PdfRunPageOrder(pages: seq<PageRead>, poppler: bool, sessionId: string, name: string, tools: Tools)
    ensures forall k :: 0 <= k < |PdfRun(pages, poppler, sessionId, name, tools).chunks| ==>
      PdfRun(pages, poppler, sessionId, name, tools).chunks[k].page.Some?
      && 1 <= PdfRun(pages, poppler, sessionId, name, tools).chunks[k].page.value <= |pages|
    ensures forall i, j :: 0 <= i < j < |PdfRun(pages, poppler, sessionId, name, tools).chunks| ==>
      PdfRun(pages, poppler, sessionId, name, tools).chunks[i].page.value <= PdfRun(pages, poppler, sessionId, name, tools).chunks[j].page.value
    decreases |pages|
  {
    if pages != [] {
      var front := pages[..|pages| - 1];
      var last := |pages| - 1;
      PdfRunPageOrder(front, poppler, sessionId, name, tools);
      var before := PdfRun(front, poppler, sessionId, name, tools);
      var acc := PdfRun(pages, poppler, sessionId, name, tools);
      assert acc == PdfStep(before, last, pages[last], poppler, sessionId, name, tools);
      PdfStepChunks(before, last, pages[last], poppler, sessionId, name, tools);
      forall k | 0 <= k < |before.chunks| ensures acc.chunks[k] == before.chunks[k] {
        assert acc.chunks[k] == acc.chunks[..|before.chunks|][k];
      }
    }
  }

  /**
   * One iteration of the page loop, on a loop that has not failed: the
   * content decision, the URLs, and the chunks of the page's text.
   */
  method PdfPage(chunks0: seq<DocumentChunk>, urls0: seq<string>, pageNum: nat, page: PageRead, poppler: bool, sessionId: string, name: string, tools: Tools)
    returns (chunks: seq<DocumentChunk>, urls: seq<string>, failed: bool)
    ensures PdfAcc(chunks, urls, failed) == PdfStep(PdfAcc(chunks0, urls0, false), pageNum, page, poppler, sessionId, name, tools)
  {
    chunks, urls, failed := chunks0, urls0, false;
    var (content, attempted) := PageContent(page, poppler);
    if content != [] {
      urls := urls + tools.findUrls(content);
      var split := ChunkTextOf(tools, content);
      if split.None? {
        failed := true;
        return;
      }
      var more := StampChunks(split.value, sessionId, name, |chunks|, tools.mint, Some(pageNum + 1), PdfMeta(attempted));
      chunks := chunks + more;
    }
  }

  /** The page loop of `_parse_pdf`; an exception on a page ends the loop with what was collected. */
  method ParsePdfFile(pages: Option<seq<PageRead>>, poppler: bool, sessionId: string, name: string, tools: Tools)
    returns (result: Parsed)
    ensures result == ParsePdf(pages, poppler, sessionId, name, tools)
  {
    if pages.None? {
      return Parsed([], []);
    }
    var ps := pages.value;
    var chunks: seq<DocumentChunk> := [];
    var urls: seq<string> := [];
    var i := 0;
    while i < |ps|
      invariant 0 <= i <= |ps|
      invariant PdfRun(ps[..i], poppler, sessionId, name, tools) == PdfAcc(chunks, urls, false)
    {
      PdfRunSnoc(ps, i, poppler, sessionId, name, tools);
      var failed;
      chunks, urls, failed := PdfPage(chunks, urls, i, ps[i], poppler, sessionId, name, tools);
      if failed {
        PdfRunFailedStays(ps, i + 1, poppler, sessionId, name, tools);
        return Parsed(chunks, urls);
      }
      i := i + 1;
    }
    assert ps[..i] == ps;
    return Parsed(chunks, urls);
  }

  // ---------------------------------------------------------------------------
  // DOCX, plain text and images.
  // ---------------------------------------------------------------------------

  /** `"\n".join(p for p in paragraphs if p)` */
  function DocxText(paragraphs: seq<string>): string
  {
    Join("\n", TextSplitter.KeepNonEmpty(paragraphs))
  }

  /** The DOCX text is empty exactly when every paragraph is. */
  lemma DocxTextEmpty(paragraphs: seq<string>)
    ensures DocxText(paragraphs) == [] <==> forall p :: p in paragraphs ==> p == []
  {
    var kept := TextSplitter.KeepNonEmpty(paragraphs);
    if kept != [] {
      JoinLength("\n", kept);
      assert kept[0] in kept;
      assert |kept[0]| > 0;
      SumLenPositive(kept);
    }
  }

  /** A sequence of strings whose first is non-empty has a positive total length. */
  lemma {:induction false} SumLenPositive(parts: seq<string>)
    requires parts != [] && parts[0] != []
    ensures SumLen(parts) > 0
    decreases |parts|
  {
    if |parts| > 1 {
      SumLenPositive(parts[..|parts| - 1]);
    }
  }

  /**
   * The body shared by `_parse_docx` and `_parse_txt`: nothing for empty
   * text; else the URLs of the text and its chunks with the given parser
   * name. A segmentation failure is caught: the URLs stay, no chunks.
   */
  function ParseText(text: string, parser: string, sessionId: string, name: string, tools: Tools): Parsed
  {
    if text == [] then Parsed([], [])
    else
      var urls := tools.findUrls(text);
      match ChunkTextOf(tools, text)
      case None => Parsed([], urls)
      case Some(texts) => Parsed(Stamped(texts, sessionId, name, 0, tools.mint, None, map["parser" := MetaText(parser)]), urls)
  }

  /** `_parse_docx`: nothing when the document cannot be opened. */
  function ParseDocx(paragraphs: Option<seq<string>>, sessionId: string, name: string, tools: Tools): Parsed
  {
    if paragraphs.None? then Parsed([], []) else ParseText(DocxText(paragraphs.value), "python-docx", sessionId, name, tools)
  }

  /** `_parse_txt`: nothing when the file cannot be read. */
  function ParseTxt(text: Option<string>, sessionId: string, name: string, tools: Tools): Parsed
  {
    if text.None? then Parsed([], []) else ParseText(text.value, "text", sessionId, name, tools)
  }

  /** `_parse_image`: like the text parsers, but a segmentation failure is not caught (`None`). */
  function ParseImage(ocrText: string, sessionId: string, name: string, tools: Tools): Option<Parsed>
  {
    if ocrText == [] then Some(Parsed([], []))
    else
      var urls := tools.findUrls(ocrText);
      match ChunkTextOf(tools, ocrText)
      case None => None
      case Some(texts) => Some(Parsed(Stamped(texts, sessionId, name, 0, tools.mint, None, map["parser" := MetaText("ocr")]), urls))
  }

  /** `_parse_docx` and `_parse_txt` as the source writes them. */
  method ParseTextFile(text: string, parser: string, sessionId: string, name: string, tools: Tools) returns (result: Parsed)
    ensures result == ParseText(text, parser, sessionId, name, tools)
  {
    var chunks: seq<DocumentChunk> := [];
    var urls: seq<string> := [];
    if text != [] {
      urls := tools.findUrls(text);
      var split := ChunkTextOf(tools, text);
      if split.Some? {
        chunks := StampChunks(split.value, sessionId, name, 0, tools.mint, None, map["parser" := MetaText(parser)]);
      }
    }
    return Parsed(chunks, urls);
  }

  /** `_parse_image` as the source writes it. */
  method ParseImageFile(ocrText: string, sessionId: string, name: string, tools: Tools) returns (result: Option<Parsed>)
    ensures result == ParseImage(ocrText, sessionId, name, tools)
  {
    var chunks: seq<DocumentChunk> := [];
    var urls: seq<string> := [];
    if ocrText != [] {
      urls := tools.findUrls(ocrText);
      var split := ChunkTextOf(tools, ocrText);
      if split.None? {
        return None;
      }
      chunks := StampChunks(split.value, sessionId, name, 0, tools.mint, None, map["parser" := MetaText("ocr")]);
    }
    return Some(Parsed(chunks, urls));
  }

  // ---------------------------------------------------------------------------
  // The router.
  // ---------------------------------------------------------------------------

  /** `sorted(list(set(urls)))` on a parser's result. */
  function Finish(p: Parsed): (r: Parsed)
    ensures r.chunks == p.chunks
    ensures StrictlySorted(r.urls)
    ensures forall u :: u in r.urls <==> u in p.urls
  {
    Parsed(p.chunks, SortedUnique(p.urls))
  }

  /**
   * `process_document`: `None` when an exception escapes the chosen
   * parser, so that the final `return` reads `unique_urls` before it was
   * assigned and raises.
   */
  function Process(name: string, sessionId: string, readings: Readings, tools: Tools): Option<Parsed>
  {
    match KindOf(name)
    case Pdf => Some(Finish(ParsePdf(readings.pdfPages, readings.popplerAvailable, sessionId, name, tools)))
    case Docx => Some(Finish(ParseDocx(readings.docxParagraphs, sessionId, name, tools)))
    case Txt => Some(Finish(ParseTxt(readings.txt, sessionId, name, tools)))
    case Image =>
      (match ParseImage(readings.imageOcr, sessionId, name, tools)
       case None => None
       case Some(p) => Some(Finish(p)))
    case Unsupported => Some(Parsed([], []))
  }

  /** `process_document` as the source writes it. */
  method ProcessDocument(name: string, sessionId: string, readings: Readings, tools: Tools) returns (result: Option<Parsed>)
    ensures result == Process(name, sessionId, readings, tools)
  {
    var kind := KindOf(name);
    var parsed := Parsed([], []);
    if kind == Pdf {
      parsed := ParsePdfFile(readings.pdfPages, readings.popplerAvailable, sessionId, name, tools);
    } else if kind == Docx {
      if readings.docxParagraphs.Some? {
        parsed := ParseTextFile(DocxText(readings.docxParagraphs.value), "python-docx", sessionId, name, tools);
      }
    } else if kind == Txt {
      if readings.txt.Some? {
        parsed := ParseTextFile(readings.txt.value, "text", sessionId, name, tools);
      }
    } else if kind == Image {
      var image := ParseImageFile(readings.imageOcr, sessionId, name, tools);
      if image.None? {
        return None;
      }
      parsed := image.value;
    }
    var uniqueUrls := SortedUnique(parsed.urls);
    return Some(Parsed(parsed.chunks, uniqueUrls));
  }

  /** Only the image parser lets an exception out: when the OCR text is not empty and segmentation raises. */
  lemma ProcessFails(name: string, sessionId: string, readings: Readings, tools: Tools)
    ensures Process(name, sessionId, readings, tools).None? <==>
      KindOf(name) == Image && readings.imageOcr != [] && tools.tokenize(readings.imageOcr).None?
  {
  }

  /** An unsupported extension gives no chunks and no URLs. */
  lemma UnsupportedGivesNothing(name: string, sessionId: string, readings: Readings, tools: Tools)
    requires KindOf(name) == Unsupported
    ensures Process(name, sessionId, readings, tools) == Some(Parsed([], []))
  {
  }

  /**
   * A file that no longer exists parses to nothing, whatever its
   * extension: every parser catches the read error, and OCR gives "".
   */
  lemma MissingFileGivesNothing(name: string, sessionId: string, tools: Tools)
    ensures Process(name, sessionId, NoFile, tools) == Some(Parsed([], []))
  {
  }

  /** The returned URLs are sorted, free of duplicates and exactly the URLs the parser found. */
  lemma ProcessUrls(name: string, sessionId: string, readings: Readings, tools: Tools)
    requires Process(name, sessionId, readings, tools).Some?
    ensures StrictlySorted(Process(name, sessionId, readings, tools).value.urls)
  {
  }

  /**
   * The order in which a parser lists its URLs (a Python set's order) and
   * repetitions do not change what the router returns.
   */
  lemma FinishBySet(p: Parsed, q: Parsed)
    requires p.chunks == q.chunks && forall u :: u in p.urls <==> u in q.urls
    ensures Finish(p) == Finish(q)
  {
    SortedUniqueBySet(p.urls, q.urls);
  }

  /** Chunks of the text parsers carry the session, the file name, no page and the parser's name. */
  lemma ParseTextProvenance(text: string, parser: string, sessionId: string, name: string, tools: Tools)
    ensures forall c :: c in ParseText(text, parser, sessionId, name, tools).chunks ==>
      c.sessionId == sessionId && c.source == name && c.page.None? && c.metadata == map["parser" := MetaText(parser)]
  {
    if text != [] && ChunkTextOf(tools, text).Some? {
      StampedSpec(ChunkTextOf(tools, text).value, sessionId, name, 0, tools.mint, None, map["parser" := MetaText(parser)]);
    }
  }

  /** Chunks of the image parser carry the session, the file name, no page and the parser name "ocr". */
  lemma ParseImageProvenance(ocrText: string, sessionId: string, name: string, tools: Tools)
    requires ParseImage(ocrText, sessionId, name, tools).Some?
    ensures forall c :: c in ParseImage(ocrText, sessionId, name, tools).value.chunks ==>
      c.sessionId == sessionId && c.source == name && c.page.None? && c.metadata == map["parser" := MetaText("ocr")]
  {
    if ocrText != [] {
      StampedSpec(ChunkTextOf(tools, ocrText).value, sessionId, name, 0, tools.mint, None, map["parser" := MetaText("ocr")]);
    }
  }

  /** Every chunk the router returns carries the session id and the original file name. */
  lemma ProcessProvenance(name: string, sessionId: string, readings: Readings, tools: Tools)
    requires Process(name, sessionId, readings, tools).Some?
    ensures forall c :: c in Process(name, sessionId, readings, tools).value.chunks ==> c.sessionId == sessionId && c.source == name
  {
    var chunks := Process(name, sessionId, readings, tools).value.chunks;
    match KindOf(name)
    case Pdf =>
      assert chunks == ParsePdf(readings.pdfPages, readings.popplerAvailable, sessionId, name, tools).chunks;
      if readings.pdfPages.Some? {
        PdfRunProvenance(readings.pdfPages.value, readings.popplerAvailable, sessionId, name, tools);
      }
    case Docx =>
      assert chunks == ParseDocx(readings.docxParagraphs, sessionId, name, tools).chunks;
      if readings.docxParagraphs.Some? {
        ParseTextProvenance(DocxText(readings.docxParagraphs.value), "python-docx", sessionId, name, tools);
      }
    case Txt =>
      assert chunks == ParseTxt(readings.txt, sessionId, name, tools).chunks;
      if readings.txt.Some? {
        ParseTextProvenance(readings.txt.value, "text", sessionId, name, tools);
      }
    case Image =>
      assert chunks == ParseImage(readings.imageOcr, sessionId, name, tools).value.chunks;
      ParseImageProvenance(readings.imageOcr, sessionId, name, tools);
    case Unsupported =>
  }
}
