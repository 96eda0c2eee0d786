/** The `DocumentChunk` record every stage of the pipeline passes along. */
module Models {
  import opened Maybe

  /** A value of the open `metadata` dictionary (parser name, OCR flag, crawl depth). */
  datatype MetaValue = MetaText(text: string) | MetaFlag(flag: bool) | MetaNumber(number: int)

  /**
   * An immutable chunk of extracted text with its provenance. `chunkId` is
   * the uuid4 text the record receives when it is created.
   */
  datatype DocumentChunk = DocumentChunk(
    sessionId: string,
    source: string,
    chunkId: string,
    text: string,
    page: Option<int>,
    metadata: map<string, MetaValue>)
}
