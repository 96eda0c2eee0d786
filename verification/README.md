# AI Document Q&A backend — a Dafny model of its core

The backend answers questions about documents the user uploads.

**Upload.** The upload endpoint gives the upload a fresh session. It clears anything the index store holds for that session and copies the named files into the upload directory. It then schedules a background task and returns "processing" straight away. The background task:

- routes each file to a parser by its lower-cased extension (PDF with an OCR fallback, DOCX, plain text, images through OCR);
- chunks the text by sentences;
- crawls every URL found in the files, each once, in sorted order;
- embeds the parsed and crawled chunks as one batch;
- adds the batch to the session's vector index, which lives in two files: the vectors, and a JSON map from dense vector id to chunk id;
- keeps every chunk in an in-memory detail store.

**Questions.** The question endpoint:

- rejects a blank question or a missing session id;
- tries a keyword-driven direct calculation on the session's stored tables;
- retrieves the closest chunks through the index;
- formats them into a numbered context;
- asks the language model, and classifies its answer as "text" or "not_found", or reports an "error";
- lists the sources it consulted, sorted.

**Status.** The status endpoint reads an in-memory status store.

As the code is written, the application does not start: an import in the question module fails (see "Import failures in query.py" under Left out). The model describes the endpoints as they behave once that import is repaired.

**How the model is organised.** It follows the Python modules one to one:

- `TextSplitter` — `chunk_text`;
- `Indexer` — the index store, as a class `IndexStore` whose fields are the lock registry, the detail store and the disk;
- `Search` — `retrieve_context`;
- `MainParser` — the router and the four parsers;
- `Upload` — the endpoint and the background task;
- `LlmInterface` — `format_context` and `generate_answer`;
- `Query` — the direct calculation and the question handler;
- `Status` — the status lookup.

Helper modules model the Python built-ins the core relies on:

- `Text` — `str.strip`, `str.isspace`, `str.lower`, `in`, `str.join`, `str.rfind`;
- `Decimal` — `str(int)` and `int(str)`;
- `Ordering` — string order and `sorted(set(...))`.

**Loops and state.** Where the source loops and updates variables, the model has a method with a loop. Examples are the chunker, the PDF page loop, the save loop, the parse and crawl loops, the context formatter and the source collection. Each such method is proved equal to a recursive specification function, and the properties are proved about that function.

**Collaborators are inputs.** The following are not modelled; what they give (or that they raise) is a parameter:

- the sentence tokenizer, URL extraction and uuid4 chunk ids;
- the PDF, DOCX, text and OCR readers;
- the crawler, the embedding model and the FAISS search;
- the OpenAI call, the Tavily search and the stored tables.

The disk is modelled as maps keyed by path, and the upload directory as a set of paths.

## Model

| member | source | states |
|---|---|---|
| Text.StripSpec | backend/app/services/knowledge/llm_interface.py:88 | `strip()` removes exactly the leading and trailing whitespace: the result is empty iff the input is blank, and a non-empty result starts and ends with a non-whitespace character |
| Text.StripNoop | backend/app/services/knowledge/llm_interface.py:34 | a string that already starts and ends with non-whitespace is left unchanged by `strip()` |
| Text.StripIdempotent | backend/app/api/endpoints/query.py:112 | stripping twice is stripping once |
| Text.Lower | backend/app/services/knowledge/llm_interface.py:92 | `lower()` keeps the length and maps each character on its own, 'A'..'Z' to 'a'..'z' and every other character to itself |
| Text.LowerIdempotent | backend/app/api/endpoints/query.py:46 | lower-casing twice is lower-casing once |
| Text.ContainsIffOccurs | backend/app/services/knowledge/llm_interface.py:93-95 | the substring test `p in s` holds iff `p` occurs in `s` at some index |
| Text.JoinLength | backend/app/services/text_splitter.py:36 | the length of `sep.join(parts)` is the total length of the parts plus one separator between each pair |
| Text.RFind | backend/app/services/text_splitter.py:62 | `rfind(c, lo, hi)` is -1 exactly when `c` does not occur in the window; otherwise it is the position of its last occurrence there |
| Decimal.Show | backend/app/services/knowledge/indexer.py:64 | `str(k)` of an integer is non-empty and starts with '-' exactly when `k` is negative |
| Decimal.ParseShow | backend/app/services/knowledge/indexer.py:50 | `int(str(k)) == k` for every integer |
| Decimal.ShowParse | backend/app/services/knowledge/indexer.py:50 | a key that parses is the canonical rendering of the integer it parses to |
| Decimal.ShowInjective | backend/app/services/knowledge/indexer.py:64 | distinct integers give distinct JSON keys |
| Ordering.StrLessTransitive | backend/app/services/parser/main_parser.py:213 | string order is transitive |
| Ordering.StrLessTotal | backend/app/services/parser/main_parser.py:213 | of two distinct strings one is smaller |
| Ordering.SortedUnique | backend/app/services/parser/main_parser.py:213 | `sorted(list(set(xs)))` is strictly ascending and holds exactly the elements of `xs` |
| Ordering.SortedListingUnique | backend/app/services/parser/main_parser.py:213 | two strictly ascending lists with the same elements are equal |
| Ordering.SortedUniqueBySet | backend/app/services/parser/main_parser.py:213 | the sorted listing depends only on the set of elements, not on their order or repetition |
| TextSplitter.EffectiveOverlap | backend/app/services/text_splitter.py:20-21 | an overlap below the size is kept; otherwise it becomes `int(size / 4)`; either way it is below the size |
| TextSplitter.SeedSpec | backend/app/services/text_splitter.py:40-48 | the overlap carried into the next chunk is a suffix of the closed chunk's sentences within the budget, and the longest such suffix |
| TextSplitter.OverlapSeed | backend/app/services/text_splitter.py:40-48 | the backward walk returns that suffix, in the original order, together with its total length |
| TextSplitter.Cut | backend/app/services/text_splitter.py:60-68 | one hard-split window ends at most `size` characters after its start and makes progress; it ends either at a space, which is then skipped, or at the window's end |
| TextSplitter.SplitFromBounded | backend/app/services/text_splitter.py:55-69 | every hard-split piece has at most `size` characters |
| TextSplitter.NextPiece | backend/app/services/text_splitter.py:59-68 | one iteration of the hard-split loop emits the next piece and advances the start |
| TextSplitter.HardSplit | backend/app/services/text_splitter.py:55-69 | the hard-split loop yields the specified pieces, each within the size |
| TextSplitter.SplitWithoutSpaces | backend/app/services/text_splitter.py:57-69 | a sentence without whitespace is cut into pieces whose concatenation is the sentence: nothing is lost |
| TextSplitter.SplitPiecesNonEmpty | backend/app/services/text_splitter.py:57-69 | a sentence without whitespace yields no empty piece |
| TextSplitter.CutWithoutSpaces | backend/app/services/text_splitter.py:62-68 | without whitespace, a window is never cut at a space and its piece is unchanged by stripping |
| TextSplitter.KeepNonEmpty | backend/app/services/text_splitter.py:69 | `[p for p in parts if p]` keeps exactly the non-empty parts |
| TextSplitter.KeepNonBlank | backend/app/services/text_splitter.py:79 | the final filter keeps exactly the chunks that are not blank |
| TextSplitter.ChunkText | backend/app/services/text_splitter.py:14-79 | no chunks for empty text or a non-positive size; no blank chunk ever; the loop computes the specified chunk list |
| TextSplitter.FitCheck | backend/app/services/text_splitter.py:30-32 | a sentence joins the open chunk, and no chunk is emitted, exactly when the running length plus its length is within the size |
| TextSplitter.CloseStep | backend/app/services/text_splitter.py:33-71 | closing a chunk emits the joined open chunk. Nothing is left open, with running length 0, exactly when there is no seed and the sentence is longer than the size; then hard-split pieces within the size are appended. Otherwise the open chunk is exactly the overlap seed followed by the sentence |
| TextSplitter.OpenChunkBound | backend/app/services/text_splitter.py:28-52 | the running length is the open chunk's length, which exceeds the size only when the chunk is a seed within the overlap followed by one sentence |
| TextSplitter.RunWithinSize | backend/app/services/text_splitter.py:28-32 | when all sentences fit, no chunk is closed and all of them stay open |
| TextSplitter.SmallTextSingleChunk | backend/app/services/text_splitter.py:14-79 | text whose sentences fit the size becomes the single chunk `" ".join(sentences)`, unless that is blank |
| TextSplitter.JoiningSpacesExceedSize | backend/app/services/text_splitter.py:30-36 | the size bounds the sum of sentence lengths, not the chunk: sentences "a", "a" with size 2 give the 3-character chunk "a a" |
| TextSplitter.SeedPlusSentenceExceedsSize | backend/app/services/text_splitter.py:40-52 | a seed plus the sentence that closed a chunk can exceed the size: size 3 and overlap 1 turn "a", "bbb" into "a" and "a bbb" |
| Indexer.IndexAndMappingPathsDiffer | backend/app/services/knowledge/indexer.py:26-30 | no session's index file is any session's mapping file |
| Indexer.IndexPathInjective | backend/app/services/knowledge/indexer.py:26-30 | two relative session ids with the same index path are equal |
| Indexer.EncodeMapping | backend/app/services/knowledge/indexer.py:64 | each integer id is stored under `str(id)` with its chunk id, and every key comes from an id |
| Indexer.DecodeMapping | backend/app/services/knowledge/indexer.py:50 | decoding succeeds iff every key parses as an integer, and it keeps every value under the parsed key |
| Indexer.MappingRoundTrip | backend/app/services/knowledge/indexer.py:44-66 | decoding what was encoded gives back the id map |
| Indexer.Load | backend/app/services/knowledge/indexer.py:38-55 | nothing loads when either file is missing; a loaded index has the stored vectors and the decoded mapping |
| Indexer.Save | backend/app/services/knowledge/indexer.py:57-69 | the vectors file is written first, then the mapping file. A file that cannot be opened keeps its old contents, and the later file is not written. A write that fails after truncating its file leaves that file unreadable (modelled as missing). Other paths are untouched |
| Indexer.SaveFaultThenLoad | backend/app/services/knowledge/indexer.py:38-69 | after a failed save, the old index loads if the index file could not be opened. Nothing loads after a write that truncated a file. If only the mapping file could not be opened, the new vectors load with the old readable mapping |
| Indexer.SaveThenLoad | backend/app/services/knowledge/indexer.py:38-69 | loading after a successful save gives the saved index |
| Indexer.SaveKeepsOtherSessions | backend/app/services/knowledge/indexer.py:57-69 | saving one session leaves what every other session loads unchanged |
| Indexer.RemoveFiles | backend/app/services/knowledge/indexer.py:163-173 | removal deletes the session's two files, stops at the first failure, and never touches another path |
| Indexer.RemoveThenLoad | backend/app/services/knowledge/indexer.py:152-175 | after a successful clear, nothing loads for the session |
| Indexer.RemoveFilesIdempotent | backend/app/services/knowledge/indexer.py:165-171 | clearing twice is clearing once |
| Indexer.AddIdsSpec | backend/app/services/knowledge/indexer.py:119-121 | the batch's chunks get ids `next_id + i`, in order, and every other id keeps its entry |
| Indexer.AddDetailsKeys | backend/app/services/knowledge/indexer.py:116-124 | the session's detail store gains exactly the batch's chunk ids |
| Indexer.AddDetailsKeeps | backend/app/services/knowledge/indexer.py:124 | entries for chunk ids outside the batch are kept |
| Indexer.AddDetailsStores | backend/app/services/knowledge/indexer.py:124 | with distinct chunk ids, every chunk of the batch is stored under its own id |
| Indexer.AddBatchKeepsDense | backend/app/services/knowledge/indexer.py:93-121 | if the ids of an index are exactly 0..ntotal-1, they still are after adding a batch; the new ids continue from `ntotal` in batch order |
| Indexer.LoadOrFresh | backend/app/services/knowledge/indexer.py:92-100 | indexing starts from the loaded index, or from an empty one when nothing loads |
| Indexer.FreshIndexStartsAtZero | backend/app/services/knowledge/indexer.py:96-100 | a fresh index has no vectors and numbers from 0 |
| Indexer.LoadSkipsCardinalityCheck | backend/app/services/knowledge/indexer.py:38-55 | loading does not compare the number of vectors with the number of mapping entries |
| Indexer.ChunkDetails | backend/app/services/knowledge/indexer.py:141-146 | a chunk is found iff the session and the chunk id are both stored, and it is the stored chunk |
| Indexer.MapBatch | backend/app/services/knowledge/indexer.py:119-124 | the enumerate loop builds the specified id map and detail map |
| Indexer.IndexStore.constructor | backend/app/services/knowledge/indexer.py:22 | the store starts with no locks, no details and the given disk |
| Indexer.IndexStore.GetLock | backend/app/services/knowledge/indexer.py:32-36 | the session gets a lock entry if it had none; nothing else changes |
| Indexer.IndexStore.IndexContent | backend/app/services/knowledge/indexer.py:79-139 | an empty batch succeeds and changes nothing; otherwise the session gets a lock and the call fails iff embedding raised. On success with vectors, the batch's details are stored and the grown index is saved; otherwise details and disk are unchanged |
| Indexer.IndexStore.ClearSessionData | backend/app/services/knowledge/indexer.py:152-175 | always returns true; drops the session's details and lock entry and removes its files |
| Search.ResolveSlot | backend/app/services/knowledge/search.py:51-62 | a slot yields a chunk iff it is not -1, it maps to a non-empty chunk id and that chunk is stored; the chunk is the stored one |
| Search.ResolveAppend | backend/app/services/knowledge/search.py:48-58 | resolving two runs of slots is resolving each, in order |
| Search.ResolveLength | backend/app/services/knowledge/search.py:48-58 | at most one chunk per slot |
| Search.ResolveSound | backend/app/services/knowledge/search.py:51-58 | every returned chunk is yielded by some slot |
| Search.ResolveComplete | backend/app/services/knowledge/search.py:51-58 | every chunk some slot yields is returned |
| Search.ResolveAllSentinels | backend/app/services/knowledge/search.py:52-53 | only -1 slots give nothing |
| Search.Retrieve | backend/app/services/knowledge/search.py:9-65 | no chunks when nothing loads, when the index is empty, or when embedding or search raises |
| Search.RetrieveAtMostTopK | backend/app/services/knowledge/search.py:40-58 | retrieval returns at most `top_k` chunks |
| Search.RetrieveContext | backend/app/services/knowledge/search.py:9-65 | the retrieval over the store's disk and details gives the specified chunks |
| MainParser.Ext | backend/app/services/parser/main_parser.py:192 | the extension is empty or a suffix of the name that starts with '.' |
| MainParser.ExtSpec | backend/app/services/parser/main_parser.py:192 | the extension contains no further '.' and no '/' |
| MainParser.KindOf | backend/app/services/parser/main_parser.py:192-211 | PDF iff the lower-cased extension is ".pdf"; image iff it is one of the six image extensions; unsupported iff it is none of the nine known ones |
| MainParser.RoutingIgnoresCase | backend/app/services/parser/main_parser.py:192-197 | "a.PDF" is routed to the PDF parser |
| MainParser.HiddenFileIsUnsupported | backend/app/services/parser/main_parser.py:192 | ".pdf" has no extension and is unsupported |
| MainParser.StampedSpec | backend/app/services/parser/main_parser.py:101-108 | each new chunk carries the session, the original name, its text, the page and the metadata, and the k-th gets the k-th minted id |
| MainParser.StampChunks | backend/app/services/parser/main_parser.py:101-108 | the append loop builds those chunks |
| MainParser.PageContent | backend/app/services/parser/main_parser.py:54-94 | a page's content is its direct text when that is not blank; otherwise OCR is attempted exactly when the rasteriser works, and its non-empty text is used |
| MainParser.PdfStep | backend/app/services/parser/main_parser.py:48-111 | a page without content, or any page after a failure, changes nothing |
| MainParser.PdfRunFailedStays | backend/app/services/parser/main_parser.py:114-119 | once a page raises, the later pages are not processed |
| MainParser.PdfStepChunks | backend/app/services/parser/main_parser.py:96-108 | a page keeps the earlier chunks and appends only chunks that came from it |
| MainParser.PdfRunProvenance | backend/app/services/parser/main_parser.py:48-119 | every PDF chunk came from some page: it carries the session, the name, its minted id, the 1-based page number and that page's OCR flag |
| MainParser.PdfRunPageOrder | backend/app/services/parser/main_parser.py:48-108 | PDF chunks carry page numbers from 1 to the page count, in page order |
| MainParser.PdfPage | backend/app/services/parser/main_parser.py:49-111 | one iteration of the page loop computes the specified step |
| MainParser.ParsePdfFile | backend/app/services/parser/main_parser.py:20-119 | the page loop, stopping at a page that raises, gives the specified result |
| MainParser.DocxTextEmpty | backend/app/services/parser/main_parser.py:131-132 | the DOCX text is empty exactly when every paragraph is |
| MainParser.ParseTextFile | backend/app/services/parser/main_parser.py:124-166 | the DOCX and text parsers give the specified chunks and URLs |
| MainParser.ParseImageFile | backend/app/services/parser/main_parser.py:168-186 | the image parser gives the specified result, or raises when segmentation does |
| MainParser.Finish | backend/app/services/parser/main_parser.py:213 | the router keeps the chunks and returns the parser's URLs strictly sorted, each once |
| MainParser.ProcessDocument | backend/app/services/parser/main_parser.py:189-221 | the router computes the specified outcome |
| MainParser.ProcessFails | backend/app/services/parser/main_parser.py:189-221 | the router raises exactly for an image with OCR text whose segmentation raises |
| MainParser.MissingFileGivesNothing | backend/app/services/parser/main_parser.py:114-119 | a file that no longer exists gives no chunks and no URLs, whatever its extension: the PDF, DOCX and text parsers catch the read error (main_parser.py:142, :164), and OCR gives "" (ocr.py:79-81) |
| MainParser.UnsupportedGivesNothing | backend/app/services/parser/main_parser.py:210-213 | an unsupported extension gives no chunks and no URLs |
| MainParser.ProcessUrls | backend/app/services/parser/main_parser.py:213 | the returned URLs are strictly sorted |
| MainParser.FinishBySet | backend/app/services/parser/main_parser.py:213 | the parser's URL order and repetitions do not change what the router returns |
| MainParser.ParseTextProvenance | backend/app/services/parser/main_parser.py:124-166 | DOCX and text chunks carry the session, the name, no page and the parser's name |
| MainParser.ParseImageProvenance | backend/app/services/parser/main_parser.py:168-186 | image chunks carry the session, the name, no page and the parser name "ocr" |
| MainParser.ProcessProvenance | backend/app/services/parser/main_parser.py:189-221 | every routed chunk carries the session id and the original file name |
| Upload.Basename | backend/app/api/endpoints/upload.py:111 | the safe name has no '/' and is a suffix of the uploaded name |
| Upload.TempPathInjective | backend/app/api/endpoints/upload.py:101-112 | with uuid session ids, two sessions never share a temporary path, and within a session different names never do |
| Upload.SaveStep | backend/app/api/endpoints/upload.py:109-123 | an unnamed upload, or any upload after a failure, changes nothing; saved entries are only appended; without a failure the directory grows by exactly the new paths |
| Upload.SaveRunAllWritten | backend/app/api/endpoints/upload.py:109-116 | when every write works, each named upload is saved in order under its base name and temporary path, and exactly those paths are added |
| Upload.SaveRunFailureCleansUp | backend/app/api/endpoints/upload.py:117-123 | after a failed save, the only new paths left are those of uploads whose copy raised after `open` created the file |
| Upload.SaveRunKeepsSaved | backend/app/api/endpoints/upload.py:109-123 | without a failure, every saved file exists and nothing else was added |
| Upload.SaveRunFailedStays | backend/app/api/endpoints/upload.py:117-123 | the first failure ends the loop |
| Upload.SaveUploads | backend/app/api/endpoints/upload.py:109-125 | the save loop computes the specified saving state |
| Upload.UploadAnswer | backend/app/api/endpoints/upload.py:93-132 | an empty request gives 400 "No files uploaded." and leaves the directory alone; an accepted upload answers "processing" with the session id and schedules at least one file |
| Upload.AllBlankRejected | backend/app/api/endpoints/upload.py:110-127 | uploads that all lack a name give 400 "No valid files saved." and leave the directory alone |
| Upload.AcceptedFilesExist | backend/app/api/endpoints/upload.py:109-132 | every scheduled file has a base name without '/' and its temporary path, which exists |
| Upload.SaveRunNames | backend/app/api/endpoints/upload.py:111-116 | every saved entry pairs a base name with its temporary path |
| Upload.HandleFileUpload | backend/app/api/endpoints/upload.py:93-132 | the endpoint answers as specified; an empty request leaves the store alone; otherwise the new session's details, lock entry and files are cleared first |
| Upload.ParseAllSpec | backend/app/api/endpoints/upload.py:25-36 | the parsed chunks are exactly those of the files that parsed; the URLs are exactly theirs |
| Upload.ParseAllErrors | backend/app/api/endpoints/upload.py:37-40 | one parse error per failing file, in file order, naming it; no errors iff every file parsed |
| Upload.CrawlAllSpec | backend/app/api/endpoints/upload.py:54-60 | the crawled chunks are exactly those of the crawls that returned chunks; each error comes from a crawl that raised, and there are none iff no crawl raised |
| Upload.GatherCrawlsEachUrlOnce | backend/app/api/endpoints/upload.py:21-51 | each URL some file mentions is crawled exactly once, and no other URL is |
| Upload.GatherBatch | backend/app/api/endpoints/upload.py:47-65 | the batch puts every parsed chunk before every crawled chunk and holds exactly those |
| Upload.GatherNoErrors | backend/app/api/endpoints/upload.py:22-65 | with no failing parse and no raising crawl there are no errors before indexing |
| Upload.ParseFile | backend/app/api/endpoints/upload.py:26-40 | one iteration of the parse loop computes the specified step |
| Upload.ParseFiles | backend/app/api/endpoints/upload.py:25-44 | the parse loop gives the specified chunks, URLs and errors, and removes every temporary file whose removal does not fail; each entry is parsed from what is at its path when the loop reaches it |
| Upload.RepeatedPathParsesNothing | backend/app/api/endpoints/upload.py:29-44 | a later upload with an earlier one's base name shares its path; once the earlier entry's `finally` has removed the file, the later entry parses to no chunks, no URLs and no error |
| Upload.PresentPathParsed | backend/app/api/endpoints/upload.py:29-33 | an entry whose file is still in the upload directory when the loop reaches it is parsed from what the readers give for that path |
| Upload.CrawlUrls | backend/app/api/endpoints/upload.py:54-60 | the crawl-result loop gives the specified chunks and errors |
| Upload.BackgroundProcessFiles | backend/app/api/endpoints/upload.py:18-90 | the background job removes the temporary files. Its errors are those gathered, plus "indexing failed" exactly when a non-empty batch could not be embedded. An empty batch leaves the store alone; otherwise the store changes as `index_content` on the batch specifies |
| LlmInterface.FormatContext | backend/app/services/knowledge/llm_interface.py:20-34 | no chunks give "No relevant context found." |
| LlmInterface.SourceInfoPage | backend/app/services/knowledge/llm_interface.py:27-29 | the source line names the page exactly when the page is truthy (present and not 0) |
| LlmInterface.BlocksPrefix | backend/app/services/knowledge/llm_interface.py:26-32 | block k follows the blocks of the chunks before it |
| LlmInterface.FormatContextBlocks | backend/app/services/knowledge/llm_interface.py:20-34 | the formatted context holds, in order and numbered from 1, each chunk's header, source line and the start of its content line; stripping only trims the tail |
| LlmInterface.FormatContextStripped | backend/app/services/knowledge/llm_interface.py:34 | the formatted context is never empty and neither starts nor ends with whitespace |
| LlmInterface.SourceLine | backend/app/services/knowledge/llm_interface.py:27-29 | the source line built in the loop is the specified one |
| LlmInterface.FormatContextLoop | backend/app/services/knowledge/llm_interface.py:20-34 | the string-appending loop computes the formatted context |
| LlmInterface.Classify | backend/app/services/knowledge/llm_interface.py:92-101 | a received answer is never typed "error" |
| LlmInterface.ClassifyIgnoresCase | backend/app/services/knowledge/llm_interface.py:92 | classification does not depend on letter case |
| LlmInterface.ClassifyNotAvailable | backend/app/services/knowledge/llm_interface.py:93-96 | any answer containing "Information is NOT available" is "not_found" |
| LlmInterface.GenerateAnswer | backend/app/services/knowledge/llm_interface.py:37-121 | the type is "error" iff no client is configured or the call raised; without a client the answer is the disabled message; otherwise it is the stripped reply, classified |
| LlmInterface.GenerateAnswerStripped | backend/app/services/knowledge/llm_interface.py:88 | a non-error answer has no whitespace at either end |
| LlmInterface.GenerateAnswerErrors | backend/app/services/knowledge/llm_interface.py:49-121 | every error answer is the disabled message or starts with "Error: " |
| Query.GenderColumn | backend/app/api/endpoints/query.py:84 | no column iff none strips and lower-cases to "gender"; otherwise the first that does |
| Query.DirectCalculation | backend/app/api/endpoints/query.py:40-106 | no result without a keyword or without tables; a result needs the row or gender rule and names the first table |
| Query.DirectCalculationIgnoresCase | backend/app/api/endpoints/query.py:46 | the calculation does not depend on the question's letter case |
| Query.GenderRuleImpliesKeyword | backend/app/api/endpoints/query.py:53-82 | every gender-rule question passes the keyword guard |
| Query.DirectCalculationRules | backend/app/api/endpoints/query.py:76-101 | the row rule answers with the first table's row count. Otherwise the gender rule answers with the first gender column's counts, or says the column is missing. It gives no result when rendering the counts raises |
| Query.DirectCalculationAsWrittenNeverComputes | backend/app/api/endpoints/query.py:53-54 | as written, the calculation never gives a result, and it raises for every keyword question |
| Query.ChunkSources | backend/app/api/endpoints/query.py:129 | one source per retrieved chunk, in order |
| Query.PromptContextKeepsBoth | backend/app/api/endpoints/query.py:139-143 | the calculation result goes in front of the formatted context, and stripping loses nothing of either |
| Query.Ask | backend/app/api/endpoints/query.py:110-162 | exactly the requests with a blank question or missing session id get 400 "Missing question or session_id."; no other error remains |
| Query.AskSources | backend/app/api/endpoints/query.py:124-157 | an answer is typed "error" iff generation failed, and then lists no sources. Otherwise its sources are strictly sorted and exactly: the calculation when it gave a result, each retrieved chunk's source, and the web search when it gave results |
| Query.AskAnswers | backend/app/api/endpoints/query.py:149-159 | every request past the guard is answered |
| Query.AskAsWrittenAlwaysFails | backend/app/api/endpoints/query.py:149-162 | as written, every request past the guard gets 500 "Internal server error." |
| Query.CollectSources | backend/app/api/endpoints/query.py:119-135 | the handler adds the sources in the specified order |
| Query.HandleAskQuestion | backend/app/api/endpoints/query.py:110-162 | the handler, reading the index store through retrieval, answers as specified |
| Status.GetSessionStatus | backend/app/api/endpoints/status.py:11-26 | a session without a record, or with an empty one, reads as processing/"Status unknown or processing..."; otherwise it reads its record |
| Status.StatusNeverEmpty | backend/app/api/endpoints/status.py:17-26 | a lookup never answers with an empty record |
| Status.StatusAlwaysProcessing | backend/app/api/endpoints/status.py:17-22 | with the store as startup leaves it, and nothing ever writing it, every session reads "processing" |
| Status.StatusRecordVisible | backend/app/api/endpoints/status.py:17-26 | a recorded status is what later lookups see, and recording one session does not change another's answer |

## Left out

**Collaborators and I/O**
- Logging (`print`) and tracebacks are left out; they do not change results. File I/O is reduced to maps from path to contents. A write that fails after it truncated its file is modelled as removing that file, since `Load` rejects such a file just as it rejects a missing one (`Indexer.Save`).
- The sentence tokenizer, URL extraction (`extract_urls` and its regex), uuid4 chunk ids, the PDF/DOCX/text readers, pdf2image and OCR, the crawler, the embedding model, FAISS, OpenAI and Tavily are all inputs, as described above. `crawler.py` and `ocr.py` are not part of this model.
- The whole Tavily integration (client set-up and `perform_web_search`) is reduced to one flag: whether the search ran and returned results.
- The pandas DataFrame is reduced to three things: its column names, its row count, and a function giving the `json.dumps` of a column's `value_counts()`. That function gives nothing when the dump raises, for example for date values; `Query.DirectCalculation` then gives no result, through the `except` at query.py:98-101. Non-string column names are not modelled. Neither is any other exception in the rules, such as `strip()` on a non-string name.

**Concurrency and scheduling**
- Concurrency is not modelled: `asyncio` locks are a set of session ids, and every operation runs to completion.
- `asyncio.gather` over the crawl tasks is modelled as crawling in sequence. The order of crawls and results follows the iteration order of the URL set, which the model takes to be ascending (Python's set order is unspecified). The same holds for the set of sources in the question handler: its sorted output does not depend on that order (`Ordering.SortedUniqueBySet`).

**Strings and paths**
- `str.lower()` is modelled on ASCII letters only. The only non-ASCII characters whose lower case contains an ASCII letter are U+0130 (to "i" plus a combining dot) and U+212A KELVIN SIGN (to "k"). No phrase or keyword the code tests contains "k", and every "i" in them is followed by another character. So the extension, keyword, not-found and "gender" tests give the same answers as Python's full `lower()`.
- `settings.UPLOAD_DIR` and `settings.INDEX_DIR` are taken relative to the project root; the absolute prefix is not modelled.

**Failures not modelled**
- The exception text of a failed parse is not kept: `Upload.ProcessingError.ParseFailed` carries only the file name.
- When removing a temporary file fails (upload.py:42-44), the path is in the `stuck` set; why it failed is not modelled.
- The handler at upload.py:77-80 for an exception out of `index_content` is dead in the model: `index_content` catches everything it calls.
- Two uploads with the same base name in one request share one temporary path. The model lists both entries; it does not model the second copy overwriting the first one's contents, so `read` gives one reading per path. The background job's removal of the first entry's file is modelled: the second entry finds no file and adds nothing (`Upload.RepeatedPathParsesNothing`).
- Upload.SaveStep: assumes that every removal in the cleanup after a failed save succeeds. The source ignores a failing removal (upload.py:119-122), which can leave a saved file behind.
- TextSplitter.EffectiveOverlap: uses integer division `size / 4` for Python's `int(chunk_size / 4)`. Python divides in floating point, which agrees only while the size is below 2^53.
- A mapping file whose JSON keys are integers written in a non-canonical form (such as "01") is treated as failing to load.

**Not modelled at all**
- `extract_urls` (text_splitter.py:81-86) is left out.
- `get_session_chunk_count` (indexer.py:148-150) has no caller and is left out.
- The `embedding` field of `DocumentChunk` is always `None` in this code and is left out, as are `data` and `chart_data`, which are always `None`.
- The prompt text of `generate_answer` is left out. The question and the context do not change the result beyond what the completion input already gives.

**Import failures in query.py**
The module-level statements at query.py:15 and query.py:20 fail when the module is imported:
- `get_structured_data` is not defined in the indexer;
- `TAVILY_API_KEY` is not a configured setting.

`backend/main.py:11` imports the question module together with the upload module when the application starts. So, as the code is written, the ImportError at query.py:15 stops start-up: no endpoint is served, including upload and status.

The model describes the application as it would run once both statements are repaired. It takes the stored tables and the web-search result as parameters, as if both worked. The two Findings below, which end in a 500 response, can only be reached after that repair.

**Query.Ask**
- The context built at query.py:139-143 is never passed to the model in the source. `Query.PromptContext` and `Query.PromptContextKeepsBoth` state what it would hold; the corrected `Query.Ask` passes the chunks, as the two-argument signature asks.

**Where the code falls short of its own comments**
The model follows the code in each case:
- The status store is never written, so every session reads "processing" (`Status.StatusAlwaysProcessing`). The comment at status.py:21 expects the background job to set "ready" or "error". The store's comment at state.py:7 lists the same statuses. The job leaves recording the final status as a TODO (upload.py:90).
- An unknown session's message is "Status unknown or processing..." (status.py:22).
- An indexing failure is only appended to the job's local error list (upload.py:76); nobody reads that list.
- `chunk_text` aims at "chunks of a target size" (text_splitter.py:16), yet chunks can exceed the size (`TextSplitter.JoiningSpacesExceedSize`, `TextSplitter.SeedPlusSentenceExceedsSize`).
- Loading does not check that the number of vectors matches the number of mapping entries (`Indexer.LoadSkipsCardinalityCheck`).
- No parser stores a table, although the question handler reads stored tables (query.py:15, :54; state.py:11).

## Findings

| source | as written | input that shows it | evidently intended | confidence | as-written member | corrected member |
|---|---|---|---|---|---|---|
| backend/app/api/endpoints/query.py:149 | `generate_answer(question, doc_context_chunks, web_search_results)` passes three arguments to a function that takes two (llm_interface.py:37); the `TypeError` is caught and becomes 500 | `{"question": "What is this?", "session_id": "s"}` (no calculation keyword) | call it with the question and the retrieved chunks, and answer with the typed result and its sources | high, not executed | Query.AskAsWrittenAlwaysFails | Query.AskSources |
| backend/app/api/endpoints/query.py:54 | imports `STRUCTURED_DATA_STORE` from the indexer, which does not define it; the `ImportError` escapes to the handler's 500 | `{"question": "How many rows?", "session_id": "s"}` | read the session's stored tables and apply the row and gender rules to the first one | high, not executed | Query.DirectCalculationAsWrittenNeverComputes | Query.DirectCalculationRules |
