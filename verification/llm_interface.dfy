/**
 * The answer side of the knowledge service: turning retrieved chunks into
 * the context block of the prompt, and turning what the chat-completion
 * call gives back into an answer with a type. The call itself is an input.
 */
module LlmInterface {
  import opened Maybe
  import opened Models
  import opened Text
  import Decimal

  // ---------------------------------------------------------------------------
  // format_context
  // ---------------------------------------------------------------------------

  /** What an empty retrieval formats to. */
  const NoContext: string := "No relevant context found."

  /** `if chunk.page:`: a page of `None` or 0 is not shown. */
  predicate PageShown(page: Option<int>) {
    page.Some? && page.value != 0
  }

  /** The source line of a chunk: the source, then the page when it is shown. */
  function SourceInfo(c: DocumentChunk): string
  {
    "Source: " + c.source + (if PageShown(c.page) then " (Page: " + Decimal.Show(c.page.value) + ")" else "")
  }

  /** The header of the block of the chunk at (0-based) position `i`, numbered from 1. */
  function Header(i: nat): string
  {
    "--- Context Chunk " + Decimal.Show(i + 1) + " ---\n"
  }

  /** The block of the chunk at position `i`: header, source line, content line, blank line. */
  function Block(i: nat, c: DocumentChunk): string
  {
    Header(i) + (SourceInfo(c) + "\n") + ("Content: " + c.text + "\n\n")
  }

  /** The part of a block up to the colon of its content line. */
  function Lead(i: nat, c: DocumentChunk): string
  {
    Header(i) + SourceInfo(c) + "\nContent:"
  }

  lemma BlockLead(i: nat, c: DocumentChunk)
    ensures Block(i, c) == Lead(i, c) + (" " + c.text + "\n\n")
    ensures Lead(i, c)[0] == '-' && Lead(i, c)[|Lead(i, c)| - 1] == ':'
  {
    var t := c.text;
    assert "\n" + ("Content: " + t + "\n\n") == "\nContent:" + (" " + t + "\n\n");
    var h := Header(i);
    assert h[0] == '-';
  }

  /** The blocks of all chunks, in order, before stripping. */
  function Blocks(chunks: seq<DocumentChunk>): string
  {
    if chunks == [] then ""
    else Blocks(chunks[..|chunks| - 1]) + Block(|chunks| - 1, chunks[|chunks| - 1])
  }

  /** `format_context` */
  function FormatContext(chunks: seq<DocumentChunk>): (r: string)
    ensures chunks == [] ==> r == NoContext
  {
    if chunks == [] then NoContext else Strip(Blocks(chunks))
  }

  /** The source line names the page exactly when the page is truthy. */
  lemma {:induction false} SourceInfoPage(c: DocumentChunk)
    ensures PageShown(c.page) <==> SourceInfo(c) != "Source: " + c.source
    ensures PageShown(c.page) ==> StartsWith(SourceInfo(c), "Source: " + c.source + " (Page: ")
  {
    var base := "Source: " + c.source;
    if PageShown(c.page) {
      var tail := " (Page: " + Decimal.Show(c.page.value) + ")";
      assert SourceInfo(c) == base + tail;
      assert |SourceInfo(c)| > |base|;
      assert SourceInfo(c)[..|base + " (Page: "|] == base + " (Page: ";
    }
  }

  /** Block `k` comes right after the blocks of the chunks before it. */
  lemma {:induction false} BlocksPrefix(chunks: seq<DocumentChunk>, k: nat)
    requires k < |chunks|
    ensures StartsWith(Blocks(chunks), Blocks(chunks[..k]) + Block(k, chunks[k]))
    decreases |chunks|
  {
    var n := |chunks| - 1;
    if k == n {
      assert chunks[..n] == chunks[..k];
    } else {
      var front := chunks[..n];
      BlocksPrefix(front, k);
      assert front[..k] == chunks[..k];
      assert front[k] == chunks[k];
      var p := Blocks(chunks[..k]) + Block(k, chunks[k]);
      assert Blocks(chunks) == Blocks(front) + Block(n, chunks[n]);
      assert Blocks(chunks)[..|p|] == Blocks(front)[..|p|];
    }
  }

  /** The blocks start with a header, hence with '-'. */
  lemma BlocksStartWithDash(chunks: seq<DocumentChunk>)
    requires chunks != []
    ensures Blocks(chunks)[0] == '-'
  {
    BlocksPrefix(chunks, 0);
    assert chunks[..0] == [];
    assert Blocks(chunks)[0] == Block(0, chunks[0])[0];
  }

  /**
   * The formatted context holds, in order and numbered from 1, each chunk's
   * header, its source line and the start of its content line: stripping
   * only trims the tail of the last chunk's text.
   */
  lemma FormatContextBlocks(chunks: seq<DocumentChunk>, k: nat)
    requires k < |chunks|
    ensures StartsWith(FormatContext(chunks), Blocks(chunks[..k]) + Lead(k, chunks[k]))
  {
    var p := Blocks(chunks[..k]) + Lead(k, chunks[k]);
    var whole := Blocks(chunks);
    BlocksPrefix(chunks, k);
    BlockLead(k, chunks[k]);
    StartsWithSplit(whole, p);
    LeadPrefixEnds(chunks, k);
    StripKeepsCore(p, whole[|p|..]);
  }

  /** The blocks before chunk `k` followed by its lead start with '-' and end with ':'. */
  lemma LeadPrefixEnds(chunks: seq<DocumentChunk>, k: nat)
    requires k < |chunks|
    ensures var p := Blocks(chunks[..k]) + Lead(k, chunks[k]);
      p != [] && p[0] == '-' && p[|p| - 1] == ':'
  {
    var before := Blocks(chunks[..k]);
    var lead := Lead(k, chunks[k]);
    BlockLead(k, chunks[k]);
    if k == 0 {
      assert before == [] by {
        assert chunks[..0] == [];
      }
    } else {
      BlocksStartWithDash(chunks[..k]);
    }
  }

  /** The formatted context never starts or ends with whitespace. */
  lemma FormatContextStripped(chunks: seq<DocumentChunk>)
    ensures FormatContext(chunks) != []
    ensures !IsSpace(FormatContext(chunks)[0]) && !IsSpace(FormatContext(chunks)[|FormatContext(chunks)| - 1])
  {
    if chunks != [] {
      FormatContextBlocks(chunks, 0);
      StripSpec(Blocks(chunks));
    }
  }

  /** The source line, built as the loop builds it: the page is appended only when shown. */
  method SourceLine(chunk: DocumentChunk) returns (sourceInfo: string)
    ensures sourceInfo == SourceInfo(chunk)
  {
    sourceInfo := "Source: " + chunk.source;
    if chunk.page.Some? && chunk.page.value != 0 {
      sourceInfo := sourceInfo + " (Page: " + Decimal.Show(chunk.page.value) + ")";
    }
  }

  /** `format_context` as written: the blocks are appended to a string one piece at a time. */
  method FormatContextLoop(chunks: seq<DocumentChunk>) returns (formatted: string)
    ensures formatted == FormatContext(chunks)
  {
    if chunks == [] {
      return NoContext;
    }
    formatted := "";
    for i := 0 to |chunks|
      invariant formatted == Blocks(chunks[..i])
    {
      assert chunks[..i + 1][..i] == chunks[..i];
      var chunk := chunks[i];
      var sourceInfo := SourceLine(chunk);
      formatted := formatted + Header(i);
      formatted := formatted + (sourceInfo + "\n");
      formatted := formatted + ("Content: " + chunk.text + "\n\n");
    }
    assert chunks[..|chunks|] == chunks;
    formatted := Strip(formatted);
  }

  // ---------------------------------------------------------------------------
  // generate_answer
  // ---------------------------------------------------------------------------

  /** What the chat-completion call gives: the message content, or one of the caught exceptions. */
  datatype Completion = Content(text: string) | RateLimited | ApiFailure(code: string) | Unexpected

  /** The answer types the service produces. */
  datatype AnswerType = TextAnswer | NotFound | ErrorAnswer

  /** The `"type"` string of an answer. */
  function TypeName(t: AnswerType): string
  {
    match t
    case TextAnswer => "text"
    case NotFound => "not_found"
    case ErrorAnswer => "error"
  }

  /** The answer dictionary; `data` and `chart_data` are always `None`. */
  datatype Answer = Answer(answer: string, kind: AnswerType)

  const DisabledMessage: string := "LLM functionality is disabled because the OpenAI API key is not configured."
  const ErrorPrefix: string := "Error: "
  const RateLimitMessage: string := ErrorPrefix + "The system is currently experiencing high load. Please try again later."
  const UnexpectedMessage: string := ErrorPrefix + "An unexpected error occurred while generating the answer."

  /** The phrases that mark an answer as "not found". */
  predicate SaysNotFound(lowered: string) {
    || Contains(lowered, "not available in the provided document")
    || Contains(lowered, "not found in the context")
    || Contains(lowered, "information is not available")
  }

  /** The type of a received answer. */
  function Classify(answer: string): (t: AnswerType)
    ensures t != ErrorAnswer
  {
    if SaysNotFound(Lower(answer)) then NotFound else TextAnswer
  }

  /** Classification does not depend on letter case. */
  lemma ClassifyIgnoresCase(answer: string)
    ensures Classify(Lower(answer)) == Classify(answer)
  {
    LowerIdempotent(answer);
  }

  /** An answer that says the information is not available is classified "not_found", in any case. */
  lemma ClassifyNotAvailable(pre: string, post: string)
    ensures Classify(pre + "Information is NOT available" + post) == NotFound
  {
    var x := "Information is NOT available";
    var a := pre + x + post;
    var p := "information is not available";
    assert Lower(x) == p;
    forall j | 0 <= j < |p| ensures Lower(a)[|pre| + j] == p[j] {
      assert a[|pre| + j] == x[j];
    }
    assert Lower(a)[|pre|..|pre| + |p|] == p;
    assert OccursAt(Lower(a), p, |pre|);
    ContainsIffOccurs(Lower(a), p);
  }

  /**
   * `generate_answer`, given whether a client is configured and what the
   * call gives.
   */
  function GenerateAnswer(clientConfigured: bool, completion: Completion): (r: Answer)
    ensures r.kind == ErrorAnswer <==> !clientConfigured || !completion.Content?
    ensures !clientConfigured ==> r.answer == DisabledMessage
    ensures clientConfigured && completion.Content? ==> r.answer == Strip(completion.text) && r.kind == Classify(r.answer)
  {
    if !clientConfigured then Answer(DisabledMessage, ErrorAnswer)
    else
      match completion
      case Content(text) =>
        var a := Strip(text);
        Answer(a, Classify(a))
      case RateLimited => Answer(RateLimitMessage, ErrorAnswer)
      case ApiFailure(code) => Answer(ErrorPrefix + ("Could not get answer from LLM. API Error: " + code), ErrorAnswer)
      case Unexpected => Answer(UnexpectedMessage, ErrorAnswer)
  }

  /** A received answer carries no whitespace at either end. */
  lemma GenerateAnswerStripped(clientConfigured: bool, completion: Completion)
    ensures var r := GenerateAnswer(clientConfigured, completion);
      r.kind != ErrorAnswer && r.answer != [] ==> !IsSpace(r.answer[0]) && !IsSpace(r.answer[|r.answer| - 1])
  {
    if clientConfigured && completion.Content? {
      StripSpec(completion.text);
    }
  }

  /** Every error answer starts with "Error: " or says the LLM is disabled. */
  lemma GenerateAnswerErrors(clientConfigured: bool, completion: Completion)
    ensures var r := GenerateAnswer(clientConfigured, completion);
      r.kind == ErrorAnswer ==> r.answer == DisabledMessage || StartsWith(r.answer, ErrorPrefix)
  {
    if !clientConfigured || completion.Content? {
    } else if completion.ApiFailure? {
      var rest := "Could not get answer from LLM. API Error: " + completion.code;
      assert (ErrorPrefix + rest)[..|ErrorPrefix|] == ErrorPrefix;
    } else if completion.RateLimited? {
      assert RateLimitMessage[..|ErrorPrefix|] == ErrorPrefix;
    } else {
      assert UnexpectedMessage[..|ErrorPrefix|] == ErrorPrefix;
    }
  }
}
