/**
 * The question endpoint: a direct calculation on the session's stored
 * tables when the question asks for one, document retrieval, an optional
 * web search, and the answer from the language model, with the list of
 * sources consulted.
 *
 * The stored tables, the search outcome, the web-search result and the
 * completion are inputs.
 */
module Query {
  import opened Maybe
  import opened Models
  import opened Text
  import opened Ordering
  import Decimal
  import opened Indexer
  import opened Search
  import opened LlmInterface

  // ---------------------------------------------------------------------------
  // _attempt_direct_calculation
  // ---------------------------------------------------------------------------

  /**
   * A stored table: its column names, its number of rows, and the
   * `json.dumps` of each column's value counts, `None` when that raises
   * (a column whose values are not JSON keys, such as dates).
   */
  datatype Table = Table(columns: seq<string>, rowCount: nat, valueCountsJson: string -> Option<string>)

  /** A stored table under the file name it came from. */
  datatype NamedTable = NamedTable(name: string, table: Table)

  /** The structured-data store: per session, its tables in insertion order. */
  type Datasets = map<string, seq<NamedTable>>

  /** The question (lower-cased) looks like it asks for a calculation. */
  predicate CalcKeyword(q: string) {
    Contains(q, "how many") || Contains(q, "total") || Contains(q, "average") || Contains(q, "count") || Contains(q, "list")
  }

  /** The row-count rule. */
  predicate RowRule(q: string) {
    && (Contains(q, "how many") || Contains(q, "count") || Contains(q, "total"))
    && (Contains(q, "students") || Contains(q, "entries") || Contains(q, "rows"))
  }

  /** The gender-count rule. */
  predicate GenderRule(q: string) {
    || Contains(q, "how many male") || Contains(q, "how many female") || Contains(q, "gender count")
    || (Contains(q, "count") && Contains(q, "gender"))
  }

  /** A column the gender rule accepts: its stripped, lower-cased name is "gender". */
  predicate IsGender(col: string) {
    Lower(Strip(col)) == "gender"
  }

  /** The first column the gender rule accepts. */
  function GenderColumn(cols: seq<string>): (r: Option<string>)
    ensures r.None? <==> forall i :: 0 <= i < |cols| ==> !IsGender(cols[i])
    ensures r.Some? ==> exists i :: 0 <= i < |cols| && cols[i] == r.value && IsGender(r.value) && forall j :: 0 <= j < i ==> !IsGender(cols[j])
  {
    if cols == [] then None
    else if IsGender(cols[0]) then Some(cols[0])
    else
      var r := GenderColumn(cols[1..]);
      assert forall i :: 1 <= i < |cols| ==> cols[i] == cols[1..][i - 1];
      if r.Some? then
        var i :| 0 <= i < |cols[1..]| && cols[1..][i] == r.value && IsGender(r.value) && forall j :: 0 <= j < i ==> !IsGender(cols[1..][j]);
        assert cols[i + 1] == r.value;
        r
      else r
  }

  function CalcLabel(name: string): string
  {
    "Direct Calculation (" + name + "): "
  }

  function RowMessage(name: string, rows: nat): string
  {
    CalcLabel(name) + "Total entries/rows found = " + Decimal.Show(rows) + "."
  }

  function GenderMessage(name: string, json: string): string
  {
    CalcLabel(name) + "Gender counts = " + json + "."
  }

  function NoGenderColumnMessage(name: string): string
  {
    CalcLabel(name) + "'Gender' column not found."
  }

  /**
   * `_attempt_direct_calculation`, reading the session's tables from
   * `datasets`. Only the first table is ever used, and a table filed under
   * the empty name is treated like no table.
   */
  function DirectCalculation(question: string, sessionId: string, datasets: Datasets): (r: Option<string>)
    ensures !CalcKeyword(Lower(question)) ==> r.None?
    ensures sessionId !in datasets || datasets[sessionId] == [] ==> r.None?
    ensures r.Some? ==> RowRule(Lower(question)) || GenderRule(Lower(question))
    ensures r.Some? ==> StartsWith(r.value, CalcLabel(datasets[sessionId][0].name))
  {
    var q := Lower(question);
    if !CalcKeyword(q) || sessionId !in datasets || datasets[sessionId] == [] then None
    else
      var first := datasets[sessionId][0];
      if first.name == "" then None
      else if RowRule(q) then
        var m := RowMessage(first.name, first.table.rowCount);
        assert m[..|CalcLabel(first.name)|] == CalcLabel(first.name);
        Some(m)
      else if GenderRule(q) then
        match GenderColumn(first.table.columns)
        case Some(col) =>
          (match first.table.valueCountsJson(col)
           case None => None
           case Some(json) =>
             var m := GenderMessage(first.name, json);
             assert m[..|CalcLabel(first.name)|] == CalcLabel(first.name);
             Some(m))
        case None =>
          var m := NoGenderColumnMessage(first.name);
          assert m[..|CalcLabel(first.name)|] == CalcLabel(first.name);
          Some(m)
      else None
  }

  /** The calculation does not depend on the letter case of the question. */
  lemma DirectCalculationIgnoresCase(question: string, sessionId: string, datasets: Datasets)
    ensures DirectCalculation(Lower(question), sessionId, datasets) == DirectCalculation(question, sessionId, datasets)
  {
    LowerIdempotent(question);
  }

  /** Every question the gender rule accepts passes the keyword guard, so the rule is reachable. */
  lemma GenderRuleImpliesKeyword(q: string)
    requires GenderRule(q)
    ensures CalcKeyword(q)
  {
    if Contains(q, "how many male") {
      ContainsPrefix(q, "how many male", 8);
      assert "how many male"[..8] == "how many";
    } else if Contains(q, "how many female") {
      ContainsPrefix(q, "how many female", 8);
      assert "how many female"[..8] == "how many";
    } else if Contains(q, "gender count") {
      assert "gender count" == "gender " + "count";
      ContainsIffOccurs(q, "gender count");
      var i :| OccursAt(q, "gender count", i);
      assert q[i + 7..i + 12] == "count";
      assert OccursAt(q, "count", i + 7);
      ContainsIffOccurs(q, "count");
    }
  }

  /**
   * With a named first table, the row rule answers with its row count and
   * the gender rule (tried only when the row rule does not apply) with the
   * first matching column's counts, or says there is no such column. When
   * rendering the counts raises, the `except` gives no result.
   */
  lemma DirectCalculationRules(question: string, sessionId: string, datasets: Datasets)
    requires sessionId in datasets && datasets[sessionId] != [] && datasets[sessionId][0].name != ""
    ensures var q := Lower(question); var first := datasets[sessionId][0];
      RowRule(q) ==> DirectCalculation(question, sessionId, datasets) == Some(RowMessage(first.name, first.table.rowCount))
    ensures var q := Lower(question); var first := datasets[sessionId][0];
      !RowRule(q) && GenderRule(q) && GenderColumn(first.table.columns).None? ==>
        DirectCalculation(question, sessionId, datasets) == Some(NoGenderColumnMessage(first.name))
    ensures var q := Lower(question); var first := datasets[sessionId][0];
      !RowRule(q) && GenderRule(q) && GenderColumn(first.table.columns).Some? ==>
        var json := first.table.valueCountsJson(GenderColumn(first.table.columns).value);
        DirectCalculation(question, sessionId, datasets) == (if json.Some? then Some(GenderMessage(first.name, json.value)) else None)
  {
    var q := Lower(question);
    if GenderRule(q) {
      GenderRuleImpliesKeyword(q);
    }
  }

  /** What a call gives when it can raise. */
  datatype Outcome<T> = Returns(value: T) | Raises

  /**
   * `_attempt_direct_calculation` as written: the import of
   * `STRUCTURED_DATA_STORE` at query.py:54 names something the indexer
   * does not define, so every question with a calculation keyword raises
   * before any table is looked at.
   */
  function DirectCalculationAsWritten(question: string): Outcome<Option<string>>
  {
    if CalcKeyword(Lower(question)) then Raises
    else Returns(None)
  }

  /** As written, the calculation never produces a result. */
  lemma DirectCalculationAsWrittenNeverComputes(question: string)
    ensures forall v :: DirectCalculationAsWritten(question) != Returns(Some(v))
    ensures CalcKeyword(Lower(question)) ==> DirectCalculationAsWritten(question) == Raises
  {
  }

  // ---------------------------------------------------------------------------
  // handle_ask_question
  // ---------------------------------------------------------------------------

  datatype AskRequest = AskRequest(question: string, sessionId: string)

  /** `AskResponse`; `data` and `chart_data` are always `None`. */
  datatype AskResponse = AskResponse(answer: string, kind: string, sources: seq<string>)

  datatype AskResult = Answered(response: AskResponse) | HttpError(status: int, detail: string)

  const CalcSource: string := "Direct Calculation from Structured Data"
  const WebSource: string := "Web Search via Tavily"
  const CalcResultLabel: string := "Direct Calculation Result: "
  const CalcSeparator: string := "\n\n---\n\n"

  /** `if direct_calc_result:` */
  predicate Truthy(calcResult: Option<string>) {
    calcResult.Some? && calcResult.value != ""
  }

  /** The sources collected, in the order they are added (a set in the handler). */
  function Collected(calcResult: Option<string>, chunks: seq<DocumentChunk>, web: bool): seq<string>
  {
    (if Truthy(calcResult) then [CalcSource] else []) + ChunkSources(chunks) + (if web then [WebSource] else [])
  }

  function ChunkSources(chunks: seq<DocumentChunk>): (r: seq<string>)
    ensures |r| == |chunks| && forall i :: 0 <= i < |chunks| ==> r[i] == chunks[i].source
  {
    seq(|chunks|, i requires 0 <= i < |chunks| => chunks[i].source)
  }

  /** The context string the handler builds: the calculation result, when there is one, before the formatted chunks. */
  function PromptContext(calcResult: Option<string>, chunks: seq<DocumentChunk>): string
  {
    if Truthy(calcResult) then Strip(CalcResultLabel + calcResult.value + CalcSeparator + FormatContext(chunks))
    else FormatContext(chunks)
  }

  /**
   * The calculation result is placed in front of the formatted context and
   * nothing of either is lost to stripping when the result ends with a
   * non-whitespace character (every result the calculation produces ends
   * with '.').
   */
  lemma PromptContextKeepsBoth(calcResult: string, chunks: seq<DocumentChunk>)
    requires calcResult != "" && !IsSpace(calcResult[|calcResult| - 1])
    ensures PromptContext(Some(calcResult), chunks) == CalcResultLabel + calcResult + CalcSeparator + FormatContext(chunks)
  {
    var s := CalcResultLabel + calcResult + CalcSeparator + FormatContext(chunks);
    FormatContextStripped(chunks);
    var f := FormatContext(chunks);
    assert s[0] == 'D';
    assert s[|s| - 1] == f[|f| - 1];
    StripNoop(s);
  }

  /** `generate_answer` called with `argCount` positional arguments: any count but two raises `TypeError`. */
  function CallGenerateAnswer(argCount: nat, clientConfigured: bool, completion: Completion): Outcome<Answer>
  {
    if argCount != 2 then Raises else Returns(GenerateAnswer(clientConfigured, completion))
  }

  /** The guard: a blank question (after stripping) or an empty session id. */
  predicate Rejected(request: AskRequest) {
    Strip(request.question) == "" || request.sessionId == ""
  }

  const MissingFields: string := "Missing question or session_id."
  const InternalError: string := "Internal server error."

  /**
   * `handle_ask_question` with `generate_answer` called on the question and
   * the retrieved chunks, and the calculation reading `datasets`.
   * `chunks` is what retrieval gave and `web` whether a web search ran and
   * returned results.
   */
  function Ask(request: AskRequest, datasets: Datasets, chunks: seq<DocumentChunk>, web: bool, clientConfigured: bool, completion: Completion): (r: AskResult)
    ensures Rejected(request) <==> r == HttpError(400, MissingFields)
    ensures r.HttpError? ==> r.status == 400
  {
    if Rejected(request) then HttpError(400, MissingFields)
    else
      var calcResult := DirectCalculation(Strip(request.question), request.sessionId, datasets);
      match CallGenerateAnswer(2, clientConfigured, completion)
      case Raises => HttpError(500, InternalError)
      case Returns(llm) =>
        Answered(AskResponse(llm.answer, TypeName(llm.kind),
          if llm.kind != ErrorAnswer then SortedUnique(Collected(calcResult, chunks, web)) else []))
  }

  /**
   * The sources of an answer: none after an error; otherwise sorted,
   * without repeats, and exactly the calculation (when it gave a result),
   * the source of each retrieved chunk, and the web search (when it gave
   * results).
   */
  lemma AskSources(request: AskRequest, datasets: Datasets, chunks: seq<DocumentChunk>, web: bool, clientConfigured: bool, completion: Completion)
    requires !Rejected(request)
    ensures var r := Ask(request, datasets, chunks, web, clientConfigured, completion);
      r.Answered? && (r.response.kind == "error" <==> GenerateAnswer(clientConfigured, completion).kind == ErrorAnswer)
    ensures var r := Ask(request, datasets, chunks, web, clientConfigured, completion);
      r.response.kind == "error" ==> r.response.sources == []
    ensures var r := Ask(request, datasets, chunks, web, clientConfigured, completion);
      var calcResult := DirectCalculation(Strip(request.question), request.sessionId, datasets);
      r.response.kind != "error" ==>
        && StrictlySorted(r.response.sources)
        && forall s :: s in r.response.sources <==>
          (Truthy(calcResult) && s == CalcSource) || (exists i :: 0 <= i < |chunks| && chunks[i].source == s) || (web && s == WebSource)
  {
    var calcResult := DirectCalculation(Strip(request.question), request.sessionId, datasets);
    var all := Collected(calcResult, chunks, web);
    var pre := if Truthy(calcResult) then [CalcSource] else [];
    var post := if web then [WebSource] else [];
    assert all == pre + ChunkSources(chunks) + post;
    forall s | s in ChunkSources(chunks) ensures exists i :: 0 <= i < |chunks| && chunks[i].source == s {
      var i :| 0 <= i < |chunks| && ChunkSources(chunks)[i] == s;
    }
    forall i | 0 <= i < |chunks| ensures chunks[i].source in ChunkSources(chunks) {
      assert ChunkSources(chunks)[i] == chunks[i].source;
    }
  }

  /** Every request past the guard is answered: no 500 is left once the call has the right arity. */
  lemma AskAnswers(request: AskRequest, datasets: Datasets, chunks: seq<DocumentChunk>, web: bool, clientConfigured: bool, completion: Completion)
    requires !Rejected(request)
    ensures Ask(request, datasets, chunks, web, clientConfigured, completion).Answered?
  {
  }

  /**
   * `handle_ask_question` as written: the calculation raises for any
   * calculation keyword (query.py:54), and otherwise `generate_answer` is
   * called with three arguments (query.py:149) although it takes two;
   * both exceptions end in the generic 500.
   */
  function AskAsWritten(request: AskRequest, clientConfigured: bool, completion: Completion): AskResult
  {
    if Rejected(request) then HttpError(400, MissingFields)
    else
      match DirectCalculationAsWritten(Strip(request.question))
      case Raises => HttpError(500, InternalError)
      case Returns(_) =>
        match CallGenerateAnswer(3, clientConfigured, completion)
        case Raises => HttpError(500, InternalError)
        case Returns(llm) => Answered(AskResponse(llm.answer, TypeName(llm.kind), []))
  }

  /** As written, every question that passes the guard gets the 500. */
  lemma AskAsWrittenAlwaysFails(request: AskRequest, clientConfigured: bool, completion: Completion)
    requires !Rejected(request)
    ensures AskAsWritten(request, clientConfigured, completion) == HttpError(500, InternalError)
  {
  }

  /** How the handler fills `search_sources`, one addition at a time. */
  method CollectSources(calcResult: Option<string>, chunks: seq<DocumentChunk>, web: bool) returns (sources: seq<string>)
    ensures sources == Collected(calcResult, chunks, web)
  {
    sources := [];
    if calcResult.Some? && calcResult.value != "" {
      sources := sources + [CalcSource];
    }
    ghost var start := sources;
    for i := 0 to |chunks|
      invariant sources == start + ChunkSources(chunks[..i])
    {
      assert ChunkSources(chunks[..i + 1]) == ChunkSources(chunks[..i]) + [chunks[i].source];
      sources := sources + [chunks[i].source];
    }
    assert chunks[..|chunks|] == chunks;
    if web {
      sources := sources + [WebSource];
    }
  }

  /**
   * `handle_ask_question`, reading the index store through
   * `retrieve_context`. `outcome` is what embedding the question and
   * searching gave; `web` whether a web search ran and returned results.
   */
  method HandleAskQuestion(request: AskRequest, datasets: Datasets, store: IndexStore, outcome: SearchOutcome, web: bool, clientConfigured: bool, completion: Completion)
    returns (result: AskResult)
    ensures result == Ask(request, datasets, Retrieve(store.disk, store.details, request.sessionId, outcome), web, clientConfigured, completion)
  {
    var question := Strip(request.question);
    var sessionId := request.sessionId;
    if question == "" || sessionId == "" {
      return HttpError(400, MissingFields);
    }
    var calcResult := DirectCalculation(question, sessionId, datasets);
    var chunks := RetrieveContext(store, sessionId, outcome);
    var sources := CollectSources(calcResult, chunks, web);
    var context := FormatContextLoop(chunks);
    if calcResult.Some? && calcResult.value != "" {
      context := Strip(CalcResultLabel + calcResult.value + CalcSeparator + context);
    }
    var llm := GenerateAnswer(clientConfigured, completion);
    var listed := if llm.kind != ErrorAnswer then SortedUnique(sources) else [];
    result := Answered(AskResponse(llm.answer, TypeName(llm.kind), listed));
  }
}
