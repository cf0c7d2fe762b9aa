/** The report synthesiser: the prompt template and the gated sequence of calls in `trend_seeker`. */
module Agent {
  import opened Outcomes
  import opened Text
  import opened Guardrails
  import opened Search

  const DefaultModel := "gemini-2.0-flash"

  /** The template text before the search block. */
  const PromptHead := "\nYou are a \"Trend Seeker\" AI agent specializing in identifying and summarizing emerging trends in Agentic AI.\n\nBelow are real articles and blogs pulled from the web:\n"

  /** The template text after the search block; the range "3-5" is written with an en dash. */
  const PromptTail := "\n\nYour job:\n- Identify 3\U{2013}5 emerging trends in Agentic AI from these sources.\n- For each trend:\n    - Give a title.\n    - Summarize the trend.\n    - Include at least one **clickable Markdown link** to a supporting blog/article.\n    - Explain the business impact.\n    - Avoid repetition.\n- Write clear Markdown sections.\n"

  /** The generative model, as a function from a model name and a prompt to its text or a failure. */
  type Generator = (string, string) -> Result<string>

  /** The prompt: the fixed template with the search block placed right after its head. */
  function Prompt(rawData: string): (p: string)
    ensures |p| == |PromptHead| + |rawData| + |PromptTail|
    ensures OccursAt(p, PromptHead, 0) && OccursAt(p, rawData, |PromptHead|)
    ensures OccursAt(p, PromptTail, |PromptHead| + |rawData|)
  {
    PromptHead + rawData + PromptTail
  }

  /** The search block appears in the prompt verbatim. */
  lemma PromptEmbedsSearchBlock(rawData: string)
    ensures IsSubstring(rawData, Prompt(rawData))
  {
    assert OccursAt(Prompt(rawData), rawData, |PromptHead|);
  }

  /** Different search blocks give different prompts. */
  lemma PromptInjective(a: string, b: string)
    requires Prompt(a) == Prompt(b)
    ensures a == b
  {
    assert a == Prompt(a)[|PromptHead|..|PromptHead| + |a|];
  }

  /**
   * What `trend_seeker` returns or raises: the input gate first, then the search, then one
   * call to the model with the prompt built from the block, then the output gate.
   */
  function TrendSeekerOutcome(query: string, apiKey: Option<string>, provider: Provider, generate: Generator): Result<string> {
    match InputGuardrail(query)
    case Err(m) => Err(m)
    case Ok(q) =>
      match SearchOutcome(apiKey, q, DefaultCount, provider)
      case Err(m) => Err(m)
      case Ok(rawData) =>
        match generate(DefaultModel, Prompt(rawData))
        case Err(m) => Err(m)
        case Ok(report) => OutputGuardrail(report)
  }

  /** `trend_seeker`: each stage runs only when the one before it succeeded. */
  method TrendSeeker(query: string, apiKey: Option<string>, provider: Provider, generate: Generator) returns (r: Result<string>)
    ensures r == TrendSeekerOutcome(query, apiKey, provider, generate)
  {
    var checked := InputGuardrail(query);
    if checked.Err? {
      return Err(checked.msg);
    }
    var rawData := WebSearch(apiKey, checked.value, DefaultCount, provider);
    if rawData.Err? {
      return Err(rawData.msg);
    }
    var prompt := Prompt(rawData.value);
    var response := generate(DefaultModel, prompt);
    if response.Err? {
      return Err(response.msg);
    }
    r := OutputGuardrail(response.value);
  }

  /** A query the input gate rejects fails with its message whatever the key, the search provider and the model. */
  lemma RejectedQueryConsultsNothing(query: string, apiKey: Option<string>, provider: Provider, generate: Generator,
                                     apiKey': Option<string>, provider': Provider, generate': Generator)
    requires !IsSubstring(Marker, Lower(query))
    ensures TrendSeekerOutcome(query, apiKey, provider, generate) == Err(InputRejected)
    ensures TrendSeekerOutcome(query, apiKey, provider, generate) == TrendSeekerOutcome(query, apiKey', provider', generate')
  {
  }

  /** A failed search fails the run with the search's message, whatever the model would say. */
  lemma FailedSearchConsultsNoModel(query: string, apiKey: Option<string>, provider: Provider, generate: Generator, generate': Generator)
    requires InputGuardrail(query).Ok?
    requires SearchOutcome(apiKey, query, DefaultCount, provider).Err?
    ensures TrendSeekerOutcome(query, apiKey, provider, generate) == Err(SearchOutcome(apiKey, query, DefaultCount, provider).msg)
    ensures TrendSeekerOutcome(query, apiKey, provider, generate) == TrendSeekerOutcome(query, apiKey, provider, generate')
  {
  }

  /**
   * A successful run returns the model's answer to the prompt built from the search block, and
   * that answer passed both gates: the query relates to Agentic AI, the report has no flagged phrase.
   */
  lemma SuccessfulRun(query: string, apiKey: Option<string>, provider: Provider, generate: Generator)
    requires TrendSeekerOutcome(query, apiKey, provider, generate).Ok?
    ensures IsSubstring(Marker, Lower(query))
    ensures var search := SearchOutcome(apiKey, query, DefaultCount, provider);
      var report := TrendSeekerOutcome(query, apiKey, provider, generate).value;
      search.Ok? && IsSubstring(search.value, Prompt(search.value))
      && generate(DefaultModel, Prompt(search.value)) == Ok(report)
      && !Flagged(Lower(report))
  {
    var search := SearchOutcome(apiKey, query, DefaultCount, provider);
    PromptEmbedsSearchBlock(search.value);
  }

  /**
   * The converse of `SuccessfulRun`: a query holding the marker, a successful search, a model
   * answer to the prompt built from its block, and an answer with no flagged phrase make the
   * run succeed with exactly that answer.
   */
  lemma CleanRunSucceeds(query: string, apiKey: Option<string>, provider: Provider, generate: Generator, report: string)
    requires IsSubstring(Marker, Lower(query))
    requires SearchOutcome(apiKey, query, DefaultCount, provider).Ok?
    requires generate(DefaultModel, Prompt(SearchOutcome(apiKey, query, DefaultCount, provider).value)) == Ok(report)
    requires !Flagged(Lower(report))
    ensures TrendSeekerOutcome(query, apiKey, provider, generate) == Ok(report)
  {
  }

  /**
   * Every failure carries the message of one stage: the input gate, the key check, the POST,
   * the search status, the model, or the output gate.
   */
  lemma FailureMessages(query: string, apiKey: Option<string>, provider: Provider, generate: Generator)
    requires TrendSeekerOutcome(query, apiKey, provider, generate).Err?
    ensures var m := TrendSeekerOutcome(query, apiKey, provider, generate).msg;
      var answer := provider(BuildRequest(apiKey.GetOr(""), query, DefaultCount));
      || (!IsSubstring(Marker, Lower(query)) && m == InputRejected)
      || (KeyMissing(apiKey) && m == MissingKey)
      || answer == Err(m)
      || (answer.Ok? && answer.value.status != 200 && m == ApiError(answer.value.body))
      || (exists rawData :: generate(DefaultModel, Prompt(rawData)) == Err(m))
      || m == OutputRejected
  {
    var m := TrendSeekerOutcome(query, apiKey, provider, generate).msg;
    if IsSubstring(Marker, Lower(query)) && !KeyMissing(apiKey) {
      var search := SearchOutcome(apiKey, query, DefaultCount, provider);
      if search.Ok? && generate(DefaultModel, Prompt(search.value)).Err? {
        assert generate(DefaultModel, Prompt(search.value)) == Err(m);
      }
    }
  }
}
