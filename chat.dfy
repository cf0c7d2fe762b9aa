/** The chat entry point: one run of the pipeline per inbound message, streamed into one outbound message. */
module Chat {
  import opened Outcomes
  import opened Text
  import opened Guardrails
  import opened Search
  import opened Agent
  import opened Display

  /** The single chunk shown for a failed run. */
  function ErrorChunk(m: string): string {
    "Error: " + m
  }

  /** The chunks streamed for the outcome of one run: the report's paragraphs, or one error chunk. */
  function Transcript(outcome: Result<string>): seq<string> {
    match outcome
    case Ok(report) => Paragraphs(report)
    case Err(m) => [ErrorChunk(m)]
  }

  /**
   * `main`: strips the message, opens an empty outbound message, runs the pipeline, and streams
   * either every paragraph of the report or the one error chunk.
   */
  method OnMessage(content: string, apiKey: Option<string>, provider: Provider, generate: Generator) returns (msg: Message)
    ensures fresh(msg)
    ensures msg.tokens == Transcript(TrendSeekerOutcome(Strip(content), apiKey, provider, generate))
  {
    var query := Strip(content);
    msg := new Message();
    var outcome := TrendSeeker(query, apiKey, provider, generate);
    match outcome {
      case Ok(report) =>
        StreamReport(report, msg);
      case Err(m) =>
        msg.StreamToken(ErrorChunk(m));
    }
  }

  /**
   * A failed run shows exactly one chunk, the error message prefixed with "Error: ". A successful
   * run shows one chunk per paragraph, each a separator-free piece followed by the separator, as
   * many as separators plus one, and together they spell the report followed by one separator.
   */
  lemma TranscriptShape(outcome: Result<string>)
    ensures outcome.Err? ==> Transcript(outcome) == ["Error: " + outcome.msg]
    ensures outcome.Ok? ==>
      var cs := Transcript(outcome);
      Concat(cs) == outcome.value + Sep
      && |cs| == CountSep(outcome.value) + 1
      && forall k :: 0 <= k < |cs| ==> cs[k] == Split(outcome.value)[k] + Sep && SepFree(Split(outcome.value)[k])
  {
    if outcome.Ok? {
      SplitRejoins(outcome.value);
      SplitCount(outcome.value);
      SplitPiecesSepFree(outcome.value);
    }
  }

  /**
   * A report the output gate rejects is never shown: the user sees only the gate's error chunk,
   * whatever the report says.
   */
  lemma RejectedReportNeverShown(query: string, apiKey: Option<string>, provider: Provider, generate: Generator)
    requires InputGuardrail(query).Ok?
    requires SearchOutcome(apiKey, query, DefaultCount, provider).Ok?
    requires var prompt := Prompt(SearchOutcome(apiKey, query, DefaultCount, provider).value);
      generate(DefaultModel, prompt).Ok? && Flagged(Lower(generate(DefaultModel, prompt).value))
    ensures Transcript(TrendSeekerOutcome(query, apiKey, provider, generate)) == ["Error: " + OutputRejected]
  {
  }

  /**
   * An accepted query whose search succeeds and whose report has no flagged phrase streams every
   * paragraph of the report and no error chunk.
   */
  lemma CleanReportStreamed(query: string, apiKey: Option<string>, provider: Provider, generate: Generator, report: string)
    requires IsSubstring(Marker, Lower(query))
    requires SearchOutcome(apiKey, query, DefaultCount, provider).Ok?
    requires generate(DefaultModel, Prompt(SearchOutcome(apiKey, query, DefaultCount, provider).value)) == Ok(report)
    requires !Flagged(Lower(report))
    ensures Transcript(TrendSeekerOutcome(query, apiKey, provider, generate)) == Paragraphs(report)
  {
    CleanRunSucceeds(query, apiKey, provider, generate, report);
  }

  /** An occurrence of the marker in a lower-cased message lies inside the stripped part of it. */
  lemma MarkerInsideStripped(content: string, i: nat)
    requires OccursAt(Lower(content), Marker, i)
    ensures StripStart(content) <= i && i + |Marker| <= StripEnd(content)
  {
    OccursAtChar(Lower(content), Marker, i, 0);
    OccursAtChar(Lower(content), Marker, i, |Marker| - 1);
    assert !IsSpace(content[i]);
    assert !IsSpace(content[i + |Marker| - 1]);
  }

  /** When every occurrence of the marker lies inside positions `a`..`b`, the slice holds the marker exactly when the whole does. */
  lemma MarkerInSliceIff(low: string, a: nat, b: nat)
    requires a <= b <= |low|
    requires forall i: nat :: OccursAt(low, Marker, i) ==> a <= i && i + |Marker| <= b
    ensures IsSubstring(Marker, low[a..b]) <==> IsSubstring(Marker, low)
  {
    if IsSubstring(Marker, low[a..b]) {
      var i: nat :| OccursAt(low[a..b], Marker, i);
      OccursInSlice(low, Marker, a, b, i);
    }
    if IsSubstring(Marker, low) {
      var i: nat :| OccursAt(low, Marker, i);
      OccursWithinSlice(low, Marker, a, b, i);
    }
  }

  /** Stripping the message does not change the input gate's verdict: the marker has no whitespace at its ends. */
  lemma StripKeepsInputVerdict(content: string)
    ensures IsSubstring(Marker, Lower(Strip(content))) <==> IsSubstring(Marker, Lower(content))
  {
    var a, b := StripStart(content), StripEnd(content);
    LowerSlice(content, a, b);
    forall i: nat | OccursAt(Lower(content), Marker, i) ensures a <= i && i + |Marker| <= b {
      MarkerInsideStripped(content, i);
    }
    MarkerInSliceIff(Lower(content), a, b);
  }

  /** "What is the weather" lower-cased. */
  lemma WeatherQueryLowered(content: string)
    requires content == "What is the weather"
    ensures Lower(content) == "what is the weather"
  {
    LowerIgnoresCase(content, "what is the weather");
    LowerOfLowercase("what is the weather");
  }

  /** "what is the weather" holds no "ag", so no marker. */
  lemma WeatherTextLacksMarker(low: string)
    requires low == "what is the weather"
    ensures !IsSubstring(Marker, low)
  {
    forall i: nat | OccursAt(low, Marker, i) ensures false {
      OccursAtChar(low, Marker, i, 0);
      OccursAtChar(low, Marker, i, 1);
    }
  }

  /** "What is the weather" lower-cased lacks the marker. */
  lemma WeatherQueryLacksMarker(content: string)
    requires content == "What is the weather"
    ensures !IsSubstring(Marker, Lower(content))
  {
    WeatherQueryLowered(content);
    WeatherTextLacksMarker(Lower(content));
  }

  /** A query without the marker: one error chunk, and no run of the search or the model can change that. */
  lemma WeatherQueryRejected(content: string, apiKey: Option<string>, provider: Provider, generate: Generator)
    requires content == "What is the weather"
    ensures Transcript(TrendSeekerOutcome(Strip(content), apiKey, provider, generate)) == ["Error: " + InputRejected]
  {
    StripUntrimmed(content);
    WeatherQueryLacksMarker(content);
  }

  /** "What are agentic AI trends?" lower-cased holds the marker at position 9. */
  lemma AgenticQueryHasMarker(content: string)
    requires content == "What are agentic AI trends?"
    ensures OccursAt(Lower(content), Marker, 9)
  {
    var w := content[9..19];
    assert w == "agentic AI";
    LowerIgnoresCase(w, Marker);
    LowerOfLowercase(Marker);
    LowerSlice(content, 9, 19);
  }

  /** A query mentioning the marker passes the input gate unchanged. */
  lemma AgenticQueryAccepted(content: string)
    requires content == "What are agentic AI trends?"
    ensures InputGuardrail(Strip(content)) == Ok(content)
  {
    StripUntrimmed(content);
    AgenticQueryHasMarker(content);
  }
}
