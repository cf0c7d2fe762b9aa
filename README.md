# Trend Seeker agent, modelled in Dafny

The Trend Seeker agent answers one chat message at a time. It strips the message and checks
that the query mentions "agentic ai" (the input gate). It asks a web search provider for up
to five results and renders them as a Markdown bullet list. It places that list in a fixed
prompt for a generative model. It checks the model's report for the phrases "no data" and
"future prediction" at word boundaries (the output gate). Finally it streams the report
into the chat message, one paragraph at a time. Any failure is shown instead as one chunk,
`"Error: " + message`.

This project models that pipeline. The search provider and the generative model are
function parameters: one maps the request to the HTTP answer or to the message of the
exception the POST raises, the other maps a model name
and a prompt to a text or a failure. The chat message is a class whose `tokens` field records
every streamed chunk.

Modules (one file each):

- `Outcomes` (`outcomes.dfy`): `Option` for absent fields and unset keys, and `Result` for a
  value or the message of a raised exception.
- `Text` (`text.dfy`): ASCII `lower()`, substring search (`in`) and `strip()`.
  - `Contains` (the search) is proved equal to the existence of an occurrence (`IsSubstring`).
- `Guardrails` (`guardrails.dfy`): `input_guardrail` and `output_guardrail`.
  - The regex `\b(no data|future prediction)\b` is stated as regex semantics: `\b` is a change
    between word and non-word characters, and the string's ends count as non-word.
  - That statement (`Flagged`) is proved equal to the left-to-right scan `SearchFrom`.
- `Search` (`search.dfy`): `web_search`.
  - It covers the key check, the request body, a failed POST, the status check, the empty-result sentinel,
    and the rendering loop with default field values.
  - `WebSearch` is the loop. It is proved equal to the function `SearchOutcome`.
  - Lemmas about `Render` cover order, length and the final newline.
- `Agent` (`agent.dfy`): the prompt template and `trend_seeker`.
  - `TrendSeeker` is proved equal to `TrendSeekerOutcome`.
  - Lemmas show that each stage is consulted only when the one before it succeeded.
- `Display` (`display.dfy`): Python's `str.split("\n\n")` (`Split`), the chunks it yields, the
  message sink, and the streaming loop of `main`.
  - `Split` is proved to be the unique leftmost separator-free decomposition of the report.
- `Chat` (`chat.dfy`): `main`, which strips the message, calls `trend_seeker`, and streams
  the paragraphs or the single error chunk. Also end-to-end lemmas about what the user sees.

Facts about the code that shape the model:

- The chat handler strips the message (line 98). `input_guardrail` returns its argument
  unchanged.
- The search key is read and checked inside `web_search` (lines 22-24), which runs only after
  the input gate passes. A rejected query therefore fails with the input gate's message even
  when the key is unset.
- Every failure reaches the user only as its message, through `f"Error: {e}"` (line 110). The
  model therefore carries a failure as its message text.
- The rendered search block is the only value interpolated into the prompt (line 75).
- The source file has CRLF line endings. Python reads them as `\n`, so the prompt template
  uses `\n`. The range "3–5" in it contains an en dash (U+2013).

## Model

| member | source | states |
|---|---|---|
| `Text.LowerChar` | src/trendseeker_agent/trendseeker-agent.py:54 | ASCII case folding: the result is never upper case, equals the input exactly when the input is not an upper-case letter, and otherwise is 32 code points higher |
| `Text.Lower` | src/trendseeker_agent/trendseeker-agent.py:54 | lower-casing keeps the length and leaves no upper-case letter; a character is kept exactly when it is not an upper-case letter |
| `Text.LowerIdempotent` | src/trendseeker_agent/trendseeker-agent.py:54 | lower-casing twice is lower-casing once |
| `Text.LowerIgnoresCase` | src/trendseeker_agent/trendseeker-agent.py:54 | strings that agree up to ASCII case lower-case to the same string |
| `Text.Contains` | src/trendseeker_agent/trendseeker-agent.py:54 | the left-to-right scan behind `sub in s`; `Text.ContainsIff` proves it equal to the existence of an occurrence |
| `Text.ContainsIff` | src/trendseeker_agent/trendseeker-agent.py:54 | the left-to-right search for `sub` succeeds exactly when `sub` occurs at some position |
| `Text.SkipSpaceFrom` | src/trendseeker_agent/trendseeker-agent.py:98 | the position found is the end of the run of whitespace starting at the given position: everything before it is whitespace and the character at it is not |
| `Text.SkipSpaceBack` | src/trendseeker_agent/trendseeker-agent.py:98 | the position found is the start of the run of whitespace ending at the given position: everything from it on is whitespace and the character before it is not |
| `Text.Strip` | src/trendseeker_agent/trendseeker-agent.py:98 | the message is leading whitespace, then the result, then trailing whitespace; the result neither starts nor ends with whitespace |
| `Text.StripUntrimmed` | src/trendseeker_agent/trendseeker-agent.py:98 | a message that neither starts nor ends with whitespace is left unchanged by stripping |
| `Text.StripIdempotent` | src/trendseeker_agent/trendseeker-agent.py:98 | stripping an already stripped message changes nothing |
| `Guardrails.InputGuardrail` | src/trendseeker_agent/trendseeker-agent.py:53-56 | succeeds exactly when "agentic ai" occurs in the lower-cased query; on success returns the query unchanged, otherwise fails with "Query must relate to Agentic AI trends." |
| `Guardrails.InputVerdictIgnoresCase` | src/trendseeker_agent/trendseeker-agent.py:54 | two queries that differ only in ASCII letter case get the same verdict |
| `Guardrails.InputVerdictOfLowered` | src/trendseeker_agent/trendseeker-agent.py:54 | lower-casing a query first does not change the verdict |
| `Guardrails.InputGuardrailIdempotent` | src/trendseeker_agent/trendseeker-agent.py:53-56 | a query that passes passes again, with the same result |
| `Guardrails.SearchFrom` | src/trendseeker_agent/trendseeker-agent.py:60 | the scan from position `i` finds a hit exactly when either phrase matches, with no word character just outside it, at some start position from `i` on |
| `Guardrails.BoundedAtIffMatchesAt` | src/trendseeker_agent/trendseeker-agent.py:60 | for a phrase that begins and ends with a word character, `\b` on both outer sides means the neighbouring characters are absent or are not word characters |
| `Guardrails.FlaggedIffSearch` | src/trendseeker_agent/trendseeker-agent.py:60 | `re.search` of `\b(no data\|future prediction)\b`, stated with regex `\b` semantics, finds a match exactly when the scan finds a hit |
| `Guardrails.Flagged` | src/trendseeker_agent/trendseeker-agent.py:60 | the regex semantics of `\b(no data\|future prediction)\b`: one of the two phrases occurs with a word boundary on both sides; `Guardrails.FlaggedIffSearch` relates it to the scan |
| `Guardrails.OutputGuardrail` | src/trendseeker_agent/trendseeker-agent.py:59-62 | fails with "Response contains speculative or unverifiable claims." exactly when the lower-cased report matches the pattern; otherwise returns the report unchanged |
| `Guardrails.PassesWhenNoMatch` | src/trendseeker_agent/trendseeker-agent.py:59-62 | a lower-case report where neither phrase matches at any position passes unchanged |
| `Guardrails.RejectsNoData` | src/trendseeker_agent/trendseeker-agent.py:60 | "No Data" is rejected: the match ignores case |
| `Guardrails.AcceptsNoDatabase` | src/trendseeker_agent/trendseeker-agent.py:60 | "no database" passes: a word character follows the phrase |
| `Guardrails.AcceptsFuturesPrediction` | src/trendseeker_agent/trendseeker-agent.py:60 | "futures prediction" passes |
| `Guardrails.AcceptsNearFuturePredictions` | src/trendseeker_agent/trendseeker-agent.py:60 | "near-future predictions" passes: the trailing `s` leaves no boundary |
| `Search.BuildRequest` | src/trendseeker_agent/trendseeker-agent.py:27-33 | the request carries the key, the query and the count, and asks for neither an answer nor raw content |
| `Search.KeyMissing` | src/trendseeker_agent/trendseeker-agent.py:22-24 | the key counts as unset when it is absent or the empty string, which is when `not TAVILY_API_KEY` holds; `Search.SearchOutcome` fails with the unset-key message then |
| `Search.ApiError` | src/trendseeker_agent/trendseeker-agent.py:38-39 | the error message for a status other than 200 ends with the raw response body |
| `Search.Title` | src/trendseeker_agent/trendseeker-agent.py:46 | the title when the item has one, "No Title" otherwise |
| `Search.Link` | src/trendseeker_agent/trendseeker-agent.py:47 | the URL when the item has one, "#" otherwise |
| `Search.Description` | src/trendseeker_agent/trendseeker-agent.py:48 | the content when the item has one, the empty string otherwise |
| `Search.Entry` | src/trendseeker_agent/trendseeker-agent.py:46-49 | one result's bullet starts with "- [", ends with a newline, and is 12 characters longer than its title, link and description together (defaults "No Title", "#" and "") |
| `Search.Render` | src/trendseeker_agent/trendseeker-agent.py:44-49 | the block built by `output +=` of one entry per result, in order; `Search.RenderCons`, `Search.RenderEntryAt` and `Search.RenderLength` state its order and length |
| `Search.RenderSingle` | src/trendseeker_agent/trendseeker-agent.py:44-49 | one result renders as its own entry |
| `Search.RenderAppend` | src/trendseeker_agent/trendseeker-agent.py:44-49 | rendering two lists in sequence is rendering each and concatenating |
| `Search.RenderCons` | src/trendseeker_agent/trendseeker-agent.py:44-49 | the block is the first entry followed by the block of the remaining results |
| `Search.RenderLength` | src/trendseeker_agent/trendseeker-agent.py:44-49 | the block's length is the sum of its entries' lengths |
| `Search.RenderEndsWithNewline` | src/trendseeker_agent/trendseeker-agent.py:44-49 | with at least one result, the block ends with a newline |
| `Search.RenderEntryAt` | src/trendseeker_agent/trendseeker-agent.py:44-49 | the k-th entry sits between the entries of the results before it and those after it, in input order |
| `Search.WebSearch` | src/trendseeker_agent/trendseeker-agent.py:20-50 | the loop's output equals `SearchOutcome`: an unset or empty key fails; an exception raised by the POST fails with its message; a status other than 200 fails with "Tavily API error: " + body and renders nothing; no results gives "- No results found."; otherwise the entries in order |
| `Search.SearchOutcome` | src/trendseeker_agent/trendseeker-agent.py:20-50 | what `web_search` returns or raises, stage by stage; `Search.WebSearch` is proved equal to it, and `Search.TransportFailurePropagates`, `Search.Non200FailsWithBody` and `Search.SearchBlockShape` state its outcomes |
| `Search.TransportFailurePropagates` | src/trendseeker_agent/trendseeker-agent.py:37 | with a key set, an exception raised by the POST fails the search with that exception's message |
| `Search.Non200FailsWithBody` | src/trendseeker_agent/trendseeker-agent.py:38-39 | with a key set, a status other than 200 fails, and the message ends with the raw response body |
| `Search.SearchBlockShape` | src/trendseeker_agent/trendseeker-agent.py:37-50 | a successful search had an answer from the POST with status 200; it yields the sentinel for no results, and otherwise a block as long as its entries, ending with a newline, with every entry in place in order |
| `Agent.Prompt` | src/trendseeker_agent/trendseeker-agent.py:71-86 | the prompt is the fixed head, then the search block, then the fixed tail, each at its stated position |
| `Agent.PromptEmbedsSearchBlock` | src/trendseeker_agent/trendseeker-agent.py:69-75 | the rendered search block occurs verbatim in the prompt |
| `Agent.PromptInjective` | src/trendseeker_agent/trendseeker-agent.py:71-86 | different search blocks give different prompts |
| `Agent.TrendSeeker` | src/trendseeker_agent/trendseeker-agent.py:65-93 | the method's result equals `TrendSeekerOutcome`: input gate, then search, then one model call on the prompt, then output gate, each stage run only after the previous one succeeded |
| `Agent.TrendSeekerOutcome` | src/trendseeker_agent/trendseeker-agent.py:65-93 | what `trend_seeker` returns or raises: the input gate, then the search, then one model call, then the output gate, the first failure ending the run; `Agent.TrendSeeker` is proved equal to it |
| `Agent.RejectedQueryConsultsNothing` | src/trendseeker_agent/trendseeker-agent.py:65-69 | a query without the marker fails with the input gate's message, the same for every key, search provider and model |
| `Agent.FailedSearchConsultsNoModel` | src/trendseeker_agent/trendseeker-agent.py:69-88 | a failed search fails the run with the search's message, the same for every model |
| `Agent.SuccessfulRun` | src/trendseeker_agent/trendseeker-agent.py:65-93 | a successful run had a marker in the query, a successful search whose block is embedded in the prompt, a model reply to exactly that prompt, a report equal to that reply, and no flagged phrase in it |
| `Agent.CleanRunSucceeds` | src/trendseeker_agent/trendseeker-agent.py:65-93 | the converse of `Agent.SuccessfulRun`: a query with the marker, a successful search, a model reply to the prompt built from its block, and no flagged phrase in the reply make the run return exactly that reply |
| `Agent.FailureMessages` | src/trendseeker_agent/trendseeker-agent.py:65-93 | a failure carries the message of one stage: the input gate, the unset key, the exception raised by the POST, the search status with its body, the model, or the output gate |
| `Display.Split` | src/trendseeker_agent/trendseeker-agent.py:105 | `str.split("\n\n")` yields at least one piece; the first piece is a prefix of the report, equal to it when alone and followed by the separator otherwise |
| `Display.Terminated` | src/trendseeker_agent/trendseeker-agent.py:108 | each chunk is its piece followed by "\n\n", one chunk per piece |
| `Display.Paragraphs` | src/trendseeker_agent/trendseeker-agent.py:105-108 | the chunks `main` streams for a report: its `split("\n\n")` pieces, each followed by "\n\n"; `Display.SplitRejoins`, `Display.SplitCount` and `Display.SplitUnique` state what they are |
| `Display.CountSep` | src/trendseeker_agent/trendseeker-agent.py:105 | the number of separators `split` consumes, counted from the left without overlap; `Display.SplitCount` ties the number of pieces to it |
| `Display.SplitRejoins` | src/trendseeker_agent/trendseeker-agent.py:105-108 | the chunks concatenate to the report followed by "\n\n" |
| `Display.SplitPiecesSepFree` | src/trendseeker_agent/trendseeker-agent.py:105 | no piece contains "\n\n" |
| `Display.SplitPiecesLeftmost` | src/trendseeker_agent/trendseeker-agent.py:105 | no piece but the last ends with a newline: each separator is the leftmost available |
| `Display.SplitCount` | src/trendseeker_agent/trendseeker-agent.py:105 | the number of pieces is the number of non-overlapping separators, counted from the left, plus one |
| `Display.SplitLeading` | src/trendseeker_agent/trendseeker-agent.py:105 | a valid leading piece followed by the separator is split off as the first piece |
| `Display.SplitSepFree` | src/trendseeker_agent/trendseeker-agent.py:105 | a string without "\n\n" splits into itself alone |
| `Display.SplitUnique` | src/trendseeker_agent/trendseeker-agent.py:105 | any decomposition that rebuilds the report, has separator-free pieces and takes separators leftmost is the split |
| `Display.ThreeParagraphs` | src/trendseeker_agent/trendseeker-agent.py:105-108 | "A\n\nB\n\nC" streams "A\n\n", "B\n\n", "C\n\n", in that order |
| `Display.EmptyReport` | src/trendseeker_agent/trendseeker-agent.py:105-108 | an empty report streams the single chunk "\n\n" |
| `Display.Message.constructor` | src/trendseeker_agent/trendseeker-agent.py:99 | a new message has nothing streamed |
| `Display.Message.StreamToken` | src/trendseeker_agent/trendseeker-agent.py:108 | appends exactly one token; the visible content grows by that token |
| `Display.StreamReport` | src/trendseeker_agent/trendseeker-agent.py:105-108 | the loop appends the report's chunks to the message, in split order, after what was there |
| `Chat.OnMessage` | src/trendseeker_agent/trendseeker-agent.py:96-110 | the message receives exactly the transcript of `trend_seeker` on the stripped text: every paragraph chunk, or the one error chunk |
| `Chat.ErrorChunk` | src/trendseeker_agent/trendseeker-agent.py:109-110 | the single chunk shown for a failure: "Error: " followed by the message |
| `Chat.Transcript` | src/trendseeker_agent/trendseeker-agent.py:102-110 | the chunks streamed for one run: the report's paragraphs, or the one error chunk; `Chat.TranscriptShape` states their shape |
| `Chat.TranscriptShape` | src/trendseeker_agent/trendseeker-agent.py:102-110 | a failure shows exactly one chunk, "Error: " + message; a success shows separator-free pieces each followed by "\n\n", as many as separators plus one, concatenating to the report plus "\n\n" |
| `Chat.RejectedReportNeverShown` | src/trendseeker_agent/trendseeker-agent.py:88-110 | when the model's reply is flagged, the user sees only "Error: Response contains speculative or unverifiable claims." and no part of the reply |
| `Chat.CleanReportStreamed` | src/trendseeker_agent/trendseeker-agent.py:96-110 | an accepted query whose search succeeds and whose report has no flagged phrase streams every paragraph of the report and no error chunk |
| `Chat.StripKeepsInputVerdict` | src/trendseeker_agent/trendseeker-agent.py:96-103 | stripping the message does not change whether it holds the marker |
| `Chat.WeatherQueryRejected` | src/trendseeker_agent/trendseeker-agent.py:96-110 | the message "What is the weather" shows only "Error: Query must relate to Agentic AI trends.", whatever the search and the model would do |
| `Chat.AgenticQueryAccepted` | src/trendseeker_agent/trendseeker-agent.py:96-103 | the message "What are agentic AI trends?" passes the input gate unchanged |

## Left out

- The HTTP POST to the search endpoint and the JSON decoding (lines 26-37, 40) are network I/O. The provider is a function from the request to a response value, or to the message of the exception the POST raises (a connection failure or a timeout, for example). A `results` field that is absent or null is an empty list. A body that is not JSON, or `results` that is not an array, is not modelled.
- Item fields are absent or strings. A field present with `null` (rendered "None" by Python) or with a non-string value is not modelled.
- Configuring and calling the generative model (lines 13-17, 67, 88-89) is a foreign service. The model is a function from model name and prompt to a text or a failure message. A failure stands for any exception that `generate_content_async` or `response.text` raises.
- The check for `GEMINI_API_KEY` (lines 13-15) runs once at import time, before any message is handled, so it is not part of the per-message model. `.env` loading (line 10) is process configuration. The search key is a parameter.
- The Chainlit hooks and `msg.send()` (lines 96, 100) are transport. Only the tokens streamed into the message are modelled.
- The `asyncio.sleep(0.3)` pacing and all async scheduling (line 107) affect timing only, not what is streamed.
- An exception raised by the transport while streaming is not modelled. It would add an error chunk after some paragraphs.
- `trend_seeker`'s `model_name` parameter is always its default "gemini-2.0-flash" here, which is the only way `main` calls it.
- Text.LowerChar: folds only ASCII 'A'..'Z'. Python's `str.lower()` also folds non-ASCII letters, and can change the length of a string.
- Guardrails.OutputGuardrail: `\w` is restricted to ASCII letters, digits and `_`. Python's Unicode `\w` also counts non-ASCII letters and digits, so a non-ASCII letter beside a phrase gives a match here but would not in Python.
- Text.Strip: strips only the ASCII characters for which `str.isspace()` holds (space, tab through carriage return, and 0x1C-0x1F). Python also strips Unicode whitespace.
