/** The web search client: the request it sends and how it renders the provider's answer. */
module Search {
  import opened Outcomes

  /** The default number of results requested. */
  const DefaultCount := 5
  const NoResults := "- No results found."
  const MissingKey := "TAVILY_API_KEY environment variable not set. Please set it."

  /** The message of the error raised for a non-200 answer: it embeds the raw body. */
  function ApiError(body: string): (m: string)
    ensures |m| > |body| && m[|m| - |body|..] == body
  {
    "Tavily API error: " + body
  }

  /** The JSON body POSTed to the search endpoint. */
  datatype SearchRequest = SearchRequest(
    apiKey: string, query: string, maxResults: int, includeAnswer: bool, includeRawContent: bool)

  /** One element of the answer's `results` array; an absent field is `None`. */
  datatype Item = Item(title: Option<string>, url: Option<string>, content: Option<string>)

  /** The HTTP answer: status code, raw text, and the decoded `results` array (empty when absent). */
  datatype Response = Response(status: int, body: string, results: seq<Item>)

  /**
   * The search provider, as a function from the request it is sent to the answer it gives, or
   * to the message of the exception the POST raises (a connection failure or a timeout).
   */
  type Provider = SearchRequest -> Result<Response>

  /** The request `web_search` builds: the key, the query, the count, and no answer or raw content. */
  function BuildRequest(apiKey: string, query: string, count: int): (req: SearchRequest)
    ensures req.apiKey == apiKey && req.query == query && req.maxResults == count
    ensures !req.includeAnswer && !req.includeRawContent
  {
    SearchRequest(apiKey, query, count, false, false)
  }

  /** The key counts as unset when it is absent or empty. */
  predicate KeyMissing(apiKey: Option<string>) {
    apiKey.None? || apiKey.value == ""
  }

  /** `item.get("title", "No Title")`: the title when present, "No Title" otherwise. */
  function Title(item: Item): (r: string)
    ensures item.title.Some? ==> r == item.title.value
    ensures item.title.None? ==> r == "No Title"
  {
    item.title.GetOr("No Title")
  }

  /** `item.get("url", "#")`: the link when present, "#" otherwise. */
  function Link(item: Item): (r: string)
    ensures item.url.Some? ==> r == item.url.value
    ensures item.url.None? ==> r == "#"
  {
    item.url.GetOr("#")
  }

  /** `item.get("content", "")`: the description when present, empty otherwise. */
  function Description(item: Item): (r: string)
    ensures item.content.Some? ==> r == item.content.value
    ensures item.content.None? ==> r == ""
  {
    item.content.GetOr("")
  }

  /** The two-line bullet rendered for one result. */
  function Entry(item: Item): (e: string)
    ensures |e| == |Title(item)| + |Link(item)| + |Description(item)| + 12
    ensures e[..3] == "- [" && e[|e| - 1] == '\n'
  {
    "- [" + Title(item) + "](" + Link(item) + ")\n  - " + Description(item) + "\n"
  }

  /** The block built by appending one entry per result, in order. */
  function Render(items: seq<Item>): string {
    if items == [] then "" else Render(items[..|items| - 1]) + Entry(items[|items| - 1])
  }

  /** The entry lengths added up from the front. */
  function EntryLengths(items: seq<Item>): nat {
    if items == [] then 0 else |Entry(items[0])| + EntryLengths(items[1..])
  }

  /** The entries of two lists of results, rendered one after the other. */
  lemma {:induction false} RenderAppend(a: seq<Item>, b: seq<Item>)
    ensures Render(a + b) == Render(a) + Render(b)
    decreases |b|
  {
    if b == [] {
      assert a + b == a;
    } else {
      var b', last := b[..|b| - 1], b[|b| - 1];
      assert (a + b)[..|a + b| - 1] == a + b' && (a + b)[|a + b| - 1] == last;
      assert Render(a + b) == Render(a + b') + Entry(last);
      RenderAppend(a, b');
      assert Render(b) == Render(b') + Entry(last);
      assert Render(a) + Render(b') + Entry(last) == Render(a) + (Render(b') + Entry(last));
    }
  }

  /** One result renders as its entry. */
  lemma RenderSingle(item: Item)
    ensures Render([item]) == Entry(item)
  {
    assert [item][..0] == [];
  }

  /** Rendering is concatenating, from the front: the first entry, then the rest. */
  lemma RenderCons(items: seq<Item>)
    requires items != []
    ensures Render(items) == Entry(items[0]) + Render(items[1..])
  {
    assert items == [items[0]] + items[1..];
    RenderAppend([items[0]], items[1..]);
    RenderSingle(items[0]);
  }

  /** The rendered block is as long as its entries together. */
  lemma {:induction false} RenderLength(items: seq<Item>)
    ensures |Render(items)| == EntryLengths(items)
  {
    if items != [] {
      RenderCons(items);
      RenderLength(items[1..]);
    }
  }

  /** The block ends with a newline whenever there is at least one result. */
  lemma RenderEndsWithNewline(items: seq<Item>)
    requires items != []
    ensures |Render(items)| > 0 && Render(items)[|Render(items)| - 1] == '\n'
  {
  }

  /** The block of the first k + 1 results is the block of the first k, then the k-th entry. */
  lemma RenderSnoc(items: seq<Item>, k: nat)
    requires k < |items|
    ensures Render(items[..k + 1]) == Render(items[..k]) + Entry(items[k])
  {
    assert items[..k + 1][..k] == items[..k];
  }

  /** The k-th result's entry sits between the entries of the results before it and after it. */
  lemma RenderEntryAt(items: seq<Item>, k: nat)
    requires k < |items|
    ensures Render(items) == Render(items[..k]) + Entry(items[k]) + Render(items[k + 1..])
  {
    assert items == items[..k + 1] + items[k + 1..];
    RenderAppend(items[..k + 1], items[k + 1..]);
    RenderSnoc(items, k);
  }

  /** What `web_search` returns or raises, for a given key, query, count and provider. */
  function SearchOutcome(apiKey: Option<string>, query: string, count: int, provider: Provider): Result<string> {
    if KeyMissing(apiKey) then Err(MissingKey)
    else
      match provider(BuildRequest(apiKey.value, query, count))
      case Err(m) => Err(m)
      case Ok(response) =>
        if response.status != 200 then Err(ApiError(response.body))
        else if response.results == [] then Ok(NoResults)
        else Ok(Render(response.results))
  }

  /**
   * `web_search`: checks the key, sends the request (passing on the exception it raises),
   * rejects a non-200 answer, and otherwise
   * builds the block by appending one entry per result.
   */
  method WebSearch(apiKey: Option<string>, query: string, count: int, provider: Provider) returns (r: Result<string>)
    ensures r == SearchOutcome(apiKey, query, count, provider)
  {
    if KeyMissing(apiKey) {
      return Err(MissingKey);
    }
    var answer := provider(BuildRequest(apiKey.value, query, count));
    if answer.Err? {
      return Err(answer.msg);
    }
    var response := answer.value;
    if response.status != 200 {
      return Err(ApiError(response.body));
    }
    var results := response.results;
    if results == [] {
      return Ok(NoResults);
    }
    var output := "";
    var i := 0;
    while i < |results|
      invariant 0 <= i <= |results|
      invariant output == Render(results[..i])
    {
      assert results[..i + 1][..i] == results[..i];
      output := output + Entry(results[i]);
      i := i + 1;
    }
    assert results[..i] == results;
    return Ok(output);
  }

  /** With a key set, an exception raised by the POST fails the search with that exception's message. */
  lemma TransportFailurePropagates(apiKey: Option<string>, query: string, count: int, provider: Provider)
    requires !KeyMissing(apiKey)
    requires provider(BuildRequest(apiKey.value, query, count)).Err?
    ensures SearchOutcome(apiKey, query, count, provider) == Err(provider(BuildRequest(apiKey.value, query, count)).msg)
  {
  }

  /** With a key set, an answer other than 200 fails, and the error message ends with the raw body. */
  lemma Non200FailsWithBody(apiKey: Option<string>, query: string, count: int, provider: Provider)
    requires !KeyMissing(apiKey)
    requires provider(BuildRequest(apiKey.value, query, count)).Ok?
    requires provider(BuildRequest(apiKey.value, query, count)).value.status != 200
    ensures var body := provider(BuildRequest(apiKey.value, query, count)).value.body;
      var r := SearchOutcome(apiKey, query, count, provider);
      r.Err? && |r.msg| >= |body| && r.msg[|r.msg| - |body|..] == body
  {
  }

  /**
   * A successful search yields either the sentinel, for an empty result list, or one entry per
   * result in order, ending with a newline, as long as the entries together.
   */
  lemma SearchBlockShape(apiKey: Option<string>, query: string, count: int, provider: Provider)
    requires SearchOutcome(apiKey, query, count, provider).Ok?
    ensures provider(BuildRequest(apiKey.value, query, count)).Ok?
    ensures var response := provider(BuildRequest(apiKey.value, query, count)).value;
      var block := SearchOutcome(apiKey, query, count, provider).value;
      response.status == 200
      && (response.results == [] ==> block == NoResults)
      && (response.results != [] ==>
            |block| == EntryLengths(response.results) && block[|block| - 1] == '\n'
            && forall k :: 0 <= k < |response.results| ==>
                 block == Render(response.results[..k]) + Entry(response.results[k]) + Render(response.results[k + 1..]))
  {
    var response := provider(BuildRequest(apiKey.value, query, count)).value;
    if response.results != [] {
      RenderLength(response.results);
      RenderEndsWithNewline(response.results);
      forall k | 0 <= k < |response.results|
        ensures Render(response.results) == Render(response.results[..k]) + Entry(response.results[k]) + Render(response.results[k + 1..])
      {
        RenderEntryAt(response.results, k);
      }
    }
  }
}
