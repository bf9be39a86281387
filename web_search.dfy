/** The web-search adapter, `perform_web_search` in src/web_search_service.py:
    one SerpAPI query whose organic results are reduced to their snippets and
    joined into one text. The SerpAPI client (`GoogleSearch(params).get_dict()`)
    is a parameter: a function from the request parameters to the response,
    where a response is either the parsed JSON or the exception it raised. */
module WebSearch {
  import opened Wrappers
  import opened Text

  /** The parameters dictionary handed to `GoogleSearch`. */
  datatype SearchParams = SearchParams(apiKey: string, engine: string, q: string, num: nat)

  /** One entry of `organic_results`: its `snippet` key may be absent. */
  datatype OrganicResult = OrganicResult(snippet: Option<string>)

  /** What the search call produced: the response dictionary, whose
      `organic_results` key may be absent, or an exception with its text. */
  datatype SearchResponse =
    | Returned(organicResults: Option<seq<OrganicResult>>)
    | Raised(error: string)

  const SearchEngine := "google"
  const MissingKeyMessage := "Web search is unavailable " + "due to missing API key."

  /** The text returned when the search call raises. */
  function ErrorMessage(query: string): (m: string)
    ensures Occurs(m, query, |"Failed to retrieve external " + "information for '"|)
    ensures m != ""
  {
    "Failed to retrieve external " + "information for '" + query + "' due to an error."
  }

  /** `r.get("snippet")` is truthy: present and not the empty string. */
  predicate HasSnippet(r: OrganicResult)
  {
    r.snippet.Some? && r.snippet.value != ""
  }

  /** `[r.get("snippet") for r in organic_results if r.get("snippet")]`:
      never longer than the results, and made of non-empty strings. */
  function Snippets(results: seq<OrganicResult>): (snippets: seq<string>)
    ensures |snippets| <= |results|
    ensures forall k :: 0 <= k < |snippets| ==> snippets[k] != ""
  {
    if |results| == 0 then []
    else (if HasSnippet(results[0]) then [results[0].snippet.value] else []) + Snippets(results[1..])
  }

  /** What the `try` block makes of the response (src/web_search_service.py:16-30). */
  function RenderResponse(query: string, response: SearchResponse): (text: string)
    ensures text == "" ==> response.Returned?
  {
    match response
    case Raised(_) => ErrorMessage(query)
    case Returned(organic) =>
      var snippets := Snippets(if organic.Some? then organic.value else []);
      if snippets == [] then "" else Join("\n", snippets)
  }

  /** `perform_web_search(query, num_results)`; `apiKey` is `SERPAPI_API_KEY`,
      `None` when the variable is unset. */
  function PerformWebSearch(apiKey: Option<string>, query: string, numResults: nat,
                            search: SearchParams -> SearchResponse): (r: string)
    ensures r == "" ==> apiKey.Some? && apiKey.value != ""
                        && search(SearchParams(apiKey.value, SearchEngine, query, numResults)).Returned?
  {
    if apiKey.None? || apiKey.value == "" then MissingKeyMessage
    else RenderResponse(query, search(SearchParams(apiKey.value, SearchEngine, query, numResults)))
  }

  /** Filtering distributes over concatenation of result lists. */
  lemma {:induction false} SnippetsAppend(a: seq<OrganicResult>, b: seq<OrganicResult>)
    ensures Snippets(a + b) == Snippets(a) + Snippets(b)
  {
    if |a| > 0 {
      SnippetsAppend(a[1..], b);
      assert (a + b)[0] == a[0];
      assert (a + b)[1..] == a[1..] + b;
    } else {
      assert a + b == b;
    }
  }

  /** A string is a snippet exactly when some result carries it as a truthy
      `snippet`. */
  lemma {:induction false} SnippetsMembership(results: seq<OrganicResult>, s: string)
    ensures s in Snippets(results) <==>
            exists k :: 0 <= k < |results| && HasSnippet(results[k]) && results[k].snippet.value == s
  {
    if |results| > 0 {
      SnippetsMembership(results[1..], s);
      if s in Snippets(results[1..]) {
        var k :| 0 <= k < |results[1..]| && HasSnippet(results[1..][k]) && results[1..][k].snippet.value == s;
        assert results[k + 1] == results[1..][k];
      }
      forall k | 0 <= k < |results| && HasSnippet(results[k]) && results[k].snippet.value == s
        ensures s in Snippets(results)
      {
        if k > 0 {
          assert results[1..][k - 1] == results[k];
        }
      }
    }
  }

  /** Nothing survives the filter exactly when no result has a truthy snippet. */
  lemma {:induction false} SnippetsEmptyIff(results: seq<OrganicResult>)
    ensures Snippets(results) == [] <==> forall k :: 0 <= k < |results| ==> !HasSnippet(results[k])
  {
    if |results| > 0 {
      SnippetsEmptyIff(results[1..]);
      assert forall k :: 1 <= k < |results| ==> results[k] == results[1..][k - 1];
    }
  }

  /** When every result has a snippet, none is dropped and the order is kept. */
  lemma {:induction false} SnippetsKeepsOrder(results: seq<OrganicResult>)
    requires forall k :: 0 <= k < |results| ==> HasSnippet(results[k])
    ensures |Snippets(results)| == |results|
    ensures forall k :: 0 <= k < |results| ==> results[k].snippet == Some(Snippets(results)[k])
  {
    if |results| > 0 {
      SnippetsKeepsOrder(results[1..]);
    }
  }

  /** Without a key the fixed message comes back, whatever the search service
      would have said: no search is made. */
  lemma MissingKeyMakesNoSearch(apiKey: Option<string>, query: string, numResults: nat,
                                search1: SearchParams -> SearchResponse,
                                search2: SearchParams -> SearchResponse)
    requires apiKey.None? || apiKey.value == ""
    ensures PerformWebSearch(apiKey, query, numResults, search1) == MissingKeyMessage
    ensures PerformWebSearch(apiKey, query, numResults, search1)
         == PerformWebSearch(apiKey, query, numResults, search2)
    ensures MissingKeyMessage != ""
  {
  }

  /** With a key, the one request made carries the key, the `google` engine,
      the query and the result count, and its response alone decides the text. */
  lemma SearchRequest(key: string, query: string, numResults: nat,
                      search: SearchParams -> SearchResponse)
    requires key != ""
    ensures PerformWebSearch(Some(key), query, numResults, search)
         == RenderResponse(query, search(SearchParams(key, "google", query, numResults)))
  {
  }

  /** A failing search call yields the error text, which names the query and
      is never empty, so it never reads as "nothing found". */
  lemma SearchErrorIsReported(key: string, query: string, numResults: nat,
                              search: SearchParams -> SearchResponse)
    requires key != ""
    requires search(SearchParams(key, SearchEngine, query, numResults)).Raised?
    ensures PerformWebSearch(Some(key), query, numResults, search) == ErrorMessage(query)
    ensures PerformWebSearch(Some(key), query, numResults, search) != ""
  {
  }

  /** A response without `organic_results` is read as an empty result list. */
  lemma MissingOrganicResultsIsEmpty(query: string)
    ensures RenderResponse(query, Returned(None)) == RenderResponse(query, Returned(Some([])))
    ensures RenderResponse(query, Returned(None)) == ""
  {
  }

  /** The adapter returns `""` exactly when a key is set, the call succeeds
      and no result has a truthy snippet. */
  lemma {:induction false} EmptyIff(apiKey: Option<string>, query: string, numResults: nat,
                                    search: SearchParams -> SearchResponse)
    ensures PerformWebSearch(apiKey, query, numResults, search) == "" <==>
            && apiKey.Some? && apiKey.value != ""
            && var response := search(SearchParams(apiKey.value, SearchEngine, query, numResults));
               && response.Returned?
               && var results := if response.organicResults.Some? then response.organicResults.value else [];
                  forall k :: 0 <= k < |results| ==> !HasSnippet(results[k])
  {
    if apiKey.Some? && apiKey.value != "" {
      var response := search(SearchParams(apiKey.value, SearchEngine, query, numResults));
      if response.Returned? {
        var results := if response.organicResults.Some? then response.organicResults.value else [];
        SnippetsEmptyIff(results);
        var snippets := Snippets(results);
        if snippets != [] {
          JoinNonEmpty(snippets);
        }
      }
    }
  }

  /** A join of non-empty snippets is not empty. */
  lemma JoinNonEmpty(snippets: seq<string>)
    requires |snippets| > 0 && snippets[0] != ""
    ensures Join("\n", snippets) != ""
  {
    JoinOccurs("\n", snippets, 0);
  }

  /** The snippets can be read back from a successful result by splitting on
      newlines, provided no snippet itself holds a newline. */
  lemma SplitRecoversSnippets(query: string, results: seq<OrganicResult>)
    requires Snippets(results) != []
    requires forall k :: 0 <= k < |Snippets(results)| ==> '\n' !in Snippets(results)[k]
    ensures Split(RenderResponse(query, Returned(Some(results))), '\n') == Snippets(results)
  {
    SplitJoin(Snippets(results), '\n');
  }
}
