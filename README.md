# SOPhi core, modelled in Dafny

SOPhi is a small retrieval-augmented generator of Standard Operating
Procedures (SOPs). A FastAPI endpoint, `generate_sop`, serves each request in
four steps:

1. It asks a Chroma vector store for the five internal document chunks nearest
   to the request.
2. It asks SerpAPI for web snippets.
3. It fills a fixed prompt template with both contexts and sends the prompt to a
   local Ollama model.
4. It returns the model's text, or an HTTP error.

An offline script fills the vector store. It reads the PDF and DOCX files of a
directory, splits them into chunks and rebuilds the store from scratch.

This project models three parts of that system:

- **the request handler** (`Orchestrator`, orchestrator.dfy);
- **the web-search adapter** (`WebSearch`, web_search.dfy);
- **the ingestion script** (`Ingestion`, ingestion.dfy).

Three small modules support them:

- `Text` (text.dfy) holds the Python string operations the code relies on: `str.strip` with Python's whitespace set, `str.join`, the substring test `in`, `str.endswith` and `str(n)`. It also holds `str.split` on one character, which the code never calls: it is the inverse of the newline join and serves to state that the join loses nothing.
- `Documents` holds LangChain's document record.
- `Wrappers` holds `Option`.

Everything outside the core becomes a function-typed parameter: the retriever, the completion client, the SerpAPI client, the two file loaders and the text splitter.

- The retriever may raise, so its type is `Retrieval`.
- The SerpAPI client may raise, so its type is `SearchResponse`.

The directory listing and the embedding-model check are parameters too.

The handler is specified by the function `Orchestrator.Respond`. The method
`Orchestrator.GenerateSop` follows the source step by step and is proved equal
to it. The internal context is built by a loop, `RenderInternalContext`, which
is proved equal to the function `InternalContext`. The web adapter is pure and
is modelled as functions. The ingestion script is imperative:

- `LoadDocumentsFromDirectory` is a loop proved against `LoadedDocuments`.
- The persisted store is the class `VectorStore`, which records the operations performed on it.
- `Ingest` is the script's `main`.

Where the code and its documentation disagree, the model follows the code:

- `generate_sop` does not reject an empty or blank topic. The topic goes into the queries and the prompt as it is.
- Without a SerpAPI key the adapter returns the non-empty text "Web search is unavailable due to missing API key.", not `""`. The handler then shows that text as found external information. `MissingKeyWebBlock` proves this.
- A retriever that raises fails the whole request with a 500 (`RetrievalFailureIs500`). It is not treated as an empty internal context.
- A search call that raises makes the adapter return the non-empty text "Failed to retrieve external information for '…' due to an error.", not `""`. Like the missing-key text, the handler then shows it as found external information. `SearchErrorWebBlock` proves this.
- When no document is found, ingestion prints a message and returns normally. There is no fatal exit.
- A completion counts as failed when its text *contains* "Failed to generate SOP." anywhere. A genuine SOP that quotes that phrase is also turned into a 503.

## Model

| member | source | states |
|---|---|---|
| Text.Strip | src/main.py:29 | `str.strip()`: drops the Python whitespace at both ends, by trimming the front and then the back |
| Text.StripSpec | src/main.py:29 | `str.strip` removes a whitespace-only prefix and suffix and keeps the middle; the result neither starts nor ends with whitespace; it is empty exactly when the input is all whitespace |
| Text.StripUnpadded | src/main.py:43 | stripping a string that has no whitespace at either end leaves it unchanged |
| Text.StripTrailingSpace | src/main.py:29 | stripping a tidy string with one trailing space gives back the string |
| Text.TrimStart | src/main.py:29 | the leading-whitespace trim keeps a suffix, drops only whitespace and leaves a non-whitespace first character |
| Text.TrimEnd | src/main.py:29 | the trailing-whitespace trim keeps a prefix, drops only whitespace and leaves a non-whitespace last character |
| Text.Join | src/main.py:36 | `sep.join(parts)`: the parts in order, with the separator between each neighbouring pair; no parts give `""`, one part gives itself |
| Text.JoinOccurs | src/main.py:36 | each part of a join occurs in the joined text at its computed offset |
| Text.JoinOffsetStep | src/main.py:36 | consecutive parts of a join are separated by exactly one separator, so they keep their order |
| Text.Split | src/web_search_service.py:27 | Python's one-character `str.split`, the inverse of the newline join on this line (the code does not call it): splitting on a character yields at least one piece, and no piece contains that character |
| Text.SplitJoin | src/web_search_service.py:27 | joining parts with a character they do not contain, then splitting on it, gives back the parts |
| Text.JoinSplit | src/web_search_service.py:27 | splitting on a character, then joining on it, gives back the text |
| Text.IndexOf | src/web_search_service.py:27 | the helper of `Split`, the inverse of the join on this line: the index returned is the first occurrence of the character, or the length when it is absent |
| Text.Contains | src/main.py:88 | `sub in s`: `sub` is a prefix of `s` or of one of its suffixes |
| Text.EndsWith | scripts/ingest_sops.py:13 | `s.endswith(suffix)`: `suffix` is no longer than `s` and equals its last characters |
| Text.ContainsIff | src/main.py:88 | the substring test `in` holds exactly when the substring occurs at some position |
| Text.OccursContains | src/main.py:88 | an occurrence at a position makes the substring test true |
| Text.NatToString | src/main.py:35 | `str(n)` is a non-empty decimal numeral without a leading zero |
| Text.ParseNatToString | src/main.py:35 | reading back `str(n)` as a decimal numeral gives `n` |
| Text.NatToStringInjective | src/main.py:35 | distinct ranks get distinct labels |
| WebSearch.ErrorMessage | src/web_search_service.py:28-30 | the error text is non-empty and names the query |
| WebSearch.HasSnippet | src/web_search_service.py:21 | `r.get("snippet")` is truthy: the key is present and its value is not the empty string |
| WebSearch.Snippets | src/web_search_service.py:21 | the snippet list is no longer than the results and holds only non-empty strings |
| WebSearch.SnippetsMembership | src/web_search_service.py:21 | a string is a snippet exactly when some organic result carries it as a truthy `snippet` |
| WebSearch.SnippetsEmptyIff | src/web_search_service.py:21-25 | no snippet survives exactly when no result has a truthy `snippet` |
| WebSearch.SnippetsKeepsOrder | src/web_search_service.py:21 | when every result has a snippet, none is dropped and their order is kept |
| WebSearch.SnippetsAppend | src/web_search_service.py:21 | the filter distributes over concatenation of result lists |
| WebSearch.RenderResponse | src/web_search_service.py:10-30 | what the `try` block returns: the error text when the call raises, `""` when no snippet survives, and otherwise the snippets joined by newlines; an error is never rendered as `""` |
| WebSearch.PerformWebSearch | src/web_search_service.py:5-30 | the adapter: the missing-key message without a key, and otherwise what the single search call renders to; an empty result always comes from a search that was made with a key and did not raise |
| WebSearch.MissingKeyMakesNoSearch | src/web_search_service.py:6-8 | without a key (unset or empty) the fixed message comes back whatever the search service would answer; the message is non-empty |
| WebSearch.SearchRequest | src/web_search_service.py:11-19 | with a key, the single request carries the key, engine `google`, the query and the count, and its response alone decides the result |
| WebSearch.SearchErrorIsReported | src/web_search_service.py:28-30 | a raising search call yields the error text, which is never empty |
| WebSearch.MissingOrganicResultsIsEmpty | src/web_search_service.py:20-25 | a response without `organic_results` is read as an empty list and yields `""` |
| WebSearch.EmptyIff | src/web_search_service.py:5-30 | the adapter returns `""` exactly when a key is set, the call succeeds and no result has a truthy snippet |
| WebSearch.JoinNonEmpty | src/web_search_service.py:27 | a newline join of non-empty snippets is non-empty |
| WebSearch.SplitRecoversSnippets | src/web_search_service.py:27 | the snippets can be read back from the joined text by splitting on newlines when none holds a newline |
| Orchestrator.CompletionText | src/llm_service.py:4-19 | a raising chat call yields a text containing the failure sentinel; a reply yields its content unchanged |
| Orchestrator.InternalQuery | src/main.py:29 | the retrieval query: topic, one space and details, stripped |
| Orchestrator.WebQuery | src/main.py:43 | the web query: `SOP `, topic, ` best practices `, details, stripped |
| Orchestrator.SnippetBlock | src/main.py:35 | the `i`-th retrieved document (0-based) as a block labelled with its 1-based rank, followed by its text |
| Orchestrator.InternalContext | src/main.py:32-38 | the internal context: the separator and the snippet blocks joined by blank lines, or the no-SOPs placeholder; it is never empty |
| Orchestrator.WebBlock | src/main.py:46-51 | the web section: the header, then the web text when it is non-empty and the nothing-found placeholder otherwise; it is never the bare header |
| Orchestrator.DetailsLine | src/main.py:63 | the details, or "None provided." when they are empty; it is never empty |
| Orchestrator.InstructionBlock | src/main.py:74-80 | the instruction heading, then the six instructions numbered `1.` to `6.`, one per line |
| Orchestrator.Prompt | src/main.py:53-83 | the prompt template: the fixed introduction, the topic line, the details line, the internal section, the web section, the instruction list and the closing line, with the template's own line breaks and rules between them |
| Orchestrator.RequestPrompt | src/main.py:53-83 | the template filled for a request: its topic, its details line, its internal context and its web block |
| Orchestrator.Respond | src/main.py:26-98 | the handler as a function: a 500 carrying the exception text when retrieval (top 5) raises; otherwise the completion of the prompt built from the retrieved documents and the web text (3 results), turned into a 503 when it contains the failure sentinel |
| Orchestrator.RenderInternalContext | src/main.py:32-38 | the loop builds exactly the labelled-snippet context, or the placeholder when there are no documents |
| Orchestrator.GenerateSop | src/main.py:26-98 | the handler equals `Respond`: a raising retriever gives a 500 whose detail is the prefix plus the exception text; otherwise the result is a 503 carrying the model text exactly when that text contains the sentinel, and else the SOP is that text unchanged |
| Orchestrator.QueriesAreTrimmed | src/main.py:29-43 | neither query starts or ends with whitespace, and the web query is never empty |
| Orchestrator.QueriesOfTidyRequest | src/main.py:29-43 | for a tidy topic and details the queries are the plain concatenations, and empty details add no trailing space |
| Orchestrator.SnippetBlockLabel | src/main.py:35 | the block of the `i`-th document carries rank `i + 1`, which reads back as that number, and ends with the document text |
| Orchestrator.SnippetsInRetrievalOrder | src/main.py:33-36 | every retrieved document appears as its own block in the context, in retrieval order and without overlap |
| Orchestrator.InternalContextStartsAtRankOne | src/main.py:34-36 | a non-empty context opens with the separator and the block ranked 1 |
| Orchestrator.PromptLayout | src/main.py:53-83 | returns offsets at which the filled template holds the topic line, the details line, the internal section, the web section and the instructions, in that order and without overlap |
| Orchestrator.RequestPromptSections | src/main.py:62-71 | returns the offsets at which a request's prompt holds the labelled topic, the labelled details line, and the two context sections under their headings |
| Orchestrator.ContextSectionsAlwaysPresent | src/main.py:32-71 | both context sections are always present: the first-ranked snippet or the no-SOPs placeholder, and the web header followed by the web text or the nothing-found placeholder; details default to "None provided." |
| Orchestrator.InternalSectionShown | src/main.py:66-67 | an occurrence of the internal section shows the first snippet block or the placeholder |
| Orchestrator.WebSectionShown | src/main.py:70-71 | an occurrence of the web section shows the header and then the web text or the placeholder |
| Orchestrator.InstructionsNumberedInOrder | src/main.py:74-80 | the six instructions appear numbered 1 to 6, in order |
| Orchestrator.CompletionFailureIs503 | src/main.py:86-89 | a failed completion ends the request in a 503 carrying the failure message |
| Orchestrator.RetrievalFailureIs500 | src/main.py:96-98 | a raising retriever gives a 500 with the exception text, and neither web search nor model is consulted |
| Orchestrator.MissingKeyWebBlock | src/main.py:46-51 | the missing-key text is shown as external information, not as the nothing-found placeholder |
| Orchestrator.SearchErrorWebBlock | src/main.py:44-51 | when the search call raises, the adapter's error text is shown as external information, not as the nothing-found placeholder |
| Orchestrator.MissingKeyTextReachesPrompt | src/main.py:44-71 | without a key, the prompt's web section shows the missing-key text |
| Orchestrator.MissingKeyStillAnswers | src/main.py:44-92 | a missing SerpAPI key alone does not fail a request |
| Ingestion.LoaderFor | scripts/ingest_sops.py:13-22 | the extension dispatch: the PDF loader for `.pdf`, else the DOCX loader for `.docx`, else none; a loader is chosen only for one of the two extensions |
| Ingestion.PathJoin | scripts/ingest_sops.py:12 | `os.path.join(directory, filename)` on POSIX paths: an absolute file name replaces the directory, and otherwise one `/` is put between them unless the directory is empty or already ends in one |
| Ingestion.PathJoinKeepsName | scripts/ingest_sops.py:12 | the joined path ends with the file name; an absolute file name is the whole path; a relative one is placed under the directory |
| Ingestion.FileDocuments | scripts/ingest_sops.py:12-22 | the documents one listing entry contributes: what its loader returns for the joined path, or nothing for an unsupported file |
| Ingestion.LoadedDocuments | scripts/ingest_sops.py:8-23 | the documents of a whole listing: each entry's documents in turn, in listing order |
| Ingestion.SplitDocuments | scripts/ingest_sops.py:25-30 | `split_documents`: the splitter called with chunk size 500 and overlap 100 |
| Ingestion.LoaderDispatch | scripts/ingest_sops.py:13-22 | a file goes to the PDF loader exactly when its name ends in `.pdf`, to the DOCX loader exactly when it ends in `.docx`, and is skipped exactly when it ends in neither |
| Ingestion.PdfIsNotDocx | scripts/ingest_sops.py:13-17 | no file name ends in both extensions, so the two loaders never compete |
| Ingestion.UpperCaseExtensionsAreSkipped | scripts/ingest_sops.py:13-17 | the extension test is case-sensitive: `X.PDF` and `X.DOCX` are skipped |
| Ingestion.LoadedDocumentsAppend | scripts/ingest_sops.py:11-20 | loading a listing in two parts gives the two parts' documents in turn |
| Ingestion.SkippedFileContributesNothing | scripts/ingest_sops.py:21-22 | an unsupported file contributes nothing wherever it stands in the listing |
| Ingestion.LoadedDocumentsMembership | scripts/ingest_sops.py:11-23 | a document is loaded exactly when some entry of the listing contributes it |
| Ingestion.NoSupportedFileLoadsNothing | scripts/ingest_sops.py:11-23 | a listing with no PDF or DOCX file loads nothing |
| Ingestion.LoadDocumentsFromDirectory | scripts/ingest_sops.py:8-23 | the loop returns exactly the documents of the supported files, in listing order, each loaded from the joined path |
| Ingestion.VectorStore.constructor | scripts/ingest_sops.py:46 | a store is given by its existence on disk, its chunks and its flushed flag |
| Ingestion.VectorStore.Remove | scripts/ingest_sops.py:48 | removing the directory empties the store |
| Ingestion.VectorStore.Open | src/vector_db_service.py:29-35 | opening keeps an existing store and creates an empty one otherwise |
| Ingestion.VectorStore.AddDocuments | scripts/ingest_sops.py:53 | the chunks are appended and are not yet flushed |
| Ingestion.VectorStore.Persist | scripts/ingest_sops.py:54 | the chunks are flushed and unchanged |
| Ingestion.Ingest | scripts/ingest_sops.py:32-55 | an unavailable model or an empty corpus leaves the store untouched; otherwise the old store is removed, and if the model is still reachable the store then holds exactly the split corpus (size 500, overlap 100), flushed, after the operations remove, open, add and persist |
| Ingestion.ReingestionReplacesCorpus | scripts/ingest_sops.py:46-54 | after two successful runs the store holds only the second corpus's chunks |

## Left out

- The FastAPI application, its routing, the `/` health route and the request
  validation by pydantic: the model starts from a parsed `SopRequest`.
- Every `print`: console logging has no effect on any result.
- The Ollama chat call itself, with its model name and its sampling options
  (temperature 0.5, top_k 40, top_p 0.9). The completion is a parameter.
- The vector store's similarity search and the embedding model. The retriever
  is a parameter that returns ranked documents or raises.
- `Orchestrator.GenerateSop`: does not model the `exit(1)` that
  `get_embedding_model` performs inside `retrieve_relevant_docs`. The
  `SystemExit` it raises is not an `Exception`, so it escapes the handler's
  `except` clauses, and the model has no outcome for it.
- `WebSearch.PerformWebSearch`: the requested result count is only passed to
  SerpAPI. The model does not bound the number of snippets by it, because the
  code never does either.
- `WebSearch.OrganicResult`: a `snippet` value that is not a string is not
  modelled. A snippet is either absent or a string.
- The SerpAPI key is read from the environment at import time. Here it is a
  parameter.
- The PDF and DOCX loaders and their exceptions. A loader is a function from
  the joined path to documents, and a loader that raises aborts the Python
  script, which the model does not represent.
- The recursive character splitter's algorithm. `split_documents` is a
  parameter called with the configured chunk size 500 and overlap 100.
  Nothing is proved about chunk lengths.
- `os.listdir`: the listing is a parameter, in its arbitrary order.
- Strings are sequences of Dafny `char`s, which are Unicode scalar values. A Python `str` can also hold lone surrogates, which `os.listdir` produces for file names that do not decode. Such names are not modelled.
- The store's directory is the single `VectorStore` object. Other files under
  its path and Chroma's storage format are not modelled, and `shutil.rmtree`
  errors are not modelled.
- `Ingestion.Ingest`: the two embedding-model checks are flags. Pulling the
  model when it is missing is folded into the first check succeeding.
- LangChain's `Document` metadata (source path, page number): the core never reads it, so a document is its text alone.
- The default `num_results=5` of `perform_web_search`: the handler always passes 3, so the default never takes effect.
- `add_documents_to_vector_store` in src/vector_db_service.py is not called by
  the core and is not modelled; neither is the example client script.
