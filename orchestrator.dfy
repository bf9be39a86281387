/** The request handler `generate_sop` of src/main.py. The three adapters it
    calls are parameters: the retriever (`retrieve_relevant_docs`, which may
    raise), the web search (`perform_web_search`, which never raises) and the
    completion (`generate_response_from_llm`, which never raises and reports
    failure with a sentinel text). The handler builds the two queries, renders
    the internal and the external context, fills the prompt template and maps
    the completion's text to a response or an HTTP error. */
module Orchestrator {
  import opened Wrappers
  import opened Text
  import opened Documents
  import WebSearch

  /** The request body: `topic`, and `details` (which defaults to ""). */
  datatype SopRequest = SopRequest(topic: string, details: string)

  /** What the retriever produced: the ranked documents, or the exception it
      raised, as `str(e)`. */
  datatype Retrieval = Retrieved(docs: seq<Document>) | RetrievalRaised(error: string)

  /** The response: `{"sop": ...}`, or an `HTTPException` with its status and detail. */
  datatype Outcome = Sop(sop: string) | HttpError(statusCode: int, detail: string)

  /** What the Ollama chat client produced inside `generate_response_from_llm`. */
  datatype ChatReply = Replied(content: string) | ChatRaised(error: string)

  // The longer texts below are written as concatenations of short literals;
  // each is the same string as the one in src/main.py.
  const InternalTopK := 5
  const WebResultCount := 3

  /** The substring whose presence marks a failed completion. */
  const Sentinel := "Failed to generate SOP."
  const CompletionFailureMessage :=
    Sentinel + " Please ensure the Ollama " + "server is running and the " + "model is available."
  const InternalErrorPrefix := "An internal server error " + "occurred: "

  const SnippetLabelStart := "--- Internal Document Snippet "
  const SnippetSeparator := "\n\n"
  const NoInternalContext := "\nNo specific internal SOPs " + "found for this topic in the " + "knowledge base."
  const WebHeader := "\n\n--- External " + "Information (Web Search) " + "---\n"
  const NoExternalInformation := "No relevant external " + "information found."
  const NoDetails := "None provided."

  // The fixed text of the prompt template, cut at the labelled sections.
  const PromptIntro :=
    "\n"
    + "        You are an expert " + "AI assistant specializing " + "in generating detailed and " + "practical Standard " + "Operating Procedures " + "(SOPs).\n"
    + "        Your goal is to " + "provide clear, concise, and " + "actionable instructions for " + "professionals.\n"
    + "        Use clear headings, " + "bullet points, and code " + "blocks for commands where " + "appropriate.\n"
    + "        Tone is " + "professional, direct, and " + "unambiguous, suitable for " + "staff.\n"
    + "        \n"
    + "        Generate a " + "comprehensive SOP for the " + "following request.\n"
    + "        \n"
    + "        ---\n"
    + "        "
  const TopicLabel := "**SOP Request Topic:** "
  const DetailsLabel := "**Specific " + "Requirements/Details:** "
  const InternalHeading := "**Internal Knowledge Base " + "Context:**\n        "
  const WebHeading := "**Up-to-date External " + "Information (from Web " + "Search):**\n        "
  const LineBreak := "\n        "
  const SectionBreak := "\n        ---\n\n        "
  const InstructionsHeading := "**Instructions for SOP " + "Generation:**"
  const PromptOutro := "\n\n        **Generated " + "SOP:**\n        "

  /** The six generation instructions, in the order the template lists them. */
  const Instructions := [
    "Title: Start with a clear " + "and descriptive title for " + "the SOP.",
    "Purpose: Briefly state the " + "purpose of this SOP.",
    "Scope: Define what this SOP " + "covers and what it does not.",
    "Prerequisites: List any " + "tools, access, or prior " + "conditions required.",
    "Steps: Provide numbered, " + "step-by-step instructions. " + "Be highly detailed and " + "explicit.",
    "Troubleshooting: Include " + "common issues and their " + "resolutions if applicable."
  ]

  /** `generate_response_from_llm`: the chat content, or the failure message. */
  function CompletionText(reply: ChatReply): (text: string)
    ensures reply.ChatRaised? ==> Contains(text, Sentinel)
    ensures reply.Replied? ==> text == reply.content
  {
    match reply
    case Replied(content) => content
    case ChatRaised(_) => CompletionFailureMessage
  }

  /** `f"{topic} {details}".strip()`. */
  function InternalQuery(req: SopRequest): string
  {
    Strip(req.topic + " " + req.details)
  }

  /** `f"SOP {topic} best practices {details}".strip()`. */
  function WebQuery(req: SopRequest): string
  {
    Strip("SOP " + req.topic + " best practices " + req.details)
  }

  /** The `i`-th (0-based) retrieved document, labelled with its 1-based rank. */
  function SnippetBlock(i: nat, doc: Document): string
  {
    SnippetLabelStart + NatToString(i + 1) + " ---\n" + doc.pageContent
  }

  /** `internal_context_parts` once the loop is done. */
  function SnippetBlocks(docs: seq<Document>): seq<string>
  {
    seq(|docs|, i requires 0 <= i < |docs| => SnippetBlock(i, docs[i]))
  }

  /** `internal_context`: the labelled snippets, or the fixed placeholder. */
  function InternalContext(docs: seq<Document>): (context: string)
    ensures context != ""
  {
    if |docs| > 0 then SnippetSeparator + Join(SnippetSeparator, SnippetBlocks(docs))
    else NoInternalContext
  }

  /** Where the `i`-th snippet block starts inside `InternalContext(docs)`. */
  function SnippetOffset(docs: seq<Document>, i: nat): nat
    requires i < |docs|
  {
    |SnippetSeparator| + JoinOffset(SnippetSeparator, SnippetBlocks(docs), i)
  }

  /** `web_context_formatted`: the header, then the web text or the placeholder. */
  function WebBlock(webText: string): (block: string)
    ensures WebHeader <= block && |block| > |WebHeader|
  {
    WebHeader + (if webText != "" then webText else NoExternalInformation)
  }

  /** The details as shown in the prompt. */
  function DetailsLine(details: string): (line: string)
    ensures line != ""
  {
    if details != "" then details else NoDetails
  }

  /** `"1.  Title: ..."` and so on. */
  function NumberedInstructions(items: seq<string>): seq<string>
  {
    seq(|items|, i requires 0 <= i < |items| => NatToString(i + 1) + ".  " + items[i])
  }

  /** The instruction list of the template. */
  function InstructionBlock(): string
  {
    InstructionsHeading + LineBreak + Join(LineBreak, NumberedInstructions(Instructions))
  }

  /** `prompt_template` with its four fields filled in. */
  function Prompt(topic: string, detailsLine: string, internal: string, web: string): string
  {
    PromptIntro
    + (TopicLabel + topic) + LineBreak
    + (DetailsLabel + detailsLine) + SectionBreak
    + (InternalHeading + internal) + SectionBreak
    + (WebHeading + web) + SectionBreak
    + InstructionBlock() + PromptOutro
  }

  /** The prompt sent for a request, given what the two retrievals returned. */
  function RequestPrompt(req: SopRequest, docs: seq<Document>, webText: string): string
  {
    Prompt(req.topic, DetailsLine(req.details), InternalContext(docs), WebBlock(webText))
  }

  /** The whole handler, as a function of the request and the three adapters. */
  function Respond(req: SopRequest, retrieve: (string, nat) -> Retrieval,
                   webSearch: (string, nat) -> string, complete: string -> string): Outcome
  {
    match retrieve(InternalQuery(req), InternalTopK)
    case RetrievalRaised(e) => HttpError(500, InternalErrorPrefix + e)
    case Retrieved(docs) =>
      var output := complete(RequestPrompt(req, docs, webSearch(WebQuery(req), WebResultCount)));
      if Contains(output, Sentinel) then HttpError(503, output) else Sop(output)
  }

  /** Builds `internal_context` the way src/main.py does: a loop appends one
      labelled block per document, then the blocks are joined. */
  method RenderInternalContext(docs: seq<Document>) returns (context: string)
    ensures context == InternalContext(docs)
  {
    var parts: seq<string> := [];
    if |docs| > 0 {
      var i := 0;
      while i < |docs|
        invariant 0 <= i <= |docs|
        invariant |parts| == i
        invariant forall j :: 0 <= j < i ==> parts[j] == SnippetBlock(j, docs[j])
      {
        parts := parts + [SnippetBlock(i, docs[i])];
        i := i + 1;
      }
      assert parts == SnippetBlocks(docs);
      context := SnippetSeparator + Join(SnippetSeparator, parts);
    } else {
      context := NoInternalContext;
    }
  }

  /** `generate_sop`. A failed retrieval is the only exception the body can
      meet: it becomes a 500. Otherwise the completion's text is the SOP,
      unless it contains the sentinel, when it is the detail of a 503. */
  method GenerateSop(req: SopRequest, retrieve: (string, nat) -> Retrieval,
                     webSearch: (string, nat) -> string, complete: string -> string)
    returns (outcome: Outcome)
    ensures outcome == Respond(req, retrieve, webSearch, complete)
    ensures match retrieve(InternalQuery(req), InternalTopK)
            case RetrievalRaised(e) => outcome == HttpError(500, InternalErrorPrefix + e)
            case Retrieved(docs) =>
              var output := complete(RequestPrompt(req, docs, webSearch(WebQuery(req), WebResultCount)));
              && (outcome.HttpError? <==> Contains(output, Sentinel))
              && (outcome.HttpError? ==> outcome == HttpError(503, output))
              && (outcome.Sop? ==> outcome.sop == output)
  {
    var retrieval := retrieve(InternalQuery(req), InternalTopK);
    if retrieval.RetrievalRaised? {
      outcome := HttpError(500, InternalErrorPrefix + retrieval.error);
      return;
    }
    var internal := RenderInternalContext(retrieval.docs);
    var webText := webSearch(WebQuery(req), WebResultCount);
    var web := WebBlock(webText);
    var prompt := Prompt(req.topic, DetailsLine(req.details), internal, web);
    var output := complete(prompt);
    if Contains(output, Sentinel) {
      outcome := HttpError(503, output);
    } else {
      outcome := Sop(output);
    }
  }

  /** Neither query starts or ends with whitespace, and the web query is never
      empty. */
  lemma QueriesAreTrimmed(req: SopRequest)
    ensures var q := InternalQuery(req); q == [] || Unpadded(q)
    ensures Unpadded(WebQuery(req))
  {
    StripSpec(req.topic + " " + req.details);
    var w := "SOP " + req.topic + " best practices " + req.details;
    assert w[0] == 'S';
    StripKeepsNonSpace(w, 0);
  }

  /** For a topic and details without surrounding whitespace the queries are
      the plain concatenations, and empty details leave no trailing space. */
  lemma QueriesOfTidyRequest(req: SopRequest)
    requires Unpadded(req.topic)
    requires req.details == "" || Unpadded(req.details)
    ensures InternalQuery(req) == if req.details == "" then req.topic else req.topic + " " + req.details
    ensures WebQuery(req) == "SOP " + req.topic + " best practices"
                             + (if req.details == "" then "" else " " + req.details)
  {
    TidyInternalQuery(req);
    TidyWebQuery(req);
  }

  lemma TidyInternalQuery(req: SopRequest)
    requires Unpadded(req.topic)
    requires req.details == "" || Unpadded(req.details)
    ensures InternalQuery(req) == if req.details == "" then req.topic else req.topic + " " + req.details
  {
    TidyJoin(req.topic, req.details);
  }

  lemma TidyWebQuery(req: SopRequest)
    requires Unpadded(req.topic)
    requires req.details == "" || Unpadded(req.details)
    ensures WebQuery(req) == "SOP " + req.topic + " best practices"
                             + (if req.details == "" then "" else " " + req.details)
  {
    var w := WebQueryHead(req.topic, req.details);
    TidyJoin(w, req.details);
    if req.details == "" {
      assert w + "" == w;
    } else {
      AppendAssoc(w, " ", req.details);
    }
  }

  /** The web query's text before stripping is its tidy head, a space and the details. */
  lemma WebQueryHead(topic: string, details: string) returns (w: string)
    requires Unpadded(topic)
    ensures w == "SOP " + topic + " best practices" && Unpadded(w)
    ensures "SOP " + topic + " best practices " + details == w + " " + details
  {
    w := "SOP " + topic + " best practices";
    assert w[0] == 'S' && w[|w| - 1] == 's';
    assert "SOP " + topic + " best practices " == w + " ";
  }

  /** Two tidy strings joined by one space strip to themselves; an empty
      second string leaves only the first. */
  lemma TidyJoin(head: string, tail: string)
    requires Unpadded(head)
    requires tail == "" || Unpadded(tail)
    ensures Strip(head + " " + tail) == if tail == "" then head else head + " " + tail
  {
    var q := head + " " + tail;
    if tail == "" {
      assert q == head + " ";
      StripTrailingSpace(head);
    } else {
      assert q[0] == head[0] && q[|q| - 1] == tail[|tail| - 1];
      StripUnpadded(q);
    }
  }

  /** The `i`-th snippet block carries the rank `i + 1`, which reads back as
      that number, followed by the document's text. */
  lemma SnippetBlockLabel(i: nat, doc: Document)
    ensures var b := SnippetBlock(i, doc);
            && Occurs(b, NatToString(i + 1), |SnippetLabelStart|)
            && ParseDecimal(NatToString(i + 1)) == i + 1
            && EndsWith(b, doc.pageContent)
  {
    var n := NatToString(i + 1);
    OccursBetween(SnippetLabelStart, n, " ---\n" + doc.pageContent);
    assert SnippetBlock(i, doc) == SnippetLabelStart + n + (" ---\n" + doc.pageContent);
    ParseNatToString(i + 1);
  }

  /** Every retrieved document appears in the internal context as its own
      labelled block, and the blocks keep the retrieval order. */
  lemma SnippetsInRetrievalOrder(docs: seq<Document>, i: nat)
    requires i < |docs|
    ensures Occurs(InternalContext(docs), SnippetBlock(i, docs[i]), SnippetOffset(docs, i))
    ensures i + 1 < |docs| ==>
              SnippetOffset(docs, i) + |SnippetBlock(i, docs[i])| < SnippetOffset(docs, i + 1)
  {
    var blocks := SnippetBlocks(docs);
    var joined := Join(SnippetSeparator, blocks);
    JoinOccurs(SnippetSeparator, blocks, i);
    var o := JoinOffset(SnippetSeparator, blocks, i);
    assert blocks[i] == SnippetBlock(i, docs[i]);
    assert (SnippetSeparator + joined)[|SnippetSeparator| + o..|SnippetSeparator| + o + |blocks[i]|]
        == joined[o..o + |blocks[i]|];
    if i + 1 < |docs| {
      JoinOffsetStep(SnippetSeparator, blocks, i);
    }
  }

  /** With documents, the internal context opens with the block ranked 1. */
  lemma InternalContextStartsAtRankOne(docs: seq<Document>)
    requires |docs| > 0
    ensures SnippetSeparator + SnippetLabelStart + "1 ---\n" + docs[0].pageContent <= InternalContext(docs)
  {
    FirstBlockOpens(docs);
    assert NatToString(1) == "1";
    assert SnippetSeparator + SnippetBlock(0, docs[0])
        == SnippetSeparator + SnippetLabelStart + "1 ---\n" + docs[0].pageContent;
  }

  /** The filled template holds, in this order and without overlap, the
      labelled topic, the labelled details, the internal context under its
      heading, the web block under its heading and the instruction list. */
  lemma PromptLayout(topic: string, detailsLine: string, internal: string, web: string)
    returns (a: int, b: int, c: int, d: int, e: int)
    ensures var p := Prompt(topic, detailsLine, internal, web);
            var s1, s2, s3, s4, s5 := TopicLabel + topic, DetailsLabel + detailsLine,
                                      InternalHeading + internal, WebHeading + web, InstructionBlock();
            && a + |s1| <= b && b + |s2| <= c && c + |s3| <= d && d + |s4| <= e
            && Occurs(p, s1, a) && Occurs(p, s2, b) && Occurs(p, s3, c)
            && Occurs(p, s4, d) && Occurs(p, s5, e)
  {
    assert Prompt(topic, detailsLine, internal, web)
        == PromptIntro + (TopicLabel + topic) + LineBreak + (DetailsLabel + detailsLine) + SectionBreak
           + (InternalHeading + internal) + SectionBreak + (WebHeading + web) + SectionBreak
           + InstructionBlock() + PromptOutro;
    a, b, c, d, e := FiveInOrder(PromptIntro, TopicLabel + topic, LineBreak, DetailsLabel + detailsLine,
                                 SectionBreak, InternalHeading + internal, SectionBreak, WebHeading + web,
                                 SectionBreak, InstructionBlock(), PromptOutro);
  }

  /** Five pieces interleaved with fixed text occur in order in the whole. */
  lemma FiveInOrder(x0: string, s1: string, x1: string, s2: string, x2: string, s3: string,
                    x3: string, s4: string, x4: string, s5: string, x5: string)
    returns (a: int, b: int, c: int, d: int, e: int)
    ensures var p := x0 + s1 + x1 + s2 + x2 + s3 + x3 + s4 + x4 + s5 + x5;
            && a + |s1| <= b && b + |s2| <= c && c + |s3| <= d && d + |s4| <= e
            && Occurs(p, s1, a) && Occurs(p, s2, b) && Occurs(p, s3, c)
            && Occurs(p, s4, d) && Occurs(p, s5, e)
  {
    var q1 := x0 + s1;
    var q2 := q1 + x1 + s2;
    var q3 := q2 + x2 + s3;
    var q4 := q3 + x3 + s4;
    var q5 := q4 + x4 + s5;
    var p := q5 + x5;
    a, b, c, d, e := |x0|, |q1 + x1|, |q2 + x2|, |q3 + x3|, |q4 + x4|;
    OccursAtEnd(x0, s1);
    OccursExtended(q1, s1, a, x1);
    OccursExtended(q1 + x1, s1, a, s2);
    OccursAtEnd(q1 + x1, s2);
    OccursExtended(q2, s1, a, x2);
    OccursExtended(q2, s2, b, x2);
    OccursExtended(q2 + x2, s1, a, s3);
    OccursExtended(q2 + x2, s2, b, s3);
    OccursAtEnd(q2 + x2, s3);
    OccursExtended(q3, s1, a, x3);
    OccursExtended(q3, s2, b, x3);
    OccursExtended(q3, s3, c, x3);
    OccursExtended(q3 + x3, s1, a, s4);
    OccursExtended(q3 + x3, s2, b, s4);
    OccursExtended(q3 + x3, s3, c, s4);
    OccursAtEnd(q3 + x3, s4);
    OccursExtended(q4, s1, a, x4);
    OccursExtended(q4, s2, b, x4);
    OccursExtended(q4, s3, c, x4);
    OccursExtended(q4, s4, d, x4);
    OccursExtended(q4 + x4, s1, a, s5);
    OccursExtended(q4 + x4, s2, b, s5);
    OccursExtended(q4 + x4, s3, c, s5);
    OccursExtended(q4 + x4, s4, d, s5);
    OccursAtEnd(q4 + x4, s5);
    OccursExtended(q5, s1, a, x5);
    OccursExtended(q5, s2, b, x5);
    OccursExtended(q5, s3, c, x5);
    OccursExtended(q5, s4, d, x5);
    OccursExtended(q5, s5, e, x5);
    assert Occurs(p, s1, a) && Occurs(p, s2, b) && Occurs(p, s3, c) && Occurs(p, s4, d) && Occurs(p, s5, e);
  }

  /** Where the four labelled sections of a request's prompt sit. */
  lemma RequestPromptSections(req: SopRequest, docs: seq<Document>, webText: string)
    returns (a: int, b: int, c: int, d: int)
    ensures var p := RequestPrompt(req, docs, webText);
            && Occurs(p, TopicLabel + req.topic, a)
            && Occurs(p, DetailsLabel + DetailsLine(req.details), b)
            && Occurs(p, InternalHeading + InternalContext(docs), c)
            && Occurs(p, WebHeading + WebBlock(webText), d)
  {
    var e;
    a, b, c, d, e := PromptLayout(req.topic, DetailsLine(req.details), InternalContext(docs), WebBlock(webText));
  }

  /** Both context sections are always in the prompt, under their headings:
      the internal one shows the first-ranked snippet or the placeholder, the
      web one always opens with its header and then shows the web text or the
      placeholder. The topic and the details line are there as well. */
  lemma ContextSectionsAlwaysPresent(req: SopRequest, docs: seq<Document>, webText: string)
    ensures var p := RequestPrompt(req, docs, webText);
            && Contains(p, TopicLabel + req.topic)
            && Contains(p, DetailsLabel + (if req.details != "" then req.details else NoDetails))
            && (docs == [] ==> Contains(p, InternalHeading + NoInternalContext))
            && (docs != [] ==> Contains(p, InternalHeading + SnippetSeparator + SnippetBlock(0, docs[0])))
            && Contains(p, WebHeading + WebHeader)
            && (webText == "" ==> Contains(p, WebHeading + WebHeader + NoExternalInformation))
            && (webText != "" ==> Contains(p, WebHeading + WebHeader + webText))
  {
    var a, b, c, d := RequestPromptSections(req, docs, webText);
    SectionsShown(RequestPrompt(req, docs, webText), req, docs, webText, a, b, c, d);
  }

  /** What the four sections show, wherever they occur. */
  lemma SectionsShown(p: string, req: SopRequest, docs: seq<Document>, webText: string,
                      a: int, b: int, c: int, d: int)
    requires Occurs(p, TopicLabel + req.topic, a)
    requires Occurs(p, DetailsLabel + DetailsLine(req.details), b)
    requires Occurs(p, InternalHeading + InternalContext(docs), c)
    requires Occurs(p, WebHeading + WebBlock(webText), d)
    ensures && Contains(p, TopicLabel + req.topic)
            && Contains(p, DetailsLabel + (if req.details != "" then req.details else NoDetails))
            && (docs == [] ==> Contains(p, InternalHeading + NoInternalContext))
            && (docs != [] ==> Contains(p, InternalHeading + SnippetSeparator + SnippetBlock(0, docs[0])))
            && Contains(p, WebHeading + WebHeader)
            && (webText == "" ==> Contains(p, WebHeading + WebHeader + NoExternalInformation))
            && (webText != "" ==> Contains(p, WebHeading + WebHeader + webText))
  {
    OccursContains(p, TopicLabel + req.topic, a);
    OccursContains(p, DetailsLabel + DetailsLine(req.details), b);
    InternalSectionShown(p, docs, c);
    WebSectionShown(p, webText, d);
  }

  /** What an occurrence of the internal section shows. */
  lemma InternalSectionShown(p: string, docs: seq<Document>, c: int)
    requires Occurs(p, InternalHeading + InternalContext(docs), c)
    ensures docs == [] ==> Contains(p, InternalHeading + NoInternalContext)
    ensures docs != [] ==> Contains(p, InternalHeading + SnippetSeparator + SnippetBlock(0, docs[0]))
  {
    if docs == [] {
      OccursContains(p, InternalHeading + InternalContext(docs), c);
    } else {
      FirstSnippetShown(p, docs, c);
    }
  }

  /** With documents, the internal section shows the block ranked 1. */
  lemma FirstSnippetShown(p: string, docs: seq<Document>, c: int)
    requires |docs| > 0
    requires Occurs(p, InternalHeading + InternalContext(docs), c)
    ensures Contains(p, InternalHeading + SnippetSeparator + SnippetBlock(0, docs[0]))
  {
    var first := SnippetSeparator + SnippetBlock(0, docs[0]);
    FirstBlockOpens(docs);
    HeadedPrefixContained(p, InternalHeading, first, InternalContext(docs), c);
    assert InternalHeading + SnippetSeparator + SnippetBlock(0, docs[0]) == InternalHeading + first;
  }

  /** A non-empty internal context opens with the block ranked 1. */
  lemma FirstBlockOpens(docs: seq<Document>)
    requires |docs| > 0
    ensures SnippetSeparator + SnippetBlock(0, docs[0]) <= InternalContext(docs)
  {
    var blocks := SnippetBlocks(docs);
    JoinOccurs(SnippetSeparator, blocks, 0);
    assert blocks[0] == SnippetBlock(0, docs[0]);
    PrefixAfter(SnippetSeparator, blocks[0], Join(SnippetSeparator, blocks));
  }

  /** A prefix stays a prefix behind a common head. */
  lemma PrefixAfter(h: string, x: string, y: string)
    requires Occurs(y, x, 0)
    ensures h + x <= h + y
  {
    assert (h + y)[..|h + x|] == h + y[..|x|];
  }

  /** A headed text that occurs contains its head followed by any prefix of
      its text. */
  lemma HeadedPrefixContained(p: string, h: string, x: string, y: string, c: int)
    requires Occurs(p, h + y, c) && x <= y
    ensures Contains(p, h + x)
  {
    assert (h + y)[..|h + x|] == h + x;
    OccursPrefix(p, h + y, c, h + x);
    OccursContains(p, h + x, c);
  }

  /** What an occurrence of the web section shows. */
  lemma WebSectionShown(p: string, webText: string, d: int)
    requires Occurs(p, WebHeading + WebBlock(webText), d)
    ensures Contains(p, WebHeading + WebHeader)
    ensures webText == "" ==> Contains(p, WebHeading + WebHeader + NoExternalInformation)
    ensures webText != "" ==> Contains(p, WebHeading + WebHeader + webText)
  {
    var s4 := WebHeading + WebBlock(webText);
    OccursPrefix(p, s4, d, WebHeading + WebHeader);
    OccursContains(p, WebHeading + WebHeader, d);
    if webText == "" {
      assert s4 == WebHeading + WebHeader + NoExternalInformation;
    } else {
      assert s4 == WebHeading + WebHeader + webText;
    }
    OccursContains(p, s4, d);
  }

  /** The instruction list gives the six instructions numbered 1 to 6, in order. */
  lemma InstructionsNumberedInOrder(i: nat)
    requires i < |Instructions|
    ensures var items := NumberedInstructions(Instructions);
            var at := |InstructionsHeading + LineBreak| + JoinOffset(LineBreak, items, i);
            && items[i] == NatToString(i + 1) + ".  " + Instructions[i]
            && Occurs(InstructionBlock(), items[i], at)
            && (i + 1 < |Instructions| ==>
                  at + |items[i]| < |InstructionsHeading + LineBreak| + JoinOffset(LineBreak, items, i + 1))
  {
    var items := NumberedInstructions(Instructions);
    var pre := InstructionsHeading + LineBreak;
    var joined := Join(LineBreak, items);
    JoinOccurs(LineBreak, items, i);
    var o := JoinOffset(LineBreak, items, i);
    assert InstructionBlock() == pre + joined;
    assert (pre + joined)[|pre| + o..|pre| + o + |items[i]|] == joined[o..o + |items[i]|];
    if i + 1 < |Instructions| {
      JoinOffsetStep(LineBreak, items, i);
    }
  }

  /** A completion adapter that failed sends back a text holding the sentinel,
      so the request ends in a 503 carrying that text. */
  lemma CompletionFailureIs503(req: SopRequest, retrieve: (string, nat) -> Retrieval,
                               webSearch: (string, nat) -> string, chat: string -> ChatReply)
    requires retrieve(InternalQuery(req), InternalTopK).Retrieved?
    requires chat(RequestPrompt(req, retrieve(InternalQuery(req), InternalTopK).docs,
                                webSearch(WebQuery(req), WebResultCount))).ChatRaised?
    ensures Respond(req, retrieve, webSearch, p => CompletionText(chat(p)))
         == HttpError(503, CompletionFailureMessage)
  {
  }

  /** A retriever that raises ends the request in a 500 whose detail carries the
      exception text, and neither the web search nor the model is consulted. */
  lemma RetrievalFailureIs500(req: SopRequest, retrieve: (string, nat) -> Retrieval,
                              webSearch1: (string, nat) -> string, complete1: string -> string,
                              webSearch2: (string, nat) -> string, complete2: string -> string)
    requires retrieve(InternalQuery(req), InternalTopK).RetrievalRaised?
    ensures Respond(req, retrieve, webSearch1, complete1)
         == HttpError(500, InternalErrorPrefix + retrieve(InternalQuery(req), InternalTopK).error)
    ensures Respond(req, retrieve, webSearch1, complete1) == Respond(req, retrieve, webSearch2, complete2)
  {
  }

  /** Without a SerpAPI key the adapter's unavailability text is non-empty, so
      the web block shows it as found external information rather than the
      "nothing found" placeholder. */
  lemma MissingKeyWebBlock()
    ensures WebBlock(WebSearch.MissingKeyMessage) == WebHeader + WebSearch.MissingKeyMessage
    ensures WebBlock(WebSearch.MissingKeyMessage) != WebHeader + NoExternalInformation
  {
    assert |WebSearch.MissingKeyMessage| != |NoExternalInformation|;
  }

  /** A search call that raised also comes back as a non-empty text, which the
      web block shows as found external information in place of the
      "nothing found" placeholder. */
  lemma SearchErrorWebBlock(key: string, query: string, numResults: nat,
                            search: WebSearch.SearchParams -> WebSearch.SearchResponse)
    requires key != ""
    requires search(WebSearch.SearchParams(key, WebSearch.SearchEngine, query, numResults)).Raised?
    ensures var text := WebSearch.PerformWebSearch(Some(key), query, numResults, search);
            && text == WebSearch.ErrorMessage(query)
            && WebBlock(text) == WebHeader + text
            && WebBlock(text) != WebHeader + NoExternalInformation
  {
    var text := WebSearch.ErrorMessage(query);
    assert text[0] == 'F';
    assert (WebHeader + text)[|WebHeader|] != (WebHeader + NoExternalInformation)[|WebHeader|];
  }

  /** ... and the missing-key text is what the prompt's web section then shows. */
  lemma MissingKeyTextReachesPrompt(req: SopRequest, docs: seq<Document>,
                                    search: WebSearch.SearchParams -> WebSearch.SearchResponse)
    ensures WebSearch.PerformWebSearch(None, WebQuery(req), WebResultCount, search) == WebSearch.MissingKeyMessage
    ensures Contains(RequestPrompt(req, docs, WebSearch.MissingKeyMessage),
                     WebHeading + WebHeader + WebSearch.MissingKeyMessage)
  {
    var webText := WebSearch.MissingKeyMessage;
    var a, b, c, d := RequestPromptSections(req, docs, webText);
    WebSectionShown(RequestPrompt(req, docs, webText), webText, d);
  }

  /** A missing SerpAPI key alone does not fail a request: with the retriever
      working and a completion free of the sentinel, the SOP comes back. */
  lemma MissingKeyStillAnswers(req: SopRequest, retrieve: (string, nat) -> Retrieval,
                               search: WebSearch.SearchParams -> WebSearch.SearchResponse,
                               complete: string -> string)
    requires retrieve(InternalQuery(req), InternalTopK).Retrieved?
    requires !Contains(complete(RequestPrompt(req, retrieve(InternalQuery(req), InternalTopK).docs,
                                              WebSearch.MissingKeyMessage)), Sentinel)
    ensures Respond(req, retrieve, (q: string, n: nat) => WebSearch.PerformWebSearch(None, q, n, search), complete).Sop?
  {
  }
}
