/**
 * The SREIPS query service (sreips-agent/sreips-agent.py): it asks a RAG agent and an
 * MCP agent the same question, keeps the non-internal events of each agent's stream,
 * and serialises both answers into one text with two section headers, which the
 * Robusta actions split apart again.
 */
module QueryAgent {
  import opened Wrappers
  import opened Text
  import opened ModelRegistry
  import opened SlackMarkdown

  const RagFallback: string := "No RAG response found."
  const McpFallback: string := "No MCP response found."
  const EmptyQueryDetail: string := "Query cannot be empty"

  /** One event of an agent's stream: its role (None for a role-less event) and its `str()`. */
  datatype AgentEvent = AgentEvent(role: Option<string>, rendered: string)

  /** The reply of `POST /query`: the combined results, or an HTTP error. */
  datatype QueryResponse = Combined(combinedResults: string) | HttpError(status: int, detail: string)

  /** Events that are neither inference steps nor tool executions reach the answer. */
  predicate Kept(e: AgentEvent) {
    e.role != Some("inference") && e.role != Some("tool_execution")
  }

  /** The identifier of the first listed model of type "llm", as `next(...)` picks it. */
  function SelectLlm(models: seq<ModelInfo>): (r: Option<string>)
    ensures r.None? <==> forall j :: 0 <= j < |models| ==> models[j].modelType != "llm"
    ensures r.Some? ==> exists i :: 0 <= i < |models| && models[i].modelType == "llm"
                          && r.value == models[i].identifier
                          && forall j :: 0 <= j < i ==> models[j].modelType != "llm"
  {
    match FirstWhere(models, (m: ModelInfo) => m.modelType == "llm")
    case None => None
    case Some(i) => Some(models[i].identifier)
  }

  /**
   * The module's global `client` / `model_id` pair. `clientSet` says whether the
   * LlamaStack client has been created; the client's own state is outside the model.
   */
  class AgentService {
    var clientSet: bool
    var modelId: Option<string>

    constructor()
      ensures !clientSet && modelId == None
    {
      clientSet := false;
      modelId := None;
    }

    /**
     * `initialize_client`. `models` is what `client.models.list()` yields (or the text
     * of the exception it raises) and `registration` the outcome of registering the MCP
     * toolgroup. Once the client is set nothing happens. Otherwise the client is set
     * before listing, so a failed listing or a list without an "llm" model raises and
     * leaves `model_id` as it was, yet a later call does nothing. Registration errors
     * are swallowed.
     */
    method InitializeClient(models: Result<seq<ModelInfo>, string>, registration: Result<(), string>)
      returns (outcome: Result<(), string>)
      modifies this
      ensures old(clientSet) ==> clientSet == old(clientSet) && modelId == old(modelId) && outcome.Success?
      ensures !old(clientSet) ==> clientSet
      ensures !old(clientSet) && models.Failure? ==> outcome == Failure(models.error) && modelId == old(modelId)
      ensures !old(clientSet) && models.Success? && SelectLlm(models.value).None? ==>
                outcome == Failure("StopIteration") && modelId == old(modelId)
      ensures !old(clientSet) && models.Success? && SelectLlm(models.value).Some? ==>
                outcome.Success? && modelId == SelectLlm(models.value)
    {
      if clientSet {
        return Success(());
      }
      clientSet := true;
      if models.Failure? {
        return Failure(models.error);
      }
      var picked := SelectLlm(models.value);
      if picked.None? {
        return Failure("StopIteration");
      }
      modelId := picked;
      // a failed registration is only logged
      outcome := Success(());
    }
  }

  /** The kept events, in stream order. */
  function KeptEvents(events: seq<AgentEvent>): (r: seq<AgentEvent>)
    ensures |r| <= |events|
    ensures forall k :: 0 <= k < |r| ==> Kept(r[k]) && r[k] in events
    ensures forall k :: 0 <= k < |events| && Kept(events[k]) ==> events[k] in r
  {
    if events == [] then []
    else
      var rest := KeptEvents(events[1..]);
      assert forall k :: 1 <= k < |events| ==> events[k] == events[1..][k - 1];
      if Kept(events[0]) then [events[0]] + rest else rest
  }

  /** `"".join(str(x) for x in events)`. */
  function Rendered(events: seq<AgentEvent>): string
  {
    if events == [] then "" else events[0].rendered + Rendered(events[1..])
  }

  /** The answer of one agent: its kept events rendered in order, or the fallback text. */
  function AgentText(events: seq<AgentEvent>, fallback: string): string
  {
    var kept := KeptEvents(events);
    if kept == [] then fallback else Rendered(kept)
  }

  /**
   * The loop of `query_rag_agent` / `query_mcp_agent` over the agent's event stream:
   * append every kept event, then join them, or answer `fallback` when none is kept.
   */
  method CollectAgentOutput(events: seq<AgentEvent>, fallback: string) returns (text: string)
    ensures text == AgentText(events, fallback)
  {
    var output: seq<AgentEvent> := [];
    var i := 0;
    while i < |events|
      invariant 0 <= i <= |events|
      invariant output == KeptEvents(events[..i])
    {
      KeptEventsAppend(events[..i], events[i]);
      assert events[..i + 1] == events[..i] + [events[i]];
      if Kept(events[i]) {
        output := output + [events[i]];
      }
      i := i + 1;
    }
    assert events[..i] == events;
    if output != [] {
      text := RenderAll(output);
    } else {
      text := fallback;
    }
  }

  /** `"".join(output)`: the rendered events concatenated in order. */
  method RenderAll(output: seq<AgentEvent>) returns (text: string)
    ensures text == Rendered(output)
  {
    text := "";
    var j := 0;
    while j < |output|
      invariant 0 <= j <= |output|
      invariant text + Rendered(output[j..]) == Rendered(output)
    {
      assert output[j..][1..] == output[j + 1..];
      text := text + output[j].rendered;
      j := j + 1;
    }
  }

  lemma {:induction false} KeptEventsAppend(events: seq<AgentEvent>, e: AgentEvent)
    ensures KeptEvents(events + [e]) == KeptEvents(events) + (if Kept(e) then [e] else [])
    decreases |events|
  {
    if events == [] {
      assert [] + [e] == [e];
      assert [e][1..] == [];
    } else {
      assert (events + [e])[1..] == events[1..] + [e];
      KeptEventsAppend(events[1..], e);
    }
  }

  /** The f-string of `query_agents` that combines the two answers. */
  function CombineResults(rag: string, mcp: string): string {
    RagHeader + "\n" + rag + "\n\n" + McpHeader + "\n" + mcp
  }

  predicate IsBlank(q: string) {
    Strip(q) == ""
  }

  /**
   * What `POST /query` answers, given the query and what each agent call yields
   * (its event stream, or the text of the exception it raised). The 400 raised for a
   * blank query is caught by the handler's own `except Exception` and re-raised as a
   * 500 whose detail embeds the 400's string form, "400: Query cannot be empty".
   */
  function QueryAgentsResult(query: string, rag: Result<seq<AgentEvent>, string>,
                             mcp: Result<seq<AgentEvent>, string>): QueryResponse
  {
    if IsBlank(query) then
      HttpError(500, "Error processing query: 400: " + EmptyQueryDetail)
    else if rag.Failure? then
      HttpError(500, "Error processing query: " + rag.error)
    else if mcp.Failure? then
      HttpError(500, "Error processing query: " + mcp.error)
    else
      Combined(CombineResults(AgentText(rag.value, RagFallback), AgentText(mcp.value, McpFallback)))
  }

  /** `query_agents`: validate, ask the RAG agent, then the MCP agent, and combine. */
  method QueryAgents(query: string, rag: Result<seq<AgentEvent>, string>,
                     mcp: Result<seq<AgentEvent>, string>) returns (r: QueryResponse)
    ensures r == QueryAgentsResult(query, rag, mcp)
    ensures IsBlank(query) ==> r.HttpError? && r.status == 500
    ensures !IsBlank(query) && rag.Success? && mcp.Success? ==> r.Combined?
  {
    if Strip(query) == "" {
      return HttpError(500, "Error processing query: 400: " + EmptyQueryDetail);
    }
    if rag.Failure? {
      return HttpError(500, "Error processing query: " + rag.error);
    }
    var ragText := CollectAgentOutput(rag.value, RagFallback);
    if mcp.Failure? {
      return HttpError(500, "Error processing query: " + mcp.error);
    }
    var mcpText := CollectAgentOutput(mcp.value, McpFallback);
    r := Combined(CombineResults(ragText, mcpText));
  }

  /** A blank query never reaches the agents: the answer does not depend on what they would say. */
  lemma BlankQueryNeverReachesAgents(query: string,
                                     rag1: Result<seq<AgentEvent>, string>, mcp1: Result<seq<AgentEvent>, string>,
                                     rag2: Result<seq<AgentEvent>, string>, mcp2: Result<seq<AgentEvent>, string>)
    requires IsBlank(query)
    ensures QueryAgentsResult(query, rag1, mcp1) == QueryAgentsResult(query, rag2, mcp2)
    ensures QueryAgentsResult(query, rag1, mcp1).status == 500
  {
  }

  /** The kept events are exactly the stream with inference and tool-execution events removed. */
  lemma {:induction false} KeptEventsDropsOnlyInternal(events: seq<AgentEvent>)
    ensures |KeptEvents(events)| + |InternalEvents(events)| == |events|
    decreases |events|
  {
    if events != [] {
      KeptEventsDropsOnlyInternal(events[1..]);
    }
  }

  function InternalEvents(events: seq<AgentEvent>): seq<AgentEvent> {
    if events == [] then []
    else (if Kept(events[0]) then [] else [events[0]]) + InternalEvents(events[1..])
  }

  /** Rendering distributes over concatenation: answers keep stream order. */
  lemma {:induction false} RenderedAppend(a: seq<AgentEvent>, b: seq<AgentEvent>)
    ensures Rendered(a + b) == Rendered(a) + Rendered(b)
    decreases |a|
  {
    if a == [] {
      assert a + b == b;
    } else {
      assert (a + b)[1..] == a[1..] + b;
      RenderedAppend(a[1..], b);
    }
  }

  // ----- the serialisation is inverted by the Robusta actions' parser -----

  lemma HeadersDiffer()
    ensures '\n' !in RagHeader && '\n' !in McpHeader
    ensures !Contains(RagHeader, McpHeader)
    ensures !Contains("\n", RagHeader) && !Contains("\n\n", RagHeader)
    ensures !Contains("", RagHeader) && !Contains("", McpHeader)
  {
    assert RagHeader[4] != McpHeader[4];
    assert !OccursAt(RagHeader, McpHeader, 0);
    assert FindFrom(RagHeader, McpHeader, 1) == None;
  }

  /** The combined text splits at the MCP header into the padded RAG section and the padded MCP answer. */
  lemma CombinedSplit(rag: string, mcp: string)
    requires !Contains(rag, McpHeader) && !Contains(mcp, McpHeader)
    ensures Split(CombineResults(rag, mcp), McpHeader)
         == [RagHeader + ("\n" + rag + "\n\n"), "\n" + mcp]
  {
    HeadersDiffer();
    assert CombineResults(rag, mcp) == RagHeader + ['\n'] + rag + ['\n', '\n'] + McpHeader + ['\n'] + mcp;
    SplitAtSecondHeader(RagHeader, McpHeader, '\n', rag, mcp);
    assert ['\n'] + rag + ['\n', '\n'] == "\n" + rag + "\n\n";
  }

  /** The split of the combined layout, for any headers and any separator character. */
  lemma SplitAtSecondHeader(h1: string, h2: string, c: char, rag: string, mcp: string)
    requires |h2| > 0 && c !in h2
    requires !Contains(h1, h2) && !Contains(rag, h2) && !Contains(mcp, h2) && !Contains([], h2)
    ensures Split(h1 + [c] + rag + [c, c] + h2 + [c] + mcp, h2) == [h1 + ([c] + rag + [c, c]), [c] + mcp]
  {
    FreeAroundAnswer(h1, c, rag, h2);
    SplitAfterFree(h1 + [c] + rag + [c], c, h2, mcp);
    LayoutRegrouped(h1, c, rag, h2, mcp);
  }

  lemma LayoutRegrouped(h1: string, c: char, rag: string, h2: string, mcp: string)
    ensures h1 + [c] + rag + [c, c] + h2 + [c] + mcp == (h1 + [c] + rag + [c]) + [c] + (h2 + [c] + mcp)
    ensures (h1 + [c] + rag + [c]) + [c] == h1 + ([c] + rag + [c, c])
  {
  }

  lemma FreeAroundAnswer(h1: string, c: char, rag: string, h2: string)
    requires c !in h2 && !Contains(h1, h2) && !Contains(rag, h2) && !Contains([], h2)
    ensures !Contains(h1 + [c] + rag + [c], h2)
  {
    FreeAcross(rag, c, [], h2);
    assert rag + [c] + [] == rag + [c];
    FreeAcross(h1, c, rag + [c], h2);
    assert h1 + [c] + (rag + [c]) == h1 + [c] + rag + [c];
  }

  /** A text free of the separator, a character outside it, then the separator: split once, there. */
  lemma SplitAfterFree(x: string, c: char, sep: string, tail: string)
    requires |sep| > 0 && c !in sep
    requires !Contains(x, sep) && !Contains(tail, sep) && !Contains([], sep)
    ensures Split(x + [c] + (sep + [c] + tail), sep) == [x + [c], [c] + tail]
  {
    var s := x + [c] + (sep + [c] + tail);
    var k := |x| + 1;
    FoundAfterFree(x, c, sep, tail);
    FreeTail(x, c, sep, tail);
    SplitOnce(s, sep, k);
  }

  lemma FoundAfterFree(x: string, c: char, sep: string, tail: string)
    requires |sep| > 0 && c !in sep && !Contains(x, sep)
    ensures FindFrom(x + [c] + (sep + [c] + tail), sep, 0) == Some(|x| + 1)
  {
    var y := sep + [c] + tail;
    FindPastFree(x, c, y, sep);
    assert y[..|sep|] == sep;
    FindAtStart(y, sep);
  }

  lemma FreeTail(x: string, c: char, sep: string, tail: string)
    requires |sep| > 0 && c !in sep && !Contains(tail, sep) && !Contains([], sep)
    ensures var s := x + [c] + (sep + [c] + tail);
      s[..|x| + 1] == x + [c] && s[|x| + 1 + |sep|..] == [c] + tail && !Contains([c] + tail, sep)
  {
    FreeAcross([], c, tail, sep);
    assert [] + [c] + tail == [c] + tail;
    var s := x + [c] + (sep + [c] + tail);
    assert s[..|x| + 1] == x + [c];
    assert s[|x| + 1 + |sep|..] == [c] + tail;
  }

  /**
   * Round trip: when neither answer contains a header that would confuse the split
   * (the RAG answer neither header, the MCP answer not the MCP header), parsing the
   * combined text gives back both answers, stripped and converted for Slack.
   */
  lemma CombineParseRoundTrip(rag: string, mcp: string)
    requires !Contains(rag, RagHeader) && !Contains(rag, McpHeader) && !Contains(mcp, McpHeader)
    ensures ParseCombinedResults(CombineResults(rag, mcp))
         == (ConvertMarkdownToSlack(Strip(rag)), ConvertMarkdownToSlack(Strip(mcp)))
  {
    HeadersDiffer();
    var s := CombineResults(rag, mcp);
    // both headers are present
    assert OccursAt(s, RagHeader, 0);
    OccursThenContains(s, RagHeader, 0);
    CombinedSplit(rag, mcp);
    var k := |RagHeader| + 1 + |rag| + 2;
    assert OccursAt(s, McpHeader, k);
    OccursThenContains(s, McpHeader, k);
    // removing the RAG header leaves the padded RAG answer
    FreeAcross(rag, '\n', "\n", RagHeader);
    assert rag + ['\n'] + "\n" == rag + "\n\n";
    FreeAcross("", '\n', rag + "\n\n", RagHeader);
    assert "" + ['\n'] + (rag + "\n\n") == "\n" + rag + "\n\n";
    DeleteLeading(RagHeader, "\n" + rag + "\n\n");
    // stripping removes the newlines the serialiser added
    StripPadded("\n", rag, "\n\n");
    StripPadded("\n", mcp, "");
    assert "\n" + mcp + "" == "\n" + mcp;
  }
}
