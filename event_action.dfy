/**
 * The general Robusta action for Kubernetes events
 * (custom_playbooks/custom_actions/sreips-ce-action.py): it maps the event reason to a
 * search prompt, asks the SREIPS query service, and posts the answer as Slack blocks.
 * Unlike the quota action it reads the event's attributes directly, so an event without
 * one of them (or whose involved object is absent or `None`) raises and posts nothing;
 * the action has no exception handler.
 */
module EventAction {
  import opened Wrappers
  import opened Text
  import opened SlackMarkdown
  import opened ActionCommon

  /** `PROMPT_MAPPINGS`: short search prompts for common failure reasons. */
  const EventPromptMappings: map<string, string> := map[
    "FailedScheduling" := "pod scheduling failure OpenShift",
    "PersistentVolumeClaimNotBound" := "PVC not bound OpenShift storage",
    "VolumeAttachFailed" := "volume attachment failure OpenShift",
    "ProvisioningFailed" := "PVC provisioning failed OpenShift storage",
    "FailedMount" := "volume mount failure OpenShift",
    "FailedAttachVolume" := "volume attachment failure OpenShift"]

  const OpenShiftSuffix: string := " OpenShift"

  /** `PROMPT_MAPPINGS.get(event_reason, f"{event_reason} OpenShift")`. */
  function EventPrompt(reason: string): string {
    Get(EventPromptMappings, reason, reason + OpenShiftSuffix)
  }

  /**
   * A reason outside the table is searched for verbatim, followed by " OpenShift", so
   * distinct unknown reasons give distinct prompts; the two volume-attachment reasons of
   * the table share one prompt.
   */
  lemma EventPromptFallback(a: string, b: string)
    requires a !in EventPromptMappings && b !in EventPromptMappings
    ensures StartsWith(EventPrompt(a), a) && EndsWith(EventPrompt(a), OpenShiftSuffix)
    ensures EventPrompt(a) == EventPrompt(b) ==> a == b
    ensures EventPrompt("VolumeAttachFailed") == EventPrompt("FailedAttachVolume")
  {
    var r := EventPrompt(a);
    assert r[..|a|] == a;
    assert r[|r| - |OpenShiftSuffix|..] == OpenShiftSuffix;
    if EventPrompt(a) == EventPrompt(b) {
      assert |a| == |b|;
      assert b == EventPrompt(b)[..|b|];
    }
  }

  /**
   * The attributes the action reads directly: reason, message, type, the involved object
   * and its kind, name and namespace. `None` when one of them is absent, or the involved
   * object is `None`, and reading raises AttributeError; an attribute that is `None`
   * prints as "None". The type is read but never used.
   */
  function EventContextOf(e: K8sEvent): (r: Option<EventContext>)
    ensures r.Some? <==> && e.reason != Absent && e.message != Absent && e.eventType != Absent
                         && e.involvedObject.HasObject?
                         && e.involvedObject.obj.kind != Absent && e.involvedObject.obj.name != Absent
                         && e.involvedObject.obj.namespace != Absent
    ensures r.Some? ==>
      var o := e.involvedObject.obj;
      r.value == EventContext(Printed(e.reason, ""), Printed(e.message, ""),
                              Printed(o.kind, ""), Printed(o.name, ""), Printed(o.namespace, ""))
  {
    if e.reason == Absent || e.message == Absent || e.eventType == Absent || !e.involvedObject.HasObject? then
      None
    else
      var o := e.involvedObject.obj;
      if o.kind == Absent || o.name == Absent || o.namespace == Absent then None
      else Some(EventContext(Printed(e.reason, ""), Printed(e.message, ""),
                             Printed(o.kind, ""), Printed(o.name, ""), Printed(o.namespace, "")))
  }

  const EventIcon: char := '\U{1F6A8}'

  const EventHeader: string := "*\U{1F6A8} Kubernetes Event:* "

  /** The event line: the header, then the event's reason as it is. */
  function EventLine(reason: string): (t: string)
    ensures Icon(t) == EventIcon && HeadedBy(t, EventHeader, reason)
  {
    HeaderThenText(EventHeader, reason);
    EventHeader + reason
  }

  /** The blocks `lls_agent_event_action` posts, given the parsed RAG and MCP texts. */
  function EventEnrichment(c: EventContext, rag: string, mcp: string): seq<Block> {
    [MarkdownBlock(EventLine(c.reason)), MarkdownBlock(ResourceLine(c)), MarkdownBlock(MessageLine(c)), DividerBlock]
    + (if rag != "" then [MarkdownBlock(KnowledgeSection(rag)), DividerBlock] else [])
    + (if mcp != "" then [MarkdownBlock(ArticlesSection(mcp))] else [])
  }

  /**
   * The layout of the event enrichment: the three header lines and a divider always
   * lead; the RAG block, with a divider after it, appears exactly when the RAG text is
   * non-empty; the MCP block appears exactly when the MCP text is non-empty, as the last
   * block with no divider after it; there is no button.
   */
  lemma EventEnrichmentShape(c: EventContext, rag: string, mcp: string)
    ensures var r := EventEnrichment(c, rag, mcp);
      && |r| == 4 + 2 * Count(rag != "") + Count(mcp != "")
      && r[0] == MarkdownBlock(EventLine(c.reason)) && r[1] == MarkdownBlock(ResourceLine(c))
      && r[2] == MarkdownBlock(MessageLine(c)) && r[3] == DividerBlock
      && (forall i :: 0 <= i < |r| ==> !r[i].CallbackBlock?)
      && ((exists i :: 0 <= i < |r| && ShowsIcon(r[i], KnowledgeIcon)) <==> rag != "")
      && ((exists i :: 0 <= i < |r| && ShowsIcon(r[i], ArticlesIcon)) <==> mcp != "")
      && (mcp != "" ==> r[|r| - 1] == MarkdownBlock(ArticlesSection(mcp)))
  {
    var r := EventEnrichment(c, rag, mcp);
    var h := [MarkdownBlock(EventLine(c.reason)), MarkdownBlock(ResourceLine(c)), MarkdownBlock(MessageLine(c)), DividerBlock];
    var k := if rag != "" then [MarkdownBlock(KnowledgeSection(rag)), DividerBlock] else [];
    var a := if mcp != "" then [MarkdownBlock(ArticlesSection(mcp))] else [];
    assert r == h + k + a;
    if rag != "" {
      assert ShowsIcon(r[4], KnowledgeIcon);
    }
    if mcp != "" {
      assert ShowsIcon(r[4 + |k|], ArticlesIcon);
    }
    forall i | 0 <= i < |r| && r[i].MarkdownBlock?
      ensures Icon(r[i].text) == KnowledgeIcon ==> rag != ""
      ensures Icon(r[i].text) == ArticlesIcon ==> mcp != ""
    {
      if i < 4 {
        assert r[i] == h[i];
      } else if i < 4 + |k| {
        assert r[i] == k[i - 4];
      } else {
        assert r[i] == a[i - 4 - |k|];
      }
    }
  }

  const NoEventResults: string := "No results"

  /**
   * `lls_agent_event_action`: `None` when reading an attribute raises (nothing is asked
   * or posted); otherwise the prompt sent (`ask` stands for the HTTP POST of it) and the
   * blocks posted.
   */
  method LlsAgentEventAction(event: K8sEvent, ask: string -> HttpOutcome, agentUrl: string)
    returns (r: Option<(string, seq<Block>)>)
    ensures r.None? <==> EventContextOf(event).None?
    ensures r.Some? ==>
      var c := EventContextOf(event).value;
      var parsed := ParseCombinedResults(CombinedResultsOf(ask(EventPrompt(c.reason)), agentUrl, NoEventResults));
      r.value == (EventPrompt(c.reason), EventEnrichment(c, parsed.0, parsed.1))
  {
    var context := EventContextOf(event);
    if context.None? {
      return None;
    }
    var c := context.value;
    var prompt := EventPrompt(c.reason);
    var combined := CombinedResultsOf(ask(prompt), agentUrl, NoEventResults);
    var parsed := ParseCombinedResults(combined);
    var blocks := BuildEventEnrichment(c, parsed.0, parsed.1);
    r := Some((prompt, blocks));
  }

  /** The `enrichment_blocks` list, started with the header and appended to block by block. */
  method BuildEventEnrichment(c: EventContext, rag: string, mcp: string) returns (blocks: seq<Block>)
    ensures blocks == EventEnrichment(c, rag, mcp)
  {
    blocks := [MarkdownBlock(EventLine(c.reason)), MarkdownBlock(ResourceLine(c)),
               MarkdownBlock(MessageLine(c)), DividerBlock];
    if rag != "" {
      blocks := blocks + [MarkdownBlock(KnowledgeSection(rag))];
      blocks := blocks + [DividerBlock];
    }
    if mcp != "" {
      blocks := blocks + [MarkdownBlock(ArticlesSection(mcp))];
    }
  }
}
