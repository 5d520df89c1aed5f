/**
 * What the two Robusta actions (custom_playbooks/custom_actions/sreips-quota-action.py and
 * sreips-ce-action.py) share besides the text transforms: the Kubernetes event they read,
 * the call to the SREIPS query service, and the Slack blocks they emit.
 */
module ActionCommon {
  import opened Wrappers

  /**
   * An attribute of a Kubernetes object as Python reads it: not there at all, there and
   * `None` (a field the object leaves unset), or a string.
   */
  datatype Attr = Absent | NoneValue | Text(s: string)

  /**
   * What an f-string prints for an attribute read with `getattr(obj, name, default)`: the
   * default when the attribute is absent, "None" when it is `None`, the string otherwise.
   * A direct read (`obj.name`) prints the same for an attribute that is there.
   */
  function Printed(a: Attr, default: string): string {
    match a
    case Absent => default
    case NoneValue => "None"
    case Text(s) => s
  }

  /** The `involvedObject` of an event. */
  datatype InvolvedObject = InvolvedObject(kind: Attr, name: Attr, namespace: Attr)

  /** The event's `involvedObject` attribute: absent, `None`, or an object (which is truthy). */
  datatype ObjectAttr = NoObject | NoneObject | HasObject(obj: InvolvedObject)

  /** A Kubernetes event as the actions read it; `eventType` is its `type`. */
  datatype K8sEvent = K8sEvent(reason: Attr, message: Attr, eventType: Attr, involvedObject: ObjectAttr)

  /** How an HTTP POST made with `requests` ended. */
  datatype HttpOutcome =
    | Responded(body: map<string, string>)  // a 2xx answer whose JSON body is an object of strings
    | TimedOut                              // `requests.exceptions.Timeout`
    | ConnectionFailed                      // `requests.exceptions.ConnectionError`
    | Raised(error: string)                 // any other exception (an HTTP error status among them), as `str(e)`

  /** The enrichment blocks the actions hand to Robusta. */
  datatype Block =
    | MarkdownBlock(text: string)
    | DividerBlock
    | CallbackBlock(choice: string, actionParams: map<string, string>)

  /** 1 for a section that is there, 0 for one that is not. */
  function Count(b: bool): nat {
    if b then 1 else 0
  }

  /**
   * `query_sreips_agent`: the query service's JSON body, or a one-key dict whose
   * `combined_results` describes the failure. `agentUrl` is `SREIPS_AGENT_URL`.
   */
  function QuerySreipsAgent(outcome: HttpOutcome, agentUrl: string): (r: map<string, string>)
    ensures outcome.Responded? ==> r == outcome.body
    ensures !outcome.Responded? ==> r.Keys == {"combined_results"}
  {
    match outcome
    case Responded(body) => body
    case TimedOut => map["combined_results" := "Error" + ": Request to SREIPS Agent timed out"]
    case ConnectionFailed => map["combined_results" := "Error" + ": Could not connect to SREIPS Agent at " + agentUrl]
    case Raised(e) => map["combined_results" := "Error" + " querying SREIPS Agent: " + e]
  }

  lemma ErrorFirst(rest: string)
    ensures |"Error" + rest| > 5 <==> |rest| > 0
    ensures |"Error" + rest| >= 5 && ("Error" + rest)[..5] == "Error"
  {
    assert ("Error" + rest)[..5] == "Error";
  }

  /** `results.get("combined_results", default)` on what the query service call returned. */
  function CombinedResultsOf(outcome: HttpOutcome, agentUrl: string, default: string): (r: string)
    ensures !outcome.Responded? ==> |r| > 5 && r[..5] == "Error"
    ensures outcome.Responded? && "combined_results" !in outcome.body ==> r == default
    ensures outcome.Responded? && "combined_results" in outcome.body ==> r == outcome.body["combined_results"]
  {
    var body := QuerySreipsAgent(outcome, agentUrl);
    match outcome
    case Responded(_) => Get(body, "combined_results", default)
    case TimedOut =>
      ErrorFirst(": Request to SREIPS Agent timed out");
      body["combined_results"]
    case ConnectionFailed =>
      ErrorFirst(": Could not connect to SREIPS Agent at " + agentUrl);
      assert "Error" + ": Could not connect to SREIPS Agent at " + agentUrl
          == "Error" + (": Could not connect to SREIPS Agent at " + agentUrl);
      body["combined_results"]
    case Raised(e) =>
      ErrorFirst(" querying SREIPS Agent: " + e);
      assert "Error" + " querying SREIPS Agent: " + e == "Error" + (" querying SREIPS Agent: " + e);
      body["combined_results"]
  }

  /** The event fields the actions print, after their attribute defaults were applied. */
  datatype EventContext = EventContext(reason: string, message: string, kind: string, name: string, namespace: string)

  // The Slack lines both actions print. Each starts with '*' and an icon, and the icon
  // (the character at index 1) tells the blocks apart.

  const ResourceIcon: char := '\U{1F4E6}'
  const MessageIcon: char := '\U{1F4AC}'
  const KnowledgeIcon: char := '\U{1F4DA}'
  const ArticlesIcon: char := '\U{1F517}'

  /** The icon of a Slack line: its second character. */
  function Icon(text: string): char {
    if |text| >= 2 then text[1] else ' '
  }

  const ResourceHeader: string := "*\U{1F4E6} Resource:* "

  /** Where the object is: its kind, its name in backticks, and its namespace in backticks. */
  function Location(c: EventContext): string {
    c.kind + " `" + c.name + "` in `" + c.namespace + "`"
  }

  /** The resource line: the header, then the kind, the name and the namespace. */
  function ResourceLine(c: EventContext): (t: string)
    ensures Icon(t) == ResourceIcon && HeadedBy(t, ResourceHeader, Location(c))
  {
    var p := "*\U{1F4E6} " + "Resource:" + "* ";
    HeaderThenText(ResourceHeader, Location(c));
    assert p + c.kind + " `" + c.name + "` in `" + c.namespace + "`" == ResourceHeader + Location(c);
    p + c.kind + " `" + c.name + "` in `" + c.namespace + "`"
  }

  const MessageHeader: string := "*\U{1F4AC} Message:* "
  const KnowledgeHeader: string := "*\U{1F4DA} Knowledge Base Resolution:*\n"
  const ArticlesHeader: string := "*\U{1F517} Red Hat KCS Articles:*\n"

  /** A line made of a header and a text: the header comes first, the text follows it whole. */
  predicate HeadedBy(t: string, header: string, text: string) {
    |t| == |header| + |text| && t[..|header|] == header && t[|header|..] == text
  }

  lemma HeaderThenText(header: string, text: string)
    requires |header| >= 2
    ensures HeadedBy(header + text, header, text) && Icon(header + text) == header[1]
  {
    assert (header + text)[1] == header[1];
    assert (header + text)[..|header|] == header;
    assert (header + text)[|header|..] == text;
  }

  /** The message line: the header, then the event's message as it is. */
  function MessageLine(c: EventContext): (t: string)
    ensures Icon(t) == MessageIcon && HeadedBy(t, MessageHeader, c.message)
  {
    HeaderThenText(MessageHeader, c.message);
    MessageHeader + c.message
  }

  /** The knowledge-base section: the header line, then the converted RAG answer. */
  function KnowledgeSection(rag: string): (t: string)
    ensures Icon(t) == KnowledgeIcon && HeadedBy(t, KnowledgeHeader, rag)
  {
    HeaderThenText(KnowledgeHeader, rag);
    KnowledgeHeader + rag
  }

  /** The KCS section: the header line, then the converted MCP answer. */
  function ArticlesSection(mcp: string): (t: string)
    ensures Icon(t) == ArticlesIcon && HeadedBy(t, ArticlesHeader, mcp)
  {
    HeaderThenText(ArticlesHeader, mcp);
    ArticlesHeader + mcp
  }

  /** Different texts give different lines under the same header, so the line carries its text. */
  lemma HeadedByDetermines(t: string, header: string, a: string, b: string)
    requires HeadedBy(t, header, a) && HeadedBy(t, header, b)
    ensures a == b
  {
  }

  /** A block is a Markdown block showing the given icon. */
  predicate ShowsIcon(b: Block, icon: char) {
    b.MarkdownBlock? && Icon(b.text) == icon
  }
}

