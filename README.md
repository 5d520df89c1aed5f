# SREIPS agent: a Dafny model

SREIPS is a set of Python services that help an OpenShift site-reliability team with
failing workloads:

- **Ingestion pipeline** (`llamastack/docling-pipeline.py`). A Kubeflow pipeline. It:
  - registers a Milvus vector database with LlamaStack;
  - downloads the knowledge-base PDFs;
  - splits them round-robin over worker pods;
  - has each worker convert PDFs with Docling, chunk them, embed the chunks and insert them into the vector database.
- **Query service** (`sreips-agent/sreips-agent.py`). It asks a RAG agent and an MCP agent the same question. It keeps the visible events of each agent's stream and combines both answers into one text with two section headers.
- **Robusta actions** (`custom_playbooks/custom_actions/sreips-quota-action.py` and `sreips-ce-action.py`). For a Kubernetes event they:
  - map the reason to a search prompt;
  - ask the query service;
  - split and restyle its answer for Slack;
  - post Slack blocks.

  The quota action also pulls the quota figures out of the event message. It adds a button that forwards them to the remediation service.
- **Remediation service** (`sreips-agent/remediation-agent.py`). It reads a remediation request, either as JSON or as the Slack payload of that button. It runs a tool-calling agent against the cluster and classifies what the agent did. It has an early exit when one tool error repeats.
- **Red Hat API MCP server** (`rh-kcs-mcp/redhat_mcp_server.py`). An API client that caches an OAuth access token, plus four tools. The tools project the JSON of the KCS and case search APIs into fixed-shape records.

## How the model is built

Each Python file becomes one Dafny module. Shared pieces are defined once:

| file | module | what it holds |
|---|---|---|
| `wrappers.dfy` | `Wrappers` | `Option` and `Result` |
| `text.dfy` | `Text` | the Python string operations the services use |
| `slack_markdown.dfy` | `SlackMarkdown` | the Slack text transforms the two actions share |
| `action_common.dfy` | `ActionCommon` | the query call and the blocks the two actions share |
| `model_registry.dfy` | `ModelRegistry` | LlamaStack's model list and its `next(...)` search |
| `json_dumps.dfy` | `JsonDumps` | how `json.dumps` writes a string |

The other modules are:

- `DoclingPipeline`: registration, download, discovery and splits;
- `DoclingConvert`: the worker;
- `QueryAgent`;
- `EventAction`;
- `QuotaAction`;
- `RemediationAgent`;
- `KcsServer`.

**Regular expressions** are written out as deterministic scanners. Backtracking was analysed by hand, and lemmas show that each scanner finds the match `re.search` reports. The scanners are for:

- the markdown rewrites;
- the quota figures;
- the Slack fields the remediation service reads back.

**State.** Where the source changes state, the model does too:

- The query service's global client is a class (`QueryAgent.AgentService`).
- The Red Hat API client and its token cache are a class (`KcsServer.RedHatApi`).
- Loops are methods with invariants, proved equal to a specification function. These loops are:
  - the event-stream loops;
  - the download loop;
  - the chunk loop and the document loop of the worker;
  - the Slack-block loop;
  - the `get_case` copies.

**Outside the model.** The outside world is a parameter of each operation:

- HTTP outcomes;
- the agents' event streams;
- the model list;
- the directory listing;
- the converter's results;
- the clock;
- the embedding model, tokenizer and `uuid4`.

## Model

| member | source | states |
|---|---|---|
| ModelRegistry.FirstWhere | sreips-agent/sreips-agent.py:35 | `next(...)` over the model list: the index of the first model satisfying the test, none before it does, and `None` only when no model does |
| QueryAgent.SelectLlm | sreips-agent/sreips-agent.py:35 | the chosen id is that of the first model whose type is "llm"; there is none exactly when no model has that type |
| QueryAgent.AgentService.constructor | sreips-agent/sreips-agent.py:19-20 | the service starts with no client and no model id |
| QueryAgent.AgentService.InitializeClient | sreips-agent/sreips-agent.py:28-46 | a set client makes the call a no-op; otherwise the client is set first, a failed listing or a list without an "llm" model raises and leaves the model id, else the id is the first "llm" model's; registration errors are swallowed |
| QueryAgent.KeptEvents | sreips-agent/sreips-agent.py:73-76 | every kept event is a stream event that is neither "inference" nor "tool_execution", and every such stream event is kept |
| QueryAgent.CollectAgentOutput | sreips-agent/sreips-agent.py:72-82 | the loop over the stream returns the kept events rendered in order, or the fallback text when none is kept |
| QueryAgent.RenderAll | sreips-agent/sreips-agent.py:79 | `"".join(str(x) ...)`: the rendered events concatenated in order |
| QueryAgent.KeptEventsAppend | sreips-agent/sreips-agent.py:75-76 | the filter runs event by event: one more event adds itself exactly when it is kept |
| QueryAgent.KeptEventsDropsOnlyInternal | sreips-agent/sreips-agent.py:75 | kept and internal events together account for every event of the stream |
| QueryAgent.RenderedAppend | sreips-agent/sreips-agent.py:79 | rendering distributes over concatenation, so the answer keeps stream order |
| QueryAgent.QueryAgents | sreips-agent/sreips-agent.py:127-149 | a blank query ends in a 500 (the 400 is re-wrapped by the handler); an agent failure ends in a 500; otherwise the combined text of both answers |
| QueryAgent.BlankQueryNeverReachesAgents | sreips-agent/sreips-agent.py:134-135 | for a blank query the answer does not depend on what the agents would say, and its status is 500 |
| QueryAgent.HeadersDiffer | sreips-agent/sreips-agent.py:142 | neither section header holds a newline, the MCP header does not occur in the RAG header, and neither header occurs in the empty string or the newline padding |
| QueryAgent.CombinedSplit | sreips-agent/sreips-agent.py:142 | the combined text splits at the MCP header into the padded RAG section and the padded MCP answer |
| QueryAgent.CombineParseRoundTrip | sreips-agent/sreips-agent.py:142 | round trip with the actions' parser: when the answers hold no header, parsing the combined text gives back both answers, stripped and converted for Slack |
| SlackMarkdown.NonStarPrefixLen | custom_playbooks/custom_actions/sreips-quota-action.py:62 | the star-free prefix is as long as possible: it ends at a '*' or at the end |
| SlackMarkdown.BoldMatch | custom_playbooks/custom_actions/sreips-quota-action.py:62 | an anchored match of `\*\*([^\*]+)\*\*` is reported exactly when one exists, with its group length |
| SlackMarkdown.BoldPass | custom_playbooks/custom_actions/sreips-quota-action.py:62 | the bold rewrite never lengthens the text and leaves star-free text alone |
| SlackMarkdown.BulletPass | custom_playbooks/custom_actions/sreips-quota-action.py:65 | the bullet rewrite never lengthens the text and leaves star-free text alone |
| SlackMarkdown.ConvertMarkdownToSlack | custom_playbooks/custom_actions/sreips-quota-action.py:54-67 | the conversion never lengthens the text and leaves star-free text alone |
| SlackMarkdown.ParseCombinedResults | custom_playbooks/custom_actions/sreips-quota-action.py:69-92 | the two sections together are no longer than the text they come from |
| SlackMarkdown.UpToHeader | custom_playbooks/custom_actions/sreips-quota-action.py:77-79 | the MCP part taken is a prefix of the rest and holds no MCP header |
| SlackMarkdown.NonStarPrefixUnique | custom_playbooks/custom_actions/sreips-quota-action.py:62 | any star-free prefix ending at a '*' or at the end is the one measured |
| SlackMarkdown.BoldAtUnique | custom_playbooks/custom_actions/sreips-quota-action.py:62 | at a given position the bold pattern matches with one group length at most |
| SlackMarkdown.BoldRewritesPair | custom_playbooks/custom_actions/sreips-quota-action.py:62 | each `**X**` with a non-empty star-free X becomes `*X*`, and scanning resumes after it |
| SlackMarkdown.BoldCopiesStarFreePrefix | custom_playbooks/custom_actions/sreips-quota-action.py:62 | star-free text ahead of the first '*' is copied unchanged |
| SlackMarkdown.BulletRewritesLineStart | custom_playbooks/custom_actions/sreips-quota-action.py:65 | at a line start, '*' plus a whitespace run becomes "• ", and the run's last character decides the next line start |
| SlackMarkdown.SpaceRunOfPrefix | custom_playbooks/custom_actions/sreips-quota-action.py:65 | `\s+` takes exactly the whitespace written before a non-space |
| SlackMarkdown.BulletKeepsOtherStars | custom_playbooks/custom_actions/sreips-quota-action.py:65 | a '*' that is not at a line start, or not followed by whitespace, is kept |
| SlackMarkdown.ParsedSections | custom_playbooks/custom_actions/sreips-quota-action.py:74-89 | with both headers, the RAG part is the text before the first MCP header with every RAG header deleted, and the MCP part runs up to the next MCP header; otherwise everything is RAG text and the MCP part is empty |
| ActionCommon.QuerySreipsAgent | custom_playbooks/custom_actions/sreips-quota-action.py:34-52 | a response yields its JSON body; a timeout, a connection error or any other exception yields a dict whose only key is "combined_results" |
| ActionCommon.CombinedResultsOf | custom_playbooks/custom_actions/sreips-quota-action.py:179-180 | a failed call's text starts with "Error"; a response holding "combined_results" gives that value, and one without it gives the default |
| ActionCommon.ResourceLine | custom_playbooks/custom_actions/sreips-quota-action.py:188 | the resource line shows the resource icon, then its header followed by the kind, the name in backticks and the namespace in backticks |
| ActionCommon.MessageLine | custom_playbooks/custom_actions/sreips-quota-action.py:189 | the message line shows the message icon, and after its header it carries the event's message unchanged |
| ActionCommon.KnowledgeSection | custom_playbooks/custom_actions/sreips-quota-action.py:207 | the knowledge-base section shows its own icon, and after its header line it carries the RAG text unchanged |
| ActionCommon.ArticlesSection | custom_playbooks/custom_actions/sreips-quota-action.py:214 | the KCS-articles section shows its own icon, and after its header line it carries the MCP text unchanged |
| EventAction.EventPromptFallback | custom_playbooks/custom_actions/sreips-ce-action.py:98 | a reason outside the table gets a prompt that starts with the reason and ends in " OpenShift", different reasons get different prompts, and the two volume-attach reasons share one prompt |
| EventAction.EventContextOf | custom_playbooks/custom_actions/sreips-ce-action.py:83-94 | the event is readable exactly when reason, message, type, an involved object (not `None`) and its kind, name and namespace are all present; the context carries them, a `None` attribute printed as "None" |
| EventAction.EventLine | custom_playbooks/custom_actions/sreips-ce-action.py:109 | the event line shows the event icon, and after its header it carries the event reason unchanged |
| EventAction.EventEnrichmentShape | custom_playbooks/custom_actions/sreips-ce-action.py:108-126 | three header lines and a divider lead; the RAG block appears exactly when its text is non-empty; the MCP block appears exactly when its text is non-empty, last and with no divider; there is no button |
| EventAction.LlsAgentEventAction | custom_playbooks/custom_actions/sreips-ce-action.py:80-129 | nothing is asked or posted exactly when an attribute it reads is absent or the involved object is `None`; otherwise the prompt of the reason is sent and the blocks of the parsed answer are posted |
| EventAction.BuildEventEnrichment | custom_playbooks/custom_actions/sreips-ce-action.py:108-126 | the appended block list equals the enrichment layout |
| QuotaAction.KeyMatchBounds | custom_playbooks/custom_actions/sreips-quota-action.py:119 | every match of `\s+[^=]+=` at a position ends at the first '=' from there |
| QuotaAction.KeyAtMatches | custom_playbooks/custom_actions/sreips-quota-action.py:119 | what the scanner reports is a match of `\s+[^=]+=` |
| QuotaAction.KeyAtIsGreedy | custom_playbooks/custom_actions/sreips-quota-action.py:119 | the scanner misses no match, and reports the longest whitespace run the backtracking matcher would |
| QuotaAction.ValueRun | custom_playbooks/custom_actions/sreips-quota-action.py:124 | the group `([^,\s]+)` takes the longest prefix of value characters |
| QuotaAction.StrippedValue | custom_playbooks/custom_actions/sreips-quota-action.py:126 | `group(1).strip()` of a value group is the value run itself |
| QuotaAction.StripValue | custom_playbooks/custom_actions/sreips-quota-action.py:126 | `strip()` leaves a value of `[^,\s]` characters alone |
| QuotaAction.SearchFrom | custom_playbooks/custom_actions/sreips-quota-action.py:119-129 | `re.search` reports a position where the labelled pattern matches |
| QuotaAction.SearchFromIsLeftmost | custom_playbooks/custom_actions/sreips-quota-action.py:119-129 | no match is missed, and the one reported is the leftmost |
| QuotaAction.ResourceTypeIn | custom_playbooks/custom_actions/sreips-quota-action.py:119-121 | an extracted resource type is stripped |
| QuotaAction.AmountIn | custom_playbooks/custom_actions/sreips-quota-action.py:124-131 | an extracted amount is non-empty and holds no comma and no whitespace |
| QuotaAction.AmountAt | custom_playbooks/custom_actions/sreips-quota-action.py:124-131 | the amount is the value run after the '=' the key scanner found |
| QuotaAction.ExtractQuotaDetails | custom_playbooks/custom_actions/sreips-quota-action.py:104-133 | each figure starts "unknown" and is overwritten only by its pattern's match; requested and limit are "unknown" or well-formed values |
| QuotaAction.KeyAtWritten | custom_playbooks/custom_actions/sreips-quota-action.py:119 | after the label, one space, a well-formed key and '=' make the scanner report exactly that key |
| QuotaAction.WrittenField | custom_playbooks/custom_actions/sreips-quota-action.py:119-131 | at a written `label key=value` both patterns match, and the scanners see the key and the value |
| QuotaAction.AmountExtracted | custom_playbooks/custom_actions/sreips-quota-action.py:124-131 | when the first label is followed by `key=value`, the value is extracted |
| QuotaAction.WrittenAmount | custom_playbooks/custom_actions/sreips-quota-action.py:124-131 | a match at a written `label key=value` yields that value |
| QuotaAction.ResourceTypeExtracted | custom_playbooks/custom_actions/sreips-quota-action.py:119-121 | a written `requested: key=value` yields the key as the resource type |
| QuotaAction.ValueRunOf | custom_playbooks/custom_actions/sreips-quota-action.py:124 | the value run stops exactly where the value ends |
| QuotaAction.QuotaPromptKind | custom_playbooks/custom_actions/sreips-quota-action.py:176 | a prompt ends in " troubleshooting" exactly when the reason is outside the table, and then starts with the reason; a reason in the table gets one of the table's prompts |
| QuotaAction.QuotaPromptInjective | custom_playbooks/custom_actions/sreips-quota-action.py:176 | reasons outside the table get different prompts |
| QuotaAction.QuotaIssueLine | custom_playbooks/custom_actions/sreips-quota-action.py:187 | the issue line shows the issue icon, then its header followed by the reason in backticks |
| QuotaAction.QuotaInfo | custom_playbooks/custom_actions/sreips-quota-action.py:195-200 | the quota-details block shows the quota icon |
| QuotaAction.QuotaInfoReadBack | custom_playbooks/custom_actions/sreips-quota-action.py:195-200 | the remediation service's Slack parser reads the quota block back: it finds "Quota Details:", reads the printed resource type, requested amount and limit, finds no quota name, and leaves the quota name as it was, when each figure is non-empty and holds no backtick and no ':' |
| QuotaAction.QuotaEnrichmentShape | custom_playbooks/custom_actions/sreips-quota-action.py:186-238 | three header lines and a divider lead, each optional section comes with its divider, and the remediation button is last and the only button |
| QuotaAction.QuotaEnrichmentIcons | custom_playbooks/custom_actions/sreips-quota-action.py:194-216 | the quota block appears exactly when a resource type was extracted, and the RAG and MCP sections exactly when their texts are non-empty |
| QuotaAction.LlsAgentQuotaAction | custom_playbooks/custom_actions/sreips-quota-action.py:135-248 | nothing is asked or posted exactly when the message is `None` (extracting the figures raises and the handler only logs); otherwise the prompt of the defaulted reason is sent, and the blocks of the extracted figures and the parsed answer are posted; a default replaces only an absent attribute and a `None` one prints as "None" |
| QuotaAction.BuildQuotaEnrichment | custom_playbooks/custom_actions/sreips-quota-action.py:186-238 | the appended block list equals the enrichment layout |
| QuotaAction.CallbackParamsRoundTrip | custom_playbooks/custom_actions/sreips-quota-action.py:219-234 | the button carries every field: the callback receives exactly what the action saw |
| QuotaAction.PayloadPassesChecks | custom_playbooks/custom_actions/sreips-quota-action.py:266-280 | the posted payload passes the remediation service's checks exactly when the namespace is not blank, and the service reads the figures the button carried; the quota name stays "unknown" |
| QuotaAction.SlackLinesReadBack | custom_playbooks/custom_actions/sreips-quota-action.py:187-188 | the remediation service's Slack parser reads back the reason and resource this action printed, when they hold no backtick and the kind is a word |
| QuotaAction.RemediationReplyShape | custom_playbooks/custom_actions/sreips-quota-action.py:283-320 | the reply is two Markdown blocks; it opens with the success line exactly when the service answered "success", and with the failure line exactly when the call failed |
| QuotaActionExample.ExampleMessageDetails | custom_playbooks/custom_actions/sreips-quota-action.py:116 | the documented example message yields resource type "cpu", requested "2" and limit "10" |
| QuotaActionExample.DetailsOfLayout | custom_playbooks/custom_actions/sreips-quota-action.py:116 | any message with the example's layout yields the example's figures |
| QuotaActionExample.RequestedOfLayout | custom_playbooks/custom_actions/sreips-quota-action.py:119-126 | "requested: cpu=2" at the example's place yields type "cpu" and amount "2" |
| QuotaActionExample.LimitedOfLayout | custom_playbooks/custom_actions/sreips-quota-action.py:129-131 | "limited: cpu=10" at the example's place yields limit "10" |
| RemediationAgent.TickedAt | sreips-agent/remediation-agent.py:315 | `` `([^`]+)` `` yields a non-empty group without backticks and the index past the closing one |
| RemediationAgent.TickEnd | sreips-agent/remediation-agent.py:315 | the scan stops at the first backtick or at the end |
| RemediationAgent.SpaceEnd | sreips-agent/remediation-agent.py:315 | the whitespace run stops at the first non-space |
| RemediationAgent.WordEnd | sreips-agent/remediation-agent.py:315 | the `\w` run stops at the first non-word character |
| RemediationAgent.ResourceAt | sreips-agent/remediation-agent.py:315 | a match of the resource pattern starts with its tag and yields a word kind and backtick-free name and namespace |
| RemediationAgent.ReasonAt | sreips-agent/remediation-agent.py:323 | a match of the reason pattern starts with its tag and yields a non-empty, backtick-free reason |
| RemediationAgent.FieldAt | sreips-agent/remediation-agent.py:331-344 | a match of a quota-field pattern starts with its tag and yields a non-empty, backtick-free value |
| RemediationAgent.Search | sreips-agent/remediation-agent.py:315-344 | `re.search` returns the match at the leftmost matching position, and nothing only when no position matches |
| RemediationAgent.ApplyText | sreips-agent/remediation-agent.py:311-346 | the reason, and kind, name and namespace together, are overwritten with their pattern's groups exactly when the pattern matches; each quota field takes its pattern's group when the text holds "Quota Details:" and the pattern matches, and keeps its value otherwise |
| RemediationAgent.WithResource | sreips-agent/remediation-agent.py:315-319 | a resource match overwrites kind, name and namespace with its groups; without one nothing changes; reason and quota fields are never touched |
| RemediationAgent.WithQuotaFields | sreips-agent/remediation-agent.py:329-346 | without "Quota Details:" nothing changes; with it, each of quota name, resource type, requested and limit is overwritten with its pattern's group exactly when that pattern matches; no other field changes |
| RemediationAgent.ExtractFromSlackMessage | sreips-agent/remediation-agent.py:295-350 | the loop over the blocks equals the fold of `ApplyText` over the examined blocks, from all "unknown" |
| RemediationAgent.SkippedBlockChangesNothing | sreips-agent/remediation-agent.py:311 | a block that is not a section with text changes nothing |
| RemediationAgent.LastMatchWins | sreips-agent/remediation-agent.py:316-325 | for all eight fields, the last examined block decides each field whose pattern matches it (the quota fields only when it holds "Quota Details:"), and leaves the others to the earlier blocks |
| RemediationAgent.QuotaFieldsNeedMarker | sreips-agent/remediation-agent.py:329 | without a block holding "Quota Details:", every quota field stays "unknown" |
| RemediationAgent.FieldsComeFromBlocks | sreips-agent/remediation-agent.py:295-350 | each of the eight fields is "unknown" or was read from a block: the reason from a reason match, kind, name and namespace together from one resource match, and each quota field from a block holding "Quota Details:" whose pattern for that field matches |
| RemediationAgent.SearchFinds | sreips-agent/remediation-agent.py:315 | the search returns the match at a position with no earlier match |
| RemediationAgent.ResourceLineReadBack | sreips-agent/remediation-agent.py:315-319 | the resource line the quota action prints, after any text without an 'R', reads back as its kind, name and namespace |
| RemediationAgent.ReasonLineReadBack | sreips-agent/remediation-agent.py:323-325 | the issue line the quota action prints, after any text without an 'R', reads back as its reason |
| RemediationAgent.ToolError | sreips-agent/remediation-agent.py:186-193 | a reported error is non-empty and is either the tool's `error` or its content; a non-empty `error` is always the one reported; a tool with neither reports none |
| RemediationAgent.StoppedStays | sreips-agent/remediation-agent.py:199-202 | after the break, later events are never read |
| RemediationAgent.CollectAgentTurn | sreips-agent/remediation-agent.py:173-205 | the loop over the streamed turn equals the specification of the gathered turn |
| RemediationAgent.RepeatedErrorStops | sreips-agent/remediation-agent.py:195-202 | no error is recorded more than twice, the loop stops exactly when one is recorded twice, that one is the last recorded, and errors never outnumber tool executions |
| RemediationAgent.FinalMessage | sreips-agent/remediation-agent.py:223-229 | the final message is the last assistant message's content (the message itself when it has none), and with no assistant message the streamed texts joined, "" when there are none |
| RemediationAgent.TurnResult | sreips-agent/remediation-agent.py:212-253 | any tool error gives "error" with "Tool execution failed: "; otherwise "success" when a tool ran, and "warning" when none did, whose message is the warning text followed by the first 200 characters of the final message |
| RemediationAgent.ExecuteQuotaRemediation | sreips-agent/remediation-agent.py:82-264 | the method equals the specification of the remediation outcome |
| RemediationAgent.ExecutionSucceeds | sreips-agent/remediation-agent.py:107-264 | success exactly when tools were listed, the agent set up, the stream read to its end, no tool error came and a tool ran; a turn cut short by a repeated error ends in "error" |
| RemediationAgent.TurnResultReports | sreips-agent/remediation-agent.py:212-253 | an error result names every tool error; a success ends with the final message and reports its first 500 characters; a warning quotes the first 200 characters and reports the whole final message |
| RemediationAgent.SlackRequest | sreips-agent/remediation-agent.py:421-436 | the request built from Slack is a "resource_quota", "auto" request carrying the extracted namespace, resource kind and name, event reason, and quota name, resource type, requested amount and limit under the source's keys |
| RemediationAgent.ParseIncoming | sreips-agent/remediation-agent.py:405-452 | a JSON body is read exactly when it parses, with no callback URL; a form payload is read exactly when it parses and has message blocks |
| RemediationAgent.Validate | sreips-agent/remediation-agent.py:474-488 | a request passes exactly when the client is up, the type is "resource_quota" and the namespace is not blank; no client gives 503, other failures 400 |
| RemediationAgent.Remediate | sreips-agent/remediation-agent.py:388-508 | unreadable requests get 400; with a callback URL the answer is immediate and unchecked; otherwise the checks' error, the remediation result, or a 500 for an escaping exception |
| RemediationAgent.AsyncMessage | sreips-agent/remediation-agent.py:369-375 | the posted text is the completion text exactly when the remediation succeeded |
| RemediationAgent.RunRemediationAsync | sreips-agent/remediation-agent.py:352-386 | without a URL nothing is posted; with one, the confirmation and then the outcome |
| KcsServer.HasKey | rh-kcs-mcp/redhat_mcp_server.py:126 | `key in v` is the key test on an object and raises on a value that is not a container |
| KcsServer.Index | rh-kcs-mcp/redhat_mcp_server.py:127 | `v[key]` answers exactly for an object holding the key, with its value |
| KcsServer.Objects | rh-kcs-mcp/redhat_mcp_server.py:127-134 | iterating with `.get` gets through a list exactly when all its elements are objects, keeping them in order |
| KcsServer.Project | rh-kcs-mcp/redhat_mcp_server.py:128-133 | the dict display has exactly the output keys, each read from its input key |
| KcsServer.TokenStep | rh-kcs-mcp/redhat_mcp_server.py:43-67 | the token is refreshed exactly when the cache is not valid; a failed exchange keeps the cache; a failure never changes the expiry |
| KcsServer.HalfRefreshKeepsToken | rh-kcs-mcp/redhat_mcp_server.py:62-65 | an answer whose `expires_in` cannot be read fails after storing its token under the old expiry, and a later call serves that token exactly when it is non-empty and the old expiry is still ahead |
| KcsServer.CachedTokenNotExpired | rh-kcs-mcp/redhat_mcp_server.py:45-46 | a token comes from the cache only strictly before its expiry |
| KcsServer.RefreshThenReuse | rh-kcs-mcp/redhat_mcp_server.py:59-67 | after a refresh the cache holds the new token until `expires_in - 60` seconds; a later call reuses it exactly before then, when it is non-empty |
| KcsServer.VerbSpelling | rh-kcs-mcp/redhat_mcp_server.py:80-85 | the methods accepted are exactly "get" and "post" in any letter case |
| KcsServer.DispatchSends | rh-kcs-mcp/redhat_mcp_server.py:69-92 | a request is sent exactly when a token was obtained and the method is supported, to the base URL plus the path, with the token, and a body only for a post |
| KcsServer.ResponseShape | rh-kcs-mcp/redhat_mcp_server.py:90-92 | a JSON response returns its body; any other is wrapped as `{"content": text}` and has no "response" key |
| KcsServer.RedHatApi.constructor | rh-kcs-mcp/redhat_mcp_server.py:33-41 | the client keeps its offline token and starts with no access token and no expiry |
| KcsServer.RedHatApi.GetAccessToken | rh-kcs-mcp/redhat_mcp_server.py:43-67 | the new cache and the answer are those of the token step |
| KcsServer.RedHatApi.MakeRequest | rh-kcs-mcp/redhat_mcp_server.py:69-92 | the token step, then the dispatch of the request with its result |
| KcsServer.NewRedHatApi | rh-kcs-mcp/redhat_mcp_server.py:36-38 | the client is built exactly when the offline token is set and non-empty; otherwise the ValueError |
| KcsServer.Records | rh-kcs-mcp/redhat_mcp_server.py:127-134 | one record per doc, in order, each with exactly the tool's keys read from the doc |
| KcsServer.FormatSearch | rh-kcs-mcp/redhat_mcp_server.py:125-136 | the loop equals the specification of the search result |
| KcsServer.RecordsAppend | rh-kcs-mcp/redhat_mcp_server.py:127-134 | records are made doc by doc, so runs of docs concatenate |
| KcsServer.SearchRecordsPerDoc | rh-kcs-mcp/redhat_mcp_server.py:126-136 | a well-formed answer yields one record per doc, in order, with the tool's keys |
| KcsServer.NoDocsNoRecords | rh-kcs-mcp/redhat_mcp_server.py:126 | an answer without "response", or whose "response" has no "docs", yields no records |
| KcsServer.TextReplyNoRecords | rh-kcs-mcp/redhat_mcp_server.py:90-92 | a reply that is not JSON yields no records |
| KcsServer.SearchKcs | rh-kcs-mcp/redhat_mcp_server.py:97-136 | `search_kcs` posts its query to the KCS search path and returns the records of the answer |
| KcsServer.SearchCases | rh-kcs-mcp/redhat_mcp_server.py:183-227 | `search_cases` posts its query to the case search path and returns the records of the answer |
| KcsServer.FirstObject | rh-kcs-mcp/redhat_mcp_server.py:168 | `docs[0]` gets through exactly for a non-empty list headed by an object |
| KcsServer.NoSolutionIsBlank | rh-kcs-mcp/redhat_mcp_server.py:159-165 | the blank record has the five keys and "" under each |
| KcsServer.KcsSolutionShape | rh-kcs-mcp/redhat_mcp_server.py:155-179 | every answer has the five keys; with no "response" or an empty docs list it is the blank record; otherwise the first doc's fields, "" where missing, the title read from "publishedTitle" |
| KcsServer.GetKcs | rh-kcs-mcp/redhat_mcp_server.py:138-179 | `get_kcs` searches for `id:<solution_id>` and shapes the first doc |
| KcsServer.SameKeys | rh-kcs-mcp/redhat_mcp_server.py:252-256 | the display copies each key under its own name |
| KcsServer.NewestFirst | rh-kcs-mcp/redhat_mcp_server.py:251-258 | one view per comment |
| KcsServer.NewestFirstAppend | rh-kcs-mcp/redhat_mcp_server.py:257 | the last comment of the case is listed first |
| KcsServer.Kept | rh-kcs-mcp/redhat_mcp_server.py:277-299 | every kept tracker or link has a truthy listed field, and none is invented |
| KcsServer.ProjectionKeepsTruthy | rh-kcs-mcp/redhat_mcp_server.py:287 | the projection of a kept entry still has a truthy listed field |
| KcsServer.KeptAppend | rh-kcs-mcp/redhat_mcp_server.py:278-288 | the filter runs entry by entry, so order is kept |
| KcsServer.KeptExactly | rh-kcs-mcp/redhat_mcp_server.py:287 | exactly the entries with a truthy listed field are kept |
| KcsServer.ListedEntry | rh-kcs-mcp/redhat_mcp_server.py:277-299 | the trackers or links key is present exactly when the case holds a list under its source key |
| KcsServer.CaseBase | rh-kcs-mcp/redhat_mcp_server.py:247-259 | the formatted case starts with exactly its four fixed keys |
| KcsServer.CopyPresent | rh-kcs-mcp/redhat_mcp_server.py:262-275 | each copied key is present exactly when the case has it, holding the case's value |
| KcsServer.CopyStep | rh-kcs-mcp/redhat_mcp_server.py:262-275 | each conditional copy extends the run of copies by one key |
| KcsServer.CopyOptionalFields | rh-kcs-mcp/redhat_mcp_server.py:262-275 | the seven copies equal the specification of the conditional copies |
| KcsServer.FormatCase | rh-kcs-mcp/redhat_mcp_server.py:244-301 | the key-by-key construction equals the specification of the formatted case |
| KcsServer.CaseViewIsUnion | rh-kcs-mcp/redhat_mcp_server.py:247-301 | the formatted case is the copied fields plus the trackers and links entries |
| KcsServer.UnionFixedKeys | rh-kcs-mcp/redhat_mcp_server.py:247-259 | the summary falls back to the title, then ""; the comments are listed newest first |
| KcsServer.UnionOptionalKeys | rh-kcs-mcp/redhat_mcp_server.py:262-299 | each optional key is present exactly when the case has it, with its value |
| KcsServer.CaseViewShape | rh-kcs-mcp/redhat_mcp_server.py:229-301 | four fixed keys, summary fallback, comments newest first, optional fields exactly when present, trackers and links exactly when listed |
| KcsServer.OptionalKeysApart | rh-kcs-mcp/redhat_mcp_server.py:247-299 | the optional keys differ from the fixed and the listed keys |
| KcsServer.GetCase | rh-kcs-mcp/redhat_mcp_server.py:229-301 | `get_case` fetches the case path and formats the answer |
| DoclingPipeline.StripAll | llamastack/docling-pipeline.py:69 | entry `k` is `parts[k].strip()` |
| DoclingPipeline.NonEmptyMembers | llamastack/docling-pipeline.py:69 | an entry is kept exactly when it is non-empty |
| DoclingPipeline.ParsedNamesAreClean | llamastack/docling-pipeline.py:69 | every parsed filename is non-empty and stripped |
| DoclingPipeline.ParseFilenamesMembers | llamastack/docling-pipeline.py:69 | a filename is parsed exactly when it is a non-empty stripped comma-separated entry |
| DoclingPipeline.ParseFilenamesRoundTrip | llamastack/docling-pipeline.py:69 | writing clean, comma-free names as a list and parsing it gives them back in order |
| DoclingPipeline.SplitJoinCommaFree | llamastack/docling-pipeline.py:69 | splitting a comma-joined list of comma-free entries gives the entries back |
| DoclingPipeline.DownloadUrlIgnoresSlashes | llamastack/docling-pipeline.py:72 | extra trailing slashes on the base and leading ones on the name do not change the URL |
| DoclingPipeline.DownloadUrlOfClean | llamastack/docling-pipeline.py:72 | a clean base and name are joined by exactly one slash |
| DoclingPipeline.PathJoin | llamastack/docling-pipeline.py:73 | an absolute name replaces the directory; otherwise the path ends with the name |
| DoclingPipeline.AttemptAt | llamastack/docling-pipeline.py:71-73 | the `k`-th attempt fetches and writes the `k`-th filename |
| DoclingPipeline.ImportTestPdfs | llamastack/docling-pipeline.py:59-84 | every parsed filename is attempted in order, and exactly those whose fetch succeeds are written |
| DoclingPipeline.DownloadAll | llamastack/docling-pipeline.py:71-84 | the loop attempts every filename and a failed fetch only skips its own file |
| DoclingPipeline.SucceededExactly | llamastack/docling-pipeline.py:77-84 | a file is written exactly when its own fetch succeeds |
| DoclingPipeline.SucceededOnlyFetched | llamastack/docling-pipeline.py:77-84 | nothing is written without a successful fetch |
| DoclingPipeline.FilterMembers | llamastack/docling-pipeline.py:98-102 | a comprehension keeps exactly the entries passing its test |
| DoclingPipeline.FilterAll | llamastack/docling-pipeline.py:234-241 | a filter every entry passes returns the list unchanged |
| DoclingPipeline.BaseName | llamastack/docling-pipeline.py:101 | the name is a suffix of the path |
| DoclingPipeline.BaseNameNoSlash | llamastack/docling-pipeline.py:101 | a path without '/' is its own name |
| DoclingPipeline.LastDot | llamastack/docling-pipeline.py:101 | `rfind('.')`: the last dot, or none |
| DoclingPipeline.PdfSuffix | llamastack/docling-pipeline.py:101 | a name passes the suffix test exactly when it ends in ".pdf" in any letter case after at least one character |
| DoclingPipeline.StrideIndex | llamastack/docling-pipeline.py:107 | entry `j` of `xs[i::k]` is `xs[i + j*k]`, and the slice reaches every such index |
| DoclingPipeline.BatchesAreStrides | llamastack/docling-pipeline.py:106-108 | only slices starting inside the list are non-empty, so the batches are the first `min(N, n)` slices |
| DoclingPipeline.RoundRobin | llamastack/docling-pipeline.py:106-109 | there is always at least one split |
| DoclingPipeline.RoundRobinShape | llamastack/docling-pipeline.py:106-109 | with workers and PDFs there are `min(N, num_splits)` splits, split `i` being `all_pdfs[i::num_splits]`; otherwise one empty split |
| DoclingPipeline.RoundRobinPosition | llamastack/docling-pipeline.py:107 | PDF `p` is entry `p / k` of split `p % k` |
| DoclingPipeline.RoundRobinPermutation | llamastack/docling-pipeline.py:106-109 | with `num_splits >= 1` the splits together are a permutation of the discovered PDFs; otherwise they hold none |
| DoclingPipeline.RoundRobinDisjoint | llamastack/docling-pipeline.py:106-109 | with distinct paths, no path is in two splits, nor twice in one |
| DoclingPipeline.StridesPermutation | llamastack/docling-pipeline.py:107 | the `k` slices together are a permutation of the list |
| DoclingPipeline.StridesApart | llamastack/docling-pipeline.py:107 | two slices of distinct entries share an entry only at the same place of the same slice |
| DoclingPipeline.RegisterVectorDbSucceeds | llamastack/docling-pipeline.py:19-48 | registration succeeds exactly when the first matching model is an embedding model with a dimension, and registers its identifier and dimension with Milvus |
| DoclingPipeline.RegisterVectorDbFirstWins | llamastack/docling-pipeline.py:29-31 | later models with the same provider id are never consulted |
| DoclingPipeline.RegisterVectorDbNotFound | llamastack/docling-pipeline.py:33-36 | no matching model gives the "not found" ValueError |
| JsonDumps.HexDigitValue | llamastack/docling-pipeline.py:218 | each hex digit written reads back as its value |
| JsonDumps.Hex4RoundTrip | llamastack/docling-pipeline.py:218 | the four hex digits of a `\u` escape read back as the code unit |
| JsonDumps.EscapeChar | llamastack/docling-pipeline.py:218 | one character is written as printable ASCII, either as itself (never '"') or as an escape |
| JsonDumps.Escape | llamastack/docling-pipeline.py:218 | with `ensure_ascii` the string body is printable ASCII |
| JsonDumps.UnescapeEscapeChar | llamastack/docling-pipeline.py:218 | reading back one escaped character, then the rest, gives that character, then the rest |
| JsonDumps.UnescapeEscape | llamastack/docling-pipeline.py:218 | `json.loads` of what `json.dumps` wrote gives the string back |
| JsonDumps.EscapePlain | llamastack/docling-pipeline.py:218 | printable ASCII without quote or backslash is written as it is |
| JsonDumps.QuoteAscii | llamastack/docling-pipeline.py:218 | a quoted string is printable ASCII |
| JsonDumps.NatToStringAscii | llamastack/docling-pipeline.py:218 | an integer is written as printable ASCII digits |
| DoclingConvert.ConvertInputs | llamastack/docling-pipeline.py:261-267 | the worker's inputs are non-empty, or the RuntimeError |
| DoclingConvert.ConvertInputsMembers | llamastack/docling-pipeline.py:261-264 | a path is converted exactly when a listed entry under it is a non-empty `*.pdf` |
| DoclingConvert.ConvertInputsIgnoreSplit | llamastack/docling-pipeline.py:130 | what a worker converts does not depend on its split |
| DoclingConvert.NoValidPdfsIff | llamastack/docling-pipeline.py:266-267 | the RuntimeError is raised exactly when no listed entry is a non-empty `*.pdf` |
| DoclingConvert.EveryWorkerConvertsEverything | llamastack/docling-pipeline.py:130 | with two or more PDFs and workers there are two or more splits, and each worker converts every PDF |
| DoclingConvert.UpperCasePdfNotGlobbed | llamastack/docling-pipeline.py:101 | a name ending in ".PDF" is split off as a PDF but never globbed by its worker |
| DoclingConvert.BareSuffixNotSplit | llamastack/docling-pipeline.py:261 | a file named ".pdf" is globbed but never split off |
| DoclingConvert.SplitInputs | llamastack/docling-pipeline.py:130 | a worker that honours its split gets non-empty inputs, or the RuntimeError |
| DoclingConvert.SplitInputsMembers | llamastack/docling-pipeline.py:130 | it converts exactly the non-empty listed files of its split |
| DoclingConvert.SplitInputsFailure | llamastack/docling-pipeline.py:266-267 | it raises exactly when no file of its split is a non-empty listed file |
| DoclingConvert.AssignedSplit | llamastack/docling-pipeline.py:106-109 | each discovered PDF sits in some split |
| DoclingConvert.OnlyAssignedSplit | llamastack/docling-pipeline.py:106-109 | with distinct paths, a PDF is in no other split |
| DoclingConvert.SplitWorkersConvertEachOnce | llamastack/docling-pipeline.py:106-109 | with workers honouring their splits, every non-empty PDF is converted by exactly one worker |
| DoclingConvert.MetadataJsonAscii | llamastack/docling-pipeline.py:211-218 | the metadata JSON is printable ASCII whatever the stem holds |
| DoclingConvert.ChunksStep | llamastack/docling-pipeline.py:188-231 | one more chunk adds one record exactly when the chunk is kept, with the next id |
| DoclingConvert.ChunkDocument | llamastack/docling-pipeline.py:186-231 | the chunk loop equals the specification of the document's records |
| DoclingConvert.ChunksAreKeptTexts | llamastack/docling-pipeline.py:188-231 | record `k` is built from the `k`-th accepted chunk, with id `newId(next + k)` |
| DoclingConvert.KeptTextsMembers | llamastack/docling-pipeline.py:189-206 | a text is accepted exactly when it is a non-null, non-blank chunk that embeds to the model's dimension |
| DoclingConvert.KeptChunkFields | llamastack/docling-pipeline.py:204-231 | every record has a full-dimension embedding of its non-blank text and metadata naming its id, the stem, its token count and the metadata JSON's token count |
| DoclingConvert.SanityFilterKeepsAll | llamastack/docling-pipeline.py:234-241 | the sanity filter removes nothing |
| DoclingConvert.ProcessAndInsertEmbeddings | llamastack/docling-pipeline.py:165-253 | the document loop equals the specification of the run, and lists exactly the insert calls that raised |
| DoclingConvert.ProcessedPrefixStops | llamastack/docling-pipeline.py:286-289 | once a conversion error ends the run, later items change nothing |
| DoclingConvert.RunSkipsUnusable | llamastack/docling-pipeline.py:171-178 | a failed conversion or a missing document changes nothing, not even the count |
| DoclingConvert.RunUsableDocument | llamastack/docling-pipeline.py:180-251 | a usable document is counted, draws one id per kept chunk, and makes one insert of all its records exactly when it has any |
| DoclingConvert.RunStopsAtError | llamastack/docling-pipeline.py:286-289 | a conversion error ends the run with the state before it |
| DoclingConvert.KeptIds | llamastack/docling-pipeline.py:208 | record `k` of a document has the id `newId(next + k)` |
| DoclingConvert.StepKeepsIdsInOrder | llamastack/docling-pipeline.py:168-251 | each document keeps the inserted ids in drawing order |
| DoclingConvert.InsertedIds | llamastack/docling-pipeline.py:165-253 | the inserted records carry the ids `newId(0)`, `newId(1)`, ... in order, one per id drawn |
| DoclingConvert.InsertedIdsDistinct | llamastack/docling-pipeline.py:208 | with a never-repeating `uuid4`, no two inserted records share an id |
| DoclingConvert.DoclingConvertRun | llamastack/docling-pipeline.py:255-295 | the worker raises the RuntimeError exactly when no listed entry is a non-empty `*.pdf`, whatever its split; otherwise it runs the loop over the converter's results |
| DoclingConvert.SplitConvertRun | llamastack/docling-pipeline.py:128-136 | the worker honouring its split raises exactly when its split holds no non-empty file |
| Text.Split | llamastack/docling-pipeline.py:69 | `str.split(sep)`: at least one piece, the pieces joined with the separator give the string back, and no piece holds the separator |
| Text.StripEmpty | sreips-agent/sreips-agent.py:134 | `not s.strip()` holds exactly for whitespace-only strings |
| Text.StripPadded | custom_playbooks/custom_actions/sreips-quota-action.py:78-79 | whitespace around a string does not change its `strip()` |
| Text.SplitOnce | custom_playbooks/custom_actions/sreips-quota-action.py:77 | splitting at the only occurrence yields its two sides |
| Text.DeleteLeading | custom_playbooks/custom_actions/sreips-quota-action.py:78 | deleting a header that occurs only at the start leaves the rest |

## Left out

- The Kubeflow orchestration is not modelled (llamastack/docling-pipeline.py:299-384): the DSL, caching options, resource requests and the GPU and CPU branches, which run the same worker. The pipeline gives no ordering between registration and conversion.
- Docling conversion, chunking, the tokenizer and the embedding model are parameters (`Oracles` and the `convert` function). Floating-point embeddings are sequences of `real`, and only their length is checked, as the source does.
- The worker's `isinstance(embedding, list)` and `isinstance(c.get("metadata"), dict)` tests are always true in the model, because every embedding is a list and every metadata a record.
- DoclingConvert.KeptChunkFields: compares each embedding's length with the local model's dimension (line 184), as the source does, not with the dimension registered for the vector database.
- A failed insert is only logged and its effect on the store is not modelled; the model records the calls and which ones raised.
- `setup_chunker_and_embedder` is called once per document; its cost and the models it downloads are not modelled.
- The filesystem is an input listing of relative paths and sizes: directories, symlinks, `exists()` races and absolute paths are not modelled. `rglob` order is the listing order.
- Download errors other than `RequestException` (file-system errors) are not modelled; each download is fetched or not.
- The `"chunk_metadata"` copy of the metadata inside each inserted record is not modelled separately; it is the same object as `"metadata"`.
- The remediation service's `initialize_client` (sreips-agent/remediation-agent.py:44-80) has the same shape as the query service's, modelled by `QueryAgent.AgentService.InitializeClient`. Its warning for small models and its tool listing only print.
- The agent prompts, instructions and session names are fixed text handed to the LLM and are not modelled.
- The MCP prompt templates (`summarize_case_prompt`, `resolve_case_prompt`, `resolve_case_prompt_v2`) are not modelled. They are fixed text with the case number substituted.
- The `/` and `/health` endpoints, logging, `print` and the HTTP servers are not modelled.
- The background thread of the remediation service is modelled as the sequence of texts it posts; concurrency with other requests is not modelled.
- Pydantic validation of a JSON remediation request is a parameter: the body either parses into a request or fails with a message.
- Regular-expression `\w` is modelled on ASCII only. Python's `str` patterns also accept other Unicode letters and digits.
- `str.lower()` is modelled on ASCII letters. It is exact for the comparisons the source makes with "get", "post", ".pdf", "failed" and "error".
- Python's `isspace` set is used for `\s`. The two agree on every character.
- Robusta's event object, its `add_enrichment` and Slack's block format are modelled by the blocks the actions build.
- The actions' exceptions are modelled as "nothing is asked or posted": the event action has no handler and raises on an absent attribute or a `None` involved object; the quota action's broad `except Exception` only logs, and the one exception it can meet after its `getattr` defaults is the TypeError of extracting the figures from a `None` message. The logged text is not modelled.
- The remediation button's `action_params` carry the raw attributes, so a `None` reason, kind, name or namespace is sent as Python `None`; the model carries the printed text "None" there, and how the callback handles a `None` parameter is not part of this model.
- QuotaInfo: its own contract states only the icon; the figures the block carries are stated by QuotaInfoReadBack through the remediation service's parser.
- The HTTP exchanges of the MCP server are parameters: the reply, the token grant and the clock (`now`, `issuedAt`).
- The key order of the JSON objects the MCP tools return is not modelled: objects are Dafny maps. Python dicts keep insertion order, so the order a client sees is the order of the source's dict displays and assignments.
- An `access_token` or `expires_in` of a JSON type other than a string or a number is not modelled separately: a grant either yields a string token and an integer lifetime, yields a token whose lifetime cannot be read, or fails before the token is stored.

## Findings

| source | as written | input that shows it | evidently intended | confidence | as-written member | corrected member |
|---|---|---|---|---|---|---|
| llamastack/docling-pipeline.py:130 | `docling_convert` takes `pdf_split` but never reads it. Every worker converts every non-empty `*.pdf` under the input directory (lines 261-264). | Two non-empty files `a.pdf` and `b.pdf` with `num_workers=2`. The splits are `[["a.pdf"], ["b.pdf"]]`, and both workers convert and insert both PDFs, so every chunk is stored twice. | Each worker converts only the PDFs of its own split, so every PDF is converted and inserted exactly once. | high; not executed | DoclingConvert.EveryWorkerConvertsEverything | DoclingConvert.SplitWorkersConvertEachOnce |
| llamastack/docling-pipeline.py:101 | Discovery uses the case-insensitive suffix test (line 101), but the worker globs `*.pdf` case-sensitively (line 261). | A file `A.PDF` is placed in a split but never converted. A file named `.pdf` is converted by every worker but never placed in a split. | Discovery and conversion select the same files. | medium; not executed | DoclingConvert.UpperCasePdfNotGlobbed | DoclingConvert.SplitWorkersConvertEachOnce |

`DoclingConvert.DoclingConvertRun` is the worker as written. `DoclingConvert.SplitConvertRun` is the worker as intended, using `SplitInputs`.
