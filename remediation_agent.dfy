/**
 * The remediation service (sreips-agent/remediation-agent.py): it reads a remediation
 * request, either as JSON or as the Slack payload of the remediation button, runs a tool
 * calling agent against the cluster, and classifies what the agent did.
 */
module RemediationAgent {
  import opened Wrappers
  import opened Text

  const Unknown: string := "unknown"

  /** The pydantic `RemediationRequest` body of `POST /remediate`. */
  datatype RemediationRequest = RemediationRequest(
    issueType: string,
    namespace: string,
    resource: map<string, string>,
    eventReason: string,
    quotaDetails: map<string, string>,
    remediationStrategy: string)

  // ----- extract_from_slack_message -----

  /**
   * A block of the Slack message: its "type" (`None` when absent) and its "text" object
   * (`None` when the block has no "text" key).
   */
  datatype SlackBlock = SlackBlock(blockType: Option<string>, textObject: Option<map<string, string>>)

  /** The eight fields `extract_from_slack_message` returns. */
  datatype Extracted = Extracted(
    namespace: string, resourceKind: string, resourceName: string, eventReason: string,
    quotaName: string, quotaResourceType: string, quotaRequested: string, quotaLimit: string)

  const NothingExtracted: Extracted := Extracted(Unknown, Unknown, Unknown, Unknown, Unknown, Unknown, Unknown, Unknown)

  /** A non-empty run of `\w` characters. */
  predicate IsWord(w: string) {
    |w| >= 1 && forall k :: 0 <= k < |w| ==> IsWordChar(w[k])
  }

  predicate NoTick(t: string) {
    forall k :: 0 <= k < |t| ==> t[k] != '`'
  }

  /** `` `([^`]+)` `` at `i`: the group and the index just past the closing backtick. */
  function TickedAt(s: string, i: nat): (r: Option<(string, nat)>)
    ensures r.Some? ==> var (g, j) := r.value;
      && i < |s| && |g| >= 1 && NoTick(g) && j == i + |g| + 2 <= |s|
  {
    if i < |s| && s[i] == '`' then
      var e := TickEnd(s, i + 1);
      if e > i + 1 && e < |s| then
        Some((s[i + 1..e], e + 1))
      else
        None
    else
      None
  }

  /** The first backtick at or after `i`, or `|s|`. */
  function TickEnd(s: string, i: nat): (j: nat)
    requires i <= |s|
    ensures i <= j <= |s| && (j == |s| || s[j] == '`')
    ensures forall k :: i <= k < j ==> s[k] != '`'
    decreases |s| - i
  {
    if i == |s| || s[i] == '`' then i else TickEnd(s, i + 1)
  }

  /** `\s+` at `i`: the index past the whitespace run, which must be non-empty. */
  function SpacesAt(s: string, i: nat): (r: Option<nat>)
    ensures r.Some? ==> i < r.value <= |s|
  {
    if i <= |s| then
      var e := SpaceEnd(s, i);
      if e > i then Some(e) else None
    else
      None
  }

  /** The end of the whitespace run starting at `i`. */
  function SpaceEnd(s: string, i: nat): (j: nat)
    requires i <= |s|
    ensures i <= j <= |s| && (j == |s| || !IsSpace(s[j]))
    ensures forall k :: i <= k < j ==> IsSpace(s[k])
    decreases |s| - i
  {
    if i == |s| || !IsSpace(s[i]) then i else SpaceEnd(s, i + 1)
  }

  /** `\*\*?` at `i`: one '*', and a second one when it is there. */
  function StarsAt(s: string, i: nat): (r: Option<nat>)
    ensures r.Some? ==> i < r.value <= |s| && r.value <= i + 2
  {
    if i < |s| && s[i] == '*' then
      if i + 1 < |s| && s[i + 1] == '*' then Some(i + 2) else Some(i + 1)
    else
      None
  }

  const ResourceTag: string := "Resource:"
  const ReasonTag: string := "Resource Quota Issue:"
  const QuotaDetailsMarker: string := "Quota Details:"
  const QuotaNameTag: string := "Quota Name:"
  const ResourceTypeTag: string := "Resource Type:"
  const RequestedTag: string := "Requested:"
  const LimitTag: string := "Limit:"

  /** `Resource:\*\*?\s+(\w+)\s+`([^`]+)`\s+in\s+`([^`]+)`` matched at `p`: (kind, name, namespace). */
  function ResourceAt(s: string, p: nat): (r: Option<(string, string, string)>)
    ensures r.Some? ==> OccursAt(s, ResourceTag, p)
    ensures r.Some? ==> IsWord(r.value.0)
    ensures r.Some? ==> |r.value.1| >= 1 && NoTick(r.value.1) && |r.value.2| >= 1 && NoTick(r.value.2)
  {
    if !OccursAt(s, ResourceTag, p) then None
    else match StarsAt(s, p + |ResourceTag|)
    case None => None
    case Some(q) => match SpacesAt(s, q)
    case None => None
    case Some(q) => KindAndLocationAt(s, q)
  }

  /** The part `(\w+)\s+`([^`]+)`\s+in\s+`([^`]+)`` of the resource pattern at `q`. */
  function KindAndLocationAt(s: string, q: nat): (r: Option<(string, string, string)>)
    ensures r.Some? ==> IsWord(r.value.0)
    ensures r.Some? ==> |r.value.1| >= 1 && NoTick(r.value.1) && |r.value.2| >= 1 && NoTick(r.value.2)
  {
    match WordAt(s, q)
    case None => None
    case Some((kind, q)) => match LocationAt(s, q)
    case None => None
    case Some((name, namespace)) => Some((kind, name, namespace))
  }

  /** `(\w+)` at `i`: the word and the index just past it. */
  function WordAt(s: string, i: nat): (r: Option<(string, nat)>)
    ensures r.Some? ==> var (w, j) := r.value; IsWord(w) && j == i + |w| <= |s|
  {
    if i <= |s| then
      var e := WordEnd(s, i);
      if e > i then Some((s[i..e], e)) else None
    else
      None
  }

  /** The end of the run of `\w` characters starting at `i`. */
  function WordEnd(s: string, i: nat): (j: nat)
    requires i <= |s|
    ensures i <= j <= |s| && (j == |s| || !IsWordChar(s[j]))
    ensures forall k :: i <= k < j ==> IsWordChar(s[k])
    decreases |s| - i
  {
    if i == |s| || !IsWordChar(s[i]) then i else WordEnd(s, i + 1)
  }

  /** The tail `\s+`([^`]+)`\s+in\s+`([^`]+)`` of the resource pattern at `q`: (name, namespace). */
  function LocationAt(s: string, q: nat): (r: Option<(string, string)>)
    ensures r.Some? ==> |r.value.0| >= 1 && NoTick(r.value.0) && |r.value.1| >= 1 && NoTick(r.value.1)
  {
    match SpacesAt(s, q)
    case None => None
    case Some(q) => match TickedAt(s, q)
    case None => None
    case Some((name, q)) => match NamespaceAt(s, q)
    case None => None
    case Some(namespace) => Some((name, namespace))
  }

  /** The tail `\s+in\s+`([^`]+)`` of the resource pattern at `q`: the namespace. */
  function NamespaceAt(s: string, q: nat): (r: Option<string>)
    ensures r.Some? ==> |r.value| >= 1 && NoTick(r.value)
  {
    match SpacesAt(s, q)
    case None => None
    case Some(q) =>
      if q + 2 <= |s| && s[q] == 'i' && s[q + 1] == 'n' then
        match SpacesAt(s, q + 2)
        case None => None
        case Some(q) => match TickedAt(s, q)
        case None => None
        case Some((namespace, _)) => Some(namespace)
      else
        None
  }

  /** `Resource Quota Issue:\*\*?\s+`([^`]+)`` matched at `p`: the reason. */
  function ReasonAt(s: string, p: nat): (r: Option<string>)
    ensures r.Some? ==> OccursAt(s, ReasonTag, p) && |r.value| >= 1 && NoTick(r.value)
  {
    if !OccursAt(s, ReasonTag, p) then None
    else match StarsAt(s, p + |ReasonTag|)
    case None => None
    case Some(q) => match SpacesAt(s, q)
    case None => None
    case Some(q) => match TickedAt(s, q)
    case None => None
    case Some((reason, _)) => Some(reason)
  }

  /** `<tag>\s+`([^`]+)`` matched at `p`, as in `Quota Name:\s+`([^`]+)``. */
  function FieldAt(s: string, tag: string, p: nat): (r: Option<string>)
    ensures r.Some? ==> OccursAt(s, tag, p) && |r.value| >= 1 && NoTick(r.value)
  {
    if !OccursAt(s, tag, p) then None
    else match SpacesAt(s, p + |tag|)
    case None => None
    case Some(q) => match TickedAt(s, q)
    case None => None
    case Some((v, _)) => Some(v)
  }

  /** `re.search`: the match at the leftmost position from `from` (up to `|s|`) where `m` matches. */
  function Search<T>(s: string, from: nat, m: nat -> Option<T>): (r: Option<T>)
    ensures r.None? ==> forall j :: from <= j <= |s| ==> m(j).None?
    ensures r.Some? ==> exists p :: from <= p <= |s| && m(p) == r && forall j :: from <= j < p ==> m(j).None?
    decreases |s| + 1 - from
  {
    if from > |s| then None
    else if m(from).Some? then m(from)
    else Search(s, from + 1, m)
  }

  /** The text of a block the parser looks at, or `None` for a block it skips. */
  function TextOf(b: SlackBlock): Option<string> {
    if b.blockType == Some("section") && b.textObject.Some? then
      Some(Get(b.textObject.value, "text", ""))
    else
      None
  }

  /** The resource pattern as a matcher over the positions of `text`. */
  function ResourceMatcher(text: string): nat -> Option<(string, string, string)> {
    (p: nat) => ResourceAt(text, p)
  }

  function ReasonMatcher(text: string): nat -> Option<string> {
    (p: nat) => ReasonAt(text, p)
  }

  function ResourceIn(text: string): Option<(string, string, string)> {
    Search(text, 0, ResourceMatcher(text))
  }

  function ReasonIn(text: string): Option<string> {
    Search(text, 0, ReasonMatcher(text))
  }

  function FieldMatcher(text: string, tag: string): nat -> Option<string> {
    (p: nat) => FieldAt(text, tag, p)
  }

  function FieldIn(text: string, tag: string): Option<string> {
    Search(text, 0, FieldMatcher(text, tag))
  }

  /** The four fields of the "Quota Details:" block, each read by its own `<Tag>:\s+`([^`]+)`` pattern. */
  datatype QuotaPart = QuotaNamePart | ResourceTypePart | RequestedPart | LimitPart

  function PartTag(k: QuotaPart): string {
    match k
    case QuotaNamePart => QuotaNameTag
    case ResourceTypePart => ResourceTypeTag
    case RequestedPart => RequestedTag
    case LimitPart => LimitTag
  }

  function PartOf(d: Extracted, k: QuotaPart): string {
    match k
    case QuotaNamePart => d.quotaName
    case ResourceTypePart => d.quotaResourceType
    case RequestedPart => d.quotaRequested
    case LimitPart => d.quotaLimit
  }

  /**
   * A quota field after reading `text`: the pattern's group when the text holds
   * "Quota Details:" and the pattern matches, and the field as it was otherwise.
   */
  function QuotaFieldAfter(text: string, tag: string, previous: string): string {
    if Contains(text, QuotaDetailsMarker) && FieldIn(text, tag).Some? then FieldIn(text, tag).value else previous
  }

  /** What one examined block's text changes: each pattern that matches overwrites its fields. */
  function ApplyText(d: Extracted, text: string): (r: Extracted)
    ensures r.eventReason == (if ReasonIn(text).Some? then ReasonIn(text).value else d.eventReason)
    ensures ResourceIn(text).Some? ==>
      (r.resourceKind, r.resourceName, r.namespace) == ResourceIn(text).value
    ensures ResourceIn(text).None? ==>
      r.resourceKind == d.resourceKind && r.resourceName == d.resourceName && r.namespace == d.namespace
    ensures r.quotaName == QuotaFieldAfter(text, QuotaNameTag, d.quotaName)
    ensures r.quotaResourceType == QuotaFieldAfter(text, ResourceTypeTag, d.quotaResourceType)
    ensures r.quotaRequested == QuotaFieldAfter(text, RequestedTag, d.quotaRequested)
    ensures r.quotaLimit == QuotaFieldAfter(text, LimitTag, d.quotaLimit)
  {
    WithQuotaFields(WithReason(WithResource(d, text), text), text)
  }

  /** The resource pattern, when it matches, sets kind, name and namespace. */
  function WithResource(d: Extracted, text: string): (r: Extracted)
    ensures ResourceIn(text).Some? ==>
      (r.resourceKind, r.resourceName, r.namespace) == ResourceIn(text).value
    ensures ResourceIn(text).None? ==> r == d
    ensures r.eventReason == d.eventReason
    ensures r.quotaName == d.quotaName && r.quotaResourceType == d.quotaResourceType
    ensures r.quotaRequested == d.quotaRequested && r.quotaLimit == d.quotaLimit
  {
    match ResourceIn(text)
    case Some((kind, name, namespace)) => d.(resourceKind := kind, resourceName := name, namespace := namespace)
    case None => d
  }

  /** The reason pattern, when it matches, sets the event reason. */
  function WithReason(d: Extracted, text: string): (r: Extracted)
    ensures ReasonIn(text).Some? ==> r.eventReason == ReasonIn(text).value
    ensures ReasonIn(text).None? ==> r == d
    ensures r.(eventReason := d.eventReason) == d
  {
    match ReasonIn(text)
    case Some(reason) => d.(eventReason := reason)
    case None => d
  }

  /** In a block with the quota marker, each quota field pattern that matches sets its field. */
  function WithQuotaFields(d: Extracted, text: string): (r: Extracted)
    ensures !Contains(text, QuotaDetailsMarker) ==> r == d
    ensures r.quotaName == QuotaFieldAfter(text, QuotaNameTag, d.quotaName)
    ensures r.quotaResourceType == QuotaFieldAfter(text, ResourceTypeTag, d.quotaResourceType)
    ensures r.quotaRequested == QuotaFieldAfter(text, RequestedTag, d.quotaRequested)
    ensures r.quotaLimit == QuotaFieldAfter(text, LimitTag, d.quotaLimit)
    ensures r.(quotaName := d.quotaName, quotaResourceType := d.quotaResourceType,
               quotaRequested := d.quotaRequested, quotaLimit := d.quotaLimit) == d
  {
    if Contains(text, QuotaDetailsMarker) then
      var d := match FieldIn(text, QuotaNameTag) case Some(v) => d.(quotaName := v) case None => d;
      var d := match FieldIn(text, ResourceTypeTag) case Some(v) => d.(quotaResourceType := v) case None => d;
      var d := match FieldIn(text, RequestedTag) case Some(v) => d.(quotaRequested := v) case None => d;
      match FieldIn(text, LimitTag) case Some(v) => d.(quotaLimit := v) case None => d
    else
      d
  }

  function ApplyBlock(d: Extracted, b: SlackBlock): Extracted {
    match TextOf(b)
    case None => d
    case Some(text) => ApplyText(d, text)
  }

  /** The fields after reading `blocks` in order, starting from all "unknown". */
  function ExtractAll(blocks: seq<SlackBlock>): Extracted
    decreases |blocks|
  {
    if blocks == [] then NothingExtracted
    else ApplyBlock(ExtractAll(blocks[..|blocks| - 1]), blocks[|blocks| - 1])
  }

  /** `extract_from_slack_message`: one pass over the blocks, overwriting the `data` record. */
  method ExtractFromSlackMessage(blocks: seq<SlackBlock>) returns (data: Extracted)
    ensures data == ExtractAll(blocks)
  {
    data := NothingExtracted;
    for i := 0 to |blocks|
      invariant data == ExtractAll(blocks[..i])
    {
      assert blocks[..i + 1][..i] == blocks[..i];
      var text := TextOf(blocks[i]);
      if text.Some? {
        data := ApplyText(data, text.value);
      }
    }
    assert blocks[..|blocks|] == blocks;
  }

  /** Blocks that are not sections with a "text" leave every field as it was. */
  lemma SkippedBlockChangesNothing(blocks: seq<SlackBlock>, b: SlackBlock)
    requires TextOf(b).None?
    ensures ExtractAll(blocks + [b]) == ExtractAll(blocks)
  {
    assert (blocks + [b])[..|blocks|] == blocks;
  }

  /**
   * The last examined block decides each pattern's fields when it matches, and leaves
   * them to the earlier blocks when it does not: every one of the eight fields.
   */
  lemma LastMatchWins(blocks: seq<SlackBlock>, b: SlackBlock)
    requires TextOf(b).Some?
    ensures var d := ExtractAll(blocks + [b]); var prev := ExtractAll(blocks); var t := TextOf(b).value;
      && d.eventReason == (if ReasonIn(t).Some? then ReasonIn(t).value else prev.eventReason)
      && (d.resourceKind, d.resourceName, d.namespace)
         == (if ResourceIn(t).Some? then ResourceIn(t).value else (prev.resourceKind, prev.resourceName, prev.namespace))
      && forall k :: PartOf(d, k) == QuotaFieldAfter(t, PartTag(k), PartOf(prev, k))
  {
    var t := TextOf(b).value;
    assert (blocks + [b])[..|blocks|] == blocks;
    assert ExtractAll(blocks + [b]) == ApplyText(ExtractAll(blocks), t);
    ApplyTextParts(ExtractAll(blocks), t);
  }

  /** `ApplyText` sets each quota field as its pattern in the text says. */
  lemma ApplyTextParts(d: Extracted, text: string)
    ensures forall k :: PartOf(ApplyText(d, text), k) == QuotaFieldAfter(text, PartTag(k), PartOf(d, k))
  {
    forall k
      ensures PartOf(ApplyText(d, text), k) == QuotaFieldAfter(text, PartTag(k), PartOf(d, k))
    {
      var r := ApplyText(d, text);
      match k
      case QuotaNamePart =>
      case ResourceTypePart =>
      case RequestedPart =>
      case LimitPart =>
    }
  }

  predicate HasQuotaMarker(b: SlackBlock) {
    TextOf(b).Some? && Contains(TextOf(b).value, QuotaDetailsMarker)
  }

  /** The quota fields come only from examined blocks whose text holds "Quota Details:". */
  lemma {:induction false} QuotaFieldsNeedMarker(blocks: seq<SlackBlock>)
    requires forall i :: 0 <= i < |blocks| ==> !HasQuotaMarker(blocks[i])
    ensures var d := ExtractAll(blocks);
      d.quotaName == Unknown && d.quotaResourceType == Unknown && d.quotaRequested == Unknown && d.quotaLimit == Unknown
    decreases |blocks|
  {
    if blocks != [] {
      var init := blocks[..|blocks| - 1];
      assert forall i :: 0 <= i < |init| ==> init[i] == blocks[i];
      QuotaFieldsNeedMarker(init);
      assert !HasQuotaMarker(blocks[|blocks| - 1]);
    }
  }

  /** The block's text matches the reason pattern, with `reason` as its group. */
  predicate ReasonFrom(b: SlackBlock, reason: string) {
    TextOf(b).Some? && ReasonIn(TextOf(b).value) == Some(reason)
  }

  /** The block's text matches the resource pattern, with these three groups. */
  predicate ResourceFrom(b: SlackBlock, kind: string, name: string, namespace: string) {
    TextOf(b).Some? && ResourceIn(TextOf(b).value) == Some((kind, name, namespace))
  }

  /** The block's text holds "Quota Details:" and matches the field's pattern with `v`. */
  predicate QuotaFrom(b: SlackBlock, k: QuotaPart, v: string) {
    HasQuotaMarker(b) && FieldIn(TextOf(b).value, PartTag(k)) == Some(v)
  }

  /**
   * Every field is "unknown" or was read from one of the blocks: the reason from a block
   * whose text matches the reason pattern, kind, name and namespace together from one
   * block matching the resource pattern, and each quota field from a block that holds
   * "Quota Details:" and matches that field's pattern.
   */
  lemma FieldsComeFromBlocks(blocks: seq<SlackBlock>)
    ensures var d := ExtractAll(blocks);
      && (d.eventReason == Unknown || exists i :: 0 <= i < |blocks| && ReasonFrom(blocks[i], d.eventReason))
      && ((d.resourceKind, d.resourceName, d.namespace) == (Unknown, Unknown, Unknown)
          || exists i :: 0 <= i < |blocks| && ResourceFrom(blocks[i], d.resourceKind, d.resourceName, d.namespace))
      && forall k :: PartOf(d, k) == Unknown || exists i :: 0 <= i < |blocks| && QuotaFrom(blocks[i], k, PartOf(d, k))
  {
    ReasonComesFromBlocks(blocks);
    ResourceComesFromBlocks(blocks);
    forall k
      ensures var d := ExtractAll(blocks);
        PartOf(d, k) == Unknown || exists i :: 0 <= i < |blocks| && QuotaFrom(blocks[i], k, PartOf(d, k))
    {
      QuotaPartComesFromBlocks(blocks, k);
    }
  }

  lemma {:induction false} ReasonComesFromBlocks(blocks: seq<SlackBlock>)
    ensures var d := ExtractAll(blocks);
      d.eventReason == Unknown || exists i :: 0 <= i < |blocks| && ReasonFrom(blocks[i], d.eventReason)
    decreases |blocks|
  {
    if blocks != [] {
      var init := blocks[..|blocks| - 1];
      assert forall i :: 0 <= i < |init| ==> init[i] == blocks[i];
      ReasonComesFromBlocks(init);
    }
  }

  lemma {:induction false} ResourceComesFromBlocks(blocks: seq<SlackBlock>)
    ensures var d := ExtractAll(blocks);
      (d.resourceKind, d.resourceName, d.namespace) == (Unknown, Unknown, Unknown)
      || exists i :: 0 <= i < |blocks| && ResourceFrom(blocks[i], d.resourceKind, d.resourceName, d.namespace)
    decreases |blocks|
  {
    if blocks != [] {
      var init := blocks[..|blocks| - 1];
      assert forall i :: 0 <= i < |init| ==> init[i] == blocks[i];
      ResourceComesFromBlocks(init);
    }
  }

  lemma {:induction false} QuotaPartComesFromBlocks(blocks: seq<SlackBlock>, k: QuotaPart)
    ensures var d := ExtractAll(blocks);
      PartOf(d, k) == Unknown || exists i :: 0 <= i < |blocks| && QuotaFrom(blocks[i], k, PartOf(d, k))
    decreases |blocks|
  {
    if blocks != [] {
      var init := blocks[..|blocks| - 1];
      assert forall i :: 0 <= i < |init| ==> init[i] == blocks[i];
      QuotaPartComesFromBlocks(init, k);
    }
  }

  // ----- reading back the lines the quota action prints -----

  /** A search from `from` returns the match at `k` when no earlier position matches. */
  lemma {:induction false} SearchFinds<T>(s: string, from: nat, m: nat -> Option<T>, k: nat)
    requires from <= k <= |s| && m(k).Some?
    requires forall j :: from <= j < k ==> m(j).None?
    ensures Search(s, from, m) == m(k)
    decreases k - from
  {
    if from < k {
      SearchFinds(s, from + 1, m, k);
    }
  }

  /**
   * A field written as `<x><tag> `<v>`<y>` reads back as `v` when the tag does not occur
   * earlier, that is, nowhere in `x` followed by all of the tag but its last character.
   */
  lemma FieldReadBack(x: string, tag: string, v: string, y: string)
    requires |tag| >= 1 && !Contains(x + tag[..|tag| - 1], tag)
    requires |v| >= 1 && NoTick(v)
    ensures FieldIn(x + tag + " `" + v + "`" + y, tag) == Some(v)
  {
    var s := x + tag + " `" + v + "`" + y;
    FieldWrittenAt(x, tag, v, y);
    NoEarlierTag(x, tag, s);
    SearchFinds(s, 0, FieldMatcher(s, tag), |x|);
  }

  lemma FieldWrittenAt(x: string, tag: string, v: string, y: string)
    requires |v| >= 1 && NoTick(v)
    ensures FieldAt(x + tag + " `" + v + "`" + y, tag, |x|) == Some(v)
  {
    var a := x + tag;
    var c := a + " `" + v;
    var s := c + "`" + y;
    var q := |a|;
    assert s[..|c|] == c;
    assert s[|x|..q] == c[|x|..q] == a[|x|..] == tag;
    assert s[q + 2..q + 2 + |v|] == c[q + 2..] == v;
    FieldMatchAt(s, tag, |x|, v);
  }

  /** The field pattern matches at `p` on the tag, one space, and `v` between backticks. */
  lemma FieldMatchAt(s: string, tag: string, p: nat, v: string)
    requires |v| >= 1 && NoTick(v) && p + |tag| + 3 + |v| <= |s|
    requires s[p..p + |tag|] == tag && s[p + |tag|] == ' ' && s[p + |tag| + 1] == '`'
    requires s[p + |tag| + 2..p + |tag| + 2 + |v|] == v && s[p + |tag| + 2 + |v|] == '`'
    ensures FieldAt(s, tag, p) == Some(v)
  {
    var q := p + |tag|;
    OneSpace(s, q);
    TickedRunAt(s, q + 1, v);
  }

  /** The tag starts nowhere in `x` when it does not occur in `x` followed by its own head. */
  lemma NoEarlierTag(x: string, tag: string, s: string)
    requires |tag| >= 1 && !Contains(x + tag[..|tag| - 1], tag)
    requires |x| + |tag| <= |s| && s[..|x| + |tag| - 1] == x + tag[..|tag| - 1]
    ensures forall j :: 0 <= j < |x| ==> FieldMatcher(s, tag)(j).None?
  {
    var w := x + tag[..|tag| - 1];
    forall j | 0 <= j < |x|
      ensures FieldMatcher(s, tag)(j).None?
    {
      assert s[j..j + |tag|] == w[j..j + |tag|];
      assert !OccursAt(w, tag, j);
    }
  }

  /** A tag that occurs nowhere in the text leaves its field unread. */
  lemma FieldAbsent(text: string, tag: string)
    requires !Contains(text, tag)
    ensures FieldIn(text, tag).None?
  {
    forall j | 0 <= j <= |text|
      ensures FieldMatcher(text, tag)(j).None?
    {
      assert !OccursAt(text, tag, j);
    }
  }

  lemma ResourceFoundAt(text: string, k: nat)
    requires k <= |text| && ResourceAt(text, k).Some?
    requires forall j :: 0 <= j < k ==> !OccursAt(text, ResourceTag, j)
    ensures ResourceIn(text) == ResourceAt(text, k)
  {
    SearchFinds(text, 0, ResourceMatcher(text), k);
  }

  lemma ReasonFoundAt(text: string, k: nat)
    requires k <= |text| && ReasonAt(text, k).Some?
    requires forall j :: 0 <= j < k ==> !OccursAt(text, ReasonTag, j)
    ensures ReasonIn(text) == ReasonAt(text, k)
  {
    SearchFinds(text, 0, ReasonMatcher(text), k);
  }

  /**
   * A line `<x>Resource:* <kind> `<name>` in `<namespace>``, with no 'R' in `x`, a word for
   * the kind and names without backticks, reads back as that kind, name and namespace.
   */
  lemma ResourceLineReadBack(x: string, kind: string, name: string, namespace: string)
    requires 'R' !in x
    requires IsWord(kind)
    requires |name| >= 1 && NoTick(name) && |namespace| >= 1 && NoTick(namespace)
    ensures ResourceIn(x + ResourceTag + "* " + kind + " `" + name + "` in `" + namespace + "`")
            == Some((kind, name, namespace))
  {
    var s := x + ResourceTag + "* " + kind + " `" + name + "` in `" + namespace + "`";
    ResourceMatchesAfter(x, kind, name, namespace);
    assert s[..|x|] == x;
    AbsentBefore(s, |x|, ResourceTag);
    ResourceFoundAt(s, |x|);
  }

  lemma ResourceMatchesAfter(x: string, kind: string, name: string, namespace: string)
    requires IsWord(kind)
    requires |name| >= 1 && NoTick(name) && |namespace| >= 1 && NoTick(namespace)
    ensures ResourceAt(x + ResourceTag + "* " + kind + " `" + name + "` in `" + namespace + "`", |x|)
            == Some((kind, name, namespace))
  {
    var s := x + ResourceTag + "* " + kind + " `" + name + "` in `" + namespace + "`";
    var p := |x|;
    var b := p + 11 + |kind|;
    var e := b + 2 + |name|;
    assert s[p..p + 9] == ResourceTag;
    assert s[p + 9] == '*' && s[p + 10] == ' ';
    assert s[p + 11..b] == kind;
    assert s[b] == ' ' && s[b + 1] == '`';
    assert s[b + 2..e] == name;
    assert s[e] == '`' && s[e + 1] == ' ' && s[e + 2] == 'i' && s[e + 3] == 'n' && s[e + 4] == ' ' && s[e + 5] == '`';
    assert s[e + 6..e + 6 + |namespace|] == namespace;
    assert s[e + 6 + |namespace|] == '`';
    LocationMatchAt(s, b, name, namespace);
    ResourceMatchAt(s, p, kind, name, namespace);
  }

  /** `\s+` at `i` is one character long when a non-space follows the space. */
  lemma OneSpace(s: string, i: nat)
    requires i + 1 < |s| && IsSpace(s[i]) && !IsSpace(s[i + 1])
    ensures SpacesAt(s, i) == Some(i + 1)
  {
    assert SpaceEnd(s, i + 1) == i + 1;
  }

  /** The resource pattern matches at `p` where the tag, "* ", the kind and the location follow one another. */
  lemma ResourceMatchAt(s: string, p: nat, kind: string, name: string, namespace: string)
    requires IsWord(kind)
    requires p + 12 + |kind| <= |s|
    requires s[p..p + 9] == ResourceTag && s[p + 9] == '*' && s[p + 10] == ' '
    requires s[p + 11..p + 11 + |kind|] == kind && s[p + 11 + |kind|] == ' '
    requires LocationAt(s, p + 11 + |kind|) == Some((name, namespace))
    ensures ResourceAt(s, p) == Some((kind, name, namespace))
  {
    var a := p + 11;
    assert SpacesAt(s, p + 10) == Some(a) by {
      WordCharIsNotSpace(kind[0]);
      OneSpace(s, p + 10);
    }
    WordRunAt(s, a, kind);
    ResourceFromParts(s, p, kind, name, namespace);
  }

  /** `(\w+)` at `a` takes exactly the word `w` written there when a non-word character follows it. */
  lemma WordRunAt(s: string, a: nat, w: string)
    requires IsWord(w) && a + |w| < |s| && s[a..a + |w|] == w && !IsWordChar(s[a + |w|])
    ensures WordAt(s, a) == Some((w, a + |w|))
  {
    var e := WordEnd(s, a);
    assert forall k :: a <= k < a + |w| ==> s[k] == w[k - a];
    assert e == a + |w|;
  }

  /** `` `([^`]+)` `` at `i` takes exactly the text `g` between two backticks written there. */
  lemma TickedRunAt(s: string, i: nat, g: string)
    requires |g| >= 1 && NoTick(g) && i + |g| + 2 <= |s|
    requires s[i] == '`' && s[i + 1..i + 1 + |g|] == g && s[i + 1 + |g|] == '`'
    ensures TickedAt(s, i) == Some((g, i + |g| + 2))
  {
    var e := TickEnd(s, i + 1);
    assert forall k :: i + 1 <= k < i + 1 + |g| ==> s[k] == g[k - i - 1];
    assert e == i + 1 + |g|;
  }

  lemma ResourceFromParts(s: string, p: nat, kind: string, name: string, namespace: string)
    requires p + 11 + |kind| <= |s|
    requires OccursAt(s, ResourceTag, p) && StarsAt(s, p + 9) == Some(p + 10) && SpacesAt(s, p + 10) == Some(p + 11)
    requires WordAt(s, p + 11) == Some((kind, p + 11 + |kind|))
    requires LocationAt(s, p + 11 + |kind|) == Some((name, namespace))
    ensures ResourceAt(s, p) == Some((kind, name, namespace))
  {
    KindAndLocationFromParts(s, p + 11, kind, p + 11 + |kind|, name, namespace);
  }

  lemma KindAndLocationFromParts(s: string, q: nat, kind: string, j: nat, name: string, namespace: string)
    requires WordAt(s, q) == Some((kind, j)) && LocationAt(s, j) == Some((name, namespace))
    ensures KindAndLocationAt(s, q) == Some((kind, name, namespace))
  { }

  /** The location pattern matches at `b` on " `", the name, "` in `", the namespace and a backtick. */
  lemma LocationMatchAt(s: string, b: nat, name: string, namespace: string)
    requires |name| >= 1 && NoTick(name) && |namespace| >= 1 && NoTick(namespace)
    requires b + 9 + |name| + |namespace| <= |s|
    requires s[b] == ' ' && s[b + 1] == '`' && s[b + 2..b + 2 + |name|] == name
    requires var e := b + 2 + |name|;
      && s[e] == '`' && s[e + 1] == ' ' && s[e + 2] == 'i' && s[e + 3] == 'n' && s[e + 4] == ' ' && s[e + 5] == '`'
      && s[e + 6..e + 6 + |namespace|] == namespace && s[e + 6 + |namespace|] == '`'
    ensures LocationAt(s, b) == Some((name, namespace))
  {
    var e := b + 2 + |name|;
    OneSpace(s, b);
    TickedRunAt(s, b + 1, name);
    NamespaceMatchAt(s, e + 1, namespace);
    LocationFromParts(s, b, e + 1, name, namespace);
  }

  /** The namespace part matches at `c` on " in `", the namespace and a backtick. */
  lemma NamespaceMatchAt(s: string, c: nat, namespace: string)
    requires |namespace| >= 1 && NoTick(namespace) && c + 6 + |namespace| <= |s|
    requires s[c] == ' ' && s[c + 1] == 'i' && s[c + 2] == 'n' && s[c + 3] == ' ' && s[c + 4] == '`'
    requires s[c + 5..c + 5 + |namespace|] == namespace && s[c + 5 + |namespace|] == '`'
    ensures NamespaceAt(s, c) == Some(namespace)
  {
    OneSpace(s, c);
    OneSpace(s, c + 3);
    TickedRunAt(s, c + 4, namespace);
    NamespaceFromParts(s, c, namespace, c + 6 + |namespace|);
  }

  lemma NamespaceFromParts(s: string, c: nat, namespace: string, end: nat)
    requires c + 3 <= |s|
    requires SpacesAt(s, c) == Some(c + 1) && s[c + 1] == 'i' && s[c + 2] == 'n'
    requires SpacesAt(s, c + 3) == Some(c + 4) && TickedAt(s, c + 4) == Some((namespace, end))
    ensures NamespaceAt(s, c) == Some(namespace)
  { }

  lemma LocationFromParts(s: string, b: nat, c: nat, name: string, namespace: string)
    requires SpacesAt(s, b) == Some(b + 1) && TickedAt(s, b + 1) == Some((name, c))
    requires NamespaceAt(s, c) == Some(namespace)
    ensures LocationAt(s, b) == Some((name, namespace))
  { }

  /** A line `<x>Resource Quota Issue:* `<reason>``, with no 'R' in `x`, reads back as the reason. */
  lemma ReasonLineReadBack(x: string, reason: string)
    requires 'R' !in x && |reason| >= 1 && NoTick(reason)
    ensures ReasonIn(x + ReasonTag + "* `" + reason + "`") == Some(reason)
  {
    var s := x + ReasonTag + "* `" + reason + "`";
    ReasonMatchesAfter(x, reason);
    assert s[..|x|] == x;
    AbsentBefore(s, |x|, ReasonTag);
    ReasonFoundAt(s, |x|);
  }

  lemma ReasonMatchesAfter(x: string, reason: string)
    requires |reason| >= 1 && NoTick(reason)
    ensures ReasonAt(x + ReasonTag + "* `" + reason + "`", |x|) == Some(reason)
  {
    var s := x + ReasonTag + "* `" + reason + "`";
    var p := |x|;
    assert s[p..p + 21] == ReasonTag;
    assert s[p + 21] == '*' && s[p + 22] == ' ' && s[p + 23] == '`';
    assert s[p + 24..p + 24 + |reason|] == reason && s[p + 24 + |reason|] == '`';
    ReasonMatchAt(s, p, reason);
  }

  /** The reason pattern matches at `p` where the tag, "* `", the reason and a backtick follow one another. */
  lemma ReasonMatchAt(s: string, p: nat, reason: string)
    requires |reason| >= 1 && NoTick(reason) && p + 25 + |reason| <= |s|
    requires s[p..p + 21] == ReasonTag && s[p + 21] == '*' && s[p + 22] == ' ' && s[p + 23] == '`'
    requires s[p + 24..p + 24 + |reason|] == reason && s[p + 24 + |reason|] == '`'
    ensures ReasonAt(s, p) == Some(reason)
  {
    var a := p + 24;
    assert SpacesAt(s, p + 22) == Some(p + 23) by {
      OneSpace(s, p + 22);
    }
    assert TickedAt(s, p + 23).Some? && TickedAt(s, p + 23).value.0 == reason by {
      assert forall k :: 0 <= k < |reason| ==> s[a + k] == reason[k];
      assert TickEnd(s, a) == a + |reason|;
    }
  }

  // ----- execute_quota_remediation -----

  /**
   * One event of the streamed agent turn, as `AgentEventLogger().log` yields it: its role
   * (`None` for a role of `None`), its `error` and `content` (`None` when the event has no
   * such attribute), and `shown`, what `str(log)` prints.
   */
  datatype AgentLog = AgentLog(role: Option<string>, error: Option<string>, content: Option<string>, shown: string)

  /**
   * The error a tool execution reports: its non-empty `error`, or else its content when
   * that mentions "failed" or "error" in any letter case.
   */
  function ToolError(log: AgentLog): (r: Option<string>)
    ensures r.Some? ==> r.value != "" && (r == log.error || r == log.content)
    ensures log.error.Some? && log.error.value != "" ==> r == log.error
    ensures log.error.None? && log.content.None? ==> r.None?
  {
    if log.error.Some? && log.error.value != "" then
      log.error
    else if log.content.Some? then
      var lower := LowerAscii(log.content.value);
      if Contains(lower, "failed") || Contains(lower, "error") then
        assert |log.content.value| == |lower| > 0;
        log.content
      else
        None
    else
      None
  }

  /**
   * What the loop over the turn has gathered: the assistant events, the number of tool
   * executions, the streamed texts, the tool errors in order, and whether it stopped
   * because an error came a second time.
   */
  datatype TurnLog = TurnLog(assistant: seq<AgentLog>, tools: nat, streamed: seq<string>,
                             errors: seq<string>, stopped: bool)

  const EmptyTurn: TurnLog := TurnLog([], 0, [], [], false)

  /** What one event adds to the gathered turn. */
  function Record(t: TurnLog, log: AgentLog): TurnLog {
    if log.role == Some("assistant") then
      t.(assistant := t.assistant + [log])
    else if log.role == Some("tool_execution") then
      match ToolError(log)
      case None => t.(tools := t.tools + 1)
      case Some(e) => t.(tools := t.tools + 1, errors := t.errors + [e], stopped := multiset(t.errors)[e] + 1 >= 2)
    else if (log.role.None? || log.role == Some("")) && log.content.Some? then
      t.(streamed := t.streamed + [log.content.value])
    else
      t
  }

  /** The gathered turn after `logs`; the events after the stop are never read. */
  function CollectTurn(logs: seq<AgentLog>): TurnLog
    decreases |logs|
  {
    if logs == [] then EmptyTurn
    else
      var t := CollectTurn(logs[..|logs| - 1]);
      if t.stopped then t else Record(t, logs[|logs| - 1])
  }

  /** `error_counts.get(e, 0)`. */
  function Tally(counts: map<string, nat>, e: string): nat {
    if e in counts then counts[e] else 0
  }

  lemma {:induction false} StoppedStays(logs: seq<AgentLog>, i: nat)
    requires i <= |logs| && CollectTurn(logs[..i]).stopped
    ensures CollectTurn(logs) == CollectTurn(logs[..i])
    decreases |logs| - i
  {
    if i < |logs| {
      assert logs[..i + 1][..i] == logs[..i];
      StoppedStays(logs, i + 1);
    } else {
      assert logs[..i] == logs;
    }
  }

  /**
   * The loop over the streamed turn: it sorts the events by role, counts each tool error
   * in `errorCounts`, and breaks as soon as one error has come twice.
   */
  method CollectAgentTurn(logs: seq<AgentLog>) returns (t: TurnLog)
    ensures t == CollectTurn(logs)
  {
    t := EmptyTurn;
    var errorCounts: map<string, nat> := map[];
    var i := 0;
    while i < |logs|
      invariant i <= |logs| && t == CollectTurn(logs[..i]) && !t.stopped
      invariant forall e {:trigger Tally(errorCounts, e)} :: Tally(errorCounts, e) == multiset(t.errors)[e]
    {
      assert logs[..i + 1][..i] == logs[..i];
      var log := logs[i];
      if log.role == Some("assistant") {
        t := t.(assistant := t.assistant + [log]);
      } else if log.role == Some("tool_execution") {
        t := t.(tools := t.tools + 1);
        var error := ToolError(log);
        if error.Some? {
          var e := error.value;
          ghost var before, counted := t.errors, errorCounts;
          t := t.(errors := t.errors + [e]);
          errorCounts := errorCounts[e := Tally(errorCounts, e) + 1];
          forall x
            ensures Tally(errorCounts, x) == multiset(t.errors)[x]
          {
            assert Tally(counted, x) == multiset(before)[x];
            assert multiset(t.errors) == multiset(before) + multiset{e};
          }
          if errorCounts[e] >= 2 {
            t := t.(stopped := true);
            StoppedStays(logs, i + 1);
            return;
          }
        }
      } else if (log.role.None? || log.role == Some("")) && log.content.Some? {
        t := t.(streamed := t.streamed + [log.content.value]);
      }
      i := i + 1;
    }
    assert logs[..i] == logs;
  }

  /**
   * The early exit: no tool error is recorded more than twice, the loop stopped exactly
   * when one was recorded twice, that one is the last error recorded, and every error came
   * from a tool execution.
   */
  lemma {:induction false} RepeatedErrorStops(logs: seq<AgentLog>)
    ensures var t := CollectTurn(logs);
      && (forall e :: multiset(t.errors)[e] <= 2)
      && (t.stopped <==> exists e :: multiset(t.errors)[e] == 2)
      && (t.stopped ==> |t.errors| > 0 && multiset(t.errors)[t.errors[|t.errors| - 1]] == 2)
      && |t.errors| <= t.tools
    decreases |logs|
  {
    if logs != [] {
      var t0 := CollectTurn(logs[..|logs| - 1]);
      RepeatedErrorStops(logs[..|logs| - 1]);
      var t := CollectTurn(logs);
      if !t0.stopped && t.errors != t0.errors {
        var e := t.errors[|t.errors| - 1];
        assert t.errors == t0.errors + [e];
        assert forall x :: multiset(t.errors)[x] == multiset(t0.errors)[x] + (if x == e then 1 else 0);
      }
    }
  }

  /**
   * The final response: the content of the last assistant event (or the event itself when
   * it has no content), else the streamed texts joined, else "".
   */
  function FinalMessage(t: TurnLog): (r: string)
    ensures t.assistant != [] && t.assistant[|t.assistant| - 1].content.Some? ==>
      r == t.assistant[|t.assistant| - 1].content.value
    ensures t.assistant != [] && t.assistant[|t.assistant| - 1].content.None? ==>
      r == t.assistant[|t.assistant| - 1].shown
    ensures t.assistant == [] ==> r == Join(t.streamed, "")
  {
    if t.assistant != [] then
      var last := t.assistant[|t.assistant| - 1];
      if last.content.Some? then last.content.value else last.shown
    else
      Join(t.streamed, "")
  }

  /** A value of the `details` dict. */
  datatype Detail = Str(s: string) | Num(n: nat)

  /** What `execute_quota_remediation` returns: status, message and optional details. */
  datatype RemediationResult = RemediationResult(status: string, message: string, details: Option<map<string, Detail>>)

  /** The quota fields the remediation reads, each "unknown" when absent. */
  function QuotaField(req: RemediationRequest, key: string): string {
    Get(req.quotaDetails, key, Unknown)
  }

  const WarningText: string := "Agent responded but did not execute tools. Response: "

  /** The result of a turn that ran to its end or to the early exit. */
  function TurnResult(req: RemediationRequest, t: TurnLog): (r: RemediationResult)
    ensures t.errors != [] ==> r.status == "error" && StartsWith(r.message, "Tool execution failed: ")
    ensures t.errors == [] && t.tools > 0 ==> r.status == "success"
    ensures t.errors == [] && t.tools == 0 ==>
      r.status == "warning" && r.message == WarningText + Take(FinalMessage(t), 200)
  {
    var ns := Str(req.namespace);
    var rt := Str(QuotaField(req, "resource_type"));
    if t.errors != [] then
      var p := "Tool execution failed: ";
      assert (p + Join(t.errors, "; "))[..|p|] == p;
      RemediationResult("error", p + Join(t.errors, "; "),
        Some(map["namespace" := ns, "resource_type" := rt, "tool_executions" := Num(t.tools)]))
    else
      var final := FinalMessage(t);
      if t.tools > 0 then
        RemediationResult("success", "Successfully remediated quota issue. " + final,
          Some(map["namespace" := ns, "resource_type" := rt,
                   "requested" := Str(QuotaField(req, "requested")),
                   "previous_limit" := Str(QuotaField(req, "current_limit")),
                   "tool_executions" := Num(t.tools), "agent_response" := Str(Take(final, 500))]))
      else
        RemediationResult("warning", WarningText + Take(final, 200),
          Some(map["namespace" := ns, "resource_type" := rt, "agent_response" := Str(final)]))
  }

  /**
   * What the Llama Stack server does during one remediation: the error listing the tools
   * raises, the error creating the agent or its session raises, the events the turn
   * streams, and the error the stream raises when asked for more after them (a
   * `create_turn` that raises is a stream with no events).
   */
  datatype AgentRun = AgentRun(listingError: Option<string>, setupError: Option<string>,
                               logs: seq<AgentLog>, streamError: Option<string>)

  /**
   * `execute_quota_remediation`, with `Failure` for an exception that escapes it (one
   * raised while creating the agent or its session).
   */
  function Execution(req: RemediationRequest, run: AgentRun): Result<RemediationResult, string> {
    if run.listingError.Some? then
      Success(RemediationResult("error", "Failed to list available tools: " + run.listingError.value, None))
    else if run.setupError.Some? then
      Failure(run.setupError.value)
    else
      var t := CollectTurn(run.logs);
      if !t.stopped && run.streamError.Some? then
        Success(RemediationResult("error", "Remediation failed with error: " + run.streamError.value,
          Some(map["namespace" := Str(req.namespace), "resource_type" := Str(QuotaField(req, "resource_type"))])))
      else
        Success(TurnResult(req, t))
  }

  method ExecuteQuotaRemediation(req: RemediationRequest, run: AgentRun) returns (r: Result<RemediationResult, string>)
    ensures r == Execution(req, run)
  {
    if run.listingError.Some? {
      return Success(RemediationResult("error", "Failed to list available tools: " + run.listingError.value, None));
    }
    if run.setupError.Some? {
      return Failure(run.setupError.value);
    }
    var t := CollectAgentTurn(run.logs);
    if !t.stopped && run.streamError.Some? {
      return Success(RemediationResult("error", "Remediation failed with error: " + run.streamError.value,
        Some(map["namespace" := Str(req.namespace), "resource_type" := Str(QuotaField(req, "resource_type"))])));
    }
    r := Success(TurnResult(req, t));
  }

  /**
   * A remediation succeeds exactly when the tools were listed, the agent was set up, the
   * turn was read to its end without the stream failing, no tool reported an error, and
   * at least one tool ran. A turn cut short by a repeated error ends in "error" even when
   * the stream would have failed afterwards.
   */
  lemma ExecutionSucceeds(req: RemediationRequest, run: AgentRun)
    ensures var r := Execution(req, run); var t := CollectTurn(run.logs);
      && (r.Success? && r.value.status == "success" <==>
            run.listingError.None? && run.setupError.None? && run.streamError.None? && t.errors == [] && t.tools > 0)
      && (run.listingError.None? && run.setupError.None? && t.stopped ==> r.Success? && r.value.status == "error")
  {
    RepeatedErrorStops(run.logs);
  }

  /**
   * An error result names every tool error of the turn; a success reports the agent's
   * final message and its first 500 characters; a warning quotes the first 200.
   */
  lemma TurnResultReports(req: RemediationRequest, t: TurnLog)
    ensures var r := TurnResult(req, t);
      && (forall k :: 0 <= k < |t.errors| ==> Contains(r.message, t.errors[k]))
      && (r.status == "success" ==>
            && EndsWith(r.message, FinalMessage(t)) && r.details.Some?
            && r.details.value["agent_response"] == Str(Take(FinalMessage(t), 500))
            && StartsWith(FinalMessage(t), Take(FinalMessage(t), 500)))
      && (r.status == "warning" ==>
            && StartsWith(r.message, WarningText) && EndsWith(r.message, Take(FinalMessage(t), 200))
            && |Take(FinalMessage(t), 200)| == (if |FinalMessage(t)| < 200 then |FinalMessage(t)| else 200)
            && StartsWith(FinalMessage(t), Take(FinalMessage(t), 200))
            && r.details.Some? && r.details.value["agent_response"] == Str(FinalMessage(t)))
  {
    ErrorsNamed(req, t);
    var r := TurnResult(req, t);
    if r.status == "success" {
      SuccessReported(req, t);
    }
    if r.status == "warning" {
      WarningQuoted(req, t);
    }
  }

  lemma ErrorsNamed(req: RemediationRequest, t: TurnLog)
    ensures forall k :: 0 <= k < |t.errors| ==> Contains(TurnResult(req, t).message, t.errors[k])
  {
    var r := TurnResult(req, t);
    forall k | 0 <= k < |t.errors|
      ensures Contains(r.message, t.errors[k])
    {
      var p := "Tool execution failed: ";
      var s := Join(t.errors, "; ");
      JoinHasPart(t.errors, "; ", k);
      var j := FindFrom(s, t.errors[k], 0).value;
      assert r.message == p + s;
      assert r.message[|p| + j..|p| + j + |t.errors[k]|] == s[j..j + |t.errors[k]|];
      OccursThenContains(r.message, t.errors[k], |p| + j);
    }
  }

  lemma SuccessReported(req: RemediationRequest, t: TurnLog)
    requires TurnResult(req, t).status == "success"
    ensures var r := TurnResult(req, t); var f := FinalMessage(t);
      && EndsWith(r.message, f) && r.details.Some? && r.details.value["agent_response"] == Str(Take(f, 500))
      && StartsWith(f, Take(f, 500))
  {
    var r := TurnResult(req, t);
    var f := FinalMessage(t);
    var p := "Successfully remediated quota issue. ";
    assert r.message == p + f;
    assert r.message[|r.message| - |f|..] == f;
  }

  lemma WarningQuoted(req: RemediationRequest, t: TurnLog)
    requires TurnResult(req, t).status == "warning"
    ensures var r := TurnResult(req, t); var f := FinalMessage(t); var q := Take(f, 200);
      && StartsWith(r.message, WarningText) && EndsWith(r.message, q)
      && |q| == (if |f| < 200 then |f| else 200) && StartsWith(f, q)
      && r.details.Some? && r.details.value["agent_response"] == Str(f)
  {
    var r := TurnResult(req, t);
    var q := Take(FinalMessage(t), 200);
    assert r.message == WarningText + q;
    assert r.message[..|WarningText|] == WarningText;
    assert r.message[|r.message| - |q|..] == q;
  }

  // ----- remediate and run_remediation_async -----

  /** The Slack interaction payload, decoded: its `response_url` and its message's blocks, if any. */
  datatype SlackPayload = SlackPayload(responseUrl: Option<string>, blocks: Option<seq<SlackBlock>>)

  /** What reaches `POST /remediate`. */
  datatype Incoming =
    | FormPayload(payload: Result<SlackPayload, string>)  // a non-empty `payload` form field, decoded or the decode error
    | JsonBody(body: Result<RemediationRequest, string>)   // otherwise the body, validated or the error

  /** What the endpoint answers. */
  datatype Reply =
    | InProgress(request: RemediationRequest, responseUrl: string)  // "Remediation in progress...", the work goes on in a thread
    | Completed(result: RemediationResult)
    | HttpError(code: nat, detail: string)

  /** The request built from the Slack message's fields. */
  function SlackRequest(d: Extracted): (r: RemediationRequest)
    ensures r.issueType == "resource_quota" && r.remediationStrategy == "auto" && r.namespace == d.namespace
    ensures QuotaField(r, "resource_type") == d.quotaResourceType && QuotaField(r, "requested") == d.quotaRequested
    ensures QuotaField(r, "current_limit") == d.quotaLimit && QuotaField(r, "quota_name") == d.quotaName
    ensures r.quotaDetails.Keys == {"quota_name", "resource_type", "requested", "current_limit"}
    ensures r.resource.Keys == {"kind", "name"}
    ensures r.resource["kind"] == d.resourceKind && r.resource["name"] == d.resourceName
    ensures r.eventReason == d.eventReason
  {
    RemediationRequest("resource_quota", d.namespace, map["kind" := d.resourceKind, "name" := d.resourceName],
      d.eventReason,
      map["quota_name" := d.quotaName, "resource_type" := d.quotaResourceType,
          "requested" := d.quotaRequested, "current_limit" := d.quotaLimit],
      "auto")
  }

  /** A `response_url` Python treats as true: present and non-empty. */
  function CallbackUrl(u: Option<string>): string {
    if u.Some? then u.value else ""
  }

  /** The request and the callback URL ("" for none), or the 400 detail when reading fails. */
  function ParseIncoming(incoming: Incoming): (r: Result<(RemediationRequest, string), string>)
    ensures incoming.JsonBody? ==> r.Success? == incoming.body.Success? && (r.Success? ==> r.value.1 == "")
    ensures incoming.FormPayload? ==>
      (r.Success? <==> incoming.payload.Success? && incoming.payload.value.blocks.Some?)
  {
    match incoming
    case FormPayload(Failure(e)) => Failure("Invalid JSON in payload: " + e)
    case FormPayload(Success(p)) =>
      if p.blocks.None? then Failure("No message blocks found in Slack payload")
      else Success((SlackRequest(ExtractAll(p.blocks.value)), CallbackUrl(p.responseUrl)))
    case JsonBody(Failure(e)) => Failure("Could not parse request: " + e)
    case JsonBody(Success(req)) => Success((req, ""))
  }

  /** The checks of a synchronous request, in order: the client, the issue type, the namespace. */
  function Validate(req: RemediationRequest, clientReady: bool): (r: Option<(nat, string)>)
    ensures r.None? <==> clientReady && req.issueType == "resource_quota" && Strip(req.namespace) != ""
    ensures !clientReady ==> r == Some((503, "Client not initialized"))
    ensures r.Some? && clientReady ==> r.value.0 == 400
  {
    if !clientReady then
      Some((503, "Client not initialized"))
    else if req.issueType != "resource_quota" then
      Some((400, "Unsupported issue type: " + req.issueType + ". Currently only 'resource_quota' is supported."))
    else if req.namespace == "" || Strip(req.namespace) == "" then
      Some((400, "Namespace cannot be empty"))
    else
      None
  }

  /**
   * `remediate`: a request with a callback URL is answered at once and remediated in the
   * background without the checks; any other is checked and remediated before the answer,
   * an escaping exception becoming a 500.
   */
  method Remediate(incoming: Incoming, clientReady: bool, run: AgentRun) returns (reply: Reply)
    ensures ParseIncoming(incoming).Failure? ==> reply == HttpError(400, ParseIncoming(incoming).error)
    ensures ParseIncoming(incoming).Success? ==>
      var (req, url) := ParseIncoming(incoming).value;
      && (url != "" ==> reply == InProgress(req, url))
      && (url == "" && Validate(req, clientReady).Some? ==>
            reply == HttpError(Validate(req, clientReady).value.0, Validate(req, clientReady).value.1))
      && (url == "" && Validate(req, clientReady).None? ==>
            reply == match Execution(req, run)
                     case Success(result) => Completed(result)
                     case Failure(e) => HttpError(500, "Error processing remediation: " + e))
  {
    var req: RemediationRequest;
    var url := "";
    match incoming {
      case FormPayload(Failure(e)) =>
        return HttpError(400, "Invalid JSON in payload: " + e);
      case FormPayload(Success(p)) =>
        url := CallbackUrl(p.responseUrl);
        if p.blocks.None? {
          return HttpError(400, "No message blocks found in Slack payload");
        }
        var extracted := ExtractFromSlackMessage(p.blocks.value);
        req := SlackRequest(extracted);
      case JsonBody(Failure(e)) =>
        return HttpError(400, "Could not parse request: " + e);
      case JsonBody(Success(body)) =>
        req := body;
    }
    if url != "" {
      return InProgress(req, url);
    }
    var failed := Validate(req, clientReady);
    if failed.Some? {
      return HttpError(failed.value.0, failed.value.1);
    }
    var result := ExecuteQuotaRemediation(req, run);
    match result {
      case Success(res) => reply := Completed(res);
      case Failure(e) => reply := HttpError(500, "Error processing remediation: " + e);
    }
  }

  const CompletedText: string := "Remediation completed successfully"

  /** The text posted to Slack once a background remediation ends. */
  function AsyncMessage(outcome: Result<RemediationResult, string>): (m: string)
    ensures m == CompletedText <==> outcome.Success? && outcome.value.status == "success"
  {
    match outcome
    case Success(result) =>
      if result.status == "success" then CompletedText
      else
        var m := "Remediation failed: " + result.message;
        assert m[12] == 'f' != CompletedText[12];
        m
    case Failure(e) =>
      var m := "Remediation error: " + e;
      assert m[12] == 'e' != CompletedText[12];
      m
  }

  function ConfirmationText(namespace: string): string {
    "Remediation triggered for namespace *" + namespace + "*"
  }

  /**
   * `run_remediation_async`: the texts posted to the callback URL, the confirmation first
   * and the outcome second, or none when there is no URL. A failed post is logged and
   * changes nothing.
   */
  method RunRemediationAsync(req: RemediationRequest, responseUrl: string, run: AgentRun) returns (posts: seq<string>)
    ensures responseUrl == "" ==> posts == []
    ensures responseUrl != "" ==> posts == [ConfirmationText(req.namespace), AsyncMessage(Execution(req, run))]
  {
    posts := [];
    if responseUrl != "" {
      posts := posts + [ConfirmationText(req.namespace)];
    }
    var result := ExecuteQuotaRemediation(req, run);
    var message := AsyncMessage(result);
    if responseUrl != "" {
      posts := posts + [message];
    }
  }
}
