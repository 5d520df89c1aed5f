/**
 * The Robusta action for ResourceQuota events
 * (custom_playbooks/custom_actions/sreips-quota-action.py): it pulls the quota figures out
 * of the event message, asks the SREIPS query service for a resolution, posts the answer
 * as Slack blocks with a remediation button, and, when the button is pressed, forwards the
 * figures to the remediation service.
 */
module QuotaAction {
  import opened Wrappers
  import opened Text
  import opened SlackMarkdown
  import opened ActionCommon
  import opened RemediationAgent

  const Unknown: string := "unknown"
  const RequestedLabel: string := "requested:"
  const LimitedLabel: string := "limited:"

  // ----- extract_quota_details -----

  /** The three figures the action reports; each is "unknown" when its pattern does not match. */
  datatype QuotaDetails = QuotaDetails(resourceType: string, requested: string, limit: string)

  predicate NoEquals(t: string) {
    forall k :: 0 <= k < |t| ==> t[k] != '='
  }

  /**
   * `\s+[^=]+=` matches at `q` with a whitespace run of `w` characters, the group
   * `[^=]+` being `s[q + w..e]` and the '=' sitting at `e`.
   */
  predicate KeyMatch(s: string, q: nat, w: nat, e: nat) {
    1 <= w && q + w < e < |s| && AllSpace(s[q..q + w]) && NoEquals(s[q + w..e]) && s[e] == '='
  }

  /** Every way `\s+[^=]+=` can match at `q` ends at the first '=' from `q`, after a shorter run than `SpaceRunLen`. */
  lemma KeyMatchBounds(s: string, q: nat, w: nat, e: nat)
    requires KeyMatch(s, q, w, e)
    ensures CharFrom(s, '=', q) == Some(e)
    ensures w <= SpaceRunLen(s[q..])
  {
    forall k | q <= k < e
      ensures s[k] != '='
    {
      if k < q + w {
        assert s[k] == s[q..q + w][k - q];
      } else {
        assert s[k] == s[q + w..e][k - q - w];
      }
    }
    CharFromAt(s, '=', q, e);
    assert s[q..][..w] == s[q..q + w];
    SpaceRunMax(s[q..], w);
  }

  /**
   * The match of `\s+[^=]+=` at `q` that the backtracking matcher reports: the greedy
   * whitespace run gives back characters only when the '=' follows it at once.
   */
  function KeyAt(s: string, q: nat): (r: Option<(nat, nat)>)
    requires q <= |s|
    ensures r.Some? ==> 1 <= r.value.0 && q + r.value.0 < r.value.1 < |s| && s[r.value.1] == '='
  {
    var run := SpaceRunLen(s[q..]);
    match CharFrom(s, '=', q)
    case None => None
    case Some(e) =>
      if run == 0 || e < q + 2 then None
      else Some((if run < e - q - 1 then run else e - q - 1, e))
  }

  /** What `KeyAt` reports is a match of `\s+[^=]+=` at `q`. */
  lemma KeyAtMatches(s: string, q: nat)
    requires q <= |s| && KeyAt(s, q).Some?
    ensures KeyMatch(s, q, KeyAt(s, q).value.0, KeyAt(s, q).value.1)
  {
    var run := SpaceRunLen(s[q..]);
    var w := KeyAt(s, q).value.0;
    var e := KeyAt(s, q).value.1;
    assert s[q..q + w] == s[q..][..run][..w];
    var g := s[q + w..e];
    forall k | 0 <= k < |g|
      ensures g[k] != '='
    {
      assert g[k] == s[q + w + k];
    }
  }

  /**
   * `KeyAt` is the matcher's choice: no match of `\s+[^=]+=` at `q` is missed, none has
   * a longer whitespace run, and all of them end at the same '='.
   */
  lemma KeyAtIsGreedy(s: string, q: nat, w: nat, e: nat)
    requires q <= |s| && KeyMatch(s, q, w, e)
    ensures KeyAt(s, q).Some?
    ensures w <= KeyAt(s, q).value.0 && e == KeyAt(s, q).value.1
  {
    KeyMatchBounds(s, q, w, e);
  }

  /** A character of `[^,\s]`. */
  predicate IsValueChar(c: char) {
    c != ',' && !IsSpace(c)
  }

  predicate AllValueChars(v: string) {
    forall k :: 0 <= k < |v| ==> IsValueChar(v[k])
  }

  /** The longest prefix of `t` in `[^,\s]`: what the greedy group `([^,\s]+)` takes. */
  function ValueRun(t: string): (v: string)
    ensures |v| <= |t| && v == t[..|v|] && AllValueChars(v)
    ensures |v| == |t| || !IsValueChar(t[|v|])
  {
    if t == [] || !IsValueChar(t[0]) then []
    else
      var v := ValueRun(t[1..]);
      assert [t[0]] + v == t[..|v| + 1];
      [t[0]] + v
  }

  /** `group(1).strip()` for the group `([^,\s]+)` starting at the front of `t`; the strip changes nothing. */
  function StrippedValue(t: string): (v: string)
    ensures v == ValueRun(t)
  {
    StripValue(ValueRun(t));
    Strip(ValueRun(t))
  }

  /** A value of `[^,\s]` characters is left alone by `strip()`. */
  lemma StripValue(v: string)
    requires AllValueChars(v)
    ensures Strip(v) == v
  {
    if v != [] {
      assert IsValueChar(v[0]) && IsValueChar(v[|v| - 1]);
    }
    StripStripped(v);
  }

  /**
   * The pattern `label\s+[^=]+=` matches at `p`; with `needValue` the '=' must also be
   * followed by at least one character of `[^,\s]` (the pattern `label\s+[^=]+=([^,\s]+)`).
   */
  predicate LabelMatchAt(s: string, tag: string, needValue: bool, p: nat) {
    OccursAt(s, tag, p) &&
    var m := KeyAt(s, p + |tag|);
    m.Some? && (!needValue || |ValueRun(s[m.value.1 + 1..])| >= 1)
  }

  /** `re.search`: the leftmost position at or after `from` where the pattern matches. */
  function SearchFrom(s: string, tag: string, needValue: bool, from: nat): (r: Option<nat>)
    requires |tag| > 0
    ensures r.Some? ==> from <= r.value && LabelMatchAt(s, tag, needValue, r.value)
    decreases |s| - from
  {
    match FindFrom(s, tag, from)
    case None => None
    case Some(p) =>
      if LabelMatchAt(s, tag, needValue, p) then Some(p)
      else SearchFrom(s, tag, needValue, p + 1)
  }

  /** No match starts between `from` and the position `SearchFrom` reports (or the end when it reports none). */
  lemma {:induction false} SearchFromIsLeftmost(s: string, tag: string, needValue: bool, from: nat, p: nat)
    requires |tag| > 0 && from <= p && LabelMatchAt(s, tag, needValue, p)
    ensures SearchFrom(s, tag, needValue, from).Some?
    ensures SearchFrom(s, tag, needValue, from).value <= p
    decreases |s| - from
  {
    var f := FindFrom(s, tag, from);
    assert OccursAt(s, tag, p);
    assert f.Some? && f.value <= p;
    if LabelMatchAt(s, tag, needValue, f.value) {
      assert SearchFrom(s, tag, needValue, from) == Some(f.value);
    } else {
      SearchFromIsLeftmost(s, tag, needValue, f.value + 1, p);
      assert SearchFrom(s, tag, needValue, from) == SearchFrom(s, tag, needValue, f.value + 1);
    }
  }

  /** `re.search(r'requested:\s+([^=]+)=', m).group(1).strip()`, or `None` when there is no match. */
  function ResourceTypeIn(m: string): (r: Option<string>)
    ensures r.Some? ==> IsStripped(r.value)
  {
    KeyIn(m, RequestedLabel)
  }

  /** `re.search(tag + r'\s+([^=]+)=', m).group(1).strip()`, or `None` when there is no match. */
  function KeyIn(m: string, tag: string): (r: Option<string>)
    requires |tag| > 0
    ensures r.Some? ==> IsStripped(r.value)
  {
    match SearchFrom(m, tag, false, 0)
    case None => None
    case Some(p) => KeyAfterLabel(m, tag, p)
  }

  /** The stripped key group of the match of the label at `p`. */
  function KeyAfterLabel(m: string, tag: string, p: nat): (r: Option<string>)
    requires p + |tag| <= |m| && KeyAt(m, p + |tag|).Some?
  {
    Some(KeyGroupAt(m, p + |tag|))
  }

  /** The stripped key group `([^=]+)` of the match of `\s+[^=]+=` at `q`. */
  function KeyGroupAt(m: string, q: nat): (r: string)
    requires q <= |m| && KeyAt(m, q).Some?
    ensures IsStripped(r)
  {
    var k := KeyAt(m, q).value;
    Strip(m[q + k.0..k.1])
  }

  /**
   * `re.search(label + r'\s+[^=]+=([^,\s]+)', m).group(1).strip()`, or `None` when
   * there is no match: a non-empty value with no comma and no whitespace.
   */
  function AmountIn(m: string, tag: string): (r: Option<string>)
    requires |tag| > 0
    ensures r.Some? ==> |r.value| >= 1 && AllValueChars(r.value)
  {
    match SearchFrom(m, tag, true, 0)
    case None => None
    case Some(p) => Some(AmountAt(m, tag, p))
  }

  /** The stripped value group of a match of `label\s+[^=]+=([^,\s]+)` at `p`. */
  function AmountAt(m: string, tag: string, p: nat): (v: string)
    requires LabelMatchAt(m, tag, true, p)
    ensures |v| >= 1 && AllValueChars(v)
    ensures v == ValueRun(m[KeyAt(m, p + |tag|).value.1 + 1..])
  {
    var e := KeyAt(m, p + |tag|).value.1;
    ValueAfter(m, e)
  }

  /** The stripped value group that starts after the '=' at `e`. */
  function ValueAfter(m: string, e: nat): (v: string)
    requires e < |m|
    ensures v == ValueRun(m[e + 1..])
  {
    StrippedValue(m[e + 1..])
  }

  /** What `extract_quota_details` returns for an event message. */
  function QuotaDetailsOf(m: string): QuotaDetails {
    QuotaDetails(ResourceTypeIn(m).GetOr(Unknown),
                 AmountIn(m, RequestedLabel).GetOr(Unknown),
                 AmountIn(m, LimitedLabel).GetOr(Unknown))
  }

  /** `extract_quota_details`: start from "unknown" everywhere and overwrite each figure that matches. */
  method ExtractQuotaDetails(m: string) returns (details: QuotaDetails)
    ensures details == QuotaDetailsOf(m)
    ensures details.requested == Unknown || (|details.requested| >= 1 && AllValueChars(details.requested))
    ensures details.limit == Unknown || (|details.limit| >= 1 && AllValueChars(details.limit))
  {
    details := QuotaDetails(Unknown, Unknown, Unknown);
    var resource := ResourceTypeIn(m);
    if resource.Some? {
      details := details.(resourceType := resource.value);
    }
    var requested := AmountIn(m, RequestedLabel);
    if requested.Some? {
      details := details.(requested := requested.value);
    }
    var limit := AmountIn(m, LimitedLabel);
    if limit.Some? {
      details := details.(limit := limit.value);
    }
  }

  // ----- a well-formed "label key=value" is read back -----

  /** A key the pattern reads back whole: non-empty, without '=', and not padded with whitespace. */
  predicate WellFormedKey(k: string) {
    |k| >= 1 && NoEquals(k) && IsStripped(k)
  }

  /**
   * At `p` the text reads `tag`, one space, the key `k`, '=', then the value `v`, which
   * ends at a comma, a whitespace or the end of the text.
   */
  predicate WrittenAt(s: string, tag: string, p: nat, k: string, v: string) {
    var q := p + |tag|;
    var e := q + 1 + |k|;
    e + 1 + |v| <= |s| && s[p..q] == tag && s[q] == ' ' && s[q + 1..e] == k && s[e] == '='
    && s[e + 1..e + 1 + |v|] == v && (e + 1 + |v| == |s| || !IsValueChar(s[e + 1 + |v|]))
  }

  /** The text `label key=value` as an event message writes it. */
  function FieldText(tag: string, k: string, v: string): (t: string)
    ensures |t| == |tag| + |k| + |v| + 2
  {
    tag + " " + k + "=" + v
  }

  /** `label key=value` written after `pre` and followed by a separator or nothing is a written field at `|pre|`. */
  lemma FieldTextWritten(pre: string, tag: string, k: string, v: string, post: string)
    requires post == [] || !IsValueChar(post[0])
    ensures WrittenAt(pre + FieldText(tag, k, v) + post, tag, |pre|, k, v)
  {
    var m := pre + FieldText(tag, k, v) + post;
    var q := |pre| + |tag|;
    var e := q + 1 + |k|;
    assert m[|pre|..q] == tag;
    assert m[q + 1..e] == k;
    assert m[e + 1..e + 1 + |v|] == v;
    if post != [] {
      assert m[e + 1 + |v|] == post[0];
    }
  }

  /** After the label, a single space, a well-formed key and '=' make `KeyAt` report exactly that key. */
  lemma KeyAtWritten(s: string, q: nat, k: string)
    requires WellFormedKey(k) && q + 1 + |k| < |s|
    requires s[q] == ' ' && s[q + 1..q + 1 + |k|] == k && s[q + 1 + |k|] == '='
    ensures KeyAt(s, q) == Some((1, q + 1 + |k|))
  {
    var e := q + 1 + |k|;
    assert s[q + 1] == k[0];
    assert KeyMatch(s, q, 1, e) by {
      assert s[q..q + 1] == [' '];
      assert s[q + 1..e] == k;
    }
    KeyAtIsGreedy(s, q, 1, e);
    assert SpaceRunLen(s[q..]) == 1 by {
      assert s[q..][0] == ' ' && s[q..][1] == s[q + 1];
    }
  }

  /** What the scanners see at a written `label key=value`. */
  lemma WrittenField(s: string, tag: string, p: nat, k: string, v: string)
    requires |tag| > 0 && WrittenAt(s, tag, p, k, v)
    requires WellFormedKey(k) && |v| >= 1 && AllValueChars(v)
    ensures KeyAt(s, p + |tag|) == Some((1, p + |tag| + 1 + |k|))
    ensures ValueRun(s[p + |tag| + 1 + |k| + 1..]) == v
    ensures LabelMatchAt(s, tag, true, p) && LabelMatchAt(s, tag, false, p)
  {
    var q := p + |tag|;
    KeyAtWritten(s, q, k);
    ValueRunAt(s, q + 1 + |k| + 1, v);
  }

  /** A value of `[^,\s]` characters written at `b` and ending at a separator or the end is the run there. */
  lemma ValueRunAt(s: string, b: nat, v: string)
    requires b + |v| <= |s| && s[b..b + |v|] == v && AllValueChars(v)
    requires b + |v| == |s| || !IsValueChar(s[b + |v|])
    ensures ValueRun(s[b..]) == v
  {
    var post := s[b + |v|..];
    assert s[b..] == v + post;
    ValueRunOf(v, post);
  }

  /** The first occurrence of the label is the match `re.search` reports when the pattern holds there. */
  lemma SearchFindsFirst(s: string, tag: string, needValue: bool, p: nat)
    requires |tag| > 0 && FindFrom(s, tag, 0) == Some(p) && LabelMatchAt(s, tag, needValue, p)
    ensures SearchFrom(s, tag, needValue, 0) == Some(p)
  {
  }

  /**
   * Extraction of `label key=value`: when the first occurrence of the label is followed
   * by one space, a well-formed key, '=' and a value of `[^,\s]` characters ending at a
   * comma, a whitespace or the end, the pattern reads back the value.
   */
  lemma AmountExtracted(s: string, tag: string, p: nat, k: string, v: string)
    requires |tag| > 0 && FindFrom(s, tag, 0) == Some(p) && WrittenAt(s, tag, p, k, v)
    requires WellFormedKey(k) && |v| >= 1 && AllValueChars(v)
    ensures AmountIn(s, tag) == Some(v)
  {
    WrittenField(s, tag, p, k, v);
    SearchFindsFirst(s, tag, true, p);
    WrittenAmount(s, tag, p, k, v);
  }

  lemma WrittenAmount(s: string, tag: string, p: nat, k: string, v: string)
    requires |tag| > 0 && WrittenAt(s, tag, p, k, v)
    requires WellFormedKey(k) && |v| >= 1 && AllValueChars(v)
    requires LabelMatchAt(s, tag, true, p)
    ensures AmountAt(s, tag, p) == v
  {
    var e := p + |tag| + 1 + |k|;
    WrittenField(s, tag, p, k, v);
    AmountOfKey(s, tag, p, e, v);
  }

  /** The amount at a match whose '=' sits at `e` is the value run after it. */
  lemma AmountOfKey(s: string, tag: string, p: nat, e: nat, v: string)
    requires LabelMatchAt(s, tag, true, p) && KeyAt(s, p + |tag|) == Some((1, e))
    requires e < |s| && ValueRun(s[e + 1..]) == v
    ensures AmountAt(s, tag, p) == v
  {
    AmountAtKey(s, tag, p, e);
  }

  /** The amount at a match is the value run after the '=' that `KeyAt` found. */
  lemma AmountAtKey(s: string, tag: string, p: nat, e: nat)
    requires LabelMatchAt(s, tag, true, p) && KeyAt(s, p + |tag|) == Some((1, e))
    ensures AmountAt(s, tag, p) == ValueRun(s[e + 1..])
  {
  }

  /** Likewise, a written `requested: key=value` yields the key as the resource type. */
  lemma ResourceTypeExtracted(s: string, p: nat, k: string, v: string)
    requires FindFrom(s, RequestedLabel, 0) == Some(p) && WrittenAt(s, RequestedLabel, p, k, v)
    requires WellFormedKey(k) && |v| >= 1 && AllValueChars(v)
    ensures ResourceTypeIn(s) == Some(k)
  {
    KeyExtracted(s, RequestedLabel, p, k, v);
    assert ResourceTypeIn(s) == KeyIn(s, RequestedLabel);
  }

  /** For any label, a written `label key=value` at its first occurrence yields the key. */
  lemma KeyExtracted(s: string, tag: string, p: nat, k: string, v: string)
    requires |tag| > 0 && FindFrom(s, tag, 0) == Some(p) && WrittenAt(s, tag, p, k, v)
    requires WellFormedKey(k) && |v| >= 1 && AllValueChars(v)
    ensures KeyIn(s, tag) == Some(k)
  {
    WrittenKey(s, tag, p, k, v);
    SearchFindsFirst(s, tag, false, p);
    KeyReadBack(s, tag, p, p + |tag| + 1 + |k|, k);
  }

  /** The key part of a written field: the label matches, and the key runs from after the space to the '='. */
  lemma WrittenKey(s: string, tag: string, p: nat, k: string, v: string)
    requires |tag| > 0 && WrittenAt(s, tag, p, k, v)
    requires WellFormedKey(k) && |v| >= 1 && AllValueChars(v)
    ensures LabelMatchAt(s, tag, false, p) && KeyAt(s, p + |tag|) == Some((1, p + |tag| + 1 + |k|))
    ensures p + |tag| + 1 + |k| <= |s| && s[p + |tag| + 1..p + |tag| + 1 + |k|] == k
  {
    WrittenField(s, tag, p, k, v);
  }

  /** The first match of the label, followed by one space and a stripped key ending at the '=' at `e`, reads back that key. */
  lemma KeyReadBack(s: string, tag: string, p: nat, e: nat, k: string)
    requires |tag| > 0 && SearchFrom(s, tag, false, 0) == Some(p)
    requires KeyAt(s, p + |tag|) == Some((1, e))
    requires p + |tag| + 1 <= e <= |s| && s[p + |tag| + 1..e] == k && IsStripped(k)
    ensures KeyIn(s, tag) == Some(k)
  {
    KeyInAt(s, tag, p, e);
    StripStripped(k);
  }

  /** The key at the first match is the stripped text between the single space and the '='. */
  lemma KeyInAt(s: string, tag: string, p: nat, e: nat)
    requires |tag| > 0 && SearchFrom(s, tag, false, 0) == Some(p)
    requires KeyAt(s, p + |tag|) == Some((1, e))
    ensures KeyIn(s, tag) == Some(Strip(s[p + |tag| + 1..e]))
  {
    KeyInFirst(s, tag, p);
    KeyAfterLabelAt(s, tag, p, e);
  }

  lemma KeyInFirst(s: string, tag: string, p: nat)
    requires |tag| > 0 && SearchFrom(s, tag, false, 0) == Some(p)
    ensures p + |tag| <= |s| && KeyAt(s, p + |tag|).Some?
    ensures KeyIn(s, tag) == KeyAfterLabel(s, tag, p)
  {
  }

  lemma KeyAfterLabelAt(s: string, tag: string, p: nat, e: nat)
    requires p + |tag| <= |s| && KeyAt(s, p + |tag|) == Some((1, e))
    ensures KeyAfterLabel(s, tag, p) == Some(Strip(s[p + |tag| + 1..e]))
  {
    var q := p + |tag|;
    KeyGroupOf(s, q, e);
    assert KeyAfterLabel(s, tag, p) == Some(KeyGroupAt(s, q));
  }

  /** The key group of a match with a one-character whitespace run ending at `e`. */
  lemma KeyGroupOf(s: string, q: nat, e: nat)
    requires q <= |s| && KeyAt(s, q) == Some((1, e))
    ensures KeyGroupAt(s, q) == Strip(s[q + 1..e])
  {
  }

  lemma {:induction false} ValueRunOf(v: string, post: string)
    requires AllValueChars(v)
    requires post == [] || !IsValueChar(post[0])
    ensures ValueRun(v + post) == v
    decreases |v|
  {
    if v == [] {
      assert v + post == post;
    } else {
      assert (v + post)[1..] == v[1..] + post;
      ValueRunOf(v[1..], post);
    }
  }

  // ----- prompt -----

  /** `PROMPT_MAPPINGS`: short search prompts for the quota-related event reasons. */
  const QuotaPromptMappings: map<string, string> := map[
    "FailedCreate" := "pod creation failed resource quota exceeded OpenShift",
    "ExceededQuota" := "resource quota exceeded OpenShift",
    "LimitExceeded" := "resource limit exceeded OpenShift",
    "InsufficientMemory" := "insufficient memory quota OpenShift",
    "InsufficientCPU" := "insufficient CPU quota OpenShift",
    "QuotaExceeded" := "namespace quota exceeded OpenShift"]

  const TroubleshootingSuffix: string := " resource quota OpenShift troubleshooting"

  /** `PROMPT_MAPPINGS.get(event_reason, f"{event_reason} resource quota OpenShift troubleshooting")`. */
  function QuotaPrompt(reason: string): string {
    Get(QuotaPromptMappings, reason, reason + TroubleshootingSuffix)
  }

  /**
   * A prompt ends in " troubleshooting" exactly when the reason is not in the table, and
   * then it starts with the reason itself.
   */
  lemma QuotaPromptKind(reason: string)
    ensures EndsWith(QuotaPrompt(reason), " troubleshooting") <==> reason !in QuotaPromptMappings
    ensures reason !in QuotaPromptMappings ==> StartsWith(QuotaPrompt(reason), reason)
    ensures reason in QuotaPromptMappings ==> QuotaPrompt(reason) in QuotaPromptMappings.Values
  {
    var r := QuotaPrompt(reason);
    var t := " troubleshooting";
    if reason in QuotaPromptMappings {
      var v := QuotaPromptMappings[reason];
      assert v[|v| - 1] == 't';
      assert t[|t| - 1] == 'g';
    } else {
      assert TroubleshootingSuffix == " resource quota OpenShift" + t;
      assert r[|r| - |t|..] == t;
      assert r[..|reason|] == reason;
    }
  }

  /** Reasons outside the table get different prompts. */
  lemma QuotaPromptInjective(a: string, b: string)
    requires a !in QuotaPromptMappings && b !in QuotaPromptMappings
    requires QuotaPrompt(a) == QuotaPrompt(b)
    ensures a == b
  {
    assert |a| == |b|;
    assert a == QuotaPrompt(a)[..|a|];
    assert b == QuotaPrompt(b)[..|b|];
  }

  // ----- enrichment -----

  /**
   * The attributes the action reads, with the `getattr` defaults it supplies: a default
   * replaces only an absent attribute, and one that is `None` prints as "None". An
   * involved object that is absent or `None` is falsy and gives "Unknown" three times.
   */
  function QuotaContextOf(e: K8sEvent): EventContext {
    var reason := Printed(e.reason, "Unknown");
    var message := Printed(e.message, "No message available");
    match e.involvedObject
    case HasObject(o) => EventContext(reason, message, Printed(o.kind, "Unknown"), Printed(o.name, "Unknown"),
                                      Printed(o.namespace, "cluster-scoped"))
    case _ => EventContext(reason, message, "Unknown", "Unknown", "Unknown")
  }

  const IssueIcon: char := '\U{1F6A8}'
  const QuotaIcon: char := '\U{1F4CA}'
  const RemediateChoice: string := "\U{1F527} Trigger Auto-Remediation"

  const IssueHeader: string := "*\U{1F6A8} Resource Quota Issue:* "

  /** The issue line: the header, then the reason in backticks. */
  function QuotaIssueLine(reason: string): (t: string)
    ensures Icon(t) == IssueIcon && HeadedBy(t, IssueHeader, "`" + reason + "`")
  {
    var p := "*\U{1F6A8} " + "Resource Quota Issue:" + "* `";
    HeaderThenText(IssueHeader, "`" + reason + "`");
    assert p + reason + "`" == IssueHeader + ("`" + reason + "`");
    p + reason + "`"
  }

  const QuotaHeading: string := "*\U{1F4CA} Quota Details:*"

  /** One line of the quota block: a bullet, the caption, and the figure in backticks. */
  function QuotaBullet(caption: string, v: string): string {
    "\U{2022} " + caption + " `" + v + "`"
  }

  /** The quota block: the heading, then the resource type, the requested amount and the limit. */
  function QuotaInfo(d: QuotaDetails): (t: string)
    ensures Icon(t) == QuotaIcon
  {
    var t := QuotaHeading + "\n" + QuotaBullet(ResourceTypeTag, d.resourceType)
             + "\n" + QuotaBullet(RequestedTag, d.requested) + "\n" + QuotaBullet(LimitTag, d.limit);
    assert t[1] == QuotaHeading[1];
    t
  }

  /** The `action_params` of the remediation button. */
  function CallbackParams(c: EventContext, d: QuotaDetails): map<string, string> {
    map["namespace" := c.namespace, "resource_kind" := c.kind, "resource_name" := c.name,
        "event_reason" := c.reason, "quota_resource_type" := d.resourceType,
        "quota_requested" := d.requested, "quota_limit" := d.limit]
  }

  /** The blocks `lls_agent_quota_action` posts, given the parsed RAG and MCP texts. */
  function QuotaEnrichment(c: EventContext, d: QuotaDetails, rag: string, mcp: string): seq<Block> {
    [MarkdownBlock(QuotaIssueLine(c.reason)), MarkdownBlock(ResourceLine(c)), MarkdownBlock(MessageLine(c)), DividerBlock]
    + (if d.resourceType != Unknown then [MarkdownBlock(QuotaInfo(d)), DividerBlock] else [])
    + (if rag != "" then [MarkdownBlock(KnowledgeSection(rag)), DividerBlock] else [])
    + (if mcp != "" then [MarkdownBlock(ArticlesSection(mcp)), DividerBlock] else [])
    + [CallbackBlock(RemediateChoice, CallbackParams(c, d))]
  }

  /**
   * The layout of the quota enrichment: the three header lines and a divider always lead,
   * each optional section comes with its divider, and the remediation button is the last
   * block and the only button.
   */
  lemma QuotaEnrichmentShape(c: EventContext, d: QuotaDetails, rag: string, mcp: string)
    ensures var r := QuotaEnrichment(c, d, rag, mcp);
      && |r| == 5 + 2 * (Count(d.resourceType != Unknown) + Count(rag != "") + Count(mcp != ""))
      && r[0] == MarkdownBlock(QuotaIssueLine(c.reason)) && r[1] == MarkdownBlock(ResourceLine(c))
      && r[2] == MarkdownBlock(MessageLine(c)) && r[3] == DividerBlock
      && r[|r| - 1] == CallbackBlock(RemediateChoice, CallbackParams(c, d))
      && (forall i :: 0 <= i < |r| - 1 ==> !r[i].CallbackBlock?)
  {
    var r := QuotaEnrichment(c, d, rag, mcp);
    var q := if d.resourceType != Unknown then [MarkdownBlock(QuotaInfo(d)), DividerBlock] else [];
    var k := if rag != "" then [MarkdownBlock(KnowledgeSection(rag)), DividerBlock] else [];
    var a := if mcp != "" then [MarkdownBlock(ArticlesSection(mcp)), DividerBlock] else [];
    var h := [MarkdownBlock(QuotaIssueLine(c.reason)), MarkdownBlock(ResourceLine(c)), MarkdownBlock(MessageLine(c)), DividerBlock];
    var last := [CallbackBlock(RemediateChoice, CallbackParams(c, d))];
    assert r == h + q + k + a + last;
  }

  /**
   * The quota block appears exactly when a resource type was extracted, and the RAG and
   * MCP sections exactly when their texts are non-empty.
   */
  lemma QuotaEnrichmentIcons(c: EventContext, d: QuotaDetails, rag: string, mcp: string)
    ensures var r := QuotaEnrichment(c, d, rag, mcp);
      && ((exists i :: 0 <= i < |r| && ShowsIcon(r[i], QuotaIcon)) <==> d.resourceType != Unknown)
      && ((exists i :: 0 <= i < |r| && ShowsIcon(r[i], KnowledgeIcon)) <==> rag != "")
      && ((exists i :: 0 <= i < |r| && ShowsIcon(r[i], ArticlesIcon)) <==> mcp != "")
  {
    var r := QuotaEnrichment(c, d, rag, mcp);
    var q := if d.resourceType != Unknown then [MarkdownBlock(QuotaInfo(d)), DividerBlock] else [];
    var k := if rag != "" then [MarkdownBlock(KnowledgeSection(rag)), DividerBlock] else [];
    var a := if mcp != "" then [MarkdownBlock(ArticlesSection(mcp)), DividerBlock] else [];
    var h := [MarkdownBlock(QuotaIssueLine(c.reason)), MarkdownBlock(ResourceLine(c)), MarkdownBlock(MessageLine(c)), DividerBlock];
    var last := [CallbackBlock(RemediateChoice, CallbackParams(c, d))];
    assert r == h + q + k + a + last;
    if d.resourceType != Unknown {
      assert ShowsIcon(r[4], QuotaIcon);
    }
    if rag != "" {
      assert ShowsIcon(r[4 + |q|], KnowledgeIcon);
    }
    if mcp != "" {
      assert ShowsIcon(r[4 + |q| + |k|], ArticlesIcon);
    }
    forall i | 0 <= i < |r| && r[i].MarkdownBlock?
      ensures Icon(r[i].text) == QuotaIcon ==> d.resourceType != Unknown
      ensures Icon(r[i].text) == KnowledgeIcon ==> rag != ""
      ensures Icon(r[i].text) == ArticlesIcon ==> mcp != ""
    {
      if i < 4 {
        assert r[i] == h[i];
      } else if i < 4 + |q| {
        assert r[i] == q[i - 4];
      } else if i < 4 + |q| + |k| {
        assert r[i] == k[i - 4 - |q|];
      } else {
        assert r[i] == a[i - 4 - |q| - |k|];
      }
    }
  }

  /**
   * `lls_agent_quota_action`: read the event, extract the quota figures, ask the query
   * service (`ask` stands for the HTTP POST of the prompt), parse its answer and post the blocks.
   */
  method LlsAgentQuotaAction(event: K8sEvent, ask: string -> HttpOutcome, agentUrl: string)
    returns (r: Option<(string, seq<Block>)>)
    ensures r.None? <==> event.message.NoneValue?
    ensures r.Some? ==>
      var c := QuotaContextOf(event);
      && r.value.0 == QuotaPrompt(c.reason)
      && var parsed := ParseCombinedResults(CombinedResultsOf(ask(r.value.0), agentUrl, NoQuotaResults));
      r.value.1 == QuotaEnrichment(c, QuotaDetailsOf(c.message), parsed.0, parsed.1)
  {
    if event.message.NoneValue? {
      // `re.search` on a `None` message raises TypeError before the query is sent; the
      // action's broad `except Exception` only logs it, so nothing is asked or posted.
      return None;
    }
    var c := QuotaContextOf(event);
    var details := ExtractQuotaDetails(c.message);
    var prompt := QuotaPrompt(c.reason);
    var combined := CombinedResultsOf(ask(prompt), agentUrl, NoQuotaResults);
    var parsed := ParseCombinedResults(combined);
    var blocks := BuildQuotaEnrichment(c, details, parsed.0, parsed.1);
    r := Some((prompt, blocks));
  }

  /** The `enrichment_blocks` list, started with the header and appended to block by block. */
  method BuildQuotaEnrichment(c: EventContext, details: QuotaDetails, rag: string, mcp: string)
    returns (blocks: seq<Block>)
    ensures blocks == QuotaEnrichment(c, details, rag, mcp)
  {
    blocks := [MarkdownBlock(QuotaIssueLine(c.reason)), MarkdownBlock(ResourceLine(c)),
               MarkdownBlock(MessageLine(c)), DividerBlock];
    if details.resourceType != Unknown {
      blocks := blocks + [MarkdownBlock(QuotaInfo(details))];
      blocks := blocks + [DividerBlock];
    }
    if rag != "" {
      blocks := blocks + [MarkdownBlock(KnowledgeSection(rag))];
      blocks := blocks + [DividerBlock];
    }
    if mcp != "" {
      blocks := blocks + [MarkdownBlock(ArticlesSection(mcp))];
      blocks := blocks + [DividerBlock];
    }
    blocks := blocks + [CallbackBlock(RemediateChoice, CallbackParams(c, details))];
  }

  const NoQuotaResults: string := "No results returned from SREIPS Agent"

  // ----- remediate_quota_issue -----

  /** The pydantic `RemediationParams`: seven strings, each "unknown" when absent. */
  datatype RemediationParams = RemediationParams(
    namespace: string, resourceKind: string, resourceName: string, eventReason: string,
    quotaResourceType: string, quotaRequested: string, quotaLimit: string)

  /** How Robusta rebuilds `RemediationParams` from the button's `action_params`. */
  function ParamsOf(p: map<string, string>): RemediationParams {
    RemediationParams(Get(p, "namespace", Unknown), Get(p, "resource_kind", Unknown),
                      Get(p, "resource_name", Unknown), Get(p, "event_reason", Unknown),
                      Get(p, "quota_resource_type", Unknown), Get(p, "quota_requested", Unknown),
                      Get(p, "quota_limit", Unknown))
  }

  /** The button carries every field: the callback receives exactly what the action saw. */
  lemma CallbackParamsRoundTrip(c: EventContext, d: QuotaDetails)
    ensures ParamsOf(CallbackParams(c, d)) ==
      RemediationParams(c.namespace, c.kind, c.name, c.reason, d.resourceType, d.requested, d.limit)
  {
  }

  /** The JSON body posted to the remediation service. */
  function RemediationPayload(p: RemediationParams): RemediationRequest {
    RemediationRequest(
      "resource_quota", p.namespace, map["kind" := p.resourceKind, "name" := p.resourceName],
      p.eventReason,
      map["resource_type" := p.quotaResourceType, "requested" := p.quotaRequested,
          "current_limit" := p.quotaLimit],
      "auto")
  }

  /**
   * The payload the button posts passes the remediation service's checks (its client
   * being up) exactly when the namespace is not blank, and the service sees the figures
   * the button carried; the quota name is not carried, so the service sees "unknown".
   */
  lemma PayloadPassesChecks(p: RemediationParams)
    ensures Validate(RemediationPayload(p), true).None? <==> Strip(p.namespace) != ""
    ensures var r := RemediationPayload(p);
      && QuotaField(r, "resource_type") == p.quotaResourceType && QuotaField(r, "requested") == p.quotaRequested
      && QuotaField(r, "current_limit") == p.quotaLimit && QuotaField(r, "quota_name") == Unknown
  {
  }

  /**
   * The remediation service's Slack parser reads back the reason and the resource this
   * action printed, when the reason and the names hold no backtick and the kind is a word.
   */
  lemma SlackLinesReadBack(c: EventContext)
    requires |c.reason| >= 1 && NoTick(c.reason)
    requires IsWord(c.kind) && |c.name| >= 1 && NoTick(c.name) && |c.namespace| >= 1 && NoTick(c.namespace)
    ensures ReasonIn(QuotaIssueLine(c.reason)) == Some(c.reason)
    ensures ResourceIn(ResourceLine(c)) == Some((c.kind, c.name, c.namespace))
  {
    ReasonLineReadBack("*\U{1F6A8} ", c.reason);
    ResourceLineReadBack("*\U{1F4E6} ", c.kind, c.name, c.namespace);
  }

  /** A figure the quota block prints so that the remediation parser reads it back whole. */
  predicate PrintableFigure(v: string) {
    |v| >= 1 && NoTick(v) && ':' !in v
  }

  /**
   * The remediation service's Slack parser reads the quota block back: it finds the
   * "Quota Details:" marker, reads the resource type, the requested amount and the limit
   * this action printed, finds no quota name, and changes no other quota field, when each
   * figure is non-empty and holds no backtick and no ':'.
   */
  lemma QuotaInfoReadBack(d: QuotaDetails, prev: Extracted)
    requires PrintableFigure(d.resourceType) && PrintableFigure(d.requested) && PrintableFigure(d.limit)
    ensures Contains(QuotaInfo(d), QuotaDetailsMarker)
    ensures FieldIn(QuotaInfo(d), ResourceTypeTag) == Some(d.resourceType)
    ensures FieldIn(QuotaInfo(d), RequestedTag) == Some(d.requested)
    ensures FieldIn(QuotaInfo(d), LimitTag) == Some(d.limit)
    ensures FieldIn(QuotaInfo(d), QuotaNameTag).None?
    ensures var r := ApplyText(prev, QuotaInfo(d));
      && r.quotaName == prev.quotaName && r.quotaResourceType == d.resourceType
      && r.quotaRequested == d.requested && r.quotaLimit == d.limit
  {
    QuotaMarkerPrinted(d);
    ResourceTypeReadBack(d);
    RequestedReadBack(d);
    LimitReadBack(d);
    QuotaNameNotPrinted(d);
  }

  lemma QuotaMarkerPrinted(d: QuotaDetails)
    ensures Contains(QuotaInfo(d), QuotaDetailsMarker)
  {
    var t := QuotaInfo(d);
    assert t[..|QuotaHeading|] == QuotaHeading;
    assert t[3..17] == QuotaHeading[3..17] == QuotaDetailsMarker;
    OccursThenContains(t, QuotaDetailsMarker, 3);
  }

  /** The letters the quota heading lacks, one per tag the read-back arguments look for. */
  lemma HeadingLacks()
    ensures 'R' !in QuotaHeading && 'q' !in QuotaHeading && 'L' !in QuotaHeading && 'N' !in QuotaHeading
  {
  }

  /** Where each tag has the letter the read-back arguments use. */
  lemma TagLetters()
    ensures ResourceTypeTag[0] == 'R' && RequestedTag[2] == 'q' && LimitTag[0] == 'L' && QuotaNameTag[6] == 'N'
  {
  }

  /** The letters each bullet's caption part lacks. */
  lemma CaptionsLack()
    ensures 'q' !in "\U{2022} " + ResourceTypeTag + " "
    ensures 'L' !in "\U{2022} " + ResourceTypeTag + " " && 'L' !in "\U{2022} " + RequestedTag + " "
    ensures 'N' !in "\U{2022} " + ResourceTypeTag + " " && 'N' !in "\U{2022} " + RequestedTag + " "
    ensures 'N' !in "\U{2022} " + LimitTag + " "
  {
  }

  lemma TagShapes()
    ensures TagShape(ResourceTypeTag) && TagShape(RequestedTag) && TagShape(LimitTag) && TagShape(QuotaNameTag)
  {
  }

  /** A tag ending in its only ':', with no backtick and no line break. */
  predicate TagShape(tag: string) {
    |tag| >= 2 && tag[|tag| - 1] == ':' && ':' !in tag[..|tag| - 1] && '`' !in tag && '\n' !in tag
  }

  /** A bullet holds no tag that has a character its caption part lacks, a ':' and no backtick. */
  lemma BulletFree(caption: string, v: string, tag: string, k: nat, m: nat)
    requires k < |tag| && tag[k] !in "\U{2022} " + caption + " "
    requires m < |tag| && tag[m] == ':' && ':' !in v && '`' !in tag
    ensures !Contains(QuotaBullet(caption, v), tag)
  {
    var h := "\U{2022} " + caption + " ";
    assert QuotaBullet(caption, v) == h + ['`'] + (v + ['`'] + []);
    FreeWithout(h, tag, k);
    FreeWithout(v, tag, m);
    FreeAcross(v, '`', [], tag);
    FreeAcross(h, '`', v + ['`'] + [], tag);
  }

  /** Text free of the tag, a line break, a bullet and the tag without its ':' are still free of it. */
  lemma FreeBeforeTag(a: string, tag: string)
    requires TagShape(tag) && !Contains(a, tag)
    ensures !Contains(a + "\n" + "\U{2022} " + tag[..|tag| - 1], tag)
  {
    var b := "\U{2022} " + tag[..|tag| - 1];
    assert forall i :: 2 <= i < |b| ==> b[i] == tag[..|tag| - 1][i - 2];
    assert ':' !in b;
    FreeWithout(b, tag, |tag| - 1);
    assert a + "\n" + "\U{2022} " + tag[..|tag| - 1] == a + ['\n'] + b;
    FreeAcross(a, '\n', b, tag);
  }

  /** A bullet after a line break is the tag's field as the parser reads it: the tag, a space, the figure in backticks. */
  lemma BulletAsField(pre: string, tag: string, v: string, post: string)
    ensures pre + "\n" + QuotaBullet(tag, v) + post == (pre + "\n" + "\U{2022} ") + tag + " `" + v + "`" + post
  {
  }

  /** The bullet `tag` of a block `pre + "\n" + bullet + post` reads back as its figure. */
  lemma BulletReadBack(pre: string, tag: string, v: string, post: string)
    requires TagShape(tag) && !Contains(pre, tag) && |v| >= 1 && NoTick(v)
    ensures FieldIn(pre + "\n" + QuotaBullet(tag, v) + post, tag) == Some(v)
  {
    BulletAsField(pre, tag, v, post);
    FreeBeforeTag(pre, tag);
    FieldReadBack(pre + "\n" + "\U{2022} ", tag, v, post);
  }

  lemma ResourceTypeReadBack(d: QuotaDetails)
    requires PrintableFigure(d.resourceType)
    ensures FieldIn(QuotaInfo(d), ResourceTypeTag) == Some(d.resourceType)
  {
    var b2, b3 := QuotaBullet(RequestedTag, d.requested), QuotaBullet(LimitTag, d.limit);
    var b1 := QuotaBullet(ResourceTypeTag, d.resourceType);
    HeadingLacks();
    TagLetters();
    CaptionsLack();
    TagShapes();
    FreeWithout(QuotaHeading, ResourceTypeTag, 0);
    assert QuotaInfo(d) == QuotaHeading + "\n" + b1 + ("\n" + b2 + "\n" + b3);
    BulletReadBack(QuotaHeading, ResourceTypeTag, d.resourceType, "\n" + b2 + "\n" + b3);
  }

  lemma RequestedReadBack(d: QuotaDetails)
    requires PrintableFigure(d.resourceType) && PrintableFigure(d.requested)
    ensures FieldIn(QuotaInfo(d), RequestedTag) == Some(d.requested)
  {
    var b1, b3 := QuotaBullet(ResourceTypeTag, d.resourceType), QuotaBullet(LimitTag, d.limit);
    var b2 := QuotaBullet(RequestedTag, d.requested);
    HeadingLacks();
    TagLetters();
    CaptionsLack();
    TagShapes();
    FreeWithout(QuotaHeading, RequestedTag, 2);
    BulletFree(ResourceTypeTag, d.resourceType, RequestedTag, 2, |RequestedTag| - 1);
    FreeAcross(QuotaHeading, '\n', b1, RequestedTag);
    var a := QuotaHeading + "\n" + b1;
    ConcatAssoc(a + "\n" + b2, "\n", b3);
    BulletReadBack(a, RequestedTag, d.requested, "\n" + b3);
  }

  lemma LimitReadBack(d: QuotaDetails)
    requires PrintableFigure(d.resourceType) && PrintableFigure(d.requested) && PrintableFigure(d.limit)
    ensures FieldIn(QuotaInfo(d), LimitTag) == Some(d.limit)
  {
    var b1, b2 := QuotaBullet(ResourceTypeTag, d.resourceType), QuotaBullet(RequestedTag, d.requested);
    var b3 := QuotaBullet(LimitTag, d.limit);
    var a := QuotaHeading + "\n" + b1;
    HeadingLacks();
    TagLetters();
    CaptionsLack();
    TagShapes();
    FreeWithout(QuotaHeading, LimitTag, 0);
    BulletFree(ResourceTypeTag, d.resourceType, LimitTag, 0, |LimitTag| - 1);
    FreeAcross(QuotaHeading, '\n', b1, LimitTag);
    BulletFree(RequestedTag, d.requested, LimitTag, 0, |LimitTag| - 1);
    FreeAcross(a, '\n', b2, LimitTag);
    assert QuotaInfo(d) == a + "\n" + b2 + "\n" + b3 + [];
    BulletReadBack(a + "\n" + b2, LimitTag, d.limit, []);
  }

  lemma QuotaNameNotPrinted(d: QuotaDetails)
    requires PrintableFigure(d.resourceType) && PrintableFigure(d.requested) && PrintableFigure(d.limit)
    ensures FieldIn(QuotaInfo(d), QuotaNameTag).None?
  {
    var tag := QuotaNameTag;
    var b1, b2 := QuotaBullet(ResourceTypeTag, d.resourceType), QuotaBullet(RequestedTag, d.requested);
    var b3 := QuotaBullet(LimitTag, d.limit);
    var a := QuotaHeading + "\n" + b1;
    var a2 := a + "\n" + b2;
    HeadingLacks();
    TagLetters();
    CaptionsLack();
    TagShapes();
    FreeWithout(QuotaHeading, tag, 6);
    BulletFree(ResourceTypeTag, d.resourceType, tag, 6, |tag| - 1);
    FreeAcross(QuotaHeading, '\n', b1, tag);
    BulletFree(RequestedTag, d.requested, tag, 6, |tag| - 1);
    FreeAcross(a, '\n', b2, tag);
    BulletFree(LimitTag, d.limit, tag, 6, |tag| - 1);
    FreeAcross(a2, '\n', b3, tag);
    FieldAbsent(QuotaInfo(d), tag);
  }

  const SuccessLine: string := "*\U{2705} Remediation Triggered Successfully*"
  const FailedLine: string := "*\U{274C} Remediation Failed*"

  /** The two blocks posted after the remediation service answered, or failed to. */
  function RemediationReply(outcome: HttpOutcome, remediationUrl: string): seq<Block> {
    match outcome
    case Responded(body) =>
      var status := Get(body, "status", Unknown);
      var message := Get(body, "message", "No message returned");
      if status == "success" then
        [MarkdownBlock(SuccessLine), MarkdownBlock("*Response:* " + message)]
      else
        [MarkdownBlock("*\U{26A0}\U{FE0F} Remediation Request Status: " + status + "*"), MarkdownBlock("*Details:* " + message)]
    case TimedOut =>
      [MarkdownBlock(FailedLine), MarkdownBlock("Request to remediation service timed out")]
    case ConnectionFailed =>
      [MarkdownBlock(FailedLine), MarkdownBlock("Could not connect to remediation service at " + remediationUrl)]
    case Raised(e) =>
      [MarkdownBlock(FailedLine), MarkdownBlock("Error: " + e)]
  }

  /**
   * `remediate_quota_issue`: post the payload built from the button's parameters
   * (`post` stands for the HTTP POST) and report the answer.
   */
  function RemediateQuotaIssue(p: RemediationParams, post: RemediationRequest -> HttpOutcome,
                               remediationUrl: string): seq<Block> {
    RemediationReply(post(RemediationPayload(p)), remediationUrl)
  }

  /**
   * The reply is always two Markdown blocks, and it opens with the success line exactly
   * when the service answered with status "success"; a failed call opens with the failure line.
   */
  lemma RemediationReplyShape(outcome: HttpOutcome, remediationUrl: string)
    ensures var r := RemediationReply(outcome, remediationUrl);
      && |r| == 2 && r[0].MarkdownBlock? && r[1].MarkdownBlock?
      && (r[0] == MarkdownBlock(SuccessLine) <==>
          outcome.Responded? && Get(outcome.body, "status", Unknown) == "success")
      && (!outcome.Responded? <==> r[0] == MarkdownBlock(FailedLine))
  {
    var r := RemediationReply(outcome, remediationUrl);
    assert SuccessLine[1] != FailedLine[1];
    if outcome.Responded? && Get(outcome.body, "status", Unknown) != "success" {
      var p := "*\U{26A0}\U{FE0F} Remediation Request Status: ";
      var status := Get(outcome.body, "status", Unknown);
      assert r[0].text[1] == p[1];
      assert p[1] != SuccessLine[1] && p[1] != FailedLine[1];
    }
  }
}

/** The worked example in the docstring of `extract_quota_details`. */
module QuotaActionExample {
  import opened Wrappers
  import opened Text
  import opened QuotaAction

  const ExamplePrefix: string := "pods \"mypod\" is forbidden: " + "exceeded quota: " + "compute-resources, "
  const UsedText: string := ", used: cpu=8, "

  /** The event message quoted in the docstring of `extract_quota_details`, spelled out piece by piece. */
  const ExampleMessage: string :=
    ExamplePrefix + FieldText(RequestedLabel, "cpu", "2") + UsedText + FieldText(LimitedLabel, "cpu", "10")

  /** The docstring example yields resource type "cpu", requested "2" and limit "10". */
  lemma ExampleMessageDetails()
    ensures QuotaDetailsOf(ExampleMessage) == QuotaDetails("cpu", "2", "10")
  {
    var m := ExampleMessage;
    RequestedWrittenInExample();
    RequestedFirstInExample(m);
    LimitedWrittenInExample();
    LimitedFirstInExample(m);
    DetailsOfLayout(m);
  }

  /** A message laid out like the example, with its figures where the example has them. */
  lemma DetailsOfLayout(m: string)
    requires FindFrom(m, RequestedLabel, 0) == Some(62) && WrittenAt(m, RequestedLabel, 62, "cpu", "2")
    requires FindFrom(m, LimitedLabel, 0) == Some(93) && WrittenAt(m, LimitedLabel, 93, "cpu", "10")
    ensures QuotaDetailsOf(m) == QuotaDetails("cpu", "2", "10")
  {
    CpuIsWellFormed();
    RequestedOfLayout(m);
    LimitedOfLayout(m);
  }

  lemma CpuIsWellFormed()
    ensures WellFormedKey("cpu")
  {
    assert IsStripped("cpu");
  }

  lemma RequestedOfLayout(m: string)
    requires FindFrom(m, RequestedLabel, 0) == Some(62) && WrittenAt(m, RequestedLabel, 62, "cpu", "2")
    ensures ResourceTypeIn(m) == Some("cpu") && AmountIn(m, RequestedLabel) == Some("2")
  {
    CpuIsWellFormed();
    ResourceTypeExtracted(m, 62, "cpu", "2");
    AmountExtracted(m, RequestedLabel, 62, "cpu", "2");
  }

  lemma LimitedOfLayout(m: string)
    requires FindFrom(m, LimitedLabel, 0) == Some(93) && WrittenAt(m, LimitedLabel, 93, "cpu", "10")
    ensures AmountIn(m, LimitedLabel) == Some("10")
  {
    CpuIsWellFormed();
    AmountExtracted(m, LimitedLabel, 93, "cpu", "10");
  }

  lemma RequestedWrittenInExample()
    ensures WrittenAt(ExampleMessage, RequestedLabel, 62, "cpu", "2")
  {
    var rest := UsedText + FieldText(LimitedLabel, "cpu", "10");
    ConcatAssoc(ExamplePrefix + FieldText(RequestedLabel, "cpu", "2"), UsedText, FieldText(LimitedLabel, "cpu", "10"));
    assert rest[0] == ',';
    FieldTextWritten(ExamplePrefix, RequestedLabel, "cpu", "2", rest);
  }

  /** The characters of the example that keep "requested:" from occurring before index 62. */
  lemma RequestedBlockersInExample(m: string)
    requires m == ExampleMessage
    ensures |m| == 108 && m[9] == 'o' && m[19] == 'b' && m[29] == 'c' && m[38] == 'o' && m[46] == 'p' && m[54] == 'o' && m[61] == ' '
  {
    assert m[..62] == ExamplePrefix;
  }

  lemma RequestedFirstInExample(m: string)
    requires m == ExampleMessage
    ensures FindFrom(m, RequestedLabel, 0) == Some(62)
  {
    RequestedBlockersInExample(m);
    RequestedWrittenInExample();
    RequestedFirstAt62(m);
  }

  /** Any text with those characters and "requested:" at 62 has its first "requested:" there. */
  lemma RequestedFirstAt62(m: string)
    requires |m| == 108 && m[9] == 'o' && m[19] == 'b' && m[29] == 'c' && m[38] == 'o' && m[46] == 'p' && m[54] == 'o' && m[61] == ' '
    requires m[62..72] == RequestedLabel
    ensures FindFrom(m, RequestedLabel, 0) == Some(62)
  {
    NoOccurrenceOver(m, RequestedLabel, 9);
    NoOccurrenceOver(m, RequestedLabel, 19);
    NoOccurrenceOver(m, RequestedLabel, 29);
    NoOccurrenceOver(m, RequestedLabel, 38);
    NoOccurrenceOver(m, RequestedLabel, 46);
    NoOccurrenceOver(m, RequestedLabel, 54);
    NoOccurrenceOver(m, RequestedLabel, 61);
    FirstOccurrence(m, RequestedLabel, 62);
  }

  lemma LimitedWrittenInExample()
    ensures WrittenAt(ExampleMessage, LimitedLabel, 93, "cpu", "10")
  {
    var pre := ExamplePrefix + FieldText(RequestedLabel, "cpu", "2") + UsedText;
    assert ExampleMessage == pre + FieldText(LimitedLabel, "cpu", "10") + [];
    FieldTextWritten(pre, LimitedLabel, "cpu", "10", []);
  }

  /** The characters of the example that keep "limited:" from occurring before index 93. */
  lemma LimitedBlockersInExample(m: string)
    requires m == ExampleMessage
    ensures |m| == 108 && m[7] == 'y' && m[15] == ' ' && m[19] == 'b' && m[26] == ' ' && m[29] == 'c' && m[37] == 'u' && m[44] == 'o' && m[51] == 'r' && m[59] == 's' && m[67] == 's' && m[75] == 'u' && m[81] == 's' && m[89] == '=' && m[92] == ' '
  {
    assert m[..62] == ExamplePrefix;
  }

  lemma LimitedFirstInExample(m: string)
    requires m == ExampleMessage
    ensures FindFrom(m, LimitedLabel, 0) == Some(93)
  {
    LimitedBlockersInExample(m);
    LimitedWrittenInExample();
    LimitedFirstAt93(m);
  }

  /** Any text with those characters and "limited:" at 93 has its first "limited:" there. */
  lemma LimitedFirstAt93(m: string)
    requires |m| == 108 && m[7] == 'y' && m[15] == ' ' && m[19] == 'b' && m[26] == ' ' && m[29] == 'c' && m[37] == 'u' && m[44] == 'o' && m[51] == 'r' && m[59] == 's' && m[67] == 's' && m[75] == 'u' && m[81] == 's' && m[89] == '=' && m[92] == ' '
    requires m[93..101] == LimitedLabel
    ensures FindFrom(m, LimitedLabel, 0) == Some(93)
  {
    NoOccurrenceOver(m, LimitedLabel, 7);
    NoOccurrenceOver(m, LimitedLabel, 15);
    NoOccurrenceOver(m, LimitedLabel, 19);
    NoOccurrenceOver(m, LimitedLabel, 26);
    NoOccurrenceOver(m, LimitedLabel, 29);
    NoOccurrenceOver(m, LimitedLabel, 37);
    NoOccurrenceOver(m, LimitedLabel, 44);
    NoOccurrenceOver(m, LimitedLabel, 51);
    NoOccurrenceOver(m, LimitedLabel, 59);
    NoOccurrenceOver(m, LimitedLabel, 67);
    NoOccurrenceOver(m, LimitedLabel, 75);
    NoOccurrenceOver(m, LimitedLabel, 81);
    NoOccurrenceOver(m, LimitedLabel, 89);
    NoOccurrenceOver(m, LimitedLabel, 92);
    FirstOccurrence(m, LimitedLabel, 93);
  }
}
