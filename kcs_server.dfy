/**
 * The Red Hat API MCP server (rh-kcs-mcp/redhat_mcp_server.py): an API client that caches
 * an OAuth access token, and four tools that project the JSON of the KCS and case search
 * APIs into fixed-shape records.
 */
module KcsServer {
  import opened Wrappers
  import opened Text

  // ----- JSON values and the Python operations the tools apply to them -----

  /** A parsed JSON value. Objects are maps: the order of their keys is not modelled. */
  datatype Json =
    | JNull
    | JBool(b: bool)
    | JNum(n: real)
    | JStr(s: string)
    | JList(items: seq<Json>)
    | JObject(fields: map<string, Json>)

  type Object = map<string, Json>

  /** The exceptions a malformed response raises, by class. */
  const TypeErr: string := "TypeError"
  const KeyErr: string := "KeyError"
  const AttributeErr: string := "AttributeError"
  const JsonDecodeErr: string := "JSONDecodeError"

  /** Python truthiness of a JSON value. */
  predicate Truthy(v: Json) {
    match v
    case JNull => false
    case JBool(b) => b
    case JNum(n) => n != 0.0
    case JStr(s) => s != ""
    case JList(items) => items != []
    case JObject(f) => f != map[]
  }

  /** `d.get(k)`: `None` when the key is absent. */
  function GetOrNone(d: Object, k: string): Json {
    Get(d, k, JNull)
  }

  /**
   * Python `key in v`: a key test on an object, a membership test on a list, a substring
   * test on a string; on `None`, a boolean or a number it raises TypeError.
   */
  function HasKey(v: Json, key: string): (r: Result<bool, string>)
    ensures v.JObject? ==> r == Success(key in v.fields)
    ensures r.Failure? <==> !(v.JObject? || v.JList? || v.JStr?)
  {
    match v
    case JObject(f) => Success(key in f)
    case JList(items) => Success(JStr(key) in items)
    case JStr(s) => Success(Contains(s, key))
    case _ => Failure(TypeErr)
  }

  /** Python `v[key]` with a string key: only an object holding the key answers. */
  function Index(v: Json, key: string): (r: Result<Json, string>)
    ensures r.Success? <==> v.JObject? && key in v.fields
    ensures r.Success? ==> r.value == v.fields[key]
  {
    match v
    case JObject(f) => if key in f then Success(f[key]) else Failure(KeyErr)
    case _ => Failure(TypeErr)
  }

  /**
   * Iterating `v` (or `reversed(v)`) and calling `.get` on every element. A list gets
   * through when all its elements are objects; an empty string or object iterates over
   * nothing; any other element raises AttributeError, and a value that cannot be
   * iterated raises TypeError.
   */
  function Objects(v: Json): (r: Result<seq<Object>, string>)
    ensures v.JList? ==> (r.Success? <==> forall i :: 0 <= i < |v.items| ==> v.items[i].JObject?)
    ensures r.Success? && v.JList? ==>
      |r.value| == |v.items| && forall i :: 0 <= i < |v.items| ==> v.items[i] == JObject(r.value[i])
    ensures r.Success? && !v.JList? ==> r.value == []
  {
    match v
    case JList(items) =>
      if forall i :: 0 <= i < |items| ==> items[i].JObject? then
        Success(seq(|items|, i requires 0 <= i < |items| => items[i].fields))
      else
        Failure(AttributeErr)
    case JObject(f) => if f == map[] then Success([]) else Failure(AttributeErr)
    case JStr(s) => if s == "" then Success([]) else Failure(AttributeErr)
    case _ => Failure(TypeErr)
  }

  /**
   * The dict display `{out: d.get(in, default), ...}`: `fields` maps each output key to
   * the input key it is read from (the displays of the source have distinct keys).
   */
  function Project(d: Object, fields: map<string, string>, default: Json): (r: Object)
    ensures r.Keys == fields.Keys
    ensures forall k :: k in fields ==> r[k] == Get(d, fields[k], default)
  {
    map k | k in fields :: Get(d, fields[k], default)
  }

  // ----- RedHatAPI: the token cache -----

  const BaseUrl: string := "https://access.redhat.com"
  const MissingTokenError: string := "RH_API_OFFLINE_TOKEN environment variable is required"

  /**
   * What the SSO token endpoint answers to a refresh-token grant. `ExpiryUnreadable` is an
   * answer with an access token whose `expires_in` is missing or not a number: the token
   * has already been stored when computing the expiry raises.
   */
  datatype TokenGrant =
    | Granted(accessToken: string, expiresIn: int)
    | ExpiryUnreadable(accessToken: string, error: string)
    | RefreshFailed(error: string)

  /** The two cached fields of the client; the expiry is in integer seconds. */
  datatype TokenCache = TokenCache(accessToken: Option<string>, tokenExpiry: Option<int>)

  /** What `get_access_token` did: the cache after it, its result, and whether it refreshed. */
  datatype TokenOutcome = TokenOutcome(cache: TokenCache, result: Result<string, string>, refreshed: bool)

  /**
   * The cached token may be served: it is set and non-empty (an empty string is falsy),
   * the expiry is set, and the clock is still before it.
   */
  predicate CacheValid(c: TokenCache, now: int) {
    c.accessToken.Some? && c.accessToken.value != "" && c.tokenExpiry.Some? && now < c.tokenExpiry.value
  }

  /**
   * `get_access_token` at time `now`: serve the cache while it is valid, otherwise ask the
   * SSO endpoint and keep its token until `expires_in - 60` seconds after `issuedAt`, the
   * time its answer arrived.
   */
  function TokenStep(c: TokenCache, now: int, issuedAt: int, grant: TokenGrant): (o: TokenOutcome)
    ensures o.refreshed <==> !CacheValid(c, now)
    ensures o.result.Failure? ==> o.refreshed && o.cache.tokenExpiry == c.tokenExpiry
    ensures o.refreshed && grant.RefreshFailed? ==> o.cache == c && o.result == Failure(grant.error)
  {
    if CacheValid(c, now) then
      TokenOutcome(c, Success(c.accessToken.value), false)
    else
      match grant
      case Granted(token, expiresIn) =>
        TokenOutcome(TokenCache(Some(token), Some(issuedAt + expiresIn - 60)), Success(token), true)
      case ExpiryUnreadable(token, e) =>
        TokenOutcome(TokenCache(Some(token), c.tokenExpiry), Failure(e), true)
      case RefreshFailed(e) =>
        TokenOutcome(c, Failure(e), true)
  }

  /**
   * A grant whose expiry cannot be read still replaces the cached token and keeps the old
   * expiry: the call fails, yet a later call serves the new token exactly when it is
   * non-empty and the old expiry is set and still ahead.
   */
  lemma {:induction false} HalfRefreshKeepsToken(c: TokenCache, now: int, issuedAt: int, token: string,
                                                 e: string, later: int, grant2: TokenGrant)
    requires !CacheValid(c, now)
    ensures var o := TokenStep(c, now, issuedAt, ExpiryUnreadable(token, e));
      && o.cache == TokenCache(Some(token), c.tokenExpiry)
      && o.result == Failure(e)
      && (!TokenStep(o.cache, later, issuedAt, grant2).refreshed <==>
          token != "" && c.tokenExpiry.Some? && later < c.tokenExpiry.value)
  {
    var o := TokenStep(c, now, issuedAt, ExpiryUnreadable(token, e));
    assert CacheValid(o.cache, later) <==> token != "" && c.tokenExpiry.Some? && later < c.tokenExpiry.value;
  }

  /** A token comes from the cache only strictly before its expiry. */
  lemma CachedTokenNotExpired(c: TokenCache, now: int, issuedAt: int, grant: TokenGrant)
    requires !TokenStep(c, now, issuedAt, grant).refreshed
    ensures c.tokenExpiry.Some? && now < c.tokenExpiry.value
    ensures TokenStep(c, now, issuedAt, grant) == TokenOutcome(c, Success(c.accessToken.value), false)
  { }

  /**
   * After a successful refresh the client holds the granted token with expiry
   * `issuedAt + expires_in - 60`, and a later call at `later` serves that token from the
   * cache exactly when `later` is before that expiry and the token is non-empty.
   */
  lemma {:induction false} RefreshThenReuse(c: TokenCache, now: int, issuedAt: int, token: string,
                                            expiresIn: int, later: int, grant2: TokenGrant)
    requires !CacheValid(c, now)
    ensures var o := TokenStep(c, now, issuedAt, Granted(token, expiresIn));
      && o.cache == TokenCache(Some(token), Some(issuedAt + expiresIn - 60))
      && o.result == Success(token)
      && (!TokenStep(o.cache, later, issuedAt, grant2).refreshed <==>
          token != "" && later < issuedAt + expiresIn - 60)
  {
    var o := TokenStep(c, now, issuedAt, Granted(token, expiresIn));
    assert CacheValid(o.cache, later) <==> token != "" && later < issuedAt + expiresIn - 60;
  }

  // ----- RedHatAPI: make_request -----

  datatype Verb = HttpGet | HttpPost

  /** `method.lower()` compared with "get" and "post"; any other method is unsupported. */
  function VerbOf(m: string): Option<Verb> {
    var l := LowerAscii(m);
    if l == "get" then Some(HttpGet) else if l == "post" then Some(HttpPost) else None
  }

  /** The methods accepted are exactly "get" and "post" in any mix of letter case. */
  lemma {:induction false} VerbSpelling(m: string)
    ensures VerbOf(m) == Some(HttpGet) <==>
      |m| == 3 && m[0] in "gG" && m[1] in "eE" && m[2] in "tT"
    ensures VerbOf(m) == Some(HttpPost) <==>
      |m| == 4 && m[0] in "pP" && m[1] in "oO" && m[2] in "sS" && m[3] in "tT"
  {
    var l := LowerAscii(m);
    if |m| == 3 {
      assert l == "get" <==> l[0] == 'g' && l[1] == 'e' && l[2] == 't';
    }
    if |m| == 4 {
      assert l == "post" <==> l[0] == 'p' && l[1] == 'o' && l[2] == 's' && l[3] == 't';
    }
  }

  /** The HTTP request `make_request` sends: verb, URL, bearer token and JSON body. */
  datatype Request = Request(verb: Verb, url: string, bearer: string, body: Option<Json>)

  /**
   * What the API server answers: a failure (a transport error, or a status that
   * `raise_for_status` rejects), or a response with its content-type header ("" when
   * absent), its text and that text parsed as JSON (`None` when it does not parse).
   */
  datatype HttpReply =
    | HttpFailed(error: string)
    | HttpOk(contentType: string, text: string, parsed: Option<Json>)

  /** A JSON response yields its parsed body; any other yields `{"content": text}`. */
  function ResponseOf(reply: HttpReply): (r: Result<Json, string>)
  {
    match reply
    case HttpFailed(e) => Failure(e)
    case HttpOk(contentType, text, parsed) =>
      if Contains(contentType, "application/json") then
        (if parsed.Some? then Success(parsed.value) else Failure(JsonDecodeErr))
      else
        Success(JObject(map["content" := JStr(text)]))
  }

  /** What `make_request` sends and returns once the token step has produced `token`. */
  datatype Exchange = Exchange(sent: Option<Request>, result: Result<Json, string>)

  function Dispatch(token: Result<string, string>, m: string, path: string, data: Option<Json>,
                    reply: HttpReply): Exchange
  {
    if token.Failure? then Exchange(None, Failure(token.error))
    else match VerbOf(m)
      case None => Exchange(None, Failure("Unsupported method: " + m))
      case Some(v) =>
        Exchange(Some(Request(v, BaseUrl + path, token.value, if v == HttpPost then data else None)),
                 ResponseOf(reply))
  }

  /**
   * A request is sent exactly when a token was obtained and the method is supported;
   * it goes to the base URL followed by the path, carries the token, and carries the
   * body only for a post. Nothing is returned without a request having been sent.
   */
  lemma DispatchSends(token: Result<string, string>, m: string, path: string, data: Option<Json>,
                      reply: HttpReply)
    ensures var x := Dispatch(token, m, path, data, reply);
      && (x.sent.Some? <==> token.Success? && VerbOf(m).Some?)
      && (x.result.Success? ==> x.sent.Some?)
      && (x.sent.Some? ==>
            && x.sent.value.url == BaseUrl + path
            && StartsWith(x.sent.value.url, BaseUrl)
            && x.sent.value.bearer == token.value
            && x.sent.value.verb == VerbOf(m).value
            && (x.sent.value.body.Some? ==> x.sent.value.verb == HttpPost)
            && x.result == ResponseOf(reply))
  { }

  /**
   * The body of a JSON response is returned as parsed; any other response is wrapped as
   * `{"content": text}`, which has no "response" key.
   */
  lemma ResponseShape(reply: HttpReply)
    requires reply.HttpOk?
    ensures Contains(reply.contentType, "application/json") && reply.parsed.Some? ==>
      ResponseOf(reply) == Success(reply.parsed.value)
    ensures !Contains(reply.contentType, "application/json") ==>
      && ResponseOf(reply).Success?
      && HasKey(ResponseOf(reply).value, "response") == Success(false)
      && Index(ResponseOf(reply).value, "content") == Success(JStr(reply.text))
  { }

  /** The API client: its fixed offline token and its cached access token. */
  class RedHatApi {
    const offlineToken: string
    var accessToken: Option<string>
    var tokenExpiry: Option<int>

    function Cache(): TokenCache
      reads this
    {
      TokenCache(accessToken, tokenExpiry)
    }

    constructor (offlineToken: string)
      requires offlineToken != ""
      ensures this.offlineToken == offlineToken
      ensures Cache() == TokenCache(None, None)
    {
      this.offlineToken := offlineToken;
      accessToken := None;
      tokenExpiry := None;
    }

    /** `get_access_token`: the new cache and the result are those of `TokenStep`. */
    method GetAccessToken(now: int, issuedAt: int, grant: TokenGrant) returns (r: Result<string, string>)
      modifies this
      ensures var o := TokenStep(old(Cache()), now, issuedAt, grant);
        Cache() == o.cache && r == o.result
    {
      if accessToken.Some? && accessToken.value != "" && tokenExpiry.Some? && now < tokenExpiry.value {
        return Success(accessToken.value);
      }
      match grant
      case RefreshFailed(e) =>
        return Failure(e);
      case ExpiryUnreadable(token, e) =>
        accessToken := Some(token);
        return Failure(e);
      case Granted(token, expiresIn) =>
        accessToken := Some(token);
        tokenExpiry := Some(issuedAt + expiresIn - 60);
        return Success(token);
    }

    /**
     * `make_request`: obtain a token first (refreshing the cache if needed, even when the
     * method then turns out to be unsupported), then send the request and read the reply.
     */
    method MakeRequest(m: string, path: string, data: Option<Json>,
                       now: int, issuedAt: int, grant: TokenGrant, reply: HttpReply)
      returns (x: Exchange)
      modifies this
      ensures var o := TokenStep(old(Cache()), now, issuedAt, grant);
        Cache() == o.cache && x == Dispatch(o.result, m, path, data, reply)
    {
      var token := GetAccessToken(now, issuedAt, grant);
      if token.Failure? {
        return Exchange(None, Failure(token.error));
      }
      var url := BaseUrl + path;
      var lower := LowerAscii(m);
      if lower == "get" {
        x := Exchange(Some(Request(HttpGet, url, token.value, None)), ResponseOf(reply));
      } else if lower == "post" {
        x := Exchange(Some(Request(HttpPost, url, token.value, data)), ResponseOf(reply));
      } else {
        x := Exchange(None, Failure("Unsupported method: " + m));
      }
    }
  }

  /** Module initialisation: the client is built only when the offline token is set and non-empty. */
  method NewRedHatApi(offlineToken: Option<string>) returns (r: Result<RedHatApi, string>)
    ensures r.Success? <==> offlineToken.Some? && offlineToken.value != ""
    ensures r.Failure? ==> r.error == MissingTokenError
    ensures r.Success? ==>
      fresh(r.value) && r.value.offlineToken == offlineToken.value && r.value.Cache() == TokenCache(None, None)
  {
    if offlineToken.None? || offlineToken.value == "" {
      return Failure(MissingTokenError);
    }
    var api := new RedHatApi(offlineToken.value);
    return Success(api);
  }

  // ----- search_kcs and search_cases -----

  const KcsSearchPath: string := "/hydra/rest/search/v2/kcs"
  const CaseSearchPath: string := "/hydra/rest/search/v2/cases"
  const KcsExpression: string :=
    "sort=score%20DESC&fq=documentKind%3A(%22Article%22%20OR%20%22Solution%22)%20AND%20accessState%3A"
    + "(%22active%22%20OR%20%22private%22)&fl=allTitle%2CcaseCount%2CdocumentKind%2C%5Belevated%5D%2C"
    + "hasPublishedRevision%2Cid%2Clanguage%2ClastModifiedDate%2CModerationState%2Cscore%2Curi%2C"
    + "resource_uri%2Cview_uri%2CcreatedDate&showRetired=false"
  const CaseExpression: string :=
    "sort=case_lastModifiedDate%20desc&fl=case_createdByName%2Ccase_createdDate%2Ccase_lastModifiedDate%2C"
    + "case_lastModifiedByName%2Cid%2Curi%2Ccase_summary%2Ccase_status%2Ccase_product%2Ccase_version%2C"
    + "case_accountNumber%2Ccase_number%2Ccase_contactName%2Ccase_owner%2Ccase_severity"

  /** The record `search_kcs` makes of a doc: output key to the doc key it is read from. */
  const SolutionFields: map<string, string> :=
    map["id" := "id", "title" := "allTitle", "score" := "score", "view_uri" := "view_uri"]

  /** The record `search_cases` makes of a doc. */
  const CaseFields: map<string, string> :=
    map["case_number" := "case_number", "summary" := "case_summary", "status" := "case_status",
        "product" := "case_product", "version" := "case_version", "severity" := "case_severity",
        "owner" := "case_owner", "created_date" := "case_createdDate",
        "created_by" := "case_createdByName", "last_modified_date" := "case_lastModifiedDate",
        "uri" := "uri"]

  function SearchKcsBody(query: string, rows: int, start: int): Json {
    JObject(map["q" := JStr(query), "rows" := JNum(rows as real), "expression" := JStr(KcsExpression),
                "start" := JNum(start as real), "clientName" := JStr("mcp")])
  }

  function SearchCasesBody(query: string, rows: int, start: int): Json {
    JObject(map["q" := JStr(query), "start" := JNum(start as real), "rows" := JNum(rows as real),
                "partnerSearch" := JBool(false), "expression" := JStr(CaseExpression)])
  }

  /**
   * The docs the search tools walk: `result["response"]["docs"]` when
   * `"response" in result and "docs" in result["response"]`, and none otherwise.
   */
  function SearchDocs(result: Json): Result<seq<Object>, string> {
    match HasKey(result, "response")
    case Failure(e) => Failure(e)
    case Success(false) => Success([])
    case Success(true) =>
      match Index(result, "response")
      case Failure(e) => Failure(e)
      case Success(response) =>
        match HasKey(response, "docs")
        case Failure(e) => Failure(e)
        case Success(false) => Success([])
        case Success(true) =>
          match Index(response, "docs")
          case Failure(e) => Failure(e)
          case Success(docs) => Objects(docs)
  }

  /** One record per doc, in the order of the docs. */
  function Records(docs: seq<Object>, fields: map<string, string>): (r: seq<Json>)
    ensures |r| == |docs|
    ensures forall i :: 0 <= i < |docs| ==>
      && r[i].JObject?
      && r[i].fields.Keys == fields.Keys
      && forall k :: k in fields ==> r[i].fields[k] == GetOrNone(docs[i], fields[k])
  {
    seq(|docs|, i requires 0 <= i < |docs| => JObject(Project(docs[i], fields, JNull)))
  }

  /** What a search tool returns for the parsed `result`. */
  function SearchResult(result: Json, fields: map<string, string>): Result<seq<Json>, string> {
    match SearchDocs(result)
    case Failure(e) => Failure(e)
    case Success(docs) => Success(Records(docs, fields))
  }

  /** The loop of `search_kcs` and `search_cases`: append one record per doc. */
  method FormatSearch(result: Json, fields: map<string, string>) returns (r: Result<seq<Json>, string>)
    ensures r == SearchResult(result, fields)
  {
    var found := SearchDocs(result);
    if found.Failure? {
      return Failure(found.error);
    }
    var docs := found.value;
    var records: seq<Json> := [];
    for i := 0 to |docs|
      invariant records == Records(docs[..i], fields)
    {
      records := records + [JObject(Project(docs[i], fields, JNull))];
    }
    assert docs[..|docs|] == docs;
    return Success(records);
  }

  /** Records are made doc by doc: the records of two runs of docs are concatenated. */
  lemma RecordsAppend(a: seq<Object>, b: seq<Object>, fields: map<string, string>)
    ensures Records(a + b, fields) == Records(a, fields) + Records(b, fields)
  {
    assert forall i :: 0 <= i < |a| ==> (a + b)[i] == a[i];
    assert forall i :: |a| <= i < |a| + |b| ==> (a + b)[i] == b[i - |a|];
  }

  /**
   * A well-formed search answer yields one record per doc, in order, each with exactly
   * the tool's keys; an object answer with no "response" key, or whose "response" has no
   * "docs" key, yields no records.
   */
  lemma SearchRecordsPerDoc(response: map<string, Json>, docs: seq<Json>, fields: map<string, string>)
    requires "docs" in response && response["docs"] == JList(docs)
    requires forall i :: 0 <= i < |docs| ==> docs[i].JObject?
    ensures var r := SearchResult(JObject(map["response" := JObject(response)]), fields);
      && r.Success? && |r.value| == |docs|
      && forall i :: 0 <= i < |docs| ==>
           && r.value[i].JObject? && r.value[i].fields.Keys == fields.Keys
           && forall k :: k in fields ==> r.value[i].fields[k] == GetOrNone(docs[i].fields, fields[k])
  {
    var result := JObject(map["response" := JObject(response)]);
    assert Index(result, "response") == Success(JObject(response));
    var objs := Objects(JList(docs));
    assert objs.Success?;
    assert SearchDocs(result) == objs;
    assert forall i :: 0 <= i < |docs| ==> docs[i].fields == objs.value[i];
  }

  lemma NoDocsNoRecords(f: map<string, Json>, fields: map<string, string>)
    requires "response" !in f || (f["response"].JObject? && "docs" !in f["response"].fields)
    ensures SearchResult(JObject(f), fields) == Success([])
  { }

  /** A reply that is not JSON is wrapped as `{"content": text}` and so yields no records. */
  lemma TextReplyNoRecords(reply: HttpReply, fields: map<string, string>)
    requires reply.HttpOk? && !Contains(reply.contentType, "application/json")
    ensures ResponseOf(reply).Success?
    ensures SearchResult(ResponseOf(reply).value, fields) == Success([])
  {
    NoDocsNoRecords(map["content" := JStr(reply.text)], fields);
  }

  /** What `search_kcs` or `search_cases` returns once `make_request` produced `x`. */
  function SearchAnswer(x: Exchange, fields: map<string, string>): Result<seq<Json>, string> {
    if x.result.Failure? then Failure(x.result.error) else SearchResult(x.result.value, fields)
  }

  /** `search_kcs(query, rows, start)`; the source's defaults are rows 50 and start 0. */
  method SearchKcs(api: RedHatApi, query: string, rows: int, start: int,
                   now: int, issuedAt: int, grant: TokenGrant, reply: HttpReply)
    returns (sent: Option<Request>, r: Result<seq<Json>, string>)
    modifies api
    ensures var o := TokenStep(old(api.Cache()), now, issuedAt, grant);
      var x := Dispatch(o.result, "post", KcsSearchPath, Some(SearchKcsBody(query, rows, start)), reply);
      && api.Cache() == o.cache
      && sent == x.sent
      && r == SearchAnswer(x, SolutionFields)
  {
    var x := api.MakeRequest("post", KcsSearchPath, Some(SearchKcsBody(query, rows, start)), now, issuedAt, grant, reply);
    sent := x.sent;
    if x.result.Failure? {
      return sent, Failure(x.result.error);
    }
    r := FormatSearch(x.result.value, SolutionFields);
  }

  /** `search_cases(query, rows, start)`; the source's defaults are rows 10 and start 0. */
  method SearchCases(api: RedHatApi, query: string, rows: int, start: int,
                     now: int, issuedAt: int, grant: TokenGrant, reply: HttpReply)
    returns (sent: Option<Request>, r: Result<seq<Json>, string>)
    modifies api
    ensures var o := TokenStep(old(api.Cache()), now, issuedAt, grant);
      var x := Dispatch(o.result, "post", CaseSearchPath, Some(SearchCasesBody(query, rows, start)), reply);
      && api.Cache() == o.cache
      && sent == x.sent
      && r == SearchAnswer(x, CaseFields)
  {
    var x := api.MakeRequest("post", CaseSearchPath, Some(SearchCasesBody(query, rows, start)), now, issuedAt, grant, reply);
    sent := x.sent;
    if x.result.Failure? {
      return sent, Failure(x.result.error);
    }
    r := FormatSearch(x.result.value, CaseFields);
  }

  // ----- get_kcs -----

  /** The solution record of `get_kcs`, each field defaulting to "". */
  const KcsFields: map<string, string> :=
    map["title" := "publishedTitle", "environment" := "standard_product", "issue" := "issue",
        "resolution" := "solution_resolution", "root_cause" := "solution_rootcause"]

  /** The answer when no doc was found: the five keys, all "". */
  const NoSolution: Object := Project(map[], KcsFields, JStr(""))

  /** `docs[0]` followed by `.get`: only a non-empty list whose head is an object gets through. */
  function FirstObject(docs: Json): (r: Result<Object, string>)
    ensures r.Success? <==> docs.JList? && |docs.items| > 0 && docs.items[0].JObject?
    ensures r.Success? ==> r.value == docs.items[0].fields
  {
    match docs
    case JList(items) =>
      if |items| == 0 then Failure("IndexError")
      else if items[0].JObject? then Success(items[0].fields)
      else Failure(AttributeErr)
    case JStr(s) => if s == "" then Failure("IndexError") else Failure(AttributeErr)
    case JObject(_) => Failure(KeyErr)
    case _ => Failure(TypeErr)
  }

  /**
   * `get_kcs` on the parsed `result`: the blank record when the result is falsy, lacks
   * "response" or "docs", or has falsy docs; otherwise the first doc's fields.
   */
  function KcsSolution(result: Json): Result<Object, string> {
    if !Truthy(result) then Success(NoSolution)
    else match HasKey(result, "response")
      case Failure(e) => Failure(e)
      case Success(false) => Success(NoSolution)
      case Success(true) =>
        match Index(result, "response")
        case Failure(e) => Failure(e)
        case Success(response) =>
          match HasKey(response, "docs")
          case Failure(e) => Failure(e)
          case Success(false) => Success(NoSolution)
          case Success(true) =>
            match Index(response, "docs")
            case Failure(e) => Failure(e)
            case Success(docs) =>
              if !Truthy(docs) then Success(NoSolution)
              else match FirstObject(docs)
                case Failure(e) => Failure(e)
                case Success(doc) => Success(Project(doc, KcsFields, JStr("")))
  }

  /** The blank record has the five keys and "" under each. */
  lemma NoSolutionIsBlank()
    ensures NoSolution.Keys == {"title", "environment", "issue", "resolution", "root_cause"}
    ensures forall k :: k in NoSolution ==> NoSolution[k] == JStr("")
  { }

  /**
   * Every answer of `get_kcs` has the five keys. When the docs are a non-empty list
   * headed by an object, the answer is that doc's fields, "" where a field is missing;
   * when the docs are missing or empty, it is the blank record.
   */
  lemma KcsSolutionShape(f: map<string, Json>)
    ensures KcsSolution(JObject(f)).Success? ==> KcsSolution(JObject(f)).value.Keys == KcsFields.Keys
    ensures "response" in f && f["response"].JObject? && "docs" in f["response"].fields ==>
      var docs := f["response"].fields["docs"];
      && (docs == JList([]) ==> KcsSolution(JObject(f)) == Success(NoSolution))
      && (docs.JList? && |docs.items| > 0 && docs.items[0].JObject? ==>
            && KcsSolution(JObject(f)) == Success(Project(docs.items[0].fields, KcsFields, JStr("")))
            && KcsSolution(JObject(f)).value["title"] == Get(docs.items[0].fields, "publishedTitle", JStr("")))
    ensures "response" !in f ==> KcsSolution(JObject(f)) == Success(NoSolution)
  { }

  /** `get_kcs(solution_id)`: search for `id:<solution_id>` and shape the first doc. */
  method GetKcs(api: RedHatApi, solutionId: string, now: int, issuedAt: int, grant: TokenGrant, reply: HttpReply)
    returns (sent: Option<Request>, r: Result<Object, string>)
    modifies api
    ensures var o := TokenStep(old(api.Cache()), now, issuedAt, grant);
      var x := Dispatch(o.result, "post", KcsSearchPath, Some(JObject(map["q" := JStr("id:" + solutionId)])), reply);
      && api.Cache() == o.cache
      && sent == x.sent
      && r == (if x.result.Failure? then Failure(x.result.error) else KcsSolution(x.result.value))
  {
    var x := api.MakeRequest("post", KcsSearchPath, Some(JObject(map["q" := JStr("id:" + solutionId)])),
                             now, issuedAt, grant, reply);
    sent := x.sent;
    if x.result.Failure? {
      return sent, Failure(x.result.error);
    }
    r := KcsSolution(x.result.value);
  }

  // ----- get_case -----

  const CasePathPrefix: string := "/hydra/rest/v1/cases/"

  /** The case fields copied, under the same key, only when the case has them. */
  const OptionalCaseKeys: seq<string> :=
    ["status", "product", "version", "ownerId", "createdDate", "openshiftClusterID", "openshiftClusterVersion"]

  const TrackerKeys: seq<string> := ["resourceKey", "resourceURL", "status", "system", "title"]
  const LinkKeys: seq<string> := ["resourceType", "resourceViewURI", "solutionTitle"]

  /** The dict display that copies each of `keys` under its own name. */
  function SameKeys(keys: seq<string>): (m: map<string, string>)
    ensures m.Keys == set k | k in keys
    ensures forall k :: k in m ==> m[k] == k
  {
    map k | k in keys :: k
  }

  /** A comment of the case: its dates and author, and its body, falling back to its "text", then "". */
  function CommentView(c: Object): Json {
    JObject(map["createdDate" := GetOrNone(c, "createdDate"), "createdBy" := GetOrNone(c, "createdBy"),
                "commentBody" := Get(c, "commentBody", Get(c, "text", JStr("")))])
  }

  /** The comments in reverse order: the last comment of the case comes first. */
  function NewestFirst(cs: seq<Object>): (r: seq<Json>)
    ensures |r| == |cs|
  {
    seq(|cs|, i requires 0 <= i < |cs| => CommentView(cs[|cs| - 1 - i]))
  }

  /** A comment added at the end of the case is listed first, ahead of the earlier ones. */
  lemma NewestFirstAppend(cs: seq<Object>, c: Object)
    ensures NewestFirst(cs + [c]) == [CommentView(c)] + NewestFirst(cs)
  {
    var l := NewestFirst(cs + [c]);
    var r := [CommentView(c)] + NewestFirst(cs);
    forall i | 0 <= i < |l| ensures l[i] == r[i] {
      if i > 0 {
        assert (cs + [c])[|cs| - i] == cs[|cs| - 1 - (i - 1)];
      }
    }
  }

  /** `any(o.get(k) for k in keys)`. */
  predicate AnyTruthy(o: Object, keys: seq<string>) {
    exists i :: 0 <= i < |keys| && Truthy(GetOrNone(o, keys[i]))
  }

  /**
   * The filtered comprehension over trackers or links: the projection of each entry that
   * has some truthy listed field, in order. Every record kept has such a field.
   */
  function Kept(items: seq<Object>, keys: seq<string>): (r: seq<Json>)
    ensures |r| <= |items|
    ensures forall j :: 0 <= j < |r| ==> r[j].JObject? && AnyTruthy(r[j].fields, keys)
  {
    if items == [] then []
    else if AnyTruthy(items[0], keys) then
      ProjectionKeepsTruthy(items[0], keys);
      [KeptRecord(items[0], keys)] + Kept(items[1..], keys)
    else
      Kept(items[1..], keys)
  }

  /** The record a kept tracker or link becomes. */
  function KeptRecord(o: Object, keys: seq<string>): Json {
    JObject(Project(o, SameKeys(keys), JNull))
  }

  lemma ProjectionKeepsTruthy(o: Object, keys: seq<string>)
    requires AnyTruthy(o, keys)
    ensures AnyTruthy(KeptRecord(o, keys).fields, keys)
  {
    var i :| 0 <= i < |keys| && Truthy(GetOrNone(o, keys[i]));
    assert GetOrNone(KeptRecord(o, keys).fields, keys[i]) == GetOrNone(o, keys[i]);
  }

  /** Filtering runs entry by entry: it distributes over concatenation, so order is kept. */
  lemma {:induction false} KeptAppend(a: seq<Object>, b: seq<Object>, keys: seq<string>)
    ensures Kept(a + b, keys) == Kept(a, keys) + Kept(b, keys)
    decreases |a|
  {
    if a == [] {
      assert a + b == b;
    } else {
      assert (a + b)[1..] == a[1..] + b;
      KeptAppend(a[1..], b, keys);
    }
  }

  /** Exactly the entries with a truthy listed field are kept. */
  lemma {:induction false} KeptExactly(items: seq<Object>, keys: seq<string>)
    ensures forall i :: 0 <= i < |items| && AnyTruthy(items[i], keys) ==>
      KeptRecord(items[i], keys) in Kept(items, keys)
    ensures forall x :: x in Kept(items, keys) ==>
      exists i :: 0 <= i < |items| && AnyTruthy(items[i], keys) && x == KeptRecord(items[i], keys)
    decreases |items|
  {
    if items != [] {
      KeptExactly(items[1..], keys);
      var rest := Kept(items[1..], keys);
      var r := Kept(items, keys);
      assert r == (if AnyTruthy(items[0], keys) then [KeptRecord(items[0], keys)] + rest else rest);
      forall x | x in r
        ensures exists i :: 0 <= i < |items| && AnyTruthy(items[i], keys) && x == KeptRecord(items[i], keys)
      {
        if x in rest {
          var i :| 0 <= i < |items[1..]| && AnyTruthy(items[1..][i], keys) && x == KeptRecord(items[1..][i], keys);
          assert items[i + 1] == items[1..][i];
        } else {
          assert AnyTruthy(items[0], keys) && x == KeptRecord(items[0], keys);
        }
      }
      forall i | 0 <= i < |items| && AnyTruthy(items[i], keys)
        ensures KeptRecord(items[i], keys) in r
      {
        if i > 0 {
          assert items[1..][i - 1] == items[i];
        }
      }
    }
  }

  /**
   * The `external_trackers` or `case_resource_links` entry: present only when the source
   * key holds a list, then the kept entries of that list.
   */
  function ListedEntry(d: Object, source: string, target: string, keys: seq<string>): (r: Result<Object, string>)
    ensures r.Success? ==> (target in r.value <==> source in d && d[source].JList?) && r.value.Keys <= {target}
  {
    if source in d && d[source].JList? then
      match Objects(d[source])
      case Failure(e) => Failure(e)
      case Success(items) => Success(map[target := JList(Kept(items, keys))])
    else
      Success(map[])
  }

  /** The four keys every formatted case has. */
  function CaseBase(d: Object, comments: seq<Object>): (r: Object)
    ensures r.Keys == {"summary", "description", "severity", "comments"}
  {
    map["summary" := Get(d, "summary", Get(d, "title", JStr(""))),
        "description" := GetOrNone(d, "description"),
        "severity" := GetOrNone(d, "severity"),
        "comments" := JList(NewestFirst(comments))]
  }

  /** `if key in d: formatted[key] = d.get(key)`. */
  function CopyIfPresent(formatted: Object, d: Object, key: string): Object {
    if key in d then formatted[key := d[key]] else formatted
  }

  /**
   * The conditional copies of `keys`, one after the other: the result has the keys of
   * `m` and those of `keys` that `d` has, each copied one holding the value of `d`.
   */
  function CopyPresent(m: Object, d: Object, keys: seq<string>): (r: Object)
    ensures forall k :: k in r <==> k in m || (k in keys && k in d)
    ensures forall k :: k in r ==> r[k] == if k in keys && k in d then d[k] else m[k]
    decreases |keys|
  {
    if keys == [] then m
    else
      var n := |keys| - 1;
      assert forall k :: k in keys <==> k in keys[..n] || k == keys[n];
      CopyIfPresent(CopyPresent(m, d, keys[..n]), d, keys[n])
  }

  /** One more conditional copy extends the run of copies by the next key. */
  lemma CopyStep(m: Object, d: Object, keys: seq<string>, n: nat)
    requires n < |keys|
    ensures CopyPresent(m, d, keys[..n + 1]) == CopyIfPresent(CopyPresent(m, d, keys[..n]), d, keys[n])
  {
    assert keys[..n + 1][..n] == keys[..n];
  }

  /** `get_case` on the parsed case `data`. */
  function CaseView(data: Json): Result<Object, string> {
    if !data.JObject? then Failure(AttributeErr)
    else
      var d := data.fields;
      match Objects(Get(d, "comments", JList([])))
      case Failure(e) => Failure(e)
      case Success(comments) =>
        match ListedEntry(d, "externalTrackers", "external_trackers", TrackerKeys)
        case Failure(e) => Failure(e)
        case Success(trackers) =>
          match ListedEntry(d, "caseResourceLinks", "case_resource_links", LinkKeys)
          case Failure(e) => Failure(e)
          case Success(links) => Success(CopyPresent(CaseBase(d, comments), d, OptionalCaseKeys) + trackers + links)
  }

  /** The seven `if key in data:` copies of `get_case`, in the source's order. */
  method CopyOptionalFields(base: Object, d: Object) returns (formatted: Object)
    ensures formatted == CopyPresent(base, d, OptionalCaseKeys)
  {
    formatted := base;
    assert OptionalCaseKeys[..0] == [];
    CopyStep(base, d, OptionalCaseKeys, 0);
    formatted := CopyIfPresent(formatted, d, "status");
    CopyStep(base, d, OptionalCaseKeys, 1);
    formatted := CopyIfPresent(formatted, d, "product");
    CopyStep(base, d, OptionalCaseKeys, 2);
    formatted := CopyIfPresent(formatted, d, "version");
    CopyStep(base, d, OptionalCaseKeys, 3);
    formatted := CopyIfPresent(formatted, d, "ownerId");
    CopyStep(base, d, OptionalCaseKeys, 4);
    formatted := CopyIfPresent(formatted, d, "createdDate");
    CopyStep(base, d, OptionalCaseKeys, 5);
    formatted := CopyIfPresent(formatted, d, "openshiftClusterID");
    CopyStep(base, d, OptionalCaseKeys, 6);
    formatted := CopyIfPresent(formatted, d, "openshiftClusterVersion");
    assert OptionalCaseKeys[..7] == OptionalCaseKeys;
  }

  /** `get_case` builds its answer key by key, adding each optional field only when present. */
  method FormatCase(data: Json) returns (r: Result<Object, string>)
    ensures r == CaseView(data)
  {
    if !data.JObject? {
      return Failure(AttributeErr);
    }
    var d := data.fields;
    var comments := Objects(Get(d, "comments", JList([])));
    if comments.Failure? {
      return Failure(comments.error);
    }
    var formatted := CopyOptionalFields(CaseBase(d, comments.value), d);
    var trackers: Object := map[];
    if "externalTrackers" in d && d["externalTrackers"].JList? {
      var items := Objects(d["externalTrackers"]);
      if items.Failure? {
        return Failure(items.error);
      }
      trackers := map["external_trackers" := JList(Kept(items.value, TrackerKeys))];
    }
    var links: Object := map[];
    if "caseResourceLinks" in d && d["caseResourceLinks"].JList? {
      var items := Objects(d["caseResourceLinks"]);
      if items.Failure? {
        return Failure(items.error);
      }
      links := map["case_resource_links" := JList(Kept(items.value, LinkKeys))];
    }
    return Success(formatted + trackers + links);
  }

  /** The parts the formatted case is the union of, when formatting succeeds. */
  function CaseParts(d: Object): (Object, Object, Object)
    requires CaseView(JObject(d)).Success?
  {
    var comments := Objects(Get(d, "comments", JList([]))).value;
    (CopyPresent(CaseBase(d, comments), d, OptionalCaseKeys),
     ListedEntry(d, "externalTrackers", "external_trackers", TrackerKeys).value,
     ListedEntry(d, "caseResourceLinks", "case_resource_links", LinkKeys).value)
  }

  lemma CaseViewIsUnion(d: Object)
    requires CaseView(JObject(d)).Success?
    ensures var (copied, trackers, links) := CaseParts(d);
      && CaseView(JObject(d)).value == copied + trackers + links
      && trackers.Keys <= {"external_trackers"} && links.Keys <= {"case_resource_links"}
  { }

  /** The fixed keys of the union `get_case` returns, and their values. */
  lemma UnionFixedKeys(d: Object, comments: seq<Object>, trackers: Object, links: Object)
    requires trackers.Keys <= {"external_trackers"} && links.Keys <= {"case_resource_links"}
    ensures var out := CopyPresent(CaseBase(d, comments), d, OptionalCaseKeys) + trackers + links;
      && {"summary", "description", "severity", "comments"} <= out.Keys
      && out["summary"] == (if "summary" in d then d["summary"] else if "title" in d then d["title"] else JStr(""))
      && out["description"] == GetOrNone(d, "description") && out["severity"] == GetOrNone(d, "severity")
      && out["comments"] == JList(NewestFirst(comments))
  {
    OptionalKeysApart();
    var base := CaseBase(d, comments);
    var out := CopyPresent(base, d, OptionalCaseKeys) + trackers + links;
    KeptFromBase(base, d, OptionalCaseKeys, trackers, links, "summary");
    assert out["summary"] == base["summary"] == Get(d, "summary", Get(d, "title", JStr("")));
    KeptFromBase(base, d, OptionalCaseKeys, trackers, links, "description");
    assert out["description"] == base["description"];
    KeptFromBase(base, d, OptionalCaseKeys, trackers, links, "severity");
    assert out["severity"] == base["severity"];
    KeptFromBase(base, d, OptionalCaseKeys, trackers, links, "comments");
    assert out["comments"] == base["comments"];
  }

  /** A key of the base that is neither copied nor listed keeps its base value. */
  lemma KeptFromBase(base: Object, d: Object, keys: seq<string>, trackers: Object, links: Object, k: string)
    requires k in base && k !in keys && k !in trackers && k !in links
    ensures var out := CopyPresent(base, d, keys) + trackers + links;
      k in out && out[k] == base[k]
  { }

  /** The optional and listed keys of the union `get_case` returns. */
  lemma UnionOptionalKeys(d: Object, comments: seq<Object>, trackers: Object, links: Object)
    requires trackers.Keys <= {"external_trackers"} && links.Keys <= {"case_resource_links"}
    ensures var out := CopyPresent(CaseBase(d, comments), d, OptionalCaseKeys) + trackers + links;
      && (forall k :: k in OptionalCaseKeys ==> (k in out <==> k in d) && (k in d ==> out[k] == d[k]))
      && ("external_trackers" in out <==> "external_trackers" in trackers)
      && ("case_resource_links" in out <==> "case_resource_links" in links)
  {
    OptionalKeysApart();
    var base := CaseBase(d, comments);
    assert base.Keys == {"summary", "description", "severity", "comments"};
    forall k | k in OptionalCaseKeys
      ensures var out := CopyPresent(base, d, OptionalCaseKeys) + trackers + links;
        (k in out <==> k in d) && (k in d ==> out[k] == d[k])
    {
      CopiedFromData(base, d, OptionalCaseKeys, trackers, links, k);
    }
    OnlyListed(base, d, OptionalCaseKeys, trackers, links, "external_trackers");
    OnlyListed(base, d, OptionalCaseKeys, trackers, links, "case_resource_links");
  }

  /** A copied key that the base and the listed entries lack holds the case's value. */
  lemma CopiedFromData(base: Object, d: Object, keys: seq<string>, trackers: Object, links: Object, k: string)
    requires k in keys && k !in base && k !in trackers && k !in links
    ensures var out := CopyPresent(base, d, keys) + trackers + links;
      (k in out <==> k in d) && (k in d ==> out[k] == d[k])
  { }

  /** A key that is neither in the base nor copied comes only from the listed entries. */
  lemma OnlyListed(base: Object, d: Object, keys: seq<string>, trackers: Object, links: Object, k: string)
    requires k !in base && k !in keys
    ensures k in CopyPresent(base, d, keys) + trackers + links <==> k in trackers || k in links
  { }

  /**
   * The formatted case: it has the four fixed keys; the summary falls back to the title,
   * then ""; the comments are listed newest first; each optional field is present
   * exactly when the case has it, with the case's value; trackers and links appear
   * exactly when the case holds a list under their source key.
   */
  lemma CaseViewShape(d: Object)
    requires CaseView(JObject(d)).Success?
    ensures var out := CaseView(JObject(d)).value;
      && {"summary", "description", "severity", "comments"} <= out.Keys
      && out["summary"] == (if "summary" in d then d["summary"] else if "title" in d then d["title"] else JStr(""))
      && out["comments"] == JList(NewestFirst(Objects(Get(d, "comments", JList([]))).value))
      && (forall k :: k in OptionalCaseKeys ==> (k in out <==> k in d) && (k in d ==> out[k] == d[k]))
      && ("external_trackers" in out <==> "externalTrackers" in d && d["externalTrackers"].JList?)
      && ("case_resource_links" in out <==> "caseResourceLinks" in d && d["caseResourceLinks"].JList?)
  {
    CaseViewIsUnion(d);
    var (copied, trackers, links) := CaseParts(d);
    var comments := Objects(Get(d, "comments", JList([]))).value;
    UnionFixedKeys(d, comments, trackers, links);
    UnionOptionalKeys(d, comments, trackers, links);
  }

  /** The optional case keys are none of the other keys of the formatted case. */
  lemma OptionalKeysApart()
    ensures "summary" !in OptionalCaseKeys && "description" !in OptionalCaseKeys
    ensures "severity" !in OptionalCaseKeys && "comments" !in OptionalCaseKeys
    ensures "external_trackers" !in OptionalCaseKeys && "case_resource_links" !in OptionalCaseKeys
    ensures "external_trackers" !in {"summary", "description", "severity", "comments"}
    ensures "case_resource_links" !in {"summary", "description", "severity", "comments"}
  {
    forall i | 0 <= i < |OptionalCaseKeys|
      ensures |OptionalCaseKeys[i]| in {6, 7, 11, 18, 23} && OptionalCaseKeys[i][0] in "spvoco"
    { }
  }


  /** `get_case(case_number)`: fetch the case and format it. */
  method GetCase(api: RedHatApi, caseNumber: string, now: int, issuedAt: int, grant: TokenGrant, reply: HttpReply)
    returns (sent: Option<Request>, r: Result<Object, string>)
    modifies api
    ensures var o := TokenStep(old(api.Cache()), now, issuedAt, grant);
      var x := Dispatch(o.result, "get", CasePathPrefix + caseNumber, None, reply);
      && api.Cache() == o.cache
      && sent == x.sent
      && r == (if x.result.Failure? then Failure(x.result.error) else CaseView(x.result.value))
  {
    var x := api.MakeRequest("get", CasePathPrefix + caseNumber, None, now, issuedAt, grant, reply);
    sent := x.sent;
    if x.result.Failure? {
      return sent, Failure(x.result.error);
    }
    r := FormatCase(x.result.value);
  }
}
