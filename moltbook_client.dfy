/**
 * The parts of `MoltbookClient` (src/kyf/clients/moltbook_client.py) that do
 * not touch the network: base-URL trimming, the credential host guard, the
 * request paths of `get_posts`/`get_comments`, the rate-limiter slot taken by
 * every request and the `success` envelope check. The HTTP exchange itself is
 * the `response` argument of `Request`.
 */
module MoltbookClient {
  import opened Wrappers
  import opened Json
  import opened MoltbookModels
  import opened Clocks
  import opened RateLimiting

  const MoltbookHost: string := "www.moltbook.com"

  /** `MoltbookClientError(message, hint)`: the host guard's refusal, or whatever the API sent as `error`. */
  datatype ClientError =
    | UntrustedHost(url: string)
    | ApiError(message: Json, hint: Json)

  /** What one attempt of `_request` can raise. */
  datatype RequestError =
    | Client(error: ClientError)               // `MoltbookClientError`
    | NotAnObject                              // AttributeError: a decoded body without `.get`
    | LimiterIndexError                        // IndexError from the limiter's `timestamps[0]`

  /** `stop_after_attempt(3)` on `_request`. */
  const MaxAttempts: nat := 3

  /**
   * What `_request` raises once tenacity stops retrying: without `reraise`
   * the last attempt's exception wrapped in `RetryError`, with
   * `reraise=True` that exception itself.
   */
  datatype RetriedError =
    | RetryError(last: RequestError)
    | Reraised(error: RequestError)

  /** What `except MoltbookClientError` catches. */
  predicate IsClientError(e: RetriedError) {
    e.Reraised? && e.error.Client?
  }

  /** Some attempt from the `k`-th up to the last allowed one succeeds. */
  predicate SucceedsFrom(attempts: seq<Result<Json, RequestError>>, k: nat)
    requires MaxAttempts <= |attempts|
  {
    exists j :: k <= j < MaxAttempts && attempts[j].Success?
  }

  /**
   * The retry loop from the `k`-th attempt on, given each attempt's outcome:
   * every exception is retried, the first success is returned, and after the
   * last allowed attempt `giveUp` decides what is raised.
   */
  function RetryFrom(attempts: seq<Result<Json, RequestError>>, k: nat, reraise: bool): (r: Result<Json, RetriedError>)
    requires k < MaxAttempts <= |attempts|
    ensures r.Success? <==> SucceedsFrom(attempts, k)
    ensures r.Success? ==> exists j :: k <= j < MaxAttempts && attempts[j] == Success(r.value)
    ensures r.Failure? ==> attempts[MaxAttempts - 1].Failure?
    ensures r.Failure? && !reraise ==> r.error == RetryError(attempts[MaxAttempts - 1].error)
    ensures r.Failure? && reraise ==> r.error == Reraised(attempts[MaxAttempts - 1].error)
    decreases MaxAttempts - k
  {
    if attempts[k].Success? then Success(attempts[k].value)
    else if k == MaxAttempts - 1 then
      Failure(if reraise then Reraised(attempts[k].error) else RetryError(attempts[k].error))
    else RetryFrom(attempts, k + 1, reraise)
  }

  /** `_request` as decorated, `@retry(stop=stop_after_attempt(3), ...)`. */
  function RequestAsWritten(attempts: seq<Result<Json, RequestError>>): (r: Result<Json, RetriedError>)
    requires MaxAttempts <= |attempts|
    ensures r.Failure? ==> attempts[MaxAttempts - 1].Failure?
    ensures r.Failure? ==> r.error == RetryError(attempts[MaxAttempts - 1].error)
  {
    RetryFrom(attempts, 0, false)
  }

  /** As written, `except MoltbookClientError` never sees a failed request. */
  lemma ClientErrorNeverCaughtAsWritten(attempts: seq<Result<Json, RequestError>>)
    requires MaxAttempts <= |attempts|
    ensures RequestAsWritten(attempts).Failure? ==> !IsClientError(RequestAsWritten(attempts).error)
  {
  }

  /** An API that refuses three times in a row: the refusal reaches the caller as `RetryError`. */
  lemma RefusedThriceEscapes()
    ensures var refused := Failure(Client(ApiError(JString("Unknown error"), JNull)));
            && RequestAsWritten([refused, refused, refused]) == Failure(RetryError(Client(ApiError(JString("Unknown error"), JNull))))
            && !IsClientError(RequestAsWritten([refused, refused, refused]).error)
  {
  }

  /** `_request` retried with `reraise=True`, so that the caller sees the request's own exception. */
  function RequestRetried(attempts: seq<Result<Json, RequestError>>): (r: Result<Json, RetriedError>)
    requires MaxAttempts <= |attempts|
    ensures r.Success? <==> SucceedsFrom(attempts, 0)
    ensures r.Failure? ==> attempts[MaxAttempts - 1].Failure?
    ensures r.Failure? ==> r.error == Reraised(attempts[MaxAttempts - 1].error)
  {
    RetryFrom(attempts, 0, true)
  }

  /**
   * With `reraise`, the handler catches a failed request exactly when its last
   * attempt raised `MoltbookClientError`.
   */
  lemma ClientErrorCaughtWhenReraised(attempts: seq<Result<Json, RequestError>>)
    requires MaxAttempts <= |attempts|
    ensures RequestRetried(attempts).Failure?
            ==> (IsClientError(RequestRetried(attempts).error) <==> attempts[MaxAttempts - 1].Failure? && attempts[MaxAttempts - 1].error.Client?)
  {
  }

  /** `sub in s` for strings. */
  predicate Contains(s: string, sub: string)
    decreases |s|
  {
    |sub| <= |s| && (s[..|sub|] == sub || Contains(s[1..], sub))
  }

  /** Text after a prefix keeps every occurrence. */
  lemma {:induction false} ContainsAfterPrefix(p: string, s: string, sub: string)
    requires Contains(s, sub)
    ensures Contains(p + s, sub)
    decreases |p|
  {
    if p != [] {
      ContainsAfterPrefix(p[1..], s, sub);
      assert (p + s)[1..] == p[1..] + s;
    } else {
      assert p + s == s;
    }
  }

  /** `base_url.rstrip("/")`. */
  function TrimBaseUrl(u: string): (r: string)
    ensures |r| <= |u| && r == u[..|r|]
    ensures r == [] || r[|r| - 1] != '/'
    ensures forall k :: |r| <= k < |u| ==> u[k] == '/'
    decreases |u|
  {
    if u != [] && u[|u| - 1] == '/' then TrimBaseUrl(u[..|u| - 1]) else u
  }

  /** Trimming twice is trimming once. */
  lemma TrimBaseUrlIdempotent(u: string)
    ensures TrimBaseUrl(TrimBaseUrl(u)) == TrimBaseUrl(u)
  {
  }

  /** `_validate_url`: refuses only when neither the URL nor the base URL names the host. */
  predicate Trusted(url: string, baseUrl: string) {
    Contains(url, MoltbookHost) || Contains(baseUrl, MoltbookHost)
  }

  /** `f"{self._base_url}{path}"`. */
  function FullUrl(baseUrl: string, path: string): (u: string)
    ensures |u| == |baseUrl| + |path| && u[..|baseUrl|] == baseUrl && u[|baseUrl|..] == path
  {
    baseUrl + path
  }

  /**
   * A base URL naming the host passes every path, and so does a path that
   * contains the host text itself (the guard is a substring test, not a host check).
   */
  lemma GuardOnFullUrl(baseUrl: string, path: string)
    ensures Contains(baseUrl, MoltbookHost) ==> Trusted(FullUrl(baseUrl, path), baseUrl)
    ensures Contains(path, MoltbookHost) ==> Trusted(FullUrl(baseUrl, path), baseUrl)
    ensures Contains(FullUrl(baseUrl, path), MoltbookHost) ==> Trusted(FullUrl(baseUrl, path), baseUrl)
  {
    if Contains(path, MoltbookHost) {
      ContainsAfterPrefix(baseUrl, path, MoltbookHost);
    }
  }

  /** The configured default base URL passes the guard. */
  lemma DefaultBaseUrlIsTrusted(path: string)
    ensures Trusted(FullUrl(TrimBaseUrl("https://www.moltbook.com/api/v1"), path), TrimBaseUrl("https://www.moltbook.com/api/v1"))
  {
    var b := "https://www.moltbook.com/api/v1";
    assert TrimBaseUrl(b) == b;
    assert b[8..][..|MoltbookHost|] == MoltbookHost;
    ContainsAfterPrefix(b[..8], b[8..], MoltbookHost);
    assert b[..8] + b[8..] == b;
  }

  /** `m.get(key, d)`. */
  function Get(m: map<string, Json>, key: string, d: Json): Json {
    if key in m then m[key] else d
  }

  /** The envelope check: `data.get("success", True)` falsy raises with `error` (default "Unknown error") and `hint`. */
  function CheckEnvelope(data: Json): (r: Result<Json, RequestError>)
    ensures r.Success? ==> r.value == data
    ensures r.Success? <==> data.JObject? && ("success" !in data.fields || Truthy(data.fields["success"]))
    ensures !data.JObject? ==> r == Failure(NotAnObject)
    ensures r.Failure? && data.JObject? ==>
              r.error == Client(ApiError(Get(data.fields, "error", JString("Unknown error")), Get(data.fields, "hint", JNull)))
  {
    if !data.JObject? then Failure(NotAnObject)
    else
      var m := data.fields;
      if Truthy(Get(m, "success", JBool(true))) then Success(data)
      else Failure(Client(ApiError(Get(m, "error", JString("Unknown error")), Get(m, "hint", JNull))))
  }

  /** `success: false` is always refused; a body with no `success` key is accepted. */
  lemma EnvelopeCases(m: map<string, Json>)
    ensures "success" in m && m["success"] == JBool(false) ==> CheckEnvelope(JObject(m)).Failure?
    ensures "success" !in m ==> CheckEnvelope(JObject(m)) == Success(JObject(m))
    ensures "success" in m && !Truthy(m["success"]) ==> CheckEnvelope(JObject(m)).error.Client?
  {
  }

  // ---- Request paths ----

  /** The `get_posts` path: `/posts?sort=<v>`, plus `&submolt=<s>` for a non-empty submolt. */
  function PostsPath(sort: PostSortOrder, submolt: Option<string>): string {
    "/posts?sort=" + sort.Value()
      + (if submolt.Some? && submolt.value != "" then "&submolt=" + submolt.value else "")
  }

  /** The `get_comments` path; the default sort is `top`. */
  function CommentsPath(postId: string, sort: CommentSortOrder := CommentSortOrder.Top): string {
    "/posts/" + postId + "/comments?sort=" + sort.Value()
  }

  /** The text up to the first `&`. */
  function UpToAmpersand(s: string): (r: string)
    ensures |r| <= |s| && r == s[..|r|]
    decreases |s|
  {
    if s == [] || s[0] == '&' then [] else [s[0]] + UpToAmpersand(s[1..])
  }

  lemma {:induction false} UpToAmpersandOf(v: string, rest: string)
    requires forall k :: 0 <= k < |v| ==> v[k] != '&'
    requires rest == [] || rest[0] == '&'
    ensures UpToAmpersand(v + rest) == v
    decreases |v|
  {
    if v == [] {
      assert v + rest == rest;
    } else {
      assert (v + rest)[1..] == v[1..] + rest;
      UpToAmpersandOf(v[1..], rest);
      assert v == [v[0]] + v[1..];
    }
  }

  /** The sort order a `get_posts` path asks for, read back from the query string. */
  function SortOfPostsPath(path: string): Option<PostSortOrder> {
    var prefix := "/posts?sort=";
    if |path| >= |prefix| && path[..|prefix|] == prefix then ParsePostSortOrder(UpToAmpersand(path[|prefix|..]))
    else None
  }

  /** The sort value is the whole `sort` parameter: a submolt filter never changes it. */
  lemma PostsPathRoundTrip(sort: PostSortOrder, submolt: Option<string>)
    ensures SortOfPostsPath(PostsPath(sort, submolt)) == Some(sort)
  {
    var prefix := "/posts?sort=";
    var extra := if submolt.Some? && submolt.value != "" then "&submolt=" + submolt.value else "";
    var path := PostsPath(sort, submolt);
    assert path == prefix + (sort.Value() + extra);
    assert path[..|prefix|] == prefix;
    assert path[|prefix|..] == sort.Value() + extra;
    UpToAmpersandOf(sort.Value(), extra);
    EnumValuesRoundTrip(Upvote, sort, CommentSortOrder.Top);
  }

  /** The submolt filter is added exactly for a non-empty submolt. */
  lemma PostsPathFilter(sort: PostSortOrder, submolt: Option<string>)
    ensures submolt.None? || submolt == Some("") ==> PostsPath(sort, submolt) == "/posts?sort=" + sort.Value()
    ensures submolt.Some? && submolt.value != "" ==>
              PostsPath(sort, submolt) == "/posts?sort=" + sort.Value() + "&submolt=" + submolt.value
  {
  }

  /** Distinct (post, sort) pairs ask for distinct comment paths. */
  lemma CommentsPathInjective(a: string, s: CommentSortOrder, b: string, t: CommentSortOrder)
    requires CommentsPath(a, s) == CommentsPath(b, t)
    ensures a == b && s == t
  {
    var pa := CommentsPath(a, s);
    var last := pa[|pa| - 1];
    assert last == s.Value()[|s.Value()| - 1];
    assert last == t.Value()[|t.Value()| - 1];
    assert s == t;
    var tail := "/comments?sort=" + s.Value();
    assert pa == "/posts/" + a + tail;
    assert pa == "/posts/" + b + tail;
    assert |a| == |b|;
    assert a == pa[7..7 + |a|];
    assert b == pa[7..7 + |b|];
  }

  class MoltbookClient {
    const baseUrl: string
    const rateLimiter: RateLimiter

    /** `MoltbookClient(base_url, api_key)`: trailing slashes trimmed, 90 requests per 60 s. */
    constructor (baseUrl: string, ticksPerSecond: nat)
      ensures this.baseUrl == TrimBaseUrl(baseUrl)
      ensures fresh(rateLimiter) && rateLimiter.maxRequests == 90 && rateLimiter.window == 60 * ticksPerSecond
      ensures rateLimiter.timestamps == []
    {
      this.baseUrl := TrimBaseUrl(baseUrl);
      rateLimiter := new RateLimiter(90, 60 * ticksPerSecond);
    }

    /**
     * One attempt of `_request`: take a limiter slot, refuse an untrusted host,
     * then accept or refuse the decoded body by its envelope.
     */
    method Request(path: string, clock: Clock, response: Json) returns (r: Result<Json, RequestError>)
      requires rateLimiter.maxRequests == 90 && rateLimiter.Valid(clock)
      modifies rateLimiter, clock
      ensures rateLimiter.Valid(clock)
      ensures |rateLimiter.timestamps| >= 1 && rateLimiter.timestamps[|rateLimiter.timestamps| - 1] == clock.time
      ensures !Trusted(FullUrl(baseUrl, path), baseUrl) ==> r == Failure(Client(UntrustedHost(FullUrl(baseUrl, path))))
      ensures Trusted(FullUrl(baseUrl, path), baseUrl) ==> r == CheckEnvelope(response)
    {
      var ok, now, slept := rateLimiter.Acquire(clock);
      if !ok {
        return Failure(LimiterIndexError);
      }
      var fullUrl := FullUrl(baseUrl, path);
      if !Trusted(fullUrl, baseUrl) {
        return Failure(Client(UntrustedHost(fullUrl)));
      }
      r := CheckEnvelope(response);
    }
  }
}
