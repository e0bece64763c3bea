/**
 * URL construction and response mapping for the storage/auth backend
 * (src/lib/appwrite/client.ts and src/lib/appwrite-client-urls.ts).
 */
module AppwriteUrls {
  import opened Wrappers
  import opened JsString
  import opened JsNumber
  import opened JsValue

  /** The public configuration read from the environment; `None` when a variable is unset. */
  datatype Env = Env(endpoint: Option<string>, projectId: Option<string>, bucketId: Option<string>)

  /** `!value` for an environment variable: unset or empty. */
  predicate Missing(v: Option<string>) {
    v.None? || v.value == ""
  }

  /** `getBaseUrl()`: the endpoint without one trailing "/", or "" when unset. */
  function GetBaseUrl(endpoint: Option<string>): (base: string)
    ensures endpoint.None? ==> base == ""
    ensures endpoint.Some? && EndsWith(endpoint.value, "/") ==> base + "/" == endpoint.value
    ensures endpoint.Some? && !EndsWith(endpoint.value, "/") ==> base == endpoint.value
  {
    match endpoint
    case None => ""
    case Some(e) => if EndsWith(e, "/") then e[..|e| - 1] else e
  }

  /** Exactly one slash is removed: a doubled slash keeps one. */
  lemma RemovesOnlyOneSlash()
    ensures GetBaseUrl(Some("https://x//")) == "https://x/"
  {
  }

  /** The view URL of a stored file under a base URL. */
  function ViewUrl(base: string, bucketId: string, fileId: string, projectId: string): string {
    base + "/storage/buckets/" + bucketId + "/files/" + fileId + "/view?project=" + projectId
  }

  /** `getPublicAppwriteImageUrl(fileId)` in client.ts: the base URL has its trailing slash removed. */
  function ServerImageUrl(env: Env, fileId: string): (r: Result<string, Thrown>)
    ensures r.Err? <==> Missing(env.endpoint) || Missing(env.projectId) || Missing(env.bucketId)
    ensures r.Err? ==> r.error == Error("Missing NEXT_PUBLIC_APPWRITE_* env vars for image URL.")
    ensures r.Ok? ==> r.value == ViewUrl(GetBaseUrl(env.endpoint), env.bucketId.value, fileId, env.projectId.value)
  {
    if Missing(env.endpoint) || Missing(env.projectId) || Missing(env.bucketId) then
      Err(Error("Missing NEXT_PUBLIC_APPWRITE_* env vars for image URL."))
    else
      Ok(ViewUrl(GetBaseUrl(env.endpoint), env.bucketId.value, fileId, env.projectId.value))
  }

  /** `getPublicAppwriteImageUrl(fileId)` in appwrite-client-urls.ts: the endpoint is used verbatim. */
  function ClientImageUrl(env: Env, fileId: string): (r: Result<string, Thrown>)
    ensures r.Err? <==> Missing(env.endpoint) || Missing(env.projectId) || Missing(env.bucketId)
    ensures r.Err? ==> r.error == Error("Missing NEXT_PUBLIC Appwrite env vars for image URL.")
    ensures r.Ok? ==> r.value == ViewUrl(env.endpoint.value, env.bucketId.value, fileId, env.projectId.value)
    ensures r.Ok? ==> StartsWith(r.value, env.endpoint.value + "/storage/buckets/")
  {
    if Missing(env.endpoint) || Missing(env.projectId) || Missing(env.bucketId) then
      Err(Error("Missing NEXT_PUBLIC Appwrite env vars for image URL."))
    else
      var u := ViewUrl(env.endpoint.value, env.bucketId.value, fileId, env.projectId.value);
      assert u == (env.endpoint.value + "/storage/buckets/") + (env.bucketId.value + "/files/" + fileId + "/view?project=" + env.projectId.value);
      Ok(u)
  }

  /** With the configuration fixed, the file id is inserted unencoded, so distinct ids give distinct URLs. */
  lemma ViewUrlInjective(base: string, bucketId: string, projectId: string, f1: string, f2: string)
    requires ViewUrl(base, bucketId, f1, projectId) == ViewUrl(base, bucketId, f2, projectId)
    ensures f1 == f2
  {
    var pre := base + "/storage/buckets/" + bucketId + "/files/";
    var post := "/view?project=" + projectId;
    assert ViewUrl(base, bucketId, f1, projectId) == pre + f1 + post;
    assert ViewUrl(base, bucketId, f2, projectId) == pre + f2 + post;
    assert |f1| == |f2|;
    assert f1 == (pre + f1 + post)[|pre|..|pre| + |f1|];
    assert f2 == (pre + f2 + post)[|pre|..|pre| + |f2|];
  }

  /**
   * With a complete configuration the two image URL builders agree when the
   * endpoint has no trailing slash, and differ when it has one.
   */
  lemma BuildersAgreeIffNoTrailingSlash(env: Env, fileId: string)
    requires !Missing(env.endpoint) && !Missing(env.projectId) && !Missing(env.bucketId)
    ensures ServerImageUrl(env, fileId) == ClientImageUrl(env, fileId) <==> !EndsWith(env.endpoint.value, "/")
  {
    var e := env.endpoint.value;
    var tail := "/storage/buckets/" + env.bucketId.value + "/files/" + fileId + "/view?project=" + env.projectId.value;
    assert ServerImageUrl(env, fileId).value == GetBaseUrl(env.endpoint) + tail;
    assert ClientImageUrl(env, fileId).value == e + tail;
    if EndsWith(e, "/") {
      assert |GetBaseUrl(env.endpoint) + tail| < |e + tail|;
    }
  }

  /** A response as `requestAppwrite` sees it: its status and its body parsed as JSON (`None` when it is not JSON). */
  datatype HttpResponse = HttpResponse(status: int, json: Option<Value>)

  /** `response.ok`. */
  predicate IsOk(r: HttpResponse) {
    200 <= r.status <= 299
  }

  /** The default error message of a failed request. */
  function FailureMessage(status: int): string {
    "Appwrite request failed (" + NumberToString(FromInt(status)) + ")"
  }

  /**
   * The result of `requestAppwrite` once the response has arrived: a missing
   * endpoint or project fails before any request, a non-ok status throws the
   * payload's `message` (or the default message), 204 yields null, and any
   * other success yields the parsed body.
   */
  function RequestOutcome(env: Env, resp: HttpResponse): (r: Result<Value, Thrown>)
    ensures Missing(env.endpoint) || Missing(env.projectId) ==>
      r == Err(Error("Missing NEXT_PUBLIC_APPWRITE_ENDPOINT or NEXT_PUBLIC_APPWRITE_PROJECT_ID."))
    ensures !Missing(env.endpoint) && !Missing(env.projectId) && !IsOk(resp) ==> r.Err? && r.error.Error?
    ensures !Missing(env.endpoint) && !Missing(env.projectId) && resp.status == 204 ==> r == Ok(Null)
    ensures !Missing(env.endpoint) && !Missing(env.projectId) && IsOk(resp) && resp.status != 204 ==>
      r == (if resp.json.Some? then Ok(resp.json.value) else Err(SyntaxError))
    ensures r.Ok? ==> !Missing(env.endpoint) && !Missing(env.projectId) && IsOk(resp)
  {
    if Missing(env.endpoint) || Missing(env.projectId) then
      Err(Error("Missing NEXT_PUBLIC_APPWRITE_ENDPOINT or NEXT_PUBLIC_APPWRITE_PROJECT_ID."))
    else if !IsOk(resp) then
      var message :=
        if resp.json.Some? && Truthy(Get(resp.json.value, "message"))
        then ToStr(Get(resp.json.value, "message"))
        else FailureMessage(resp.status);
      Err(Error(message))
    else if resp.status == 204 then Ok(Null)
    else match resp.json
      case Some(v) => Ok(v)
      case None => Err(SyntaxError)
  }

  /**
   * A failed request reports the backend's own message whenever the parsed
   * payload carries a truthy `message`, whatever other fields it has; the
   * `Error` constructor turns that value into its string form.
   */
  lemma FailureUsesPayloadMessage(env: Env, status: int, payload: Value)
    requires !Missing(env.endpoint) && !Missing(env.projectId)
    requires !(200 <= status <= 299) && Truthy(Get(payload, "message"))
    ensures RequestOutcome(env, HttpResponse(status, Some(payload))) == Err(Error(ToStr(Get(payload, "message"))))
  {
  }

  /**
   * Without a truthy `message`, whether the body is not JSON, is `{}`, is
   * null or has an empty message, the error names the status.
   */
  lemma FailureDefaultMessage(env: Env, status: int, json: Option<Value>)
    requires !Missing(env.endpoint) && !Missing(env.projectId)
    requires !(200 <= status <= 299)
    requires json.None? || !Truthy(Get(json.value, "message"))
    ensures RequestOutcome(env, HttpResponse(status, json)) == Err(Error(FailureMessage(status)))
    ensures RequestOutcome(env, HttpResponse(status, Some(Object(map[])))) == Err(Error(FailureMessage(status)))
  {
    assert Get(Object(map[]), "message") == Undefined;
  }
}
