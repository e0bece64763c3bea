/** The admin gate of the request middleware (src/middleware.ts). */
module Middleware {
  import opened Wrappers
  import opened JsString

  const AdminPrefix := "/admin"

  /** What the middleware answers: pass the request on, or 401 "Unauthorized". */
  datatype Decision = Pass | Unauthorized

  /**
   * `middleware(req)` for a request path and its `token` query value, with
   * `ADMIN_TOKEN` from the environment (`None` when unset).
   */
  function Gate(pathname: string, token: Option<string>, adminToken: Option<string>): (d: Decision)
    ensures !StartsWith(pathname, AdminPrefix) ==> d == Pass
    ensures StartsWith(pathname, AdminPrefix) ==>
              (d == Pass <==> adminToken.Some? && adminToken.value != "" && token == adminToken)
  {
    if StartsWith(pathname, AdminPrefix) then
      if adminToken.None? || adminToken.value == "" || token != adminToken then Unauthorized
      else Pass
    else Pass
  }

  /** Without a configured token every admin path is refused, whatever token the request carries. */
  lemma NoTokenRefusesAdmin(pathname: string, token: Option<string>, adminToken: Option<string>)
    requires StartsWith(pathname, AdminPrefix)
    requires adminToken.None? || adminToken.value == ""
    ensures Gate(pathname, token, adminToken) == Unauthorized
  {
  }

  /**
   * The function's own test is a plain prefix test: any path that begins
   * with "/admin", "/administrator" among them, is refused without a token.
   */
  lemma PrefixGatesLongerNames(rest: string, adminToken: Option<string>)
    ensures Gate(AdminPrefix + rest, None, adminToken) == Unauthorized
    ensures Gate("/administrator", None, adminToken) == Unauthorized
  {
    assert (AdminPrefix + rest)[..|AdminPrefix|] == AdminPrefix;
    assert "/administrator" == AdminPrefix + "istrator";
    assert ("/administrator")[..|AdminPrefix|] == AdminPrefix;
  }
}
