/** The Gemini client's HTTP set-up: the API base URL chosen from the page's
    hostname and protocol, and the request interceptor that attaches the stored
    token as a bearer credential (RFC 6750, section 2.1). The page location and
    the browser's local storage are inputs. */
module GeminiApi {
  import opened Base
  import opened JsStrings
  import opened AuthMiddleware

  const LocalApi := "http://localhost:5000/api"
  const CodespacesSuffix := "app.github.dev"

  predicate IsLocalHost(hostname: string)
  {
    hostname == "localhost" || hostname == "127.0.0.1"
  }

  /** The Codespaces URL of the backend: the frontend port "-3000" in the hostname
      becomes the backend port "-5000". */
  function CodespacesApi(hostname: string, protocol: string): string
  {
    protocol + "//" + ReplaceFirst(hostname, "-3000", "-5000") + "/api"
  }

  /** `getBaseUrl()`: the local backend for a local page, the Codespaces backend for
      a hostname ending in "app.github.dev", and the relative "/api" otherwise. */
  function BaseUrl(hostname: string, protocol: string): (url: string)
    ensures EndsWith(url, "/api")
  {
    if IsLocalHost(hostname) then LocalApi
    else if EndsWith(hostname, CodespacesSuffix) then CodespacesApi(hostname, protocol)
    else "/api"
  }

  /** A local hostname never ends in the Codespaces suffix, so the local check wins. */
  lemma LocalHostsUseLocalBackend(hostname: string, protocol: string)
    requires IsLocalHost(hostname)
    ensures BaseUrl(hostname, protocol) == LocalApi
    ensures !EndsWith(hostname, CodespacesSuffix)
  {
  }

  /** On Codespaces the first "-3000" becomes "-5000" and everything else of the
      hostname, a later "-3000" included, is kept. */
  lemma CodespacesPortRewritten(hostname: string, protocol: string, i: nat)
    requires EndsWith(hostname, CodespacesSuffix)
    requires IsAt(hostname, "-3000", i) && forall j :: 0 <= j < i ==> !IsAt(hostname, "-3000", j)
    ensures BaseUrl(hostname, protocol) == protocol + "//" + hostname[..i] + "-5000" + hostname[i + 5..] + "/api"
  {
    assert hostname != "localhost" by { assert |hostname| >= |CodespacesSuffix|; }
    assert hostname != "127.0.0.1" by { assert |hostname| >= |CodespacesSuffix|; }
    ReplaceAtFirst(hostname, "-3000", "-5000", i);
  }

  /** A Codespaces hostname without "-3000" is used as it is. */
  lemma CodespacesWithoutPort(hostname: string, protocol: string)
    requires EndsWith(hostname, CodespacesSuffix) && !Contains(hostname, "-3000")
    ensures BaseUrl(hostname, protocol) == protocol + "//" + hostname + "/api"
  {
    assert !IsLocalHost(hostname);
  }

  /** Every other hostname gets the relative "/api". */
  lemma OtherHostsRelative(hostname: string, protocol: string)
    requires !IsLocalHost(hostname) && !EndsWith(hostname, CodespacesSuffix)
    ensures BaseUrl(hostname, protocol) == "/api"
  {
  }

  /** The `Authorization` value the interceptor builds. */
  function BearerHeader(token: string): string
  {
    "Bearer " + token
  }

  /** The headers after the interceptor, given what `localStorage.getItem('token')`
      returned (`None` for null). */
  function WithAuthorization(headers: map<string, string>, stored: Option<string>): map<string, string>
  {
    if Truthy(stored) then headers["Authorization" := BearerHeader(stored.value)] else headers
  }

  /** The interceptor touches `Authorization` only, sets it exactly when the stored
      token is truthy, and then to the bearer header of that token. */
  lemma InterceptorSetsOnlyAuthorization(headers: map<string, string>, stored: Option<string>)
    ensures var h := WithAuthorization(headers, stored);
            (forall k :: k != "Authorization" ==> Get(h, k) == Get(headers, k)) &&
            (Truthy(stored) ==> Get(h, "Authorization") == Some("Bearer " + stored.value)) &&
            (!Truthy(stored) ==> h == headers)
  {
  }

  /** `config` of an outgoing axios request. */
  class RequestConfig {
    var headers: map<string, string>

    constructor(headers: map<string, string>)
      ensures this.headers == headers
    {
      this.headers := headers;
    }
  }

  /** The request interceptor: updates `config.headers` in place and returns the same object. */
  method Intercept(config: RequestConfig, stored: Option<string>) returns (same: RequestConfig)
    modifies config
    ensures same == config
    ensures config.headers == WithAuthorization(old(config.headers), stored)
  {
    if Truthy(stored) {
      config.headers := config.headers["Authorization" := BearerHeader(stored.value)];
    }
    same := config;
  }

  /** Client and server agree: the middleware's `split(' ')[1]` recovers a non-empty token
      without spaces from the header the interceptor builds. */
  lemma BearerRoundTrip(token: string)
    requires token != "" && ' ' !in token
    ensures TokenOf(Some(BearerHeader(token))) == Some(token)
  {
    TokenIsSecondPiece(["Bearer", token]);
    assert Join(["Bearer", token], ' ') == BearerHeader(token);
  }

  /** A stored token with a space does not survive the trip: the server sees only
      its first word. */
  lemma SpacedTokenTruncated(first: string, rest: string)
    requires first != "" && ' ' !in first
    ensures TokenOf(Some(BearerHeader(first + " " + rest))) == Some(first)
  {
    SplitAfterPiece("Bearer", first + " " + rest, ' ');
    assert BearerHeader(first + " " + rest) == "Bearer" + [' '] + (first + " " + rest);
    SplitAfterPiece(first, rest, ' ');
    assert first + " " + rest == first + [' '] + rest;
  }

  /** A request that went through the interceptor with a usable stored token is admitted
      by the middleware exactly when the verifier accepts that token, with its claims. */
  lemma InterceptedRequestDecidedByToken(headers: map<string, string>, token: string, verify: Verifier)
    requires token != "" && ' ' !in token
    ensures var sent := WithAuthorization(headers, Some(token))["Authorization"];
            Decide(map["authorization" := sent], verify) ==
              match verify(token)
              case Some(claims) => Admitted(claims)
              case None => InvalidSession
  {
    BearerRoundTrip(token);
    assert Get(map["authorization" := BearerHeader(token)], "authorization") == Some(BearerHeader(token));
  }
}
