/** The tenant authentication middleware of the backend: it takes the bearer token
    from the `authorization` header, has it verified, and binds the verified claims
    and the tenant they name to the request before handing on to the next handler.
    Signature and expiry checking (`jwt.verify` with the process-wide secret, a JWT
    as in RFC 7519) is an oracle: any function from token to claims set or failure. */
module AuthMiddleware {
  import opened Base
  import opened Json
  import opened JsStrings
  import opened Http

  const MissingTokenMessage := "Access Denied: Missing Security Token"
  const InvalidSessionMessage := "Security Session Expired or Invalid"

  /** `token => jwt.verify(token, JWT_SECRET)`: the claims set, or `None` where it throws. */
  type Verifier = string -> Option<Claims>

  /** `authHeader && authHeader.split(' ')[1]`: an absent or empty header is passed
      through as it is, otherwise the second space-separated piece, `None` when there
      is none. */
  function TokenOf(authHeader: Option<string>): Option<string>
  {
    match authHeader
    case None => None
    case Some(h) =>
      if h == "" then Some(h)
      else
        var parts := Split(h, ' ');
        if |parts| >= 2 then Some(parts[1]) else None
  }

  /** JavaScript truthiness of the token: present and not empty. */
  predicate Truthy(token: Option<string>)
  {
    token.Some? && token.value != ""
  }

  /** `decoded.companyId`. */
  function TenantOf(claims: Claims): Option<Json>
  {
    Get(claims, "companyId")
  }

  /** How the middleware ends: a 401, a 403, or `next()` with the verified claims. */
  datatype Verdict = MissingToken | InvalidSession | Admitted(claims: Claims)

  /** The decision, from the request headers and the verifier alone. */
  function Decide(headers: map<string, string>, verify: Verifier): Verdict
  {
    var token := TokenOf(Get(headers, "authorization"));
    if !Truthy(token) then MissingToken
    else
      match verify(token.value)
      case None => InvalidSession
      case Some(claims) => Admitted(claims)
  }

  /** The reply a rejected request gets; admitted requests get none from here. */
  function RejectionReply(v: Verdict): Reply
    requires !v.Admitted?
  {
    if v.MissingToken? then Reply(401, ErrorBody(MissingTokenMessage))
    else Reply(403, ErrorBody(InvalidSessionMessage))
  }

  /** The middleware itself. `calledNext` says whether `next()` was called (it is
      called at most once, at the end of the success path). On success nothing is
      sent; on failure `req.user` and `req.tenantId` are untouched. */
  method Authenticate(req: Request, res: Response, verify: Verifier) returns (calledNext: bool)
    modifies req, res
    ensures req.headers == old(req.headers) && req.query == old(req.query) && req.body == old(req.body)
    ensures calledNext <==> Decide(old(req.headers), verify).Admitted?
    ensures Decide(old(req.headers), verify) == MissingToken ==>
              res.statusCode == 401 && res.sent == Some(ErrorBody(MissingTokenMessage))
    ensures Decide(old(req.headers), verify) == InvalidSession ==>
              res.statusCode == 403 && res.sent == Some(ErrorBody(InvalidSessionMessage))
    ensures !calledNext ==> req.user == old(req.user) && req.tenantId == old(req.tenantId)
    ensures calledNext ==>
              var claims := Decide(old(req.headers), verify).claims;
              req.user == Some(claims) && req.tenantId == TenantOf(claims) &&
              res.statusCode == old(res.statusCode) && res.sent == old(res.sent)
  {
    var authHeader := Get(req.headers, "authorization");
    var token := TokenOf(authHeader);
    if !Truthy(token) {
      res.Status(401);
      res.SendJson(ErrorBody(MissingTokenMessage));
      return false;
    }
    match verify(token.value)
    case None =>
      res.Status(403);
      res.SendJson(ErrorBody(InvalidSessionMessage));
      calledNext := false;
    case Some(decoded) =>
      req.user := Some(decoded);
      req.tenantId := TenantOf(decoded);
      calledNext := true;
  }

  /** The token is exactly the second space-separated piece of the header: the
      first word (the scheme) is never looked at, and later pieces are ignored. */
  lemma TokenIsSecondPiece(parts: seq<string>)
    requires |parts| >= 2
    requires forall i :: 0 <= i < |parts| ==> ' ' !in parts[i]
    ensures TokenOf(Some(Join(parts, ' '))) == Some(parts[1])
  {
    SplitJoin(parts, ' ');
  }

  /** A 401 comes from exactly three situations: no `authorization` header, a header
      without a space (the empty header among them), or an empty second piece. */
  lemma MissingTokenCases(headers: map<string, string>, verify: Verifier)
    ensures Decide(headers, verify) == MissingToken <==>
              "authorization" !in headers ||
              ' ' !in headers["authorization"] ||
              Split(headers["authorization"], ' ')[1] == ""
  {
  }

  /** Admission depends on the verifier's answer for that token and nothing else:
      a truthy token is admitted exactly with the claims the verifier returns. */
  lemma AdmittedIffVerified(headers: map<string, string>, verify: Verifier, claims: Claims)
    ensures Decide(headers, verify) == Admitted(claims) <==>
              var token := TokenOf(Get(headers, "authorization"));
              Truthy(token) && verify(token.value) == Some(claims)
  {
  }

  /** Only the `authorization` header is read: requests that agree on it are decided
      alike, whatever their other headers (and their body and query, which `Decide`
      does not even receive). */
  lemma DecidedByAuthorizationOnly(h1: map<string, string>, h2: map<string, string>, verify: Verifier)
    requires Get(h1, "authorization") == Get(h2, "authorization")
    ensures Decide(h1, verify) == Decide(h2, verify)
  {
  }

  /** A verified token whose claims carry no `companyId` is not rejected: it is admitted
      with those claims and the tenant bound to the request is `undefined`. */
  lemma UnboundTenantAdmitted(headers: map<string, string>, verify: Verifier, claims: Claims)
    requires Truthy(TokenOf(Get(headers, "authorization")))
    requires verify(TokenOf(Get(headers, "authorization")).value) == Some(claims)
    requires "companyId" !in claims
    ensures Decide(headers, verify) == Admitted(claims) && TenantOf(claims) == None
  {
  }

  /** The same on the request object: the middleware calls `next()`, sends nothing,
      and leaves `req.tenantId` undefined. */
  method UnboundTenantReachesNext(req: Request, res: Response, verify: Verifier, claims: Claims)
    returns (calledNext: bool)
    requires Truthy(TokenOf(Get(req.headers, "authorization")))
    requires verify(TokenOf(Get(req.headers, "authorization")).value) == Some(claims)
    requires "companyId" !in claims
    modifies req, res
    ensures calledNext && req.user == Some(claims) && req.tenantId == None
    ensures res.statusCode == old(res.statusCode) && res.sent == old(res.sent)
  {
    UnboundTenantAdmitted(req.headers, verify, claims);
    calledNext := Authenticate(req, res, verify);
  }
}
