/** The inventory router: `GET /` and `POST /add`, each with the authentication
    middleware in front of the controller action. The route table is data; serving a
    request runs the matched route's stages in order, and a stage either answers or
    calls `next()` with the (possibly extended) request context. */
module InventoryRoutes {
  import opened Base
  import opened Json
  import opened JsStrings
  import opened ProductStore
  import opened Http
  import opened AuthMiddleware
  import opened InventoryController

  /** A request method other than the three the router names. */
  type OtherMethod = name: string | name != "GET" && name != "HEAD" && name != "POST" witness "PUT"

  datatype Verb = GET | HEAD | POST | OtherVerb(name: OtherMethod)

  datatype Stage = AuthenticateTenant | ListInventory | CreateProduct

  datatype Route = Route(verb: Verb, path: string, stages: seq<Stage>)

  /** `router.get('/', authenticateTenant, getInventory)` and
      `router.post('/add', authenticateTenant, addProduct)`. */
  const Routes: seq<Route> := [
    Route(GET, "/", [AuthenticateTenant, ListInventory]),
    Route(POST, "/add", [AuthenticateTenant, CreateProduct])
  ]

  /** Express's default matching: case-insensitive, and a trailing slash is optional. */
  predicate PathMatches(pattern: string, path: string)
  {
    var p := ToLower(path);
    p == pattern ||
    (pattern != [] && pattern[|pattern| - 1] == '/' && p == pattern[..|pattern| - 1]) ||
    (pattern != [] && pattern[|pattern| - 1] != '/' && p == pattern + "/")
  }

  /** A GET route also answers HEAD requests. */
  predicate VerbMatches(routeVerb: Verb, verb: Verb)
  {
    verb == routeVerb || (routeVerb == GET && verb == HEAD)
  }

  /** The first route that matches the request line. */
  function FindRoute(routes: seq<Route>, verb: Verb, path: string): (r: Option<Route>)
    ensures r.Some? ==> r.value in routes && VerbMatches(r.value.verb, verb) && PathMatches(r.value.path, path)
    ensures r.None? <==> forall i :: 0 <= i < |routes| ==> !(VerbMatches(routes[i].verb, verb) && PathMatches(routes[i].path, path))
  {
    if routes == [] then None
    else if VerbMatches(routes[0].verb, verb) && PathMatches(routes[0].path, path) then Some(routes[0])
    else FindRoute(routes[1..], verb, path)
  }

  /** What the request offers to the pipeline. */
  datatype Incoming = Incoming(headers: map<string, string>, query: map<string, string>, body: map<string, Json>)

  /** The collaborators' answers: the token verifier, whether the database answers the
      list query, and what it answers to an insert. */
  datatype Env = Env(verify: Verifier, retrieved: bool, outcome: StoreOutcome)

  /** The properties the middleware attaches to the request; `user` is bound as
      `req.user` is, although neither controller action reads it. */
  datatype Ctx = Ctx(user: Option<Claims>, tenantId: Option<Json>)

  datatype Step = Next(ctx: Ctx) | Respond(reply: Reply, rows: seq<Product>)

  function RunStage(stage: Stage, req: Incoming, ctx: Ctx, rows: seq<Product>, env: Env): Step
  {
    match stage
    case AuthenticateTenant =>
      (match Decide(req.headers, env.verify)
       case Admitted(claims) => Next(Ctx(Some(claims), TenantOf(claims)))
       case v => Respond(RejectionReply(v), rows))
    case ListInventory => Respond(ListReply(rows, ctx.tenantId, env.retrieved), rows)
    case CreateProduct =>
      var (reply, rows') := CreateResult(rows, req.body, ctx.tenantId, env.outcome);
      Respond(reply, rows')
  }

  /** Runs stages until one answers; a chain that runs out falls through to a 404. */
  function RunChain(stages: seq<Stage>, req: Incoming, ctx: Ctx, rows: seq<Product>, env: Env): (Reply, seq<Product>)
    decreases |stages|
  {
    if stages == [] then (Reply(404, NotFound), rows)
    else
      match RunStage(stages[0], req, ctx, rows, env)
      case Respond(reply, rows') => (reply, rows')
      case Next(ctx') => RunChain(stages[1..], req, ctx', rows, env)
  }

  /** A request to the inventory router: the reply and the product table afterwards. */
  function Serve(verb: Verb, path: string, req: Incoming, rows: seq<Product>, env: Env): (Reply, seq<Product>)
  {
    match FindRoute(Routes, verb, path)
    case None => (Reply(404, NotFound), rows)
    case Some(route) => RunChain(route.stages, req, Ctx(None, None), rows, env)
  }

  /** Every route runs the authentication middleware first, then one controller action. */
  lemma EveryRouteAuthenticatesFirst()
    ensures forall r :: r in Routes ==> |r.stages| == 2 && r.stages[0] == AuthenticateTenant
  {
  }

  /** The router serves exactly `GET`/`HEAD /` and `POST /add`; nothing else reaches a controller. */
  lemma ExposedRoutes(verb: Verb, path: string)
    ensures FindRoute(Routes, verb, path).Some? <==>
              ((verb == GET || verb == HEAD) && PathMatches("/", path)) || (verb == POST && PathMatches("/add", path))
  {
  }

  /** A request no route matches reaches no stage: whatever it carries, the router
      falls through to 404 and the table is untouched. */
  lemma UnroutedNotFound(verb: Verb, path: string, req: Incoming, rows: seq<Product>, env: Env)
    ensures FindRoute(Routes, verb, path).None? ==> Serve(verb, path, req, rows, env) == (Reply(404, NotFound), rows)
  {
  }

  /** `GET /`: a rejected request gets the middleware's 401 or 403 and never reaches the
      controller; an admitted one gets the list of the tenant named by its verified claims. */
  lemma ServeList(verb: Verb, path: string, req: Incoming, rows: seq<Product>, env: Env)
    requires (verb == GET || verb == HEAD) && PathMatches("/", path)
    ensures Serve(verb, path, req, rows, env) ==
              match Decide(req.headers, env.verify)
              case Admitted(claims) => (ListReply(rows, TenantOf(claims), env.retrieved), rows)
              case v => (RejectionReply(v), rows)
  {
    ExposedRoutes(verb, path);
    assert FindRoute(Routes, verb, path) == Some(Routes[0]);
  }

  /** `POST /add`: a rejected request leaves the table alone; an admitted one creates the
      product for the tenant named by its verified claims. */
  lemma ServeCreate(verb: Verb, path: string, req: Incoming, rows: seq<Product>, env: Env)
    requires verb == POST && PathMatches("/add", path)
    ensures Serve(verb, path, req, rows, env) ==
              match Decide(req.headers, env.verify)
              case Admitted(claims) => CreateResult(rows, req.body, TenantOf(claims), env.outcome)
              case v => (RejectionReply(v), rows)
  {
    assert !PathMatches("/", path);
    assert FindRoute(Routes, verb, path) == Some(Routes[1]);
  }

  /** The isolation invariant end to end: whatever the request, every product it is shown
      or creates belongs to the tenant of its verified claims, and a request that is not
      admitted changes nothing. */
  lemma ServedRecordsBelongToVerifiedTenant(verb: Verb, path: string, req: Incoming, rows: seq<Product>, env: Env)
    ensures var (reply, rows') := Serve(verb, path, req, rows, env);
            (reply.body.ProductsBody? ==>
               Decide(req.headers, env.verify).Admitted? &&
               forall p :: p in reply.body.products ==> p.companyId == TenantOf(Decide(req.headers, env.verify).claims)) &&
            (reply.body.ProductBody? ==>
               Decide(req.headers, env.verify).Admitted? &&
               reply.body.product.companyId == TenantOf(Decide(req.headers, env.verify).claims) &&
               rows' == rows + [reply.body.product]) &&
            (!Decide(req.headers, env.verify).Admitted? ==> rows' == rows && reply.status in {401, 403, 404})
  {
    ExposedRoutes(verb, path);
    if (verb == GET || verb == HEAD) && PathMatches("/", path) {
      ServeList(verb, path, req, rows, env);
      match Decide(req.headers, env.verify)
      case Admitted(claims) =>
        forall p | p in OwnedBy(rows, TenantOf(claims)) ensures p.companyId == TenantOf(claims) {
          OwnedByExact(rows, TenantOf(claims), p);
        }
      case _ =>
    } else if verb == POST && PathMatches("/add", path) {
      ServeCreate(verb, path, req, rows, env);
    }
  }

  /** The tenant comes from the `authorization` header alone: two requests that agree on
      it, and on the four product fields of the body, are served alike, whatever their
      other headers, their query or a `companyId` they put in the body. */
  lemma TenantFromAuthorizationOnly(verb: Verb, path: string, r1: Incoming, r2: Incoming,
                                    rows: seq<Product>, env: Env)
    requires Get(r1.headers, "authorization") == Get(r2.headers, "authorization")
    requires forall k :: k in ["name", "sku", "stock", "priceUSD"] ==> Get(r1.body, k) == Get(r2.body, k)
    ensures Serve(verb, path, r1, rows, env) == Serve(verb, path, r2, rows, env)
  {
    DecidedByAuthorizationOnly(r1.headers, r2.headers, env.verify);
    ExposedRoutes(verb, path);
    if (verb == GET || verb == HEAD) && PathMatches("/", path) {
      ServeList(verb, path, r1, rows, env);
      ServeList(verb, path, r2, rows, env);
    } else if verb == POST && PathMatches("/add", path) {
      ServeCreate(verb, path, r1, rows, env);
      ServeCreate(verb, path, r2, rows, env);
      match Decide(r1.headers, env.verify)
      case Admitted(claims) => DraftIgnoresOtherFields(r1.body, r2.body, TenantOf(claims));
      case _ =>
    }
  }

  /** On a routed request, a 401 comes exactly from a missing token and a 403 exactly
      from a token the verifier refuses, each with its fixed message and the table
      untouched; no controller reply has either status. */
  lemma RejectionsFromCredentialsOnly(verb: Verb, path: string, req: Incoming, rows: seq<Product>, env: Env)
    requires FindRoute(Routes, verb, path).Some?
    ensures var token := TokenOf(Get(req.headers, "authorization"));
            var (reply, rows') := Serve(verb, path, req, rows, env);
            (reply.status == 401 <==> !Truthy(token)) &&
            (reply.status == 403 <==> Truthy(token) && env.verify(token.value).None?) &&
            (!Truthy(token) ==> reply == Reply(401, ErrorBody(MissingTokenMessage)) && rows' == rows) &&
            (Truthy(token) && env.verify(token.value).None? ==>
               reply == Reply(403, ErrorBody(InvalidSessionMessage)) && rows' == rows)
  {
    ExposedRoutes(verb, path);
    if (verb == GET || verb == HEAD) && PathMatches("/", path) {
      ServeList(verb, path, req, rows, env);
    } else {
      ServeCreate(verb, path, req, rows, env);
    }
  }

  /** A request without an `authorization` header is refused with 401, never answered
      with an (empty) inventory list. */
  lemma NoCredentialNoList(verb: Verb, path: string, req: Incoming, rows: seq<Product>, env: Env)
    requires "authorization" !in req.headers
    requires FindRoute(Routes, verb, path).Some?
    ensures Serve(verb, path, req, rows, env) == (Reply(401, ErrorBody(MissingTokenMessage)), rows)
  {
    ExposedRoutes(verb, path);
    if (verb == GET || verb == HEAD) && PathMatches("/", path) {
      ServeList(verb, path, req, rows, env);
    } else {
      ServeCreate(verb, path, req, rows, env);
    }
  }

  /** Express running the route: the request and response objects go through the
      middleware and, if it calls `next()`, the controller action; the outcome is the
      one `Serve` gives. */
  method Dispatch(verb: Verb, path: string, req: Request, res: Response, table: ProductTable, env: Env)
    requires res.statusCode == 200 && res.sent == None
    modifies req, res, table
    ensures res.sent.Some?
    ensures (Reply(res.statusCode, res.sent.value), table.rows) ==
              Serve(verb, path, Incoming(old(req.headers), old(req.query), old(req.body)), old(table.rows), env)
  {
    var incoming := Incoming(req.headers, req.query, req.body);
    var route := FindRoute(Routes, verb, path);
    ExposedRoutes(verb, path);
    if route.None? {
      res.Status(404);
      res.SendJson(NotFound);
      return;
    }
    var admitted := Authenticate(req, res, env.verify);
    if (verb == GET || verb == HEAD) && PathMatches("/", path) {
      ServeList(verb, path, incoming, table.rows, env);
      if admitted {
        GetInventory(req, res, table, env.retrieved);
      }
    } else {
      ServeCreate(verb, path, incoming, table.rows, env);
      if admitted {
        AddProduct(req, res, table, env.outcome);
      }
    }
  }
}
