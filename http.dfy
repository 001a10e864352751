/** The request and response objects of the Express framework, reduced to the
    parts the inventory pipeline reads and writes. */
module Http {
  import opened Base
  import opened Json
  import opened ProductStore

  /** What a handler sends with `res.json(...)`. */
  datatype Body =
    | ErrorBody(error: string)
    | ProductsBody(products: seq<Product>)
    | ProductBody(product: Product)
    | NotFound

  /** A response as the client receives it. */
  datatype Reply = Reply(status: int, body: Body)

  /** `req`: header names are lower case, as Node delivers them; `user` and `tenantId`
      are the properties the authentication middleware attaches (`None` is `undefined`). */
  class Request {
    var headers: map<string, string>
    var query: map<string, string>
    var body: map<string, Json>
    var user: Option<Claims>
    var tenantId: Option<Json>

    constructor(headers: map<string, string>, query: map<string, string>, body: map<string, Json>)
      ensures this.headers == headers && this.query == query && this.body == body
      ensures user == None && tenantId == None
    {
      this.headers := headers;
      this.query := query;
      this.body := body;
      user := None;
      tenantId := None;
    }
  }

  /** `res`: the status code (200 until set) and the body once one was sent. */
  class Response {
    var statusCode: int
    var sent: Option<Body>

    constructor()
      ensures statusCode == 200 && sent == None
    {
      statusCode := 200;
      sent := None;
    }

    /** `res.status(code)`. */
    method Status(code: int)
      modifies this
      ensures statusCode == code && sent == old(sent)
    {
      statusCode := code;
    }

    /** `res.json(body)`: sends the body with the current status code. */
    method SendJson(body: Body)
      modifies this
      ensures sent == Some(body) && statusCode == old(statusCode)
    {
      sent := Some(body);
    }
  }
}
