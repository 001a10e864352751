/** JSON values as they travel through the backend: request bodies parsed by the
    JSON body parser, the claims set a verified JWT carries, and the column values
    handed to the product table. */
module Json {
  /** A JSON value; numbers keep their literal text, since no arithmetic is done on them. */
  datatype Json =
    | JNull
    | JBool(b: bool)
    | JNumber(literal: string)
    | JString(s: string)
    | JArray(items: seq<Json>)
    | JObject(members: map<string, Json>)

  /** A JWT claims set, which is a JSON object (RFC 7519, section 4). */
  type Claims = map<string, Json>
}
