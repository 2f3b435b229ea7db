/** What the handlers receive from the API gateway and what they hand back, with the parts of
    the request-handling contract every handler shares: the fixed headers, the authorization
    gate, the path id, the body, and the catch-all that turns a thrown error into a 500. */
module Http {
  import opened Common

  /** What `JSON.parse` makes of a text: a value, or the `SyntaxError` it throws. */
  datatype Json = Parsed(value: JsonValue) | SyntaxError(message: string)

  /** A request text together with what `JSON.parse` makes of it. */
  datatype Text = Text(raw: string, json: Json)

  datatype Request = Request(
    headers: map<string, string>,
    pathParameters: map<string, string>,
    queryParameters: map<string, Text>,
    body: Option<Text>)

  /** The JSON bodies the handlers answer with. */
  datatype Payload =
    | Failed(error: string)
    | CreatedBody(message: string, id: string, imageKey: Option<string>)
    | ItemBody(message: string, item: Item)
    | ItemsBody(message: string, items: seq<Item>, count: nat, lastEvaluatedKey: Option<Item>)
    | UpdatedBody(message: string, updated: Option<Item>)
    | DeletedBody(message: string, deletedId: string)
    | TokensBody(accessToken: Option<string>, idToken: Option<string>,
                 refreshToken: Option<string>, expiresIn: Option<int>)
    | ConfirmedBody(message: string, userSub: Option<string>, userStatus: Option<string>)
    | UnconfirmedBody(message: string, userSub: Option<string>, warning: string)

  datatype Response = Response(statusCode: int, headers: map<string, string>, body: Payload)

  /** Every response is JSON and may be read from any origin. */
  const CorsHeaders: map<string, string> :=
    map["Content-Type" := "application/json", "Access-Control-Allow-Origin" := "*"]

  function Respond(statusCode: int, body: Payload): (r: Response)
    ensures r.headers == CorsHeaders && r.statusCode == statusCode && r.body == body
  {
    Response(statusCode, CorsHeaders, body)
  }

  const AuthorizationRequired := "Authorization header is required"
  const BodyRequired := "Request body is required"
  const IdRequired := "Item ID is required in path parameter"
  const ItemNotFound := "Item not found"
  const InternalServerError := "Internal server error"

  function Unauthorized(): Response { Respond(401, Failed(AuthorizationRequired)) }
  function MissingBody(): Response { Respond(400, Failed(BodyRequired)) }
  function MissingId(): Response { Respond(400, Failed(IdRequired)) }
  function NotFound(): Response { Respond(404, Failed(ItemNotFound)) }

  /** The shared catch-all: a thrown error becomes a 500 carrying its message, or the generic
      text when the message is empty. */
  function InternalError(e: Failure): (r: Response)
    ensures r.statusCode == 500 && r.headers == CorsHeaders
    ensures r.body.Failed? && r.body.error != ""
    ensures e.message != "" ==> r.body.error == e.message
    ensures e.message == "" ==> r.body.error == InternalServerError
  {
    Respond(500, Failed(if e.message != "" then e.message else InternalServerError))
  }

  /** `headers[name]`, reading an absent header as the empty string (both are falsy). */
  function Header(req: Request, name: string): string {
    if name in req.headers then req.headers[name] else ""
  }

  /** `headers.Authorization || headers.authorization` is truthy. */
  predicate Authorized(req: Request)
    ensures Authorized(req) <==>
      ("Authorization" in req.headers && req.headers["Authorization"] != "") ||
      ("authorization" in req.headers && req.headers["authorization"] != "")
  {
    Header(req, "Authorization") != "" || Header(req, "authorization") != ""
  }

  /** `(pathParameters || {}).id` when truthy. */
  function PathId(req: Request): (id: Option<string>)
    ensures id.Some? <==> "id" in req.pathParameters && req.pathParameters["id"] != ""
    ensures id.Some? ==> id.value == req.pathParameters["id"]
  {
    if "id" in req.pathParameters && req.pathParameters["id"] != "" then Some(req.pathParameters["id"]) else None
  }

  /** The body text when it is truthy (present and not empty). */
  function BodyText(req: Request): (t: Option<Text>)
    ensures t.Some? <==> req.body.Some? && req.body.value.raw != ""
    ensures t.Some? ==> t == req.body
  {
    if req.body.Some? && req.body.value.raw != "" then req.body else None
  }

  /** `JSON.parse(text)`. */
  function Parse(t: Text): (r: Result<JsonValue>)
    ensures r.Err? ==> r.error.name == "SyntaxError"
  {
    match t.json
    case Parsed(v) => Ok(v)
    case SyntaxError(message) => Err(Failure("SyntaxError", message))
  }

  /** `v.name` for a parsed body that is not `null`: an object's own property; arrays, strings,
      numbers and booleans have none of the names the handlers read. */
  function Member(v: JsonValue, name: string): (r: Option<Value>)
    ensures r.Some? ==> v.Record? && name in KeysOf(v.fields)
  {
    if v.Record? then Lookup(v.fields, name) else None
  }

  /** The `TypeError` thrown when `{ first, ... }` is destructured out of `null`; `source` is the
      destructured expression as the engine prints it. */
  function DestructureNull(first: string, source: string): (e: Failure)
    ensures e.name == "TypeError" && e.message != ""
  {
    Failure("TypeError", "Cannot destructure property '" + first + "' of '" + source + "' as it is null.")
  }

  /** The outcome of a handler's validation ladder: the response it stops with, or what it
      goes on with. */
  datatype Gate<+T> = Reject(response: Response) | Pass(value: T)
}
