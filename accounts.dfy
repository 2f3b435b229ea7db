/** The start the sign-in and sign-up handlers (src/login/index.ts, src/signup/index.ts) share:
    configuration, then a body, then a truthy `email` and `password`. Neither asks for an
    authorization header. */
module Accounts {
  import opened Common
  import opened Http
  import opened Config

  const CredentialsRequired := "Email and password are required"

  datatype Credentials = Credentials(email: Value, password: Value)

  /** The body parsed and non-null, or `None`. */
  function Body(req: Request): (v: Option<JsonValue>)
    ensures v.Some? ==> v.value != Null
  {
    if BodyText(req).Some? && Parse(BodyText(req).value).Ok? && Parse(BodyText(req).value).value != Null
    then Some(Parse(BodyText(req).value).value) else None
  }

  /** The shared ladder: `Err` is what it throws (to the handler's own catch), `Ok(Reject(..))`
      the 400 it returns, `Ok(Pass(..))` the credentials it goes on with. */
  function ReadCredentials(cfg: Config, req: Request): (r: Result<Gate<Credentials>>)
    ensures r.Err? ==> r.error.name in {"Error", "SyntaxError", "TypeError"}
    ensures ValidateConfig(cfg).Some? ==> r == Err(ValidateConfig(cfg).value)
    ensures r.Err? && ValidateConfig(cfg).None? ==>
      (BodyText(req).Some? &&
       var parsed := Parse(BodyText(req).value);
       r.error == if parsed.Err? then parsed.error else DestructureNull("email", "JSON.parse(...)"))
    ensures r.Ok? && r.value.Reject? ==>
      r.value.response.statusCode == 400 && r.value.response.headers == CorsHeaders
    ensures r.Ok? && r.value.Reject? <==>
      ValidateConfig(cfg).None? &&
      (BodyText(req).None? ||
       (Body(req).Some? && !(IsTruthy(Member(Body(req).value, "email")) && IsTruthy(Member(Body(req).value, "password")))))
    ensures r.Ok? && r.value.Reject? ==>
      r.value.response.body == Failed(if BodyText(req).None? then BodyRequired else CredentialsRequired)
    ensures r.Ok? && r.value.Pass? <==>
      ValidateConfig(cfg).None? && Body(req).Some? &&
      IsTruthy(Member(Body(req).value, "email")) && IsTruthy(Member(Body(req).value, "password"))
    ensures r.Ok? && r.value.Pass? ==>
      Some(r.value.value.email) == Member(Body(req).value, "email") &&
      Some(r.value.value.password) == Member(Body(req).value, "password")
  {
    if ValidateConfig(cfg).Some? then Err(ValidateConfig(cfg).value)
    else if BodyText(req).None? then Ok(Reject(MissingBody()))
    else
      match Parse(BodyText(req).value)
      case Err(e) => Err(e)
      case Ok(body) =>
        if body == Null then Err(DestructureNull("email", "JSON.parse(...)"))
        else
          var email := Member(body, "email");
          var password := Member(body, "password");
          if !(IsTruthy(email) && IsTruthy(password)) then Ok(Reject(Respond(400, Failed(CredentialsRequired))))
          else Ok(Pass(Credentials(email.value, password.value)))
  }

  /** No authorization header is needed: the headers never change the outcome. */
  lemma HeadersIgnored(cfg: Config, req: Request, headers: map<string, string>)
    ensures ReadCredentials(cfg, req.(headers := headers)) == ReadCredentials(cfg, req)
  {
  }
}
