/** The sign-in handler (src/login/index.ts): after the shared credentials ladder it asks the
    identity provider for a password sign-in and classifies the answer. */
module LoginHandler {
  import opened Common
  import opened Http
  import opened Config
  import opened Accounts

  const AuthenticationFailed := "Authentication failed"
  const InvalidCredentials := "Invalid credentials"
  const NotAuthorized := "NotAuthorizedException"

  /** The tokens of an `AuthenticationResult`, each possibly absent. */
  datatype Tokens = Tokens(accessToken: Option<string>, idToken: Option<string>,
                           refreshToken: Option<string>, expiresIn: Option<int>)

  /** The password sign-in request: the app client from the configuration, then the body's
      email as user name and its password. */
  datatype SignIn = SignIn(clientId: string, username: Value, password: Value)

  /** The response, and the sign-in request sent to the provider, if any. */
  datatype Outcome = Outcome(response: Response, sent: Option<SignIn>)

  /** The handler's catch: a rejected sign-in is 401, anything else 500. */
  function Catch(e: Failure): (r: Response)
    ensures r.headers == CorsHeaders
    ensures r.statusCode == 401 <==> e.name == NotAuthorized
    ensures r.statusCode == 401 ==> r.body == Failed(InvalidCredentials)
    ensures r.statusCode != 401 ==> r == InternalError(e)
  {
    if e.name == NotAuthorized then Respond(401, Failed(InvalidCredentials)) else InternalError(e)
  }

  /** The handler; `answer` is the provider's reply to the sign-in: its `AuthenticationResult`
      (absent when it answers with a challenge instead) or the error it throws. */
  function Handle(cfg: Config, req: Request, answer: Result<Option<Tokens>>): (o: Outcome)
    ensures o.response.headers == CorsHeaders
    ensures o.response.statusCode in {200, 400, 401, 500}
    ensures o.sent.Some? <==> ReadCredentials(cfg, req).Ok? && ReadCredentials(cfg, req).value.Pass?
    ensures o.sent.Some? ==>
      var c := ReadCredentials(cfg, req).value.value;
      o.sent.value == SignIn(cfg.userPoolClientId, c.email, c.password)
    ensures o.response.statusCode == 400 <==> ReadCredentials(cfg, req).Ok? && ReadCredentials(cfg, req).value.Reject?
    ensures o.response.statusCode == 400 ==> o.response == ReadCredentials(cfg, req).value.response
    ensures o.response.statusCode == 200 <==> o.sent.Some? && answer.Ok? && answer.value.Some?
    ensures o.response.statusCode == 200 ==>
      var t := answer.value.value;
      o.response.body == TokensBody(t.accessToken, t.idToken, t.refreshToken, t.expiresIn)
    ensures o.response.statusCode == 401 <==>
      o.sent.Some? && (answer == Ok(None) || (answer.Err? && answer.error.name == NotAuthorized))
    ensures o.response.statusCode == 401 ==>
      o.response.body == Failed(if answer == Ok(None) then AuthenticationFailed else InvalidCredentials)
    ensures o.response.statusCode == 500 ==> o.response.body.Failed? && o.response.body.error != ""
    ensures o.response.statusCode == 500 <==>
      ReadCredentials(cfg, req).Err? || (o.sent.Some? && answer.Err? && answer.error.name != NotAuthorized)
    ensures o.response.statusCode == 500 ==>
      o.response == InternalError(if ReadCredentials(cfg, req).Err? then ReadCredentials(cfg, req).error else answer.error)
    ensures ValidateConfig(cfg).Some? ==> o == Outcome(InternalError(ValidateConfig(cfg).value), None)
  {
    match ReadCredentials(cfg, req)
    case Err(e) => Outcome(Catch(e), None)
    case Ok(Reject(response)) => Outcome(response, None)
    case Ok(Pass(c)) =>
      var sent := Some(SignIn(cfg.userPoolClientId, c.email, c.password));
      match answer
      case Err(e) => Outcome(Catch(e), sent)
      case Ok(None) => Outcome(Respond(401, Failed(AuthenticationFailed)), sent)
      case Ok(Some(t)) => Outcome(Respond(200, TokensBody(t.accessToken, t.idToken, t.refreshToken, t.expiresIn)), sent)
  }

  /** When the ladder stops the request the provider is never asked, so its answer cannot matter. */
  lemma AnswerIgnoredWhenRejected(cfg: Config, req: Request, a1: Result<Option<Tokens>>, a2: Result<Option<Tokens>>)
    requires Handle(cfg, req, a1).sent.None?
    ensures Handle(cfg, req, a1) == Handle(cfg, req, a2)
  {
  }

  /** Sign-in needs no authorization header. */
  lemma NoAuthorizationNeeded(cfg: Config, req: Request, headers: map<string, string>, answer: Result<Option<Tokens>>)
    ensures Handle(cfg, req.(headers := headers), answer) == Handle(cfg, req, answer)
  {
    HeadersIgnored(cfg, req, headers);
  }
}
