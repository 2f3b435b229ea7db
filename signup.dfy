/** The sign-up handler (src/signup/index.ts): after the shared credentials ladder it registers
    the user, then tries to confirm them and read back their status. Once registration succeeds
    the answer is always 201; only how confirmed the user is reported varies. */
module SignupHandler {
  import opened Common
  import opened Http
  import opened Config
  import opened Accounts

  const UserExists := "User already exists"
  const CreatedConfirmed := "User created and confirmed successfully"
  const CreatedUnconfirmed := "User created successfully"
  const ConfirmWarning := "Auto-confirmation may have failed. Please verify user status in Cognito."
  const Confirmed := "CONFIRMED"

  /** A request sent to the identity provider. */
  datatype ProviderCall =
    | Register(clientId: string, username: Value, password: Value, email: Value)
    | Confirm(userPoolId: string, username: Value)
    | GetUser(userPoolId: string, username: Value)

  /** The provider's replies, in the order the handler may ask: the registration (its `UserSub`),
      the confirmation, the status read, and the status re-check after a failed confirmation. */
  datatype Answers = Answers(
    register: Result<Option<string>>,
    confirm: Result<()>,
    getUser: Result<Option<string>>,
    recheck: Result<Option<string>>)

  /** The response and the provider calls made, in order. */
  datatype Outcome = Outcome(response: Response, calls: seq<ProviderCall>)

  /** The outer catch: an existing user is 409, anything else 500. */
  function Catch(e: Failure): (r: Response)
    ensures r.headers == CorsHeaders
    ensures r.statusCode == 409 <==> e.name == "UsernameExistsException"
    ensures r.statusCode == 409 ==> r.body == Failed(UserExists)
    ensures r.statusCode != 409 ==> r == InternalError(e)
  {
    if e.name == "UsernameExistsException" then Respond(409, Failed(UserExists)) else InternalError(e)
  }

  /** The error the confirm-and-read step throws: the confirmation's, else the status read's. */
  function ConfirmError(a: Answers): (e: Option<Failure>)
    ensures e.None? <==> a.confirm.Ok? && a.getUser.Ok?
    ensures a.confirm.Err? ==> e == Some(a.confirm.error)
    ensures a.confirm.Ok? && a.getUser.Err? ==> e == Some(a.getUser.error)
  {
    if a.confirm.Err? then Some(a.confirm.error)
    else if a.getUser.Err? then Some(a.getUser.error)
    else None
  }

  /** Whether the confirmation error means the user may already be confirmed. */
  predicate MayBeConfirmed(e: Failure) {
    e.name == "NotAuthorizedException" || e.name == "AliasExistsException"
  }

  /** Everything after a successful registration with user id `sub`. */
  function AfterRegistration(c: Credentials, poolId: string, sub: Option<string>, a: Answers): (o: Outcome)
    ensures o.response.statusCode == 201 && o.response.headers == CorsHeaders
    ensures o.response.body.ConfirmedBody? || o.response.body.UnconfirmedBody?
    ensures o.response.body.userSub == sub
    ensures o.response.body.ConfirmedBody? <==>
      ConfirmError(a).None? ||
      (MayBeConfirmed(ConfirmError(a).value) && a.recheck == Ok(Some(Confirmed)))
    ensures ConfirmError(a).None? ==> o.response.body == ConfirmedBody(CreatedConfirmed, sub, a.getUser.value)
    ensures ConfirmError(a).Some? && o.response.body.ConfirmedBody? ==>
      o.response.body == ConfirmedBody(CreatedConfirmed, sub, Some(Confirmed))
    ensures o.response.body.UnconfirmedBody? ==>
      o.response.body == UnconfirmedBody(CreatedUnconfirmed, sub, ConfirmWarning)
    ensures |o.calls| ==
      (if a.confirm.Ok? then 2 else 1) +
      (if ConfirmError(a).Some? && MayBeConfirmed(ConfirmError(a).value) then 1 else 0)
    ensures o.calls[0] == Confirm(poolId, c.email)
    ensures forall i :: 0 < i < |o.calls| ==> o.calls[i] == GetUser(poolId, c.email)
  {
    var confirm := Confirm(poolId, c.email);
    var getUser := GetUser(poolId, c.email);
    var unconfirmed := Respond(201, UnconfirmedBody(CreatedUnconfirmed, sub, ConfirmWarning));
    match ConfirmError(a)
    case None =>
      Outcome(Respond(201, ConfirmedBody(CreatedConfirmed, sub, a.getUser.value)), [confirm, getUser])
    case Some(e) =>
      var tried := if a.confirm.Err? then [confirm] else [confirm, getUser];
      if MayBeConfirmed(e) then
        if a.recheck == Ok(Some(Confirmed)) then
          Outcome(Respond(201, ConfirmedBody(CreatedConfirmed, sub, Some(Confirmed))), tried + [getUser])
        else Outcome(unconfirmed, tried + [getUser])
      else Outcome(unconfirmed, tried)
  }

  /** The handler. */
  function Handle(cfg: Config, req: Request, a: Answers): (o: Outcome)
    ensures o.response.headers == CorsHeaders
    ensures o.response.statusCode in {201, 400, 409, 500}
    ensures o.calls != [] <==> ReadCredentials(cfg, req).Ok? && ReadCredentials(cfg, req).value.Pass?
    ensures o.calls != [] ==>
      var c := ReadCredentials(cfg, req).value.value;
      o.calls[0] == Register(cfg.userPoolClientId, c.email, c.password, c.email)
    ensures o.response.statusCode == 400 <==> ReadCredentials(cfg, req).Ok? && ReadCredentials(cfg, req).value.Reject?
    ensures o.response.statusCode == 400 ==> o.response == ReadCredentials(cfg, req).value.response
    ensures o.response.statusCode == 201 <==> o.calls != [] && a.register.Ok?
    ensures o.response.statusCode == 409 <==>
      o.calls != [] && a.register.Err? && a.register.error.name == "UsernameExistsException"
    ensures o.response.statusCode == 409 ==> o.response.body == Failed(UserExists)
    ensures o.response.statusCode == 500 ==> o.response.body.Failed? && o.response.body.error != ""
    ensures o.response.statusCode == 500 <==>
      ReadCredentials(cfg, req).Err? ||
      (o.calls != [] && a.register.Err? && a.register.error.name != "UsernameExistsException")
    ensures o.response.statusCode == 500 ==>
      o.response == InternalError(if ReadCredentials(cfg, req).Err? then ReadCredentials(cfg, req).error else a.register.error)
    ensures ValidateConfig(cfg).Some? ==> o == Outcome(InternalError(ValidateConfig(cfg).value), [])
    ensures o.response.statusCode == 201 ==>
      (o.response.body.ConfirmedBody? || o.response.body.UnconfirmedBody?) &&
      o.response.body.userSub == a.register.value
    ensures o.response.statusCode == 201 ==>
      (ReadCredentials(cfg, req).Ok? && ReadCredentials(cfg, req).value.Pass? && a.register.Ok? &&
       var rest := AfterRegistration(ReadCredentials(cfg, req).value.value, cfg.userPoolId, a.register.value, a);
       o.response == rest.response && o.calls == [o.calls[0]] + rest.calls)
  {
    match ReadCredentials(cfg, req)
    case Err(e) => Outcome(Catch(e), [])
    case Ok(Reject(response)) => Outcome(response, [])
    case Ok(Pass(c)) =>
      var register := Register(cfg.userPoolClientId, c.email, c.password, c.email);
      match a.register
      case Err(e) => Outcome(Catch(e), [register])
      case Ok(sub) =>
        var rest := AfterRegistration(c, cfg.userPoolId, sub, a);
        Outcome(rest.response, [register] + rest.calls)
  }

  /** Once registration succeeds nothing later can turn the answer into 409 or 500. */
  lemma RegisteredIsNeverDowngraded(cfg: Config, req: Request, a: Answers, confirm: Result<()>,
                                    getUser: Result<Option<string>>, recheck: Result<Option<string>>)
    requires Handle(cfg, req, a).response.statusCode == 201
    ensures Handle(cfg, req, a.(confirm := confirm, getUser := getUser, recheck := recheck)).response.statusCode == 201
  {
  }

  /** A confirmation that fails for an unrelated reason is reported as unconfirmed, and the status
      is not re-checked. */
  lemma OtherConfirmErrorUnconfirmed(cfg: Config, req: Request, a: Answers)
    requires ReadCredentials(cfg, req).Ok? && ReadCredentials(cfg, req).value.Pass? && a.register.Ok?
    requires a.confirm.Err? && !MayBeConfirmed(a.confirm.error)
    ensures Handle(cfg, req, a).response.body ==
      UnconfirmedBody(CreatedUnconfirmed, a.register.value, ConfirmWarning)
    ensures |Handle(cfg, req, a).calls| == 2
  {
  }

  /** The status read's answer is reported as it is, even when it is not `CONFIRMED`. */
  lemma StatusReportedAsRead(cfg: Config, req: Request, a: Answers, status: string)
    requires ReadCredentials(cfg, req).Ok? && ReadCredentials(cfg, req).value.Pass? && a.register.Ok?
    requires a.confirm.Ok? && a.getUser == Ok(Some(status))
    ensures Handle(cfg, req, a).response.body == ConfirmedBody(CreatedConfirmed, a.register.value, Some(status))
  {
  }
}
