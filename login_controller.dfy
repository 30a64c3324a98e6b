/**
 * controller/login-controller.go: the POST /auth/login handler, together with
 * the route closure in main.go that writes the 200 response. Binding the
 * JSON body is done by Gin; its outcome is an input here.
 */
module LoginController {
  import opened Wrappers
  import opened ValidationErrors
  import opened LoginServices
  import opened JwtServices

  const BadCredentials := "Invalid username or password"
  const AdminUser := "admin"

  /** entity.LoginCredentials. */
  datatype LoginCredentials = LoginCredentials(username: string, password: string)

  /** What ShouldBindJSON produced: the credentials, or the text of its error. */
  datatype BindResult = Bound(credentials: LoginCredentials) | BindError(message: string)

  /**
   * What Login did: wrote a 400 with the formatted errors, wrote a 401, or
   * wrote nothing and returned a token (possibly "" when signing failed).
   */
  datatype LoginOutcome =
    | BadRequest(errors: seq<ValidationError>)
    | Rejected(message: string)
    | Issued(token: string)

  /** The JSON bodies the route can write. */
  datatype Body =
    | ValidationErrorResponse(errors: seq<ValidationError>)
    | ErrorResponse(error: string)
    | LoginResponse(token: string)

  /** loginController.Login. */
  function Login(bind: BindResult, loginService: LoginService, jwtService: JwtService, signer: Signer, now: int): (o: LoginOutcome)
    ensures o.BadRequest? <==> bind.BindError?
    ensures bind.BindError? ==> o.errors == Formatted(bind.message)
    ensures o == Rejected(BadCredentials) <==> bind.Bound? && !loginService.Login(bind.credentials.username, bind.credentials.password)
    ensures bind.Bound? && loginService.Login(bind.credentials.username, bind.credentials.password) ==>
      o == Issued(GenerateToken(jwtService, signer, bind.credentials.username, bind.credentials.username == AdminUser, now))
    ensures o.Issued? ==> o.token == GenerateToken(jwtService, signer, bind.credentials.username, bind.credentials.username == AdminUser, now)
  {
    match bind
    case BindError(message) => BadRequest(Formatted(message))
    case Bound(credentials) =>
      if !loginService.Login(credentials.username, credentials.password) then Rejected(BadCredentials)
      else Issued(GenerateToken(jwtService, signer, credentials.username, credentials.username == AdminUser, now))
  }

  /** The string Login returns to its caller. */
  function ReturnedToken(outcome: LoginOutcome): string {
    if outcome.Issued? then outcome.token else ""
  }

  /** The response the route ends with: Login's own writes, or the 200 the closure adds for a non-empty token. */
  function Respond(outcome: LoginOutcome): (r: Option<(int, Body)>)
    ensures r.Some? ==> r.value.0 in {200, 400, 401}
    ensures r.Some? && r.value.0 == 200 <==> outcome.Issued? && outcome.token != ""
    ensures r.None? <==> outcome == Issued("")
  {
    match outcome
    case BadRequest(errors) => Some((400, ValidationErrorResponse(errors)))
    case Rejected(message) => Some((401, ErrorResponse(message)))
    case Issued(token) => if token != "" then Some((200, LoginResponse(token))) else None
  }

  /** A body that does not bind gives a 400 listing one formatted entry per line of the error. */
  lemma BindErrorGivesBadRequest(message: string, loginService: LoginService, jwtService: JwtService, signer: Signer, now: int)
    ensures Respond(Login(BindError(message), loginService, jwtService, signer, now))
         == Some((400, ValidationErrorResponse(Formatted(message))))
    ensures ReturnedToken(Login(BindError(message), loginService, jwtService, signer, now)) == ""
  {
  }

  /** Credentials the service refuses give a 401 and no token. */
  lemma BadCredentialsRejected(c: LoginCredentials, loginService: LoginService, jwtService: JwtService, signer: Signer, now: int)
    requires !loginService.Login(c.username, c.password)
    ensures Respond(Login(Bound(c), loginService, jwtService, signer, now)) == Some((401, ErrorResponse(BadCredentials)))
    ensures ReturnedToken(Login(Bound(c), loginService, jwtService, signer, now)) == ""
  {
  }

  /**
   * A token is returned only for bound credentials the login service accepts,
   * and it is the token generated for that username with the admin flag set
   * exactly when the username is "admin".
   */
  lemma TokenOnlyAfterLogin(bind: BindResult, loginService: LoginService, jwtService: JwtService, signer: Signer, now: int)
    requires ReturnedToken(Login(bind, loginService, jwtService, signer, now)) != ""
    ensures bind.Bound?
    ensures loginService.Login(bind.credentials.username, bind.credentials.password)
    ensures ReturnedToken(Login(bind, loginService, jwtService, signer, now))
         == GenerateToken(jwtService, signer, bind.credentials.username, bind.credentials.username == AdminUser, now)
  {
  }

  /** The role flag in the issued claims is true exactly for the username "admin". */
  lemma RoleFlag(c: LoginCredentials, loginService: LoginService, jwtService: JwtService, signer: Signer, now: int)
    requires SoundSigner(signer)
    requires loginService.Login(c.username, c.password)
    requires ReturnedToken(Login(Bound(c), loginService, jwtService, signer, now)) != ""
    ensures signer.decode(ReturnedToken(Login(Bound(c), loginService, jwtService, signer, now))).Some?
    ensures signer.decode(ReturnedToken(Login(Bound(c), loginService, jwtService, signer, now))).value.claims.isAdmin
        <==> c.username == AdminUser
  {
  }

  /** A non-empty returned token is answered with a 200 whose body carries that token. */
  lemma OkIffToken(outcome: LoginOutcome)
    ensures ReturnedToken(outcome) != "" ==> Respond(outcome) == Some((200, LoginResponse(ReturnedToken(outcome))))
  {
  }

  /** With the built-in accounts, "admin"/"password" gets an admin token; a wrong password gets a 401. */
  lemma AdminScenario(jwtService: JwtService, signer: Signer, now: int)
    requires SoundSigner(signer)
    ensures var outcome := Login(Bound(LoginCredentials("admin", "password")), NewLoginService(), jwtService, signer, now);
      match outcome
      case Issued(token) =>
        token == "" || (signer.decode(token).Some? && signer.decode(token).value.claims.isAdmin
                        && signer.decode(token).value.claims.username == "admin")
      case _ => false
    ensures Respond(Login(Bound(LoginCredentials("admin", "wrong")), NewLoginService(), jwtService, signer, now))
         == Some((401, ErrorResponse(BadCredentials)))
  {
    BuiltInAccounts("admin", "password");
    BuiltInAccounts("admin", "wrong");
  }
}
