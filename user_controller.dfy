/**
 * The account routes' handlers (`src/controllers/user.controller.ts`): the
 * service's result becomes a 201 or 200 reply with it, and its errors become
 * 400, 409, 401 or 500.
 */
module UserController {
  import opened Common
  import Hasher
  import UserModel
  import opened UserService

  const SERVER_ERROR: string := "Erro interno do servidor"
  const BAD_CREDENTIALS: string := "Credenciais inválidas"

  /** The JSON bodies the handlers send. */
  datatype Body =
    | RegisteredBody(registration: Registration)
    | LoggedInBody(reply: LoginReply)
    | ErrorBody(error: string)

  datatype Response = Response(status: nat, body: Body)

  /** `register`: 201 with the new account, 400 on invalid input, 409 on a taken email, 500 otherwise. */
  function RegisterResponse(outcome: Result<Registration, UserError>): (r: Response)
    ensures r.status == 201 <==> outcome.Ok?
    ensures outcome.Ok? ==> r.body == RegisteredBody(outcome.value)
    ensures r.status == 400 <==> outcome.Err? && outcome.error.ValidationError?
    ensures r.status == 409 <==> outcome == Err(EmailAlreadyExists)
    ensures r.status == 500 <==> outcome.Err? && !outcome.error.ValidationError? && !outcome.error.EmailAlreadyExists?
    ensures r.status == 400 || r.status == 409 ==> r.body == ErrorBody(outcome.error.Message())
    ensures r.status == 500 ==> r.body == ErrorBody(SERVER_ERROR)
  {
    match outcome
    case Ok(registration) => Response(201, RegisteredBody(registration))
    case Err(e) =>
      if e.Name() == "ValidationError" then Response(400, ErrorBody(e.Message()))
      else if e.Name() == "EmailAlreadyExistsError" then Response(409, ErrorBody(e.Message()))
      else Response(500, ErrorBody(SERVER_ERROR))
  }

  /**
   * `login`: 200 with the token and the user, 400 on missing credentials,
   * one and the same 401 for an unknown email and a wrong password, 500
   * otherwise.
   */
  function LoginResponse(outcome: Result<LoginReply, UserError>): (r: Response)
    ensures r.status == 200 <==> outcome.Ok?
    ensures outcome.Ok? ==> r.body == LoggedInBody(outcome.value)
    ensures r.status == 400 <==> outcome.Err? && outcome.error.ValidationError?
    ensures r.status == 400 ==> r.body == ErrorBody(outcome.error.Message())
    ensures r == Response(401, ErrorBody(BAD_CREDENTIALS)) <==>
      outcome == Err(UserNotFound) || outcome == Err(InvalidPassword)
    ensures r.status == 500 <==>
      outcome.Err? && (outcome.error.EmailAlreadyExists? || outcome.error.Internal?)
    ensures r.status == 500 ==> r.body == ErrorBody(SERVER_ERROR)
  {
    match outcome
    case Ok(reply) => Response(200, LoggedInBody(reply))
    case Err(e) =>
      if e.Name() == "ValidationError" then Response(400, ErrorBody(e.Message()))
      else if e.Name() == "UserNotFoundError" || e.Name() == "InvalidPasswordError" then
        Response(401, ErrorBody(BAD_CREDENTIALS))
      else Response(500, ErrorBody(SERVER_ERROR))
  }

  /**
   * Through the handler, an address nobody registered and a registered
   * address with the wrong password cannot be told apart.
   */
  lemma UnknownEmailLooksLikeWrongPassword(c: UserCollection, unknown: string, known: string,
                                           password: string, secret: string, now: nat)
    requires c.Valid()
    requires unknown != [] && known != [] && password != []
    requires UserModel.NormaliseEmail(unknown) !in c.documents
    requires UserModel.NormaliseEmail(known) in c.documents
    requires !Hasher.Compare(password, c.documents[UserModel.NormaliseEmail(known)].password)
    ensures LoginResponse(c.Login(Some(unknown), Some(password), secret, now, None))
         == LoginResponse(c.Login(Some(known), Some(password), secret, now, None))
         == Response(401, ErrorBody(BAD_CREDENTIALS))
  {
    assert c.Login(Some(unknown), Some(password), secret, now, None) == Err(UserNotFound);
    assert c.Login(Some(known), Some(password), secret, now, None) == Err(InvalidPassword);
  }

  /** A driver failure answers the same 500 whatever the driver reported, for both handlers. */
  lemma DriverFailureIsOpaque(c: UserCollection, email: string, password: string, secret: string, now: nat,
                              detail: string)
    requires c.Valid()
    requires email != [] && password != []
    ensures LoginResponse(c.Login(Some(email), Some(password), secret, now, Some(detail)))
         == Response(500, ErrorBody(SERVER_ERROR))
    ensures RegisterResponse(Err(RegisterCatch(Driver(detail)))) == Response(500, ErrorBody(SERVER_ERROR))
  {
  }
}
