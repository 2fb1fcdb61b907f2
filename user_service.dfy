/**
 * Registration and login over the document collection (`src/services/user.service.ts`).
 *
 * The collection stores one document per email. Because the schema's email
 * setters (lowercase and trim) also apply to query filters, every lookup by
 * email is a lookup by its normal form. The database call that can fail is
 * the parameter `fault`; the document id, the salt bcrypt draws, the clock and
 * the signing secret are parameters too.
 */
module UserService {
  import opened Common
  import opened Text
  import Hasher
  import Tokens
  import UserModel

  const FIELDS_REQUIRED: string := "Nome, email e senha são obrigatórios"
  const NAME_TOO_SHORT: string := "Nome deve ter pelo menos 3 caracteres"
  const PASSWORD_TOO_SHORT: string := "Senha deve ter pelo menos 6 caracteres"
  const CREDENTIALS_REQUIRED: string := "Email e senha são obrigatórios"
  const EMAIL_TAKEN: string := "E-mail já cadastrado"
  const USER_NOT_FOUND: string := "Usuário não encontrado"
  const WRONG_PASSWORD: string := "Senha inválida"
  const REGISTERED: string := "Usuário criado com sucesso"
  const LOGGED_IN: string := "Login realizado com sucesso"
  const REGISTER_FAILED: string := "Erro interno do servidor ao criar usuário"
  const LOGIN_FAILED: string := "Erro interno do servidor ao fazer login"

  /** What the service throws, as the caller sees it: a `name` and a `message`. */
  datatype UserError =
    | ValidationError(message: string)
    | EmailAlreadyExists
    | UserNotFound
    | InvalidPassword
    | Internal(message: string)
  {
    function Name(): string {
      match this
      case ValidationError(_) => "ValidationError"
      case EmailAlreadyExists => "EmailAlreadyExistsError"
      case UserNotFound => "UserNotFoundError"
      case InvalidPassword => "InvalidPasswordError"
      case Internal(_) => "Error"
    }

    function Message(): string {
      match this
      case ValidationError(m) => m
      case EmailAlreadyExists => EMAIL_TAKEN
      case UserNotFound => USER_NOT_FOUND
      case InvalidPassword => WRONG_PASSWORD
      case Internal(m) => m
    }
  }

  /**
   * What reaches a catch block: one of the service's own errors, the schema's
   * validation error (also named "ValidationError", carrying the failed paths),
   * or an error of the driver.
   */
  datatype Thrown =
    | Raised(error: UserError)
    | SchemaRejected(errors: seq<FieldError>)
    | Driver(detail: string)
  {
    function Name(): string {
      match this
      case Raised(e) => e.Name()
      case SchemaRejected(_) => "ValidationError"
      case Driver(_) => "MongoServerError"
    }

    /** The thrown object itself, seen through its name and message. */
    function AsError(): UserError {
      match this
      case Raised(e) => e
      case SchemaRejected(errors) => ValidationError(UserModel.ValidationMessage(errors))
      case Driver(d) => Internal(d)
    }
  }

  const REGISTER_PASSES: set<string> := {"ValidationError", "EmailAlreadyExistsError"}
  const LOGIN_PASSES: set<string> := {"ValidationError", "UserNotFoundError", "InvalidPasswordError"}

  function FirstMessage(errors: seq<FieldError>): string {
    if errors == [] then "" else errors[0].message
  }

  /**
   * The catch block of `registerUser`. Its second test, which would rebuild a
   * schema error from its first failed path, comes after a test that already
   * rethrows every error named "ValidationError", so it never applies.
   */
  function RegisterCatch(t: Thrown): (e: UserError)
    ensures t.Name() in REGISTER_PASSES ==> e == t.AsError()
    ensures t.Name() !in REGISTER_PASSES ==> e == Internal(REGISTER_FAILED)
    ensures (t.Raised? && (t.error.ValidationError? || t.error.EmailAlreadyExists?)) || t.SchemaRejected? ==> e == t.AsError()
    ensures t.Driver? ==> e == Internal(REGISTER_FAILED)
  {
    if t.Name() in REGISTER_PASSES then t.AsError()
    else if t.Name() == "ValidationError" then
      match t
      case SchemaRejected(errors) => ValidationError(FirstMessage(errors))
      case _ => Internal(REGISTER_FAILED)
    else Internal(REGISTER_FAILED)
  }

  /** The catch block of `loginUser`. */
  function LoginCatch(t: Thrown): (e: UserError)
    ensures t.Name() in LOGIN_PASSES ==> e == t.AsError()
    ensures t.Name() !in LOGIN_PASSES ==> e == Internal(LOGIN_FAILED)
    ensures t.Raised? && !t.error.Internal? && !t.error.EmailAlreadyExists? ==> e == t.error
    ensures t.Driver? ==> e == Internal(LOGIN_FAILED)
  {
    if t.Name() in LOGIN_PASSES then t.AsError() else Internal(LOGIN_FAILED)
  }

  /**
   * The schema's own error reaches the caller whole, with the aggregated
   * message, and a driver's detail never does.
   */
  lemma SchemaErrorPassesThroughWhole(errors: seq<FieldError>, detail: string)
    ensures RegisterCatch(SchemaRejected(errors)) == ValidationError(UserModel.ValidationMessage(errors))
    ensures RegisterCatch(Driver(detail)) == Internal(REGISTER_FAILED)
    ensures LoginCatch(Driver(detail)) == Internal(LOGIN_FAILED)
  {
  }

  /** The service's own errors pass through each catch block unchanged. */
  lemma OwnErrorsPassThrough(message: string)
    ensures RegisterCatch(Raised(ValidationError(message))) == ValidationError(message)
    ensures RegisterCatch(Raised(EmailAlreadyExists)) == EmailAlreadyExists
    ensures LoginCatch(Raised(ValidationError(message))) == ValidationError(message)
    ensures LoginCatch(Raised(UserNotFound)) == UserNotFound
    ensures LoginCatch(Raised(InvalidPassword)) == InvalidPassword
  {
  }


  /** The registration guards, in order: presence of all three, then the name's length, then the password's. */
  function RegisterInputError(name: Option<string>, email: Option<string>, password: Option<string>): (r: Option<string>)
    ensures r == Some(FIELDS_REQUIRED) <==> !(Truthy(name) && Truthy(email) && Truthy(password))
    ensures r == Some(NAME_TOO_SHORT) <==>
      Truthy(name) && Truthy(email) && Truthy(password) && Utf16Length(name.value) < 3
    ensures r == Some(PASSWORD_TOO_SHORT) <==>
      Truthy(name) && Truthy(email) && Truthy(password) && Utf16Length(name.value) >= 3 && Utf16Length(password.value) < 6
    ensures r.None? <==>
      Truthy(name) && Truthy(email) && Truthy(password) && Utf16Length(name.value) >= 3 && Utf16Length(password.value) >= 6
  {
    if !Truthy(name) || !Truthy(email) || !Truthy(password) then Some(FIELDS_REQUIRED)
    else if Utf16Length(name.value) < 3 then Some(NAME_TOO_SHORT)
    else if Utf16Length(password.value) < 6 then Some(PASSWORD_TOO_SHORT)
    else None
  }

  /** The login guard: both credentials present. */
  function LoginInputError(email: Option<string>, password: Option<string>): (r: Option<string>)
    ensures r.None? <==> Truthy(email) && Truthy(password)
    ensures r.Some? ==> r.value == CREDENTIALS_REQUIRED
  {
    if !Truthy(email) || !Truthy(password) then Some(CREDENTIALS_REQUIRED) else None
  }

  /**
   * The service checks the raw name's length; the schema checks it trimmed.
   * A padded short name passes the first and is refused by the second.
   */
  lemma PaddedShortNameReachesSchema()
    ensures RegisterInputError(Some("  ab"), Some("ab@x.io"), Some("secret")) == None
    ensures UserModel.ValidateUser(UserModel.UserFields(Some("  ab"), Some("ab@x.io"), Some("secret"))).Err?
  {
    assert Trim("  ab") == "ab" by {
      assert LeadingSpace("  ab") == 2 by {
        assert LeadingSpace("ab") == 0;
        assert "  ab"[1..] == " ab" && " ab"[1..] == "ab";
      }
      assert TrailingSpace("ab") == 0;
      assert "  ab"[2..] == "ab";
    }
  }

  /** The other way round, the raw-length guard never refuses a name the schema would accept. */
  lemma SchemaNamesPassNameGuard(name: string)
    requires 3 <= Utf16Length(Trim(name))
    ensures Utf16Length(name) >= 3
  {
    TrimShortens(name);
  }

  /** The reply of a registration: never the password. */
  datatype Registration = Registration(id: string, name: string, email: string, createdAt: nat, message: string)

  /** The user part of a login reply. */
  datatype PublicUser = PublicUser(id: string, name: string, email: string, createdAt: nat)

  datatype LoginReply = LoginReply(token: Tokens.Token, user: PublicUser, message: string)

  /** The collection's invariant, on its map of documents. */
  ghost predicate WellKeyed(documents: map<string, UserModel.StoredUser>) {
    && (forall k | k in documents :: documents[k].email == k && UserModel.NormaliseEmail(k) == k)
    && (forall k1, k2 | k1 in documents && k2 in documents && k1 != k2 :: documents[k1].id != documents[k2].id)
  }

  /** Inserting a document under its own, normalised, unused email with an unused id keeps the invariant. */
  lemma AdmitKeepsValid(documents: map<string, UserModel.StoredUser>, stored: UserModel.StoredUser, newId: string)
    requires WellKeyed(documents)
    requires stored.id == newId && stored.email !in documents && UserModel.NormaliseEmail(stored.email) == stored.email
    requires forall k | k in documents :: documents[k].id != newId
    ensures WellKeyed(documents[stored.email := stored])
  {
    var grown := documents[stored.email := stored];
    forall k | k in grown ensures grown[k].email == k && UserModel.NormaliseEmail(k) == k {
      if k != stored.email { assert grown[k] == documents[k]; }
    }
    forall k1, k2 | k1 in grown && k2 in grown && k1 != k2 ensures grown[k1].id != grown[k2].id {
      if k1 != stored.email && k2 != stored.email {
        assert grown[k1] == documents[k1] && grown[k2] == documents[k2];
      }
    }
  }

  /** The user collection, keyed by normalised email. */
  class UserCollection {
    var documents: map<string, UserModel.StoredUser>

    /** Each document sits under its own email, which is in normal form; ids are distinct. */
    ghost predicate Valid()
      reads this
    {
      WellKeyed(documents)
    }

    constructor ()
      ensures Valid() && documents == map[]
    {
      documents := map[];
    }

    /** The document `User.findOne({ email })` finds: the query's email is normalised first. */
    function FindByEmail(email: string): (r: Option<UserModel.StoredUser>)
      reads this
      requires Valid()
      ensures r.Some? <==> UserModel.NormaliseEmail(email) in documents
      ensures r.Some? ==> r.value == documents[UserModel.NormaliseEmail(email)] && r.value.email == UserModel.NormaliseEmail(email)
    {
      var key := UserModel.NormaliseEmail(email);
      if key in documents then Some(documents[key]) else None
    }

    /**
     * `registerUser(name, email, password)`: the guards, then the duplicate
     * check, then `User.create`, whose schema validation and pre-save hook
     * decide what is stored.
     */
    method Register(name: Option<string>, email: Option<string>, password: Option<string>,
                    newId: string, salt: nat, now: nat, fault: Option<string>)
      returns (r: Result<Registration, UserError>)
      requires Valid()
      requires forall k | k in documents :: documents[k].id != newId
      modifies this
      ensures Valid()
      ensures r.Err? ==> documents == old(documents)
      ensures RegisterInputError(name, email, password).Some? ==>
        r == Err(ValidationError(RegisterInputError(name, email, password).value))
      ensures RegisterInputError(name, email, password).None? && fault.Some? ==> r == Err(Internal(REGISTER_FAILED))
      ensures RegisterInputError(name, email, password).None? && fault.None? ==>
        var key := UserModel.NormaliseEmail(email.value);
        var fields := UserModel.UserFields(name, email, password);
        && (key in old(documents) ==> r == Err(EmailAlreadyExists))
        && (key !in old(documents) && UserModel.ValidateUser(fields).Err? ==>
              r == Err(ValidationError(UserModel.ValidationMessage(UserModel.ValidateUser(fields).error))))
        && (key !in old(documents) && UserModel.ValidateUser(fields).Ok? ==>
              var v := UserModel.ValidateUser(fields).value;
              var stored := UserModel.StoredUser(newId, v.name, key, Hasher.Hash(v.password, Hasher.BCRYPT_ROUNDS, salt), now);
              && documents == old(documents)[key := stored]
              && r == Ok(Registration(newId, v.name, key, now, REGISTERED)))
    {
      var invalid := RegisterInputError(name, email, password);
      if invalid.Some? {
        r := Err(RegisterCatch(Raised(ValidationError(invalid.value))));
        return;
      }
      if fault.Some? {
        r := Err(RegisterCatch(Driver(fault.value)));
        return;
      }
      var existing := FindByEmail(email.value);
      if existing.Some? {
        r := Err(RegisterCatch(Raised(EmailAlreadyExists)));
        return;
      }
      var validated := UserModel.ValidateUser(UserModel.UserFields(name, email, password));
      if validated.Err? {
        r := Err(RegisterCatch(SchemaRejected(validated.error)));
        return;
      }
      UserModel.NormaliseEmailIdempotent(email.value);
      r := Create(validated.value, newId, salt, now);
    }

    /**
     * `User.create` of a validated document: the pre-save hook hashes the new
     * password, and the document is stored under its normalised email.
     */
    method Create(v: UserModel.ValidUser, newId: string, salt: nat, now: nat)
      returns (r: Result<Registration, UserError>)
      requires Valid()
      requires v.email !in documents && UserModel.NormaliseEmail(v.email) == v.email
      requires forall k | k in documents :: documents[k].id != newId
      modifies this
      ensures Valid()
      ensures documents == old(documents)[v.email :=
        UserModel.StoredUser(newId, v.name, v.email, Hasher.Hash(v.password, Hasher.BCRYPT_ROUNDS, salt), now)]
      ensures r == Ok(Registration(newId, v.name, v.email, now, REGISTERED))
    {
      var doc := new UserModel.UserDocument(v.name, v.email, v.password);
      doc.Save(salt);
      var stored := UserModel.StoredUser(newId, doc.name, doc.email, doc.password.digest, now);
      AdmitKeepsValid(documents, stored, newId);
      documents := documents[v.email := stored];
      r := Ok(Registration(stored.id, stored.name, stored.email, stored.createdAt, REGISTERED));
    }

    /**
     * `loginUser(email, password)`: the guard, then the lookup with the
     * password selected, then the document's `comparePassword` (the
     * predicate `UserModel.CompareSecret` on the loaded hash), then the token
     * over `{ id, email }`.
     */
    function Login(email: Option<string>, password: Option<string>, secret: string, now: nat, fault: Option<string>)
      : (r: Result<LoginReply, UserError>)
      reads this
      requires Valid()
      ensures LoginInputError(email, password).Some? ==> r == Err(ValidationError(CREDENTIALS_REQUIRED))
      ensures LoginInputError(email, password).None? && fault.Some? ==> r == Err(Internal(LOGIN_FAILED))
      ensures LoginInputError(email, password).None? && fault.None? ==>
        var key := UserModel.NormaliseEmail(email.value);
        && (key !in documents ==> r == Err(UserNotFound))
        && (key in documents && !Hasher.Compare(password.value, documents[key].password) ==> r == Err(InvalidPassword))
        && (key in documents && Hasher.Compare(password.value, documents[key].password) ==> r.Ok?)
      ensures r.Ok? ==>
        var u := r.value.user;
        && u.email == UserModel.NormaliseEmail(email.value) && u.email in documents
        && u == PublicUser(documents[u.email].id, documents[u.email].name, u.email, documents[u.email].createdAt)
        && Hasher.Compare(password.value, documents[u.email].password)
        && r.value.token.payload == Tokens.Payload(u.id, u.email, now, now + Tokens.EXPIRES_IN)
        && Tokens.Verify(r.value.token, secret, now) == Tokens.Decoded(r.value.token.payload)
        && r.value.message == LOGGED_IN
    {
      var invalid := LoginInputError(email, password);
      if invalid.Some? then Err(LoginCatch(Raised(ValidationError(invalid.value))))
      else if fault.Some? then Err(LoginCatch(Driver(fault.value)))
      else
        var found := FindByEmail(email.value);
        if found.None? then Err(LoginCatch(Raised(UserNotFound)))
        else
          var user := UserModel.Select(found.value, true);
          if !UserModel.CompareSecret(password.value, UserModel.Hashed(user.password.value)) then Err(LoginCatch(Raised(InvalidPassword)))
          else
            var token := Tokens.Sign(user.id, user.email, secret, now);
            assert user.email == UserModel.NormaliseEmail(email.value) && documents[user.email] == found.value;
            Ok(LoginReply(token, PublicUser(user.id, user.name, user.email, user.createdAt), LOGGED_IN))
    }
  }

  /** Two spellings of one address that differ in case or padding reach the same account. */
  lemma LoginIgnoresEmailSpelling(c: UserCollection, e1: string, e2: string, password: Option<string>, secret: string, now: nat)
    requires c.Valid()
    requires e1 != [] && e2 != []
    requires UserModel.NormaliseEmail(e1) == UserModel.NormaliseEmail(e2)
    ensures c.Login(Some(e1), password, secret, now, None) == c.Login(Some(e2), password, secret, now, None)
  {
  }

  /**
   * A registered user can log in with the same password under any spelling of
   * the email that has the same normal form, is refused with any password
   * whose first 72 bytes differ, and cannot register the address again.
   */
  method RegisterThenLogin(name: string, email: string, password: string, variant: string, other: string,
                           secret: string, salt: nat, now: nat)
    returns (registered: Result<Registration, UserError>, again: Result<Registration, UserError>,
             respelled: Result<LoginReply, UserError>, wrong: Result<LoginReply, UserError>)
    requires RegisterInputError(Some(name), Some(email), Some(password)).None?
    requires UserModel.FieldsValid(UserModel.UserFields(Some(name), Some(email), Some(password)))
    requires variant != [] && UserModel.NormaliseEmail(variant) == UserModel.NormaliseEmail(email)
    requires other != [] && Hasher.Key(other) != Hasher.Key(password)
    ensures registered == Ok(Registration("u1", Trim(name), UserModel.NormaliseEmail(email), now, REGISTERED))
    ensures again == Err(EmailAlreadyExists)
    ensures respelled.Ok? && respelled.value.token.payload.id == "u1"
    ensures respelled.value.token.payload.email == UserModel.NormaliseEmail(email)
    ensures wrong == Err(InvalidPassword)
  {
    var users := new UserCollection();
    var key := UserModel.NormaliseEmail(email);
    registered := users.Register(Some(name), Some(email), Some(password), "u1", salt, now, None);
    assert users.documents == map[key := UserModel.StoredUser("u1", Trim(name), key, Hasher.Hash(password, Hasher.BCRYPT_ROUNDS, salt), now)];
    again := users.Register(Some(name), Some(email), Some(password), "u2", salt, now, None);
    var digest := Hasher.Hash(password, Hasher.BCRYPT_ROUNDS, salt);
    assert key in users.documents && users.documents[key].password == digest;
    assert Hasher.Compare(password, digest) && !Hasher.Compare(other, digest);
    assert LoginInputError(Some(variant), Some(password)).None? && UserModel.NormaliseEmail(variant) == key;
    respelled := users.Login(Some(variant), Some(password), secret, now, None);
    assert respelled.value.user.email == key;
    assert LoginInputError(Some(email), Some(other)).None?;
    wrong := users.Login(Some(email), Some(other), secret, now, None);
  }
}
