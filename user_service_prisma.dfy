/**
 * The compiled, relational variant of registration and login
 * (`dist/services/user.service.js`). The guards, error kinds, messages and
 * replies are those of `UserService`; what differs is the store: a table with
 * a unique email column, queried by the email exactly as given, and no schema
 * layer, so the service hashes the password itself before inserting.
 */
module UserServicePrisma {
  import opened Common
  import opened Text
  import Hasher
  import Tokens
  import UserModel
  import opened UserService

  /** The catch block of this `registerUser`: only the two named errors pass. */
  function TableRegisterCatch(t: Thrown): (e: UserError)
    ensures t.Name() in REGISTER_PASSES ==> e == t.AsError()
    ensures t.Name() !in REGISTER_PASSES ==> e == Internal(REGISTER_FAILED)
    ensures t.Raised? && (t.error.ValidationError? || t.error.EmailAlreadyExists?) ==> e == t.error
    ensures t.Driver? ==> e == Internal(REGISTER_FAILED)
  {
    if t.Name() in REGISTER_PASSES then t.AsError() else Internal(REGISTER_FAILED)
  }

  /** The user table, keyed by the email column. */
  ghost predicate Keyed(rows: map<string, UserModel.StoredUser>) {
    && (forall k | k in rows :: rows[k].email == k)
    && (forall k1, k2 | k1 in rows && k2 in rows && k1 != k2 :: rows[k1].id != rows[k2].id)
  }

  class UserTable {
    var rows: map<string, UserModel.StoredUser>

    ghost predicate Valid()
      reads this
    {
      Keyed(rows)
    }

    constructor ()
      ensures Valid() && rows == map[]
    {
      rows := map[];
    }

    /**
     * `registerUser(name, email, password)`: the guards, then `findUnique` by
     * the raw email, then `bcrypt.hash`, then the insert of the hash.
     */
    method Register(name: Option<string>, email: Option<string>, password: Option<string>,
                    newId: string, salt: nat, now: nat, fault: Option<string>)
      returns (r: Result<Registration, UserError>)
      requires Valid()
      requires forall k | k in rows :: rows[k].id != newId
      modifies this
      ensures Valid()
      ensures r.Err? ==> rows == old(rows)
      ensures RegisterInputError(name, email, password).Some? ==>
        r == Err(ValidationError(RegisterInputError(name, email, password).value))
      ensures RegisterInputError(name, email, password).None? && fault.Some? ==> r == Err(Internal(REGISTER_FAILED))
      ensures RegisterInputError(name, email, password).None? && fault.None? && email.value in old(rows) ==>
        r == Err(EmailAlreadyExists)
      ensures RegisterInputError(name, email, password).None? && fault.None? && email.value !in old(rows) ==>
        var stored := UserModel.StoredUser(newId, name.value, email.value, Hasher.Hash(password.value, Hasher.BCRYPT_ROUNDS, salt), now);
        && rows == old(rows)[email.value := stored]
        && r == Ok(Registration(newId, name.value, email.value, now, REGISTERED))
    {
      var invalid := RegisterInputError(name, email, password);
      if invalid.Some? {
        r := Err(TableRegisterCatch(Raised(ValidationError(invalid.value))));
        return;
      }
      if fault.Some? {
        r := Err(TableRegisterCatch(Driver(fault.value)));
        return;
      }
      if email.value in rows {
        r := Err(TableRegisterCatch(Raised(EmailAlreadyExists)));
        return;
      }
      var hashed := Hasher.Hash(password.value, Hasher.BCRYPT_ROUNDS, salt);
      var user := UserModel.StoredUser(newId, name.value, email.value, hashed, now);
      rows := rows[email.value := user];
      r := Ok(Registration(user.id, user.name, user.email, user.createdAt, REGISTERED));
    }

    /** `loginUser(email, password)`: the guard, `findUnique` by the raw email, `bcrypt.compare`, then the token. */
    function Login(email: Option<string>, password: Option<string>, secret: string, now: nat, fault: Option<string>)
      : (r: Result<LoginReply, UserError>)
      reads this
      requires Valid()
      ensures LoginInputError(email, password).Some? ==> r == Err(ValidationError(CREDENTIALS_REQUIRED))
      ensures LoginInputError(email, password).None? && fault.Some? ==> r == Err(Internal(LOGIN_FAILED))
      ensures LoginInputError(email, password).None? && fault.None? ==>
        && (email.value !in rows ==> r == Err(UserNotFound))
        && (email.value in rows && !Hasher.Compare(password.value, rows[email.value].password) ==> r == Err(InvalidPassword))
        && (email.value in rows && Hasher.Compare(password.value, rows[email.value].password) ==> r.Ok?)
      ensures r.Ok? ==>
        var u := r.value.user;
        && u.email == email.value && u.email in rows
        && u == PublicUser(rows[u.email].id, rows[u.email].name, u.email, rows[u.email].createdAt)
        && Hasher.Compare(password.value, rows[u.email].password)
        && r.value.token.payload == Tokens.Payload(u.id, u.email, now, now + Tokens.EXPIRES_IN)
        && Tokens.Verify(r.value.token, secret, now) == Tokens.Decoded(r.value.token.payload)
        && r.value.message == LOGGED_IN
    {
      var invalid := LoginInputError(email, password);
      if invalid.Some? then Err(LoginCatch(Raised(ValidationError(invalid.value))))
      else if fault.Some? then Err(LoginCatch(Driver(fault.value)))
      else if email.value !in rows then Err(LoginCatch(Raised(UserNotFound)))
      else
        var user := rows[email.value];
        if !Hasher.Compare(password.value, user.password) then Err(LoginCatch(Raised(InvalidPassword)))
        else
          var token := Tokens.Sign(user.id, user.email, secret, now);
          Ok(LoginReply(token, PublicUser(user.id, user.name, user.email, user.createdAt), LOGGED_IN))
    }
  }

  /**
   * Registered with a password, a user logs in with it and is refused with
   * any password whose first 72 bytes differ; the table holds its hash.
   */
  method RegisterThenLogin(name: string, email: string, password: string, other: string,
                           secret: string, salt: nat, now: nat)
    returns (registered: Result<Registration, UserError>, right: Result<LoginReply, UserError>,
             wrong: Result<LoginReply, UserError>)
    requires RegisterInputError(Some(name), Some(email), Some(password)).None?
    requires other != [] && Hasher.Key(other) != Hasher.Key(password)
    ensures registered == Ok(Registration("u1", name, email, now, REGISTERED))
    ensures right.Ok? && right.value.user == PublicUser("u1", name, email, now)
    ensures wrong == Err(InvalidPassword)
  {
    var table := new UserTable();
    registered := table.Register(Some(name), Some(email), Some(password), "u1", salt, now, None);
    assert Hasher.Compare(password, table.rows[email].password);
    assert !Hasher.Compare(other, table.rows[email].password);
    right := table.Login(Some(email), Some(password), secret, now, None);
    wrong := table.Login(Some(email), Some(other), secret, now, None);
  }

  /**
   * bcrypt's truncation seen through login: registered with a password of
   * more than 72 bytes, a user also logs in with any other password that
   * shares those first 72 bytes.
   */
  method LongPasswordVariantLogsIn(name: string, email: string, prefix: string, hashed: string, tried: string,
                                   secret: string, salt: nat, now: nat)
    returns (right: Result<LoginReply, UserError>)
    requires RegisterInputError(Some(name), Some(email), Some(prefix + hashed)).None?
    requires |Hasher.Utf8(prefix)| >= Hasher.MAX_KEY_BYTES
    ensures right.Ok? && right.value.user == PublicUser("u1", name, email, now)
  {
    var table := new UserTable();
    var registered := table.Register(Some(name), Some(email), Some(prefix + hashed), "u1", salt, now, None);
    Hasher.LongPasswordsShareHash(prefix, hashed, tried, Hasher.BCRYPT_ROUNDS, salt);
    assert prefix + tried != [] by { assert |Hasher.Utf8(prefix)| <= 4 * |prefix|; }
    right := table.Login(Some(email), Some(prefix + tried), secret, now, None);
  }

  /**
   * Two spellings of one address that differ only in case or padding: the
   * document collection refuses the second registration ...
   */
  method CollectionRefusesRespelling(name: string, email: string, respelled: string, password: string,
                                     salt: nat, now: nat)
    returns (second: Result<Registration, UserError>)
    requires RegisterInputError(Some(name), Some(email), Some(password)).None?
    requires UserModel.FieldsValid(UserModel.UserFields(Some(name), Some(email), Some(password)))
    requires RegisterInputError(Some(name), Some(respelled), Some(password)).None?
    requires UserModel.NormaliseEmail(respelled) == UserModel.NormaliseEmail(email)
    ensures second == Err(EmailAlreadyExists)
  {
    var documents := new UserCollection();
    var key := UserModel.NormaliseEmail(email);
    var first := documents.Register(Some(name), Some(email), Some(password), "u1", salt, now, None);
    assert documents.documents == map[key := UserModel.StoredUser("u1", Trim(name), key, Hasher.Hash(password, Hasher.BCRYPT_ROUNDS, salt), now)];
    second := documents.Register(Some(name), Some(respelled), Some(password), "u2", salt, now, None);
  }

  /** ... while the table accepts it as a second account. */
  method TableAcceptsRespelling(name: string, email: string, respelled: string, password: string,
                                salt: nat, now: nat)
    returns (second: Result<Registration, UserError>)
    requires RegisterInputError(Some(name), Some(email), Some(password)).None?
    requires RegisterInputError(Some(name), Some(respelled), Some(password)).None?
    requires respelled != email
    ensures second.Ok? && second.value.email == respelled
  {
    var rows := new UserTable();
    var first := rows.Register(Some(name), Some(email), Some(password), "u1", salt, now, None);
    assert rows.rows.Keys == {email};
    second := rows.Register(Some(name), Some(respelled), Some(password), "u2", salt, now, None);
  }
}
