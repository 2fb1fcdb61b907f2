/**
 * The user document schema (`src/models/user.model.ts`): field bounds, email
 * normalisation and pattern, the hidden password, the pre-save hook that
 * hashes the password only when it was modified, and `comparePassword`.
 */
module UserModel {
  import opened Common
  import opened Text
  import Hasher

  const NAME_REQUIRED: string := "Nome é obrigatório"
  const NAME_TOO_SHORT: string := "Nome deve ter pelo menos 3 caracteres"
  const NAME_TOO_LONG: string := "Nome deve ter no máximo 50 caracteres"
  const EMAIL_REQUIRED: string := "Email é obrigatório"
  const EMAIL_INVALID: string := "Email deve ter um formato válido"
  const PASSWORD_REQUIRED: string := "Senha é obrigatória"
  const PASSWORD_TOO_SHORT: string := "Senha deve ter pelo menos 6 caracteres"

  /** The `lowercase` and `trim` setters of `email`; their order does not matter (Text.LowerTrimCommute). */
  function NormaliseEmail(s: string): (r: string)
    ensures |r| <= |s|
    ensures r == [] || (!IsWhitespace(r[0]) && !IsWhitespace(r[|r| - 1]))
  {
    var t := Trim(s);
    var r := Lower(t);
    assert r != [] ==> r[0] == LowerChar(t[0]) && r[|r| - 1] == LowerChar(t[|t| - 1]);
    r
  }

  /** A normalised email is its own normal form, so a stored email is found again by its normal form. */
  lemma {:induction false} NormaliseEmailIdempotent(s: string)
    ensures NormaliseEmail(NormaliseEmail(s)) == NormaliseEmail(s)
  {
    var t := Trim(s);
    calc {
      NormaliseEmail(NormaliseEmail(s));
      Lower(Trim(Lower(t)));
      { LowerTrimCommute(t); }
      Lower(Lower(Trim(t)));
      { TrimIdempotent(s); }
      Lower(Lower(t));
      { LowerIdempotent(t); }
      Lower(t);
    }
  }

  /**
   * The normal form is the trimmed input in lower case: no capital is left,
   * every other character of the trimmed input is kept in place, and a
   * capital becomes its small letter.
   */
  lemma NormalFormIsLoweredTrim(s: string)
    ensures var r, t := NormaliseEmail(s), Trim(s);
      && |r| == |t|
      && (r == [] <==> AllWhitespace(s))
      && (forall i | 0 <= i < |r| :: !IsUpper(r[i]))
      && (forall i | 0 <= i < |r| && !IsUpper(t[i]) :: r[i] == t[i])
      && (forall i | 0 <= i < |r| && IsUpper(t[i]) :: r[i] as int == t[i] as int + 32)
  {
    LowerLowers(Trim(s));
  }

  /** Two addresses that differ only in the case of their letters have one normal form. */
  lemma CaseVariantsNormaliseAlike(s: string, t: string)
    requires Lower(s) == Lower(t)
    ensures NormaliseEmail(s) == NormaliseEmail(t)
  {
    LowerTrimCommute(s);
    LowerTrimCommute(t);
  }

  /** Whitespace around an address does not change its normal form. */
  lemma PaddingNormalisesAway(s: string, before: string, after: string)
    requires AllWhitespace(before) && AllWhitespace(after)
    ensures NormaliseEmail(before + s + after) == NormaliseEmail(s)
  {
    TrimIgnoresPadding(s, before, after);
  }

  /** Every spelling of an address, in any case and with any padding, is stored and looked up as one. */
  lemma SpellingsOfOneAddress(s: string, t: string, before: string, after: string)
    requires Lower(s) == Lower(t)
    requires AllWhitespace(before) && AllWhitespace(after)
    ensures NormaliseEmail(before + t + after) == NormaliseEmail(s)
  {
    PaddingNormalisesAway(t, before, after);
    CaseVariantsNormaliseAlike(s, t);
  }

  /** "Alice@X.com", with any whitespace around it, is stored and looked up as "alice@x.com". */
  lemma NormaliseEmailExample(before: string, after: string)
    requires AllWhitespace(before) && AllWhitespace(after)
    ensures NormaliseEmail(before + "Alice@X.com" + after) == "alice@x.com"
  {
    LowerExample();
    TrimOfTrimmed("Alice@X.com");
    PaddingNormalisesAway("Alice@X.com", before, after);
  }

  /** No whitespace and no `@`: the class `[^\s@]`. */
  predicate PlainChars(s: string) {
    forall i | 0 <= i < |s| :: !IsWhitespace(s[i]) && s[i] != '@'
  }

  /** `[^\s@]+\.[^\s@]+`: plain characters with a dot that is neither first nor last. */
  predicate DomainPart(d: string) {
    PlainChars(d) && exists k | 0 < k < |d| - 1 :: d[k] == '.'
  }

  /** `^[^\s@]+@[^\s@]+\.[^\s@]+$` */
  predicate MatchesEmailPattern(s: string) {
    exists i | 0 < i < |s| :: s[i] == '@' && PlainChars(s[..i]) && DomainPart(s[i + 1..])
  }

  /** An address that matches the pattern has exactly one `@` and no whitespace at all. */
  lemma MatchingEmailShape(s: string)
    requires MatchesEmailPattern(s)
    ensures forall j | 0 <= j < |s| :: !IsWhitespace(s[j])
    ensures exists i | 0 < i < |s| - 1 :: s[i] == '@' && forall j | 0 <= j < |s| && j != i :: s[j] != '@'
  {
    var i :| 0 < i < |s| && s[i] == '@' && PlainChars(s[..i]) && DomainPart(s[i + 1..]);
    forall j | 0 <= j < |s| && j != i ensures s[j] != '@' && !IsWhitespace(s[j]) {
      if j < i { assert s[j] == s[..i][j]; } else { assert s[j] == s[i + 1..][j - i - 1]; }
    }
  }

  lemma EmailPatternExamples()
    ensures MatchesEmailPattern("alice@x.com")
    ensures !MatchesEmailPattern("alice@x")
    ensures !MatchesEmailPattern("a lice@x.com")
  {
    assert "alice@x.com"[5] == '@' && "alice@x.com"[..5] == "alice" && "alice@x.com"[6..] == "x.com";
    assert "x.com"[1] == '.';
    assert !MatchesEmailPattern("alice@x") by {
      forall i | 0 < i < 7 && "alice@x"[i] == '@' ensures !DomainPart("alice@x"[i + 1..]) {
        assert i == 5;
        assert "alice@x"[6..] == "x";
      }
    }
    assert !MatchesEmailPattern("a lice@x.com") by {
      forall i | 0 < i < 12 && "a lice@x.com"[i] == '@' ensures !PlainChars("a lice@x.com"[..i]) {
        assert "a lice@x.com"[..i][1] == ' ';
      }
    }
  }

  /** The fields given to `User.create`; `None` is an absent field. */
  datatype UserFields = UserFields(name: Option<string>, email: Option<string>, password: Option<string>)

  /** A user that passed validation: setters applied, password still in plain text until pre-save. */
  datatype ValidUser = ValidUser(name: string, email: string, password: string)

  /** The schema's constraints, stated on the raw fields. */
  predicate FieldsValid(f: UserFields) {
    && f.name.Some? && 3 <= Utf16Length(Trim(f.name.value)) <= 50
    && f.email.Some? && MatchesEmailPattern(NormaliseEmail(f.email.value))
    && f.password.Some? && Utf16Length(f.password.value) >= 6
  }

  /** `name`: required, trimmed, 3 to 50 long. */
  function NameError(name: Option<string>): Option<string> {
    if name.None? || Trim(name.value) == [] then Some(NAME_REQUIRED)
    else if Utf16Length(Trim(name.value)) < 3 then Some(NAME_TOO_SHORT)
    else if Utf16Length(Trim(name.value)) > 50 then Some(NAME_TOO_LONG)
    else None
  }

  /** `email`: required, lowercased and trimmed, matching the pattern. */
  function EmailError(email: Option<string>): Option<string> {
    if email.None? || NormaliseEmail(email.value) == [] then Some(EMAIL_REQUIRED)
    else if !MatchesEmailPattern(NormaliseEmail(email.value)) then Some(EMAIL_INVALID)
    else None
  }

  /** `password`: required, at least 6 long. */
  function PasswordError(password: Option<string>): Option<string> {
    if password.None? || password.value == [] then Some(PASSWORD_REQUIRED)
    else if Utf16Length(password.value) < 6 then Some(PASSWORD_TOO_SHORT)
    else None
  }

  function ErrorsOf(path: string, e: Option<string>): seq<FieldError> {
    if e.Some? then [FieldError(path, e.value)] else []
  }

  /** Validates a new user document: the normalised fields, or every failing path in schema order. */
  function ValidateUser(f: UserFields): (r: Result<ValidUser, seq<FieldError>>)
    ensures r.Ok? <==> FieldsValid(f)
    ensures r.Ok? ==> r.value == ValidUser(Trim(f.name.value), NormaliseEmail(f.email.value), f.password.value)
    ensures r.Ok? ==> MatchesEmailPattern(r.value.email) && 3 <= Utf16Length(r.value.name) <= 50
    ensures r.Err? ==> r.error != []
  {
    var errors :=
      ErrorsOf("name", NameError(f.name))
      + ErrorsOf("email", EmailError(f.email))
      + ErrorsOf("password", PasswordError(f.password));
    if errors != [] then Err(errors)
    else Ok(ValidUser(Trim(f.name.value), NormaliseEmail(f.email.value), f.password.value))
  }

  /** The message of the document library's validation error: "User validation failed: path: message, ...". */
  function ValidationMessage(errors: seq<FieldError>): string {
    "User validation failed: " + JoinFieldErrors(errors)
  }

  function JoinFieldErrors(errors: seq<FieldError>): string {
    if errors == [] then ""
    else if |errors| == 1 then errors[0].path + ": " + errors[0].message
    else errors[0].path + ": " + errors[0].message + ", " + JoinFieldErrors(errors[1..])
  }

  /** The `password` path of a document: plain text until the pre-save hook replaces it with its hash. */
  datatype Secret = Plain(text: string) | Hashed(digest: Hasher.Digest)

  /** A user document in memory, with the modified-flag of its `password` path. */
  class UserDocument {
    var name: string
    var email: string
    var password: Secret
    var passwordModified: bool

    /** The password is plain text exactly while it is modified and not yet saved. */
    ghost predicate Valid()
      reads this
    {
      passwordModified <==> password.Plain?
    }

    /** A new document: every path it was given counts as modified. */
    constructor (name: string, email: string, password: string)
      ensures Valid()
      ensures this.name == name && this.email == email
      ensures this.password == Plain(password) && passwordModified
    {
      this.name := name;
      this.email := email;
      this.password := Plain(password);
      passwordModified := true;
    }

    /** A document loaded from the collection: nothing is modified. */
    constructor Loaded(u: StoredUser)
      ensures Valid()
      ensures name == u.name && email == u.email
      ensures password == Hashed(u.password) && !passwordModified
    {
      name := u.name;
      email := u.email;
      password := Hashed(u.password);
      passwordModified := false;
    }

    /** `user.password = plaintext`. */
    method SetPassword(plaintext: string)
      modifies this
      ensures Valid()
      ensures password == Plain(plaintext) && passwordModified
      ensures name == old(name) && email == old(email)
    {
      password := Plain(plaintext);
      passwordModified := true;
    }

    /** `user.name = n`: another path changes, the password's flag does not. */
    method SetName(n: string)
      requires Valid()
      modifies this
      ensures Valid()
      ensures name == n && email == old(email)
      ensures password == old(password) && passwordModified == old(passwordModified)
    {
      name := n;
    }

    /**
     * `save()`: the pre-save hook hashes the password only when it was
     * modified; once saved, no path counts as modified.
     */
    method Save(salt: nat)
      requires Valid()
      modifies this
      ensures Valid() && !passwordModified
      ensures old(passwordModified) ==> password == Hashed(Hasher.Hash(old(password).text, Hasher.BCRYPT_ROUNDS, salt))
      ensures !old(passwordModified) ==> password == old(password)
      ensures name == old(name) && email == old(email)
    {
      if passwordModified {
        password := Hashed(Hasher.Hash(password.text, Hasher.BCRYPT_ROUNDS, salt));
      }
      passwordModified := false;
    }

    /** `user.comparePassword(candidate)`: the hasher's verdict on the stored hash. */
    function ComparePassword(candidate: string): (matches: bool)
      reads this
      ensures matches ==> password.Hashed?
      ensures password.Hashed? ==> (matches <==> Hasher.Compare(candidate, password.digest))
    {
      CompareSecret(candidate, password)
    }
  }

  /** bcrypt's compare against a value that is not a hash fails closed. */
  predicate CompareSecret(candidate: string, s: Secret) {
    s.Hashed? && Hasher.Compare(candidate, s.digest)
  }

  /** Saving twice hashes once; changing the password makes the next save hash the new one. */
  method HashOnlyWhenModified(name: string, email: string, password: string, replacement: string, salt1: nat, salt2: nat, salt3: nat)
    returns (first: Secret, second: Secret, third: Secret)
    ensures first == Hashed(Hasher.Hash(password, Hasher.BCRYPT_ROUNDS, salt1))
    ensures second == first
    ensures third == Hashed(Hasher.Hash(replacement, Hasher.BCRYPT_ROUNDS, salt3))
  {
    var doc := new UserDocument(name, email, password);
    doc.Save(salt1);
    first := doc.password;
    doc.SetName(name + " ");
    doc.Save(salt2);
    second := doc.password;
    doc.SetPassword(replacement);
    doc.Save(salt3);
    third := doc.password;
  }

  /** A user as persisted: the password column holds a digest. */
  datatype StoredUser = StoredUser(id: string, name: string, email: string, password: Hasher.Digest, createdAt: nat)

  /** What a query returns: the password only when it is selected explicitly (`select: false`). */
  datatype Projection = Projection(id: string, name: string, email: string, createdAt: nat, password: Option<Hasher.Digest>)

  /** A query's projection of a document; `withPassword` is `.select("+password")`. */
  function Select(u: StoredUser, withPassword: bool): (p: Projection)
    ensures p.password.Some? <==> withPassword
    ensures withPassword ==> p.password == Some(u.password)
    ensures p.id == u.id && p.name == u.name && p.email == u.email && p.createdAt == u.createdAt
  {
    Projection(u.id, u.name, u.email, u.createdAt, if withPassword then Some(u.password) else None)
  }

  /** The serialised view (`toJSON`): `password` and `__v` removed, every other field kept as it is. */
  function UserToJson(ret: JsonObject): (r: JsonObject)
    ensures "password" !in r && "__v" !in r
    ensures r.Keys == ret.Keys - {"password", "__v"}
    ensures forall k | k in r :: r[k] == ret[k]
  {
    ret - {"password", "__v"}
  }
}
