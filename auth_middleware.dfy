/**
 * The authentication gate in front of every habit route
 * (`src/middlewares/auth.middleware.ts`): from the `Authorization` header to
 * either the decoded claims (stored on the request, then `next()`) or a
 * rejection with its status and messages.
 *
 * Decoding the token string is the token library's business; the gate is
 * given it as `verify`, which maps the extracted token text to what
 * `jwt.verify` returns or throws (see `Tokens.Verify`).
 */
module AuthMiddleware {
  import opened Common
  import opened Text
  import Tokens

  /** `req.headers.authorization`: absent, a string, or a value on which `split` throws. */
  datatype AuthorizationHeader = Absent | Header(text: string) | NonString

  datatype Rejection = Rejection(status: nat, error: string, message: string)

  datatype GateOutcome = Pass(user: Tokens.Payload) | Reject(rejection: Rejection)

  const MISSING: Rejection :=
    Rejection(401, "Token de acesso não fornecido", "É necessário fornecer um token JWT no header Authorization")
  const MALFORMED: Rejection :=
    Rejection(401, "Formato de token inválido", "Use o formato: Bearer <token>")
  const EXPIRED: Rejection :=
    Rejection(401, "Token expirado", "O token JWT expirou. Faça login novamente.")
  const INVALID: Rejection :=
    Rejection(403, "Token inválido", "O token JWT fornecido é inválido.")
  const UNVERIFIABLE: Rejection :=
    Rejection(403, "Token inválido", "Não foi possível verificar o token.")
  const GATE_FAILED: Rejection :=
    Rejection(500, "Erro interno do servidor", "Erro ao processar autenticação.")

  /** `authHeader.split(" ")[1]`: the second space-separated piece, if there is one. */
  function TokenOf(text: string): (t: Option<string>)
    ensures t.Some? ==> ' ' !in t.value
    ensures t.Some? <==> ' ' in text
  {
    var pieces := Split(text, ' ');
    SpaceSplits(text);
    if |pieces| >= 2 then Some(pieces[1]) else None
  }

  /** A string splits into at least two pieces exactly when it holds the separator. */
  lemma {:induction false} SpaceSplits(text: string)
    ensures |Split(text, ' ')| >= 2 <==> ' ' in text
  {
    if ' ' !in text {
      SplitNoSeparator(text, ' ');
    } else {
      var k := FirstSpace(text);
      assert text == text[..k] + [' '] + text[k + 1..];
      SplitAfterPiece(text[..k], text[k + 1..], ' ');
    }
  }

  /** The index of the first space of a string that has one. */
  function FirstSpace(text: string): (k: nat)
    requires ' ' in text
    ensures k < |text| && text[k] == ' ' && ' ' !in text[..k]
  {
    if text[0] == ' ' then 0
    else
      var k := FirstSpace(text[1..]);
      assert text[..k + 1] == [text[0]] + text[1..][..k];
      k + 1
  }

  /**
   * The scheme word is not looked at: any word without spaces, a space and a
   * token without spaces yield that token.
   */
  lemma BearerTokenExtracted(scheme: string, token: string)
    requires ' ' !in scheme && ' ' !in token
    ensures TokenOf(scheme + " " + token) == Some(token)
  {
    SplitAfterPiece(scheme, token, ' ');
    SplitNoSeparator(token, ' ');
    assert scheme + " " + token == scheme + [' '] + token;
  }


  /** `protectedRoute`'s decision. */
  function Authenticate(h: AuthorizationHeader, verify: string -> Tokens.JwtOutcome): (r: GateOutcome)
    ensures r == Reject(MISSING) <==> h.Absent? || h == Header([])
    ensures r == Reject(GATE_FAILED) <==> h.NonString?
    ensures r == Reject(MALFORMED) <==> h.Header? && h.text != [] && !Truthy(TokenOf(h.text))
    ensures r.Pass? <==>
      h.Header? && Truthy(TokenOf(h.text)) && verify(TokenOf(h.text).value).Decoded?
    ensures r.Pass? ==> r.user == verify(TokenOf(h.text).value).payload
    ensures r == Reject(EXPIRED) <==>
      h.Header? && Truthy(TokenOf(h.text)) && verify(TokenOf(h.text).value).TokenExpiredError?
    ensures r == Reject(INVALID) <==>
      h.Header? && Truthy(TokenOf(h.text)) && verify(TokenOf(h.text).value).JsonWebTokenError?
    ensures r == Reject(UNVERIFIABLE) <==>
      h.Header? && Truthy(TokenOf(h.text)) && verify(TokenOf(h.text).value).OtherVerifyError?
  {
    match h
    case Absent => Reject(MISSING)
    case NonString => Reject(GATE_FAILED)
    case Header(text) =>
      if text == [] then Reject(MISSING)
      else
        var token := TokenOf(text);
        if !Truthy(token) then Reject(MALFORMED)
        else
          match verify(token.value)
          case Decoded(p) => Pass(p)
          case TokenExpiredError(_) => Reject(EXPIRED)
          case JsonWebTokenError(_) => Reject(INVALID)
          case OtherVerifyError(_) => Reject(UNVERIFIABLE)
  }

  /** Every rejection is a 401, 403 or 500, and a 500 only when the header could not be read. */
  lemma RejectionStatuses(h: AuthorizationHeader, verify: string -> Tokens.JwtOutcome)
    ensures Authenticate(h, verify).Reject? ==> Authenticate(h, verify).rejection.status in {401, 403, 500}
    ensures Authenticate(h, verify).Reject? && Authenticate(h, verify).rejection.status == 500 ==> h.NonString?
  {
  }

  /** "Bearer" alone, or "Bearer " with nothing after it, is a malformed header, not a missing one. */
  lemma SchemeWithoutTokenIsMalformed(verify: string -> Tokens.JwtOutcome)
    ensures Authenticate(Header("Bearer"), verify) == Reject(MALFORMED)
    ensures Authenticate(Header("Bearer "), verify) == Reject(MALFORMED)
  {
    SplitNoSeparator("Bearer", ' ');
    BearerTokenExtracted("Bearer", "");
    assert "Bearer" + " " + "" == "Bearer ";
  }

  /** A token issued by login is admitted for its first hour, with the claims it was issued with. */
  lemma IssuedTokenAdmitted(id: string, email: string, secret: string, issuedAt: nat, now: nat,
                            text: string, verify: string -> Tokens.JwtOutcome)
    requires text != [] && ' ' !in text
    requires verify(text) == Tokens.Verify(Tokens.Sign(id, email, secret, issuedAt), secret, now)
    requires issuedAt <= now < issuedAt + Tokens.EXPIRES_IN
    ensures Authenticate(Header("Bearer " + text), verify) == Pass(Tokens.Payload(id, email, issuedAt, issuedAt + Tokens.EXPIRES_IN))
  {
    BearerTokenExtracted("Bearer", text);
    assert "Bearer" + " " + text == "Bearer " + text;
  }

  /** From its second hour on, the same token is refused with 401 "expired". */
  lemma ExpiredTokenRejected(id: string, email: string, secret: string, issuedAt: nat, now: nat,
                             text: string, verify: string -> Tokens.JwtOutcome)
    requires text != [] && ' ' !in text
    requires verify(text) == Tokens.Verify(Tokens.Sign(id, email, secret, issuedAt), secret, now)
    requires issuedAt + Tokens.EXPIRES_IN <= now
    ensures Authenticate(Header("Bearer " + text), verify) == Reject(EXPIRED)
  {
    BearerTokenExtracted("Bearer", text);
    assert "Bearer" + " " + text == "Bearer " + text;
  }

  /** A token signed with another key is refused with 403, whatever its age. */
  lemma ForeignTokenRejected(id: string, email: string, secret: string, other: string, issuedAt: nat, now: nat,
                             text: string, verify: string -> Tokens.JwtOutcome)
    requires text != [] && ' ' !in text && other != secret
    requires verify(text) == Tokens.Verify(Tokens.Sign(id, email, other, issuedAt), secret, now)
    ensures Authenticate(Header("Bearer " + text), verify) == Reject(INVALID)
  {
    BearerTokenExtracted("Bearer", text);
    assert "Bearer" + " " + text == "Bearer " + text;
  }

  /** The request as the gate sees it: the header, the claims slot, and how often `next()` ran. */
  class Request {
    const authorization: AuthorizationHeader
    var user: Option<Tokens.Payload>
    var nextCalls: nat

    constructor (authorization: AuthorizationHeader)
      ensures this.authorization == authorization && user.None? && nextCalls == 0
    {
      this.authorization := authorization;
      user := None;
      nextCalls := 0;
    }
  }

  /**
   * `protectedRoute(req, res, next)`: on success the claims are stored on the
   * request and `next()` runs once; otherwise the response is sent and the
   * request is untouched.
   */
  method ProtectedRoute(req: Request, verify: string -> Tokens.JwtOutcome) returns (response: Option<Rejection>)
    modifies req
    ensures Authenticate(req.authorization, verify).Pass? ==>
      && response.None?
      && req.user == Some(Authenticate(req.authorization, verify).user)
      && req.nextCalls == old(req.nextCalls) + 1
    ensures Authenticate(req.authorization, verify).Reject? ==>
      && response == Some(Authenticate(req.authorization, verify).rejection)
      && req.user == old(req.user) && req.nextCalls == old(req.nextCalls)
  {
    var outcome := Authenticate(req.authorization, verify);
    match outcome
    case Pass(p) =>
      req.user := Some(p);
      req.nextCalls := req.nextCalls + 1;
      response := None;
    case Reject(rejection) =>
      response := Some(rejection);
  }
}
