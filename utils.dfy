/**
 * Password hashing cost, the JWT claim set and the token codec (src/utils.rs).
 * The jsonwebtoken crate is represented by an ideal HS256 codec: a token is
 * its header, its claims and a keyed tag that only the same key, header and
 * claims reproduce; any string that does not split into those parts is
 * `Garbled`.
 */
module Utils {
  import opened Wrappers
  import opened Errors
  import Env
  import Bcrypt
  import Models

  // ---------------------------------------------------------------------
  // hash_password

  /** The bcrypt cost: HASH_ROUNDS when it parses as a u32, else bcrypt's default. */
  function HashCost(env: Env.Env): (cost: nat)
    ensures cost < Env.U32_LIMIT
    ensures forall t :: Env.Var(env, "HASH_ROUNDS") == Some(t) && Env.ParseU32(t).Some? ==>
              cost == Env.ParseU32(t).value
  {
    match Env.Var(env, "HASH_ROUNDS")
    case Some(text) =>
      (match Env.ParseU32(text)
       case Some(n) => n
       case None => Bcrypt.DEFAULT_COST)
    case None => Bcrypt.DEFAULT_COST
  }

  /** A decimal HASH_ROUNDS within u32 range is the cost used. */
  lemma {:induction false} HashCostFromVariable(env: Env.Env, n: nat)
    requires n < Env.U32_LIMIT
    requires Env.Var(env, "HASH_ROUNDS") == Some(Env.Decimal(n))
    ensures HashCost(env) == n
  {
    Env.ParseDecimal(n);
  }

  /** An absent, malformed or out-of-range HASH_ROUNDS falls back to cost 12. */
  lemma HashCostFallback(env: Env.Env)
    requires "HASH_ROUNDS" !in env || Env.ParseU32(env["HASH_ROUNDS"]).None?
    ensures HashCost(env) == Bcrypt.DEFAULT_COST
  {
  }

  /** `hash_password`: any bcrypt failure becomes InternalServerError. */
  function HashPassword(plain: string, env: Env.Env, salt: Bcrypt.Salt): (r: Result<Bcrypt.HashString, ServiceError>)
    ensures r.Failure? <==> !Bcrypt.CostAllowed(HashCost(env))
    ensures r.Failure? ==> r.error == InternalServerError
    ensures r.Success? ==> forall attempt :: Bcrypt.Verify(attempt, r.value) == Success(attempt == plain)
  {
    match Bcrypt.Hash(plain, HashCost(env), salt)
    case Success(h) => Success(h)
    case Failure(_) => Failure(InternalServerError)
  }

  // ---------------------------------------------------------------------
  // The claim set

  const TOKEN_VALIDITY: int := 24 * 60 * 60
  const AUTH_SUBJECT := "auth"
  const DEFAULT_DOMAIN := "localhost"

  /** Registered claims iss, sub, iat and exp of RFC 7519 section 4.1, plus the user's email. */
  datatype Claim = Claim(iss: string, sub: string, iat: int, exp: int, email: string)

  /** `Claim::with_email`, issued at `now` and valid for 24 hours. */
  function WithEmail(email: string, env: Env.Env, now: int): (c: Claim)
    ensures c.email == email && c.sub == AUTH_SUBJECT
    ensures c.iss == Env.VarOr(env, "DOMAIN", DEFAULT_DOMAIN)
    ensures c.iat == now && c.exp - c.iat == TOKEN_VALIDITY
  {
    Claim(Env.VarOr(env, "DOMAIN", DEFAULT_DOMAIN), AUTH_SUBJECT, now, now + TOKEN_VALIDITY, email)
  }

  function GetEmail(c: Claim): (e: string)
    ensures e == c.email
  {
    c.email
  }

  /** `From<Claim> for SlimUser`. */
  function SlimUserFromClaim(c: Claim): (u: Models.SlimUser)
    ensures u.email == c.email
  {
    Models.SlimUser(c.email)
  }

  // ---------------------------------------------------------------------
  // The jsonwebtoken codec

  datatype Algorithm = HS256 | HS384 | HS512 | RS256

  predicate IsHmac(alg: Algorithm) {
    alg == HS256 || alg == HS384 || alg == HS512
  }

  datatype Header = Header(alg: Algorithm)

  /** An ideal keyed tag over the header and the claims. */
  datatype Signature = Mac(key: string, header: Header, claims: Claim)

  /** A token string: its three parts, or text that is not a well-formed token. */
  datatype Jws = Compact(header: Header, claims: Claim, signature: Signature) | Garbled(text: string)

  datatype JwtError = InvalidToken | InvalidSignature | ExpiredSignature | InvalidAlgorithm | InvalidKeyFormat

  /** The checks `decode` applies: accepted algorithms, clock leeway, whether `exp` is checked. */
  datatype Validation = Validation(algorithms: seq<Algorithm>, leeway: nat, validateExp: bool)

  /** `Validation::new(alg)`. */
  function ValidationFor(alg: Algorithm): Validation {
    Validation([alg], 0, true)
  }

  /** `encode` with a secret key: only the HMAC algorithms accept one. */
  function Encode(header: Header, claims: Claim, key: string): (r: Result<Jws, JwtError>)
    ensures r.Success? <==> IsHmac(header.alg)
  {
    if IsHmac(header.alg) then Success(Compact(header, claims, Mac(key, header, claims)))
    else Failure(InvalidKeyFormat)
  }

  /** `decode`: well-formed, an accepted algorithm, an authentic tag, not expired. */
  function Decode(token: Jws, key: string, validation: Validation, now: int): (r: Result<Claim, JwtError>)
    ensures r.Success? <==> token.Compact? && token.header.alg in validation.algorithms &&
                            token.signature == Mac(key, token.header, token.claims) &&
                            !(validation.validateExp && token.claims.exp < now - validation.leeway)
    ensures r.Success? ==> r.value == token.claims
  {
    match token
    case Garbled(_) => Failure(InvalidToken)
    case Compact(header, claims, signature) =>
      if header.alg !in validation.algorithms then Failure(InvalidAlgorithm)
      else if signature != Mac(key, header, claims) then Failure(InvalidSignature)
      else if validation.validateExp && claims.exp < now - validation.leeway then Failure(ExpiredSignature)
      else Success(claims)
  }

  // ---------------------------------------------------------------------
  // Token

  const DEFAULT_ALGORITHM := HS256
  const DEFAULT_SECRET := "my secret"

  datatype Token = Token(jws: Jws)

  /** `get_secret`: JWT_SECRET, or an insecure default. */
  function GetSecret(env: Env.Env): (s: string)
    ensures "JWT_SECRET" in env ==> s == env["JWT_SECRET"]
    ensures "JWT_SECRET" !in env ==> s == DEFAULT_SECRET
  {
    Env.VarOr(env, "JWT_SECRET", DEFAULT_SECRET)
  }

  /** Every encoding failure becomes InternalServerError. */
  function CollapseEncoding(r: Result<Jws, JwtError>): (t: Result<Token, ServiceError>)
    ensures t.Success? <==> r.Success?
    ensures t.Success? ==> t.value == Token(r.value)
    ensures t.Failure? ==> t.error == InternalServerError
  {
    match r
    case Success(jws) => Success(Token(jws))
    case Failure(_) => Failure(InternalServerError)
  }

  /** Every decoding failure, whatever its cause, becomes Unauthorized. */
  function CollapseDecoding(r: Result<Claim, JwtError>): (t: Result<Claim, ServiceError>)
    ensures t.Success? <==> r.Success?
    ensures t.Success? ==> t.value == r.value
    ensures t.Failure? ==> t.error == Unauthorized
  {
    match r
    case Success(c) => Success(c)
    case Failure(_) => Failure(Unauthorized)
  }

  /** `Token::create_token`. */
  function CreateToken(data: Models.SlimUser, env: Env.Env, now: int): (r: Result<Token, ServiceError>)
    ensures r.Success?
  {
    CollapseEncoding(Encode(Header(DEFAULT_ALGORITHM), WithEmail(data.email, env, now), GetSecret(env)))
  }

  /** `Token::decode_token`. */
  function DecodeToken(token: Token, env: Env.Env, now: int): (r: Result<Claim, ServiceError>)
    ensures r.Failure? ==> r.error == Unauthorized
    ensures token.jws.Garbled? ==> r == Failure(Unauthorized)
  {
    CollapseDecoding(Decode(token.jws, GetSecret(env), ValidationFor(DEFAULT_ALGORITHM), now))
  }

  /**
   * A token issued at `issued` decodes, under the same secret, to the claim it
   * was made from exactly until 24 hours have passed.
   */
  lemma TokenRoundTrip(data: Models.SlimUser, env: Env.Env, issued: int, now: int)
    ensures CreateToken(data, env, issued).Success?
    ensures var d := DecodeToken(CreateToken(data, env, issued).value, env, now);
            && (d.Success? <==> now <= issued + TOKEN_VALIDITY)
            && (d.Success? ==> d.value == WithEmail(data.email, env, issued) && GetEmail(d.value) == data.email)
            && (d.Failure? ==> d.error == Unauthorized)
  {
  }

  /** A token made under one secret is refused under any other. */
  lemma ForeignSecretRejected(data: Models.SlimUser, env: Env.Env, other: Env.Env, issued: int, now: int)
    requires GetSecret(env) != GetSecret(other)
    ensures DecodeToken(CreateToken(data, env, issued).value, other, now) == Failure(Unauthorized)
  {
  }

  /** A token whose claims were altered after signing is refused. */
  lemma TamperedClaimsRejected(data: Models.SlimUser, env: Env.Env, issued: int, forged: Claim, now: int)
    requires forged != WithEmail(data.email, env, issued)
    ensures var t := CreateToken(data, env, issued).value;
            DecodeToken(Token(Compact(t.jws.header, forged, t.jws.signature)), env, now) == Failure(Unauthorized)
  {
  }
}
