/**
 * service/jwt-service.go: configuration of the token service from the
 * environment, issuing HS256-signed JSON Web Tokens (RFC 7519) and
 * validating them.
 *
 * The golang-jwt library is not part of this model. Its compact
 * serialisation, HMAC computation and parsing are an abstract `Signer`
 * whose properties are stated as predicates (`SoundSigner`, `Unforgeable`,
 * `KeyBound`) and assumed only where a lemma requires them. The order of the
 * checks in `Parse` follows version 5 of that library. Time is a parameter:
 * `now` is the current instant in nanoseconds since the Unix epoch.
 */
module JwtServices {
  import opened Wrappers

  /** The process environment; os.Getenv gives "" for an unset variable. */
  type Env = map<string, string>

  function Getenv(env: Env, key: string): (value: string)
    ensures key in env ==> value == env[key]
    ensures key !in env ==> value == ""
  {
    if key in env then env[key] else ""
  }

  /** time.Duration values are nanoseconds. */
  const Second: int := 1_000_000_000
  const Minute: int := 60 * Second
  const DefaultExpiry: int := 15 * Minute
  const DefaultSecretKey := "your-secret-key"
  const DefaultIssuer := "your-app-name"

  datatype JwtService = JwtService(secretKey: string, issuer: string, expiry: int)

  const DefaultService := JwtService(DefaultSecretKey, DefaultIssuer, DefaultExpiry)

  /**
   * The expiry the constructor computes from JWT_EXPIRY_MINS: `parseDuration`
   * stands for time.ParseDuration (None for a parse error) and is applied to
   * the variable's text with "m" appended.
   */
  function ExpiryFrom(expiryText: string, parseDuration: string -> Option<int>): (d: int)
    ensures expiryText != "" && parseDuration(expiryText + "m").Some? ==> d == parseDuration(expiryText + "m").value
    ensures expiryText == "" || parseDuration(expiryText + "m").None? ==> d == DefaultExpiry
  {
    if expiryText != "" then
      match parseDuration(expiryText + "m")
      case None => DefaultExpiry
      case Some(d) => d
    else DefaultExpiry
  }

  /** NewJWTService: the configured key and issuer when both are set, else all defaults. */
  function NewJwtService(env: Env, parseDuration: string -> Option<int>): (s: JwtService)
    ensures s.secretKey != "" && s.issuer != ""
  {
    var secretKey := Getenv(env, "JWT_SECRET_KEY");
    var issuer := Getenv(env, "JWT_ISSUER");
    var expiry := ExpiryFrom(Getenv(env, "JWT_EXPIRY_MINS"), parseDuration);
    if secretKey != "" && issuer != "" then JwtService(secretKey, issuer, expiry)
    else DefaultService
  }

  /** Both variables set: the service takes them, with the expiry parsed from JWT_EXPIRY_MINS. */
  lemma ConfiguredService(env: Env, parseDuration: string -> Option<int>)
    requires Getenv(env, "JWT_SECRET_KEY") != "" && Getenv(env, "JWT_ISSUER") != ""
    ensures NewJwtService(env, parseDuration)
         == JwtService(env["JWT_SECRET_KEY"], env["JWT_ISSUER"], ExpiryFrom(Getenv(env, "JWT_EXPIRY_MINS"), parseDuration))
  {
  }

  /**
   * Either variable missing or empty: every field takes its default, and the
   * expiry variable has no effect whatever its value.
   */
  lemma DefaultsIgnoreExpiry(env: Env, parseDuration: string -> Option<int>, expiryText: string)
    requires Getenv(env, "JWT_SECRET_KEY") == "" || Getenv(env, "JWT_ISSUER") == ""
    ensures NewJwtService(env, parseDuration) == DefaultService
    ensures NewJwtService(env["JWT_EXPIRY_MINS" := expiryText], parseDuration) == DefaultService
  {
    var env' := env["JWT_EXPIRY_MINS" := expiryText];
    assert Getenv(env', "JWT_SECRET_KEY") == Getenv(env, "JWT_SECRET_KEY");
    assert Getenv(env', "JWT_ISSUER") == Getenv(env, "JWT_ISSUER");
  }

  /** The JWS `alg` header values the library knows; `Unregistered` is any other name. */
  datatype SigningMethod =
    | HS256 | HS384 | HS512
    | RS256 | RS384 | RS512 | PS256 | PS384 | PS512
    | ES256 | ES384 | ES512 | EdDSA | NoneSigning
    | Unregistered

  /** The methods of type *jwt.SigningMethodHMAC. */
  predicate IsHmac(m: SigningMethod) {
    m == HS256 || m == HS384 || m == HS512
  }

  /**
   * The payload: the custom username and is_admin claims and the registered
   * iss, exp, nbf and iat claims, with times as NumericDate seconds. An empty
   * issuer stands for an absent `iss` (the field is omitted when empty).
   */
  datatype Claims = Claims(
    username: string,
    isAdmin: bool,
    issuer: string,
    expiresAt: Option<int>,
    notBefore: Option<int>,
    issuedAt: Option<int>)

  /** A token's protected header (only its `alg`) and payload. */
  datatype Jws = Jws(alg: SigningMethod, claims: Claims)

  /**
   * The library's cryptographic and serialisation half: `sign` serialises
   * and signs under a key (None when signing fails), `decode` splits and
   * decodes a compact token (None when it is malformed), `verify` checks a
   * compact token's signature under a key with the method its header names.
   */
  datatype Signer = Signer(
    sign: (Jws, string) -> Option<string>,
    decode: string -> Option<Jws>,
    verify: (string, string) -> bool)

  /**
   * What HS256 signing promises: a signed token is a non-empty string that
   * decodes to what was signed and verifies under the key that signed it.
   */
  ghost predicate SoundSigner(signer: Signer) {
    forall j, key :: signer.sign(j, key).Some? ==>
      && signer.sign(j, key).value != ""
      && signer.decode(signer.sign(j, key).value) == Some(j)
      && signer.verify(signer.sign(j, key).value, key)
  }

  /** Only tokens signed under a key verify under it (altered tokens do not). */
  ghost predicate Unforgeable(signer: Signer) {
    forall token, key :: signer.verify(token, key) ==> exists j :: signer.sign(j, key) == Some(token)
  }

  /**
   * A token signed under one key does not verify under another. HMAC pads a
   * short key with zero bytes, so "k" and "k" + NUL are the same key; the
   * promise is made only for keys without NUL, which is every key an
   * environment variable can hold.
   */
  ghost predicate KeyBound(signer: Signer) {
    forall j, key, other :: signer.sign(j, key).Some? && other != key && NulFree(key) && NulFree(other) ==>
      !signer.verify(signer.sign(j, key).value, other)
  }

  predicate NulFree(key: string) {
    '\0' !in key
  }

  /** jwt.NewNumericDate: an instant truncated to whole seconds. */
  function NumericDate(instant: int): (seconds: int)
    ensures seconds * Second <= instant < (seconds + 1) * Second
  {
    instant / Second
  }

  /** The claims GenerateToken signs: no iat and no nbf are set. */
  function IssuedClaims(s: JwtService, username: string, isAdmin: bool, now: int): (c: Claims)
    ensures c.username == username && c.isAdmin == isAdmin && c.issuer == s.issuer
    ensures c.expiresAt.Some? && c.expiresAt.value * Second <= now + s.expiry < (c.expiresAt.value + 1) * Second
    ensures c.notBefore.None? && c.issuedAt.None?
  {
    Claims(username, isAdmin, s.issuer, Some(NumericDate(now + s.expiry)), None, None)
  }

  /** GenerateToken: sign the claims with HS256 under the secret key; "" when signing fails. */
  function GenerateToken(s: JwtService, signer: Signer, username: string, isAdmin: bool, now: int): (t: string)
    ensures signer.sign(Jws(HS256, IssuedClaims(s, username, isAdmin, now)), s.secretKey).None? ==> t == ""
    ensures signer.sign(Jws(HS256, IssuedClaims(s, username, isAdmin, now)), s.secretKey).Some?
        ==> Some(t) == signer.sign(Jws(HS256, IssuedClaims(s, username, isAdmin, now)), s.secretKey)
  {
    match signer.sign(Jws(HS256, IssuedClaims(s, username, isAdmin, now)), s.secretKey)
    case None => ""
    case Some(t) => t
  }

  datatype JwtError =
    | TokenMalformed
    | TokenUnverifiable
    /** The key callback's ErrSignatureInvalid for a non-HMAC method, which the library wraps as unverifiable. */
    | KeyFuncRejected
    | TokenSignatureInvalid
    | TokenInvalidClaims(expired: bool, notYetValid: bool)

  /** A parsed token; `valid` is set only when every check passed. */
  datatype Token = Token(raw: string, alg: SigningMethod, claims: Claims, valid: bool)

  /** The time checks of the library's default validator; iat is not checked by default. */
  predicate Expired(c: Claims, now: int)
    ensures c.expiresAt.None? ==> !Expired(c, now)
    ensures c.expiresAt.Some? ==> (Expired(c, now) <==> NumericDate(now) >= c.expiresAt.value)
  {
    c.expiresAt.Some? && !(now < c.expiresAt.value * Second)
  }

  predicate NotYetValid(c: Claims, now: int)
    ensures c.notBefore.None? ==> !NotYetValid(c, now)
    ensures c.notBefore.Some? ==> (NotYetValid(c, now) <==> NumericDate(now) < c.notBefore.value)
  {
    c.notBefore.Some? && now < c.notBefore.value * Second
  }

  /**
   * ValidateToken: jwt.Parse with a key callback that refuses every
   * non-HMAC method and otherwise supplies the secret key. Errors are
   * returned as they are.
   */
  function ValidateToken(s: JwtService, signer: Signer, tokenString: string, now: int): (r: Result<Token, JwtError>)
    ensures r.Ok? ==> r.value.valid && r.value.raw == tokenString
    ensures r.Ok? <==>
      && signer.decode(tokenString).Some?
      && IsHmac(signer.decode(tokenString).value.alg)
      && signer.verify(tokenString, s.secretKey)
      && !Expired(signer.decode(tokenString).value.claims, now)
      && !NotYetValid(signer.decode(tokenString).value.claims, now)
    ensures r.Ok? ==> signer.decode(tokenString) == Some(Jws(r.value.alg, r.value.claims))
  {
    match signer.decode(tokenString)
    case None => Err(TokenMalformed)
    case Some(jws) =>
      if jws.alg == Unregistered then Err(TokenUnverifiable)
      else if !IsHmac(jws.alg) then Err(KeyFuncRejected)
      else if !signer.verify(tokenString, s.secretKey) then Err(TokenSignatureInvalid)
      else if Expired(jws.claims, now) || NotYetValid(jws.claims, now) then
        Err(TokenInvalidClaims(Expired(jws.claims, now), NotYetValid(jws.claims, now)))
      else Ok(Token(tokenString, jws.alg, jws.claims, true))
  }

  /** The instant, in nanoseconds, from which a token with these claims is expired. */
  function ExpiryInstant(s: JwtService, now: int): int {
    NumericDate(now + s.expiry) * Second
  }

  /** GenerateToken returns "" exactly when signing fails. */
  lemma GenerateEmptyIffSigningFails(s: JwtService, signer: Signer, username: string, isAdmin: bool, now: int)
    requires SoundSigner(signer)
    ensures GenerateToken(s, signer, username, isAdmin, now) == ""
        <==> signer.sign(Jws(HS256, IssuedClaims(s, username, isAdmin, now)), s.secretKey).None?
  {
  }

  /**
   * Validating a freshly issued token under the same service before it
   * expires gives back the claims it was issued with: the same username and
   * role flag, the service's issuer, no iat.
   */
  lemma ValidateGenerated(s: JwtService, signer: Signer, username: string, isAdmin: bool, issuedAt: int, now: int)
    requires SoundSigner(signer)
    requires GenerateToken(s, signer, username, isAdmin, issuedAt) != ""
    requires now < ExpiryInstant(s, issuedAt)
    ensures ValidateToken(s, signer, GenerateToken(s, signer, username, isAdmin, issuedAt), now)
         == Ok(Token(GenerateToken(s, signer, username, isAdmin, issuedAt), HS256, IssuedClaims(s, username, isAdmin, issuedAt), true))
    ensures IssuedClaims(s, username, isAdmin, issuedAt).username == username
    ensures IssuedClaims(s, username, isAdmin, issuedAt).isAdmin == isAdmin
  {
    var j := Jws(HS256, IssuedClaims(s, username, isAdmin, issuedAt));
    assert signer.sign(j, s.secretKey).Some?;
  }

  /** A freshly issued token presented at or after its expiry instant fails the time check. */
  lemma ExpiredGeneratedRejected(s: JwtService, signer: Signer, username: string, isAdmin: bool, issuedAt: int, now: int)
    requires SoundSigner(signer)
    requires GenerateToken(s, signer, username, isAdmin, issuedAt) != ""
    requires now >= ExpiryInstant(s, issuedAt)
    ensures ValidateToken(s, signer, GenerateToken(s, signer, username, isAdmin, issuedAt), now)
         == Err(TokenInvalidClaims(true, false))
  {
    var j := Jws(HS256, IssuedClaims(s, username, isAdmin, issuedAt));
    assert signer.sign(j, s.secretKey).Some?;
  }

  /** A token issued under another secret key fails signature verification. */
  lemma OtherKeyRejected(s: JwtService, other: JwtService, signer: Signer, username: string, isAdmin: bool, issuedAt: int, now: int)
    requires SoundSigner(signer) && KeyBound(signer)
    requires other.secretKey != s.secretKey && NulFree(s.secretKey) && NulFree(other.secretKey)
    requires GenerateToken(other, signer, username, isAdmin, issuedAt) != ""
    ensures ValidateToken(s, signer, GenerateToken(other, signer, username, isAdmin, issuedAt), now)
         == Err(TokenSignatureInvalid)
  {
    var j := Jws(HS256, IssuedClaims(other, username, isAdmin, issuedAt));
    assert signer.sign(j, other.secretKey).Some?;
  }

  /** A token whose header names a registered non-HMAC method is refused by the key callback. */
  lemma NonHmacRejected(s: JwtService, signer: Signer, tokenString: string, now: int)
    requires signer.decode(tokenString).Some?
    requires signer.decode(tokenString).value.alg != Unregistered
    requires !IsHmac(signer.decode(tokenString).value.alg)
    ensures ValidateToken(s, signer, tokenString, now) == Err(KeyFuncRejected)
  {
  }

  /** Every token that validates was signed under the service's key, with the claims it carries. */
  lemma AcceptedTokensWereSigned(s: JwtService, signer: Signer, tokenString: string, now: int)
    requires SoundSigner(signer) && Unforgeable(signer)
    requires ValidateToken(s, signer, tokenString, now).Ok?
    ensures exists j :: (signer.sign(j, s.secretKey) == Some(tokenString)
                         && j.claims == ValidateToken(s, signer, tokenString, now).value.claims)
  {
    assert signer.verify(tokenString, s.secretKey);
    var j :| signer.sign(j, s.secretKey) == Some(tokenString);
    assert signer.decode(tokenString) == Some(j);
  }

  /** A signer meeting all three predicates exists, so the lemmas above are not vacuous. */
  lemma SignerModelsExist()
    ensures exists signer :: (SoundSigner(signer) && Unforgeable(signer) && KeyBound(signer)
                              && signer.sign(Jws(HS256, Claims("admin", true, DefaultIssuer, Some(0), None, None)), DefaultSecretKey).Some?)
  {
    var j0 := Jws(HS256, Claims("admin", true, DefaultIssuer, Some(0), None, None));
    var signer := Signer(
      (j: Jws, key: string) => if j == j0 && key == DefaultSecretKey then Some("t") else None,
      (t: string) => if t == "t" then Some(j0) else None,
      (t: string, key: string) => t == "t" && key == DefaultSecretKey);
    assert signer.sign(j0, DefaultSecretKey) == Some("t");
    assert Unforgeable(signer) by {
      forall token, key | signer.verify(token, key) ensures exists j :: signer.sign(j, key) == Some(token) {
        assert signer.sign(j0, key) == Some(token);
      }
    }
    assert SoundSigner(signer);
    assert KeyBound(signer);
  }
}
