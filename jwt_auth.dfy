/**
 * middleware/jwt-auth.go: the bearer-token gate in front of the /api routes
 * (bearer tokens in the Authorization header, section 2.1 of RFC 6750).
 *
 * The accept/reject decision is a function, `Decide`; the handler itself is a
 * method over a request `Context` that records what Gin's context would
 * hold: the request headers, the keys set with c.Set, the response written
 * by AbortWithStatusJSON, whether the chain was aborted and whether c.Next
 * ran the rest of it.
 */
module JwtAuth {
  import opened Wrappers
  import opened JwtServices

  const BearerSchema := "Bearer "
  const MissingHeader := "Authorization header is missing"
  const InvalidToken := "Invalid or expired token"
  const Unauthorized := 401

  /** A value stored in the request context; `Nil` is a claim the token does not carry. */
  datatype Value = Nil | Str(s: string) | Flag(b: bool) | Number(n: int)

  /** The outcome for one request; `Panicked` is the out-of-range slice of a short header. */
  datatype Decision = Reject(message: string) | Accept(claims: Claims) | Panicked

  /**
   * The decision: no header is refused; otherwise the first seven characters
   * are dropped without looking at them, and the rest is validated by a
   * service built afresh from the environment.
   */
  function Decide(authHeader: string, env: Env, parseDuration: string -> Option<int>, signer: Signer, now: int): (d: Decision)
    ensures d == Reject(MissingHeader) <==> authHeader == ""
    ensures d.Panicked? <==> 0 < |authHeader| < |BearerSchema|
    ensures d == Reject(InvalidToken) <==>
      |authHeader| >= |BearerSchema| && ValidateToken(NewJwtService(env, parseDuration), signer, authHeader[|BearerSchema|..], now).Err?
    ensures |authHeader| >= |BearerSchema| && ValidateToken(NewJwtService(env, parseDuration), signer, authHeader[|BearerSchema|..], now).Ok? ==>
      d == Accept(ValidateToken(NewJwtService(env, parseDuration), signer, authHeader[|BearerSchema|..], now).value.claims)
    ensures d.Accept? ==>
      && |authHeader| >= |BearerSchema|
      && ValidateToken(NewJwtService(env, parseDuration), signer, authHeader[|BearerSchema|..], now).Ok?
      && d.claims == ValidateToken(NewJwtService(env, parseDuration), signer, authHeader[|BearerSchema|..], now).value.claims
  {
    if authHeader == "" then Reject(MissingHeader)
    else if |authHeader| < |BearerSchema| then Panicked
    else
      match ValidateToken(NewJwtService(env, parseDuration), signer, authHeader[|BearerSchema|..], now)
      case Err(_) => Reject(InvalidToken)
      case Ok(token) => if !token.valid then Reject(InvalidToken) else Accept(token.claims)
  }

  /** A claim read from jwt.MapClaims: absent optional claims read as nil. */
  function NumberOrNil(n: Option<int>): Value {
    match n
    case None => Nil
    case Some(v) => Number(v)
  }

  /** The context keys after the gate has stored the claims of an accepted token. */
  function WithIdentity(keys: map<string, Value>, c: Claims): (m: map<string, Value>)
    ensures m.Keys == keys.Keys + {"username", "is_admin", "issuer", "expires_at", "issued_at"}
  {
    keys["username" := Str(c.username)]
        ["is_admin" := Flag(c.isAdmin)]
        ["issuer" := if c.issuer == "" then Nil else Str(c.issuer)]
        ["expires_at" := NumberOrNil(c.expiresAt)]
        ["issued_at" := NumberOrNil(c.issuedAt)]
  }

  /**
   * The gate adds exactly the five claim keys, each holding its claim, and
   * leaves every other key as it was.
   */
  lemma IdentityKeys(keys: map<string, Value>, c: Claims)
    ensures WithIdentity(keys, c).Keys == keys.Keys + {"username", "is_admin", "issuer", "expires_at", "issued_at"}
    ensures WithIdentity(keys, c)["username"] == Str(c.username)
    ensures WithIdentity(keys, c)["is_admin"] == Flag(c.isAdmin)
    ensures WithIdentity(keys, c)["issuer"] == Nil <==> c.issuer == ""
    ensures c.issuer != "" ==> WithIdentity(keys, c)["issuer"] == Str(c.issuer)
    ensures WithIdentity(keys, c)["expires_at"] == NumberOrNil(c.expiresAt)
    ensures WithIdentity(keys, c)["issued_at"] == NumberOrNil(c.issuedAt)
    ensures forall k :: k in keys && k !in {"username", "is_admin", "issuer", "expires_at", "issued_at"} ==> WithIdentity(keys, c)[k] == keys[k]
  {
  }

  /** The parts of a Gin request context the gate reads and writes. */
  class Context {
    var headers: map<string, string>
    var keys: map<string, Value>
    var response: Option<(int, string)>
    var aborted: bool
    var nextCalled: bool

    constructor (headers: map<string, string>)
      ensures this.headers == headers && keys == map[] && response == None
      ensures !aborted && !nextCalled
    {
      this.headers := headers;
      keys := map[];
      response := None;
      aborted := false;
      nextCalled := false;
    }

    /** c.GetHeader: "" for a header the request does not have. */
    function GetHeader(name: string): (value: string)
      reads this
      ensures name in headers ==> value == headers[name]
      ensures name !in headers ==> value == ""
    {
      if name in headers then headers[name] else ""
    }

    /** c.Set: stores one key. */
    method Set(key: string, v: Value)
      modifies this
      ensures keys == old(keys)[key := v]
      ensures headers == old(headers) && response == old(response)
      ensures aborted == old(aborted) && nextCalled == old(nextCalled)
    {
      keys := keys[key := v];
    }

    /** c.AbortWithStatusJSON: writes the error body and stops the chain. */
    method AbortWithStatusJson(status: int, message: string)
      modifies this
      ensures response == Some((status, message)) && aborted
      ensures headers == old(headers) && keys == old(keys) && nextCalled == old(nextCalled)
    {
      response := Some((status, message));
      aborted := true;
    }

    /** c.Next: runs the rest of the handler chain. */
    method Next()
      modifies this
      ensures nextCalled
      ensures headers == old(headers) && keys == old(keys)
      ensures response == old(response) && aborted == old(aborted)
    {
      nextCalled := true;
    }
  }

  /**
   * JWTAuthMiddleware's handler. The injected service is not used: validation
   * goes through a service built from `env`. When the header is shorter than
   * the scheme the slice panics; the handler then returns `panicked` with the
   * context untouched (gin.Recovery turns the panic into a 500).
   */
  method JwtAuthMiddleware(injected: JwtService, c: Context, env: Env, parseDuration: string -> Option<int>, signer: Signer, now: int)
    returns (panicked: bool)
    modifies c
    ensures c.headers == old(c.headers)
    ensures var d := Decide(old(c.GetHeader("Authorization")), env, parseDuration, signer, now);
      match d
      case Reject(message) =>
        && !panicked && c.response == Some((Unauthorized, message)) && c.aborted
        && c.keys == old(c.keys) && c.nextCalled == old(c.nextCalled)
      case Accept(claims) =>
        && !panicked && c.keys == WithIdentity(old(c.keys), claims) && c.nextCalled
        && c.response == old(c.response) && c.aborted == old(c.aborted)
      case Panicked =>
        && panicked && c.keys == old(c.keys) && c.response == old(c.response)
        && c.aborted == old(c.aborted) && c.nextCalled == old(c.nextCalled)
  {
    panicked := false;
    var authHeader := c.GetHeader("Authorization");
    if authHeader == "" {
      c.AbortWithStatusJson(Unauthorized, MissingHeader);
      return;
    }
    if |authHeader| < |BearerSchema| {
      panicked := true;
      return;
    }
    var tokenString := authHeader[|BearerSchema|..];
    var result := ValidateToken(NewJwtService(env, parseDuration), signer, tokenString, now);
    if result.Err? || !result.value.valid {
      c.AbortWithStatusJson(Unauthorized, InvalidToken);
      return;
    }
    SetIdentity(c, result.value.claims);
    c.Next();
  }

  /** The five c.Set calls the gate makes for an accepted token. */
  method SetIdentity(c: Context, claims: Claims)
    modifies c
    ensures c.keys == WithIdentity(old(c.keys), claims)
    ensures c.headers == old(c.headers) && c.response == old(c.response)
    ensures c.aborted == old(c.aborted) && c.nextCalled == old(c.nextCalled)
  {
    c.Set("username", Str(claims.username));
    c.Set("is_admin", Flag(claims.isAdmin));
    c.Set("issuer", if claims.issuer == "" then Nil else Str(claims.issuer));
    c.Set("expires_at", NumberOrNil(claims.expiresAt));
    c.Set("issued_at", NumberOrNil(claims.issuedAt));
  }

  /** A request without the header is refused before any token handling. */
  lemma MissingHeaderRejected(env: Env, parseDuration: string -> Option<int>, signer: Signer, now: int)
    ensures Decide("", env, parseDuration, signer, now) == Reject(MissingHeader)
  {
  }

  /** A non-empty header shorter than "Bearer " panics instead of being refused. */
  lemma ShortHeaderPanics(authHeader: string, env: Env, parseDuration: string -> Option<int>, signer: Signer, now: int)
    requires 0 < |authHeader| < 7
    ensures Decide(authHeader, env, parseDuration, signer, now) == Panicked
  {
  }

  /** The scheme is never checked: any seven characters in front of the token do as well as "Bearer ". */
  lemma SchemeIgnored(scheme: string, token: string, env: Env, parseDuration: string -> Option<int>, signer: Signer, now: int)
    requires |scheme| == 7
    ensures Decide(scheme + token, env, parseDuration, signer, now) == Decide(BearerSchema + token, env, parseDuration, signer, now)
  {
    assert (scheme + token)[7..] == token;
    assert (BearerSchema + token)[7..] == token;
  }

  /** Every failed validation is the same generic refusal. */
  lemma InvalidTokenRejected(authHeader: string, env: Env, parseDuration: string -> Option<int>, signer: Signer, now: int)
    requires |authHeader| >= 7
    requires ValidateToken(NewJwtService(env, parseDuration), signer, authHeader[7..], now).Err?
    ensures Decide(authHeader, env, parseDuration, signer, now) == Reject(InvalidToken)
  {
  }

  /**
   * A token the configured service issued, presented as "Bearer <token>"
   * before it expires, is accepted; the context then carries its username
   * and role flag, the service's issuer, and nil for issued_at.
   */
  lemma FreshTokenAccepted(env: Env, parseDuration: string -> Option<int>, signer: Signer,
                           username: string, isAdmin: bool, issuedAt: int, now: int)
    requires SoundSigner(signer)
    requires GenerateToken(NewJwtService(env, parseDuration), signer, username, isAdmin, issuedAt) != ""
    requires now < ExpiryInstant(NewJwtService(env, parseDuration), issuedAt)
    ensures Decide(BearerSchema + GenerateToken(NewJwtService(env, parseDuration), signer, username, isAdmin, issuedAt),
                   env, parseDuration, signer, now)
         == Accept(IssuedClaims(NewJwtService(env, parseDuration), username, isAdmin, issuedAt))
    ensures WithIdentity(map[], IssuedClaims(NewJwtService(env, parseDuration), username, isAdmin, issuedAt))["username"] == Str(username)
    ensures WithIdentity(map[], IssuedClaims(NewJwtService(env, parseDuration), username, isAdmin, issuedAt))["is_admin"] == Flag(isAdmin)
    ensures WithIdentity(map[], IssuedClaims(NewJwtService(env, parseDuration), username, isAdmin, issuedAt))["issuer"]
         == Str(NewJwtService(env, parseDuration).issuer)
    ensures WithIdentity(map[], IssuedClaims(NewJwtService(env, parseDuration), username, isAdmin, issuedAt))["issued_at"] == Nil
  {
    var s := NewJwtService(env, parseDuration);
    var token := GenerateToken(s, signer, username, isAdmin, issuedAt);
    ValidateGenerated(s, signer, username, isAdmin, issuedAt, now);
    assert (BearerSchema + token)[7..] == token;
  }

  /** The same token presented once it has expired is refused. */
  lemma ExpiredTokenRejected(env: Env, parseDuration: string -> Option<int>, signer: Signer,
                             username: string, isAdmin: bool, issuedAt: int, now: int)
    requires SoundSigner(signer)
    requires GenerateToken(NewJwtService(env, parseDuration), signer, username, isAdmin, issuedAt) != ""
    requires now >= ExpiryInstant(NewJwtService(env, parseDuration), issuedAt)
    ensures Decide(BearerSchema + GenerateToken(NewJwtService(env, parseDuration), signer, username, isAdmin, issuedAt),
                   env, parseDuration, signer, now)
         == Reject(InvalidToken)
  {
    var s := NewJwtService(env, parseDuration);
    var token := GenerateToken(s, signer, username, isAdmin, issuedAt);
    ExpiredGeneratedRejected(s, signer, username, isAdmin, issuedAt, now);
    assert (BearerSchema + token)[7..] == token;
  }
}
