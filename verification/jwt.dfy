/**
 * Token issuance and validation (`JwtService`, `EncryptorService`).
 *
 * The cryptography is ideal and symbolic. An HS256 signature is the value
 * `Hs256(key, claims)`: only a holder of the key can build it, and it verifies
 * under that key alone. A ciphertext records the password, the random salt
 * and the plaintext, and it opens only under that password. Under these
 * assumptions, "parse inverts sign" and "decrypt inverts encrypt" are
 * theorems of the model.
 *
 * Times are epoch milliseconds (`java.util.Date`). The token stores `iat` and
 * `exp` as whole seconds (the NumericDate of RFC 7519, section 2), and parsing
 * gives back `seconds * 1000`. Every operation that reads the clock takes the
 * reading `now` as a parameter; one call of `isTokenValid` uses one reading.
 */
module Jwt {
  import opened Domain

  /** 1000 * 60 * 60 * 10: ten hours, in milliseconds. */
  const TokenLifetimeMillis: nat := 1000 * 60 * 60 * 10

  /** HS256 needs a key of at least 256 bits (section 3.2 of RFC 7518). */
  const MinKeyBytes: nat := 32

  /** The claim set: `sub`, the private `role` claim, `iat` and `exp` (seconds). */
  datatype Claims = Claims(sub: string, role: string, iat: int, exp: int)

  datatype SigningKey = SigningKey(secret: seq<bv8>)

  datatype Signature = Hs256(key: SigningKey, signed: Claims)

  /** The decrypted token: a compact signed token, or text that is not one. */
  datatype SignedToken = Jws(claims: Claims, signature: Signature) | Malformed(text: string)

  /** The opaque string handed to clients. */
  datatype OpaqueToken = Ciphertext(password: string, salt: nat, plaintext: SignedToken)

  /** The service's two secrets, fixed at construction. */
  datatype JwtService = JwtService(key: SigningKey, encryptorPassword: string)

  // ---------------------------------------------------------------------
  // Primitives

  /** `Jwts.builder()...signWith(key, HS256).compact()` */
  function Sign(key: SigningKey, c: Claims): (t: SignedToken)
    ensures t.Jws? && t.claims == c && Verifies(key, t)
    ensures forall other :: Verifies(other, t) ==> other == key
  {
    Jws(c, Hs256(key, c))
  }

  /** `t` is a compact token whose signature was made with `key` over its own claims. */
  predicate Verifies(key: SigningKey, t: SignedToken)
  {
    t.Jws? && t.signature == Hs256(key, t.claims)
  }

  /**
   * `Jwts.parserBuilder().setSigningKey(key).build().parseClaimsJws(t).getBody()`
   * at time `now`. The parser checks the signature first and the `exp` claim
   * after it: with no clock skew configured, a token whose expiry is before
   * `now` raises ExpiredJwtException.
   */
  function Parse(key: SigningKey, t: SignedToken, now: int): (r: Result<Claims>)
    ensures r.Ok? <==> Verifies(key, t) && now <= t.claims.exp * 1000
    ensures r.Ok? ==> r.value == t.claims && t == Sign(key, r.value)
    ensures r.Err? ==> r.error == (if t.Malformed? then MalformedToken
                                   else if !Verifies(key, t) then SignatureInvalid
                                   else Expired)
  {
    match t
    case Malformed(_) => Err(MalformedToken)
    case Jws(c, s) =>
      if s != Hs256(key, c) then Err(SignatureInvalid)
      else if c.exp * 1000 < now then Err(Expired)
      else Ok(c)
  }

  /** `AES256TextEncryptor.encrypt`: a fresh random salt on every call. */
  function Encrypt(password: string, salt: nat, plain: SignedToken): (t: OpaqueToken)
    ensures Decrypt(password, t) == Ok(plain)
    ensures forall other :: Decrypt(other, t).Ok? ==> other == password
  {
    Ciphertext(password, salt, plain)
  }

  /** `AES256TextEncryptor.decrypt` */
  function Decrypt(password: string, t: OpaqueToken): (r: Result<SignedToken>)
    ensures r.Ok? <==> t.password == password
    ensures r.Ok? ==> r.value == t.plaintext
    ensures r.Err? ==> r.error == DecryptionFailed
  {
    if t.password == password then Ok(t.plaintext) else Err(DecryptionFailed)
  }

  /** A token parsed before its expiry gives back the signed claims; after it, the parser fails. */
  lemma SignParseRoundTrip(key: SigningKey, c: Claims, now: int)
    ensures Parse(key, Sign(key, c), now) == if c.exp * 1000 < now then Err(Expired) else Ok(c)
  {
  }

  /** A token signed under one key does not verify under another, at any time. */
  lemma ParseRejectsOtherKey(key: SigningKey, other: SigningKey, c: Claims, now: int)
    requires key != other
    ensures Parse(other, Sign(key, c), now) == Err(SignatureInvalid)
  {
  }

  lemma EncryptDecryptRoundTrip(password: string, salt: nat, plain: SignedToken)
    ensures Decrypt(password, Encrypt(password, salt, plain)) == Ok(plain)
  {
  }

  // ---------------------------------------------------------------------
  // JwtService

  /** The constructor: `Keys.hmacShaKeyFor(secret.getBytes())` refuses a weak key. */
  function NewJwtService(secret: seq<bv8>, encryptorPassword: string): (r: Result<JwtService>)
    ensures r.Ok? <==> |secret| >= MinKeyBytes
    ensures r.Ok? ==> r.value.key.secret == secret && r.value.encryptorPassword == encryptorPassword
    ensures r.Err? ==> r.error == WeakKey
  {
    if |secret| < MinKeyBytes then Err(WeakKey)
    else Ok(JwtService(SigningKey(secret), encryptorPassword))
  }

  /** The claims of a token issued at `now` (epoch ms) for `user`. */
  function IssuedClaims(user: Account, now: nat): Claims
  {
    Claims(user.username, RoleName(user.role), now / 1000, (now + TokenLifetimeMillis) / 1000)
  }

  /**
   * `generateToken`: sign the claims, then encrypt the compact token. Read
   * back at the instant of issue, the token names the user and the user's role.
   */
  function GenerateToken(svc: JwtService, user: Account, now: nat, salt: nat): (t: OpaqueToken)
    ensures DecryptToken(svc, t) == Ok(Sign(svc.key, IssuedClaims(user, now)))
    ensures ExtractUsername(svc, Sign(svc.key, IssuedClaims(user, now)), now) == Ok(user.username)
    ensures ExtractClaims(svc, Sign(svc.key, IssuedClaims(user, now)), now).Ok?
    ensures ExtractClaims(svc, Sign(svc.key, IssuedClaims(user, now)), now).value.role == RoleName(user.role)
  {
    IssuedLifetime(user, now);
    Encrypt(svc.encryptorPassword, salt, Sign(svc.key, IssuedClaims(user, now)))
  }

  /** `decryptToken`: opens exactly the tokens encrypted under the service's password. */
  function DecryptToken(svc: JwtService, t: OpaqueToken): (r: Result<SignedToken>)
    ensures r.Ok? <==> t.password == svc.encryptorPassword
    ensures r.Ok? ==> r.value == t.plaintext
    ensures r.Err? ==> r.error == DecryptionFailed
  {
    Decrypt(svc.encryptorPassword, t)
  }

  /** `extractClaims`: the token's own claims, once it verifies under the service's key and has not expired. */
  function ExtractClaims(svc: JwtService, t: SignedToken, now: int): (r: Result<Claims>)
    ensures r.Ok? <==> Verifies(svc.key, t) && now <= t.claims.exp * 1000
    ensures r.Ok? ==> r.value == t.claims
    ensures r.Err? ==> r.error == (if t.Malformed? then MalformedToken
                                   else if !Verifies(svc.key, t) then SignatureInvalid
                                   else Expired)
  {
    Parse(svc.key, t, now)
  }

  /** `extractUsername` */
  function ExtractUsername(svc: JwtService, t: SignedToken, now: int): (r: Result<string>)
    ensures r.Ok? <==> ExtractClaims(svc, t, now).Ok?
    ensures r.Err? ==> r.error == ExtractClaims(svc, t, now).error
    ensures r.Ok? ==> r.value == t.claims.sub
  {
    match ExtractClaims(svc, t, now)
    case Err(e) => Err(e)
    case Ok(c) => Ok(c.sub)
  }

  /** `extractExpiration`, in milliseconds. */
  function ExtractExpiration(svc: JwtService, t: SignedToken, now: int): (r: Result<int>)
    ensures r.Ok? <==> ExtractClaims(svc, t, now).Ok?
    ensures r.Err? ==> r.error == ExtractClaims(svc, t, now).error
    ensures r.Ok? ==> r.value == t.claims.exp * 1000 && now <= r.value
  {
    match ExtractClaims(svc, t, now)
    case Err(e) => Err(e)
    case Ok(c) => Ok(c.exp * 1000)
  }

  /**
   * `isTokenExpired`: `exp.before(now)`. The expiry is only read through the
   * parser, which has already rejected every token whose expiry is before
   * `now`; so the answer, when there is one, is false, and an expired token
   * surfaces as the parser's Expired failure instead.
   */
  function IsTokenExpired(svc: JwtService, t: SignedToken, now: int): (r: Result<bool>)
    ensures r.Ok? <==> ExtractClaims(svc, t, now).Ok?
    ensures r.Err? ==> r.error == ExtractClaims(svc, t, now).error
    ensures r.Ok? ==> !r.value
  {
    match ExtractExpiration(svc, t, now)
    case Err(e) => Err(e)
    case Ok(exp) => Ok(exp < now)
  }

  /**
   * `isTokenValid`: the subject must be the expected username and the token
   * not expired. An unverifiable or expired token makes the parser fail
   * before either test is reached.
   */
  function IsTokenValid(svc: JwtService, t: SignedToken, username: string, now: int): (r: Result<bool>)
    ensures r.Err? <==> ExtractClaims(svc, t, now).Err?
    ensures r.Err? ==> r.error == ExtractClaims(svc, t, now).error
    ensures r.Ok? ==> (r.value <==> t.claims.sub == username)
    ensures r == Ok(true) ==> now <= t.claims.exp * 1000
                              && t == Sign(svc.key, Claims(username, t.claims.role, t.claims.iat, t.claims.exp))
  {
    match ExtractUsername(svc, t, now)
    case Err(e) => Err(e)
    case Ok(name) =>
      if name != username then Ok(false)
      else
        match IsTokenExpired(svc, t, now)
        case Err(e) => Err(e)
        case Ok(expired) => Ok(!expired)
  }

  // ---------------------------------------------------------------------
  // Properties of issued tokens

  /** Expiry is issue time plus exactly ten hours, both counted in whole seconds. */
  lemma IssuedLifetime(user: Account, now: nat)
    ensures IssuedClaims(user, now).exp - IssuedClaims(user, now).iat == TokenLifetimeMillis / 1000
    ensures now + TokenLifetimeMillis - 999 <= IssuedClaims(user, now).exp * 1000 <= now + TokenLifetimeMillis
    ensures IssuedClaims(user, now).exp * 1000 == (now / 1000) * 1000 + TokenLifetimeMillis
  {
    var q := now / 1000;
    var r := now % 1000;
    assert now == 1000 * q + r;
    assert now + TokenLifetimeMillis == 1000 * (q + 36000) + r;
    assert (now + TokenLifetimeMillis) / 1000 == q + 36000;
  }

  /**
   * The last instant, in milliseconds, at which a token issued at `now` is
   * still accepted: its stored `exp`, in milliseconds.
   */
  function IssuedExpiry(now: nat): (e: int)
    ensures now + TokenLifetimeMillis - 999 <= e <= now + TokenLifetimeMillis
  {
    (now / 1000) * 1000 + TokenLifetimeMillis
  }

  /**
   * An issued token, once decrypted, is valid for its own user at time `at`
   * exactly when `at` is at most its expiry, the issue instant rounded down
   * to the second plus ten hours. Checked at exactly the expiry it is still
   * valid; after it, the parser rejects it as expired.
   */
  lemma IssuedTokenValidity(svc: JwtService, user: Account, now: nat, salt: nat, at: int)
    ensures var t := DecryptToken(svc, GenerateToken(svc, user, now, salt)).value;
            IsTokenValid(svc, t, user.username, at) == if at <= IssuedExpiry(now) then Ok(true) else Err(Expired)
  {
    IssuedLifetime(user, now);
  }

  /**
   * Ten hours less one second after issue the token is valid and not expired;
   * one millisecond past ten hours both checks fail with the parser's Expired.
   */
  lemma ExpiryWindow(svc: JwtService, user: Account, now: nat, salt: nat)
    ensures var t := DecryptToken(svc, GenerateToken(svc, user, now, salt)).value;
            && IsTokenValid(svc, t, user.username, now + TokenLifetimeMillis - 1000) == Ok(true)
            && IsTokenExpired(svc, t, now + TokenLifetimeMillis - 1000) == Ok(false)
            && IsTokenExpired(svc, t, now + TokenLifetimeMillis + 1) == Err(Expired)
            && IsTokenValid(svc, t, user.username, now + TokenLifetimeMillis + 1) == Err(Expired)
  {
    IssuedLifetime(user, now);
    IssuedTokenValidity(svc, user, now, salt, now + TokenLifetimeMillis - 1000);
    IssuedTokenValidity(svc, user, now, salt, now + TokenLifetimeMillis + 1);
  }

  /** A readable token whose subject is not the expected user is never valid. */
  lemma WrongSubjectNeverValid(svc: JwtService, t: SignedToken, username: string, now: int)
    requires ExtractUsername(svc, t, now).Ok? && ExtractUsername(svc, t, now).value != username
    ensures IsTokenValid(svc, t, username, now) == Ok(false)
  {
  }

  /**
   * An instance of WrongSubjectNeverValid: a token issued to "alice" and
   * checked as "bob" is rejected until its expiry, and the parser fails after it.
   */
  lemma AliceIsNotBob(svc: JwtService, alice: Account, now: nat, salt: nat, at: int)
    requires alice.username == "alice"
    ensures var t := DecryptToken(svc, GenerateToken(svc, alice, now, salt)).value;
            IsTokenValid(svc, t, "bob", at) == if at <= IssuedExpiry(now) then Ok(false) else Err(Expired)
  {
    IssuedLifetime(alice, now);
  }

  /** A token that does not verify under the key never passes validation. */
  lemma UnverifiableNeverValid(svc: JwtService, t: SignedToken, username: string, now: int)
    requires !Verifies(svc.key, t)
    ensures IsTokenValid(svc, t, username, now).Err?
  {
  }

  /** Two encryptions of the same token differ when their salts differ, yet decrypt alike. */
  lemma FreshCiphertexts(svc: JwtService, user: Account, now: nat, salt1: nat, salt2: nat)
    requires salt1 != salt2
    ensures GenerateToken(svc, user, now, salt1) != GenerateToken(svc, user, now, salt2)
    ensures DecryptToken(svc, GenerateToken(svc, user, now, salt1)) == DecryptToken(svc, GenerateToken(svc, user, now, salt2))
  {
  }
}
