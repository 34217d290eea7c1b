/**
 * `AuthServiceImpl`: registration and login.
 *
 * The password encoder and Spring's authentication manager are collaborators
 * whose code is not part of this model; they are passed in as functions.
 * `encode` is `PasswordEncoder.encode`. `authenticates(u, p)` holds when
 * `AuthenticationManager.authenticate` accepts the pair instead of throwing.
 * The clock reading and the encryptor's random salt are parameters too.
 */
module AuthService {
  import opened Domain
  import opened JavaText
  import opened Store
  import opened Jwt

  datatype RegisterRequest = RegisterRequest(username: string, password: string, email: Option<string>, role: Option<string>)

  datatype AuthRequest = AuthRequest(username: string, password: string)

  datatype AuthResponse = AuthResponse(token: OpaqueToken, id: nat, username: string, role: string, email: Option<string>)

  /** ADMIN when the hint equals "ADMIN" ignoring case, USER for anything else, null included. */
  function ResolveRole(hint: Option<string>): (r: Role)
    ensures r == ADMIN <==> EqualsIgnoreCase("ADMIN", hint)
  {
    if EqualsIgnoreCase("ADMIN", hint) then ADMIN else USER
  }

  /** On ASCII hints the role is ADMIN exactly when the upper-cased hint is "ADMIN". */
  lemma ResolveRoleAscii(hint: string)
    requires Ascii(hint)
    ensures ResolveRole(Some(hint)) == ADMIN <==> AsciiUpper(hint) == "ADMIN"
  {
    EqualsIgnoreCaseOnAscii("ADMIN", hint);
  }

  /**
   * The hints the tests register with ("ADMIN" in AuthServiceImplTest, "user"
   * there and "USER" in AuthServiceImplIntegrationTest), and a few more.
   */
  lemma ResolveRoleExamples()
    ensures ResolveRole(Some("ADMIN")) == ADMIN
    ensures ResolveRole(Some("admin")) == ADMIN
    ensures ResolveRole(Some("AdMiN")) == ADMIN
    ensures ResolveRole(Some("user")) == USER
    ensures ResolveRole(Some("USER")) == USER
    ensures ResolveRole(Some("ADMINS")) == USER
    ensures ResolveRole(Some("")) == USER
    ensures ResolveRole(None) == USER
  {
    assert !FoldsTo('u', 'A');
    assert !FoldsTo('U', 'A');
  }

  /** The response built from a saved user and a freshly minted token. */
  function Respond(svc: JwtService, user: Account, now: nat, salt: nat): (r: AuthResponse)
    ensures DecryptToken(svc, r.token) == Ok(Sign(svc.key, IssuedClaims(user, now)))
    ensures r.id == user.id && r.username == user.username && r.role == RoleName(user.role) && r.email == user.email
  {
    AuthResponse(GenerateToken(svc, user, now, salt), user.id, user.username, RoleName(user.role), user.email)
  }

  /**
   * `register`: encode the password, resolve the role, save the user, then
   * mint a token for it. There is no duplicate check before the save; only
   * the user table's unique constraints can reject the request.
   */
  method Register(db: Database, svc: JwtService, encode: string -> string, req: RegisterRequest, now: nat, salt: nat)
    returns (r: Result<AuthResponse>)
    requires db.Valid()
    modifies db
    ensures db.Valid()
    ensures r.Ok? <==> (UserByName(old(db.users), req.username).None?
                        && (req.email.Some? ==> forall u :: u in old(db.users) ==> u.email != req.email))
    ensures r.Ok? ==>
      var saved := Account(old(db.nextUserId), req.username, encode(req.password), ResolveRole(req.role), req.email);
      && db.users == old(db.users) + [saved]
      && r.value == Respond(svc, saved, now, salt)
    ensures r.Err? ==> r.error == ConstraintViolation && db.users == old(db.users)
    ensures db.expenses == old(db.expenses) && db.incomes == old(db.incomes) && db.limits == old(db.limits)
  {
    var role := ResolveRole(req.role);
    var saved := db.SaveNewUser(req.username, encode(req.password), role, req.email);
    if saved.Err? {
      return Err(saved.error);
    }
    r := Ok(Respond(svc, saved.value, now, salt));
  }

  /**
   * `login`: look the user up, let the authentication manager check the
   * password, and only then mint a token. An unknown username fails before
   * the password is looked at.
   */
  method Login(db: Database, svc: JwtService, authenticates: (string, string) -> bool, req: AuthRequest, now: nat, salt: nat)
    returns (r: Result<AuthResponse>)
    ensures UserByName(db.users, req.username).None? ==> r == Err(UserNotFound)
    ensures (UserByName(db.users, req.username).Some? && !authenticates(req.username, req.password))
            ==> r == Err(BadCredentials)
    ensures r.Ok? <==> UserByName(db.users, req.username).Some? && authenticates(req.username, req.password)
    ensures r.Ok? ==> r.value == Respond(svc, UserByName(db.users, req.username).value, now, salt)
  {
    var found := UserByName(db.users, req.username);
    if found.None? {
      return Err(UserNotFound);
    }
    var user := found.value;
    if !authenticates(req.username, req.password) {
      return Err(BadCredentials);
    }
    var token := GenerateToken(svc, user, now, salt);
    r := Ok(AuthResponse(token, user.id, user.username, RoleName(user.role), user.email));
  }

  /** Two logins with different salts return different tokens that carry the same claims. */
  lemma LoginMintsFreshTokens(svc: JwtService, user: Account, now: nat, salt1: nat, salt2: nat)
    requires salt1 != salt2
    ensures Respond(svc, user, now, salt1).token != Respond(svc, user, now, salt2).token
    ensures DecryptToken(svc, Respond(svc, user, now, salt1).token) == DecryptToken(svc, Respond(svc, user, now, salt2).token)
  {
    FreshCiphertexts(svc, user, now, salt1, salt2);
  }

  /**
   * Registration then validation: the token returned by a successful
   * registration decrypts to a token that is valid for the new username up
   * to and including its stored expiry, whose role claim is the resolved
   * role, and which the parser rejects as expired after that instant.
   */
  lemma RegisteredTokenValid(svc: JwtService, saved: Account, now: nat, salt: nat, at: int)
    ensures var t := DecryptToken(svc, Respond(svc, saved, now, salt).token).value;
            && IsTokenValid(svc, t, saved.username, at) == (if at <= IssuedExpiry(now) then Ok(true) else Err(Expired))
            && (at <= IssuedExpiry(now) ==> ExtractClaims(svc, t, at).value.role == RoleName(saved.role))
  {
    IssuedTokenValidity(svc, saved, now, salt, at);
  }
}
