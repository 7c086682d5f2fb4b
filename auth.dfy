/** The decision rules of the authentication service. Storage, password
    hashing and token signing are not modelled: a password comparison is a
    boolean input, a token check is a function from the token string to
    "invalid" or "valid with these claims", and a blacklist lookup is a
    function from the token string to its result. */
module Auth {
  import Os

  const UserRole: string := "user"
  const AdminRole: string := "admin"
  const TraderRole: string := "trader"
  const ViewerRole: string := "viewer"

  const BearerPrefix: string := "Bearer "

  /** Issuers that tell access tokens and refresh tokens apart. */
  const AccessIssuer: string := "quotopia-auth"
  const RefreshIssuer: string := "quotopia-auth-refresh"

  /** Token lifetimes in seconds: one hour and seven days. */
  const AccessLifetimeSeconds: int := 60 * 60
  const RefreshLifetimeSeconds: int := 24 * 7 * 60 * 60

  const PrivilegeError: string := "Admin privileges required to create admin or trader"

  /** What a handler or middleware does with a request: go on with a value,
      or stop with a status and an error message. */
  datatype Decision<T> = Allow(value: T) | Deny(status: int, error: string)

  datatype Claims = Claims(userId: int, email: string, role: string, issuer: string,
                           issuedAt: int, expiresAt: int)

  /** The outcome of parsing a token and checking its signature and expiry. */
  datatype Parsed = Invalid | Valid(claims: Claims)

  /** The outcome of the blacklist query for a token. */
  datatype BlacklistLookup = LookupFailed | Listed(blacklisted: bool)

  datatype User = User(id: int, email: string, role: string)

  // ---------------------------------------------------------------------
  // Configuration

  /** `getEnv`: the variable's value, or `defaultValue` when it is unset or
      empty. */
  function GetEnv(env: map<string, string>, key: string, defaultValue: string): (v: string)
    ensures v == defaultValue || (key in env && v == env[key] && v != "")
    ensures key in env && env[key] != "" ==> v == env[key]
  {
    var value := Os.Getenv(env, key);
    if value == "" then defaultValue else value
  }

  /** An unset variable yields the default, an empty one too, and a set one
      its value. */
  lemma GetEnvCases(env: map<string, string>, key: string, value: string, defaultValue: string)
    requires value != ""
    ensures GetEnv(env - {key}, key, defaultValue) == defaultValue
    ensures GetEnv(env[key := ""], key, defaultValue) == defaultValue
    ensures GetEnv(env[key := value], key, defaultValue) == value
  {
  }

  // ---------------------------------------------------------------------
  // Authorization header

  /** Remove a leading "Bearer " when something follows it; any other
      header, the bare "Bearer " included, is kept as it is. */
  function StripBearer(header: string): (token: string)
    ensures token == header || (header == BearerPrefix + token && token != "")
    ensures |header| > |BearerPrefix| && header[..|BearerPrefix|] == BearerPrefix ==> token != header
  {
    if |header| > 7 && header[..7] == BearerPrefix then header[7..] else header
  }

  /** The three shapes of header: prefixed token, bare prefix, no prefix. */
  lemma StripBearerCases(token: string, other: string)
    requires token != ""
    requires |other| < 7 || other[..7] != BearerPrefix
    ensures StripBearer(BearerPrefix + token) == token
    ensures StripBearer(BearerPrefix) == BearerPrefix
    ensures StripBearer(other) == other
  {
    assert (BearerPrefix + token)[..7] == BearerPrefix;
    assert (BearerPrefix + token)[7..] == token;
  }

  /** Only one prefix is removed. */
  lemma StripBearerOnce(token: string)
    requires token != ""
    ensures StripBearer(BearerPrefix + BearerPrefix + token) == BearerPrefix + token
  {
    assert (BearerPrefix + BearerPrefix + token)[..7] == BearerPrefix;
    assert (BearerPrefix + BearerPrefix + token)[7..] == BearerPrefix + token;
  }

  // ---------------------------------------------------------------------
  // Registration

  /** An empty requested role becomes "user". */
  function RoleOrDefault(role: string): (r: string)
    ensures r != ""
    ensures role == "" ==> r == UserRole
    ensures role != "" ==> r == role
  {
    if role == "" then UserRole else role
  }

  predicate Privileged(role: string)
  {
    role == AdminRole || role == TraderRole
  }

  /** The caller presented a valid token whose claims say "admin". */
  predicate CallerIsAdmin(authorization: string, parse: string -> Parsed)
  {
    && authorization != ""
    && parse(StripBearer(authorization)).Valid?
    && parse(StripBearer(authorization)).claims.role == AdminRole
  }

  /** The role check of `register`: creating an admin or a trader needs an
      admin's token; every failure of that check is the same 403. */
  function RegisterRole(requested: string, authorization: string, parse: string -> Parsed): (d: Decision<string>)
    ensures d.Allow? <==> !Privileged(RoleOrDefault(requested)) || CallerIsAdmin(authorization, parse)
    ensures d.Allow? ==> d.value == RoleOrDefault(requested)
    ensures d.Deny? ==> d == Deny(403, PrivilegeError)
  {
    var role := RoleOrDefault(requested);
    if role == AdminRole || role == TraderRole then
      if authorization == "" then Deny(403, PrivilegeError)
      else
        var parsed := parse(StripBearer(authorization));
        if parsed.Invalid? then Deny(403, PrivilegeError)
        else if parsed.claims.role != AdminRole then Deny(403, PrivilegeError)
        else Allow(role)
    else Allow(role)
  }

  /** The outcome of `register`'s query for an account with the same
      email. */
  datatype EmailLookup = EmailQueryFailed | EmailFound(taken: bool)

  /** The checks of `register` in their order: the email query (500 when it
      fails, 409 when the email is taken) and the password hashing (500)
      come before the role check. */
  function RegisterChecks(email: EmailLookup, hashed: bool, requested: string, authorization: string,
                          parse: string -> Parsed): (d: Decision<string>)
    ensures email == EmailQueryFailed ==> d == Deny(500, "Database error")
    ensures email == EmailFound(true) ==> d == Deny(409, "Email already registered")
    ensures email == EmailFound(false) && !hashed ==> d == Deny(500, "Failed to hash password")
    ensures d.Allow? <==> && email == EmailFound(false) && hashed
                          && (!Privileged(RoleOrDefault(requested)) || CallerIsAdmin(authorization, parse))
    ensures d.Allow? ==> d.value == RoleOrDefault(requested)
    ensures d.Deny? && d.status == 403 ==> email == EmailFound(false) && hashed && d.error == PrivilegeError
  {
    match email
    case EmailQueryFailed => Deny(500, "Database error")
    case EmailFound(taken) =>
      if taken then Deny(409, "Email already registered")
      else if !hashed then Deny(500, "Failed to hash password")
      else RegisterRole(requested, authorization, parse)
  }

  /** A registration with an email already in use is refused with 409
      before the role is looked at, so a non-admin asking for "admin" then
      sees 409 rather than 403. */
  lemma TakenEmailBeforePrivilege(hashed: bool, requested: string, authorization: string, parse: string -> Parsed)
    ensures RegisterChecks(EmailFound(true), hashed, requested, authorization, parse) == Deny(409, "Email already registered")
  {
  }

  /** Anyone may register with no role at all, and gets "user". */
  lemma RegisterWithoutRole(authorization: string, parse: string -> Parsed)
    ensures RegisterRole("", authorization, parse) == Allow("user")
  {
  }

  // ---------------------------------------------------------------------
  // Middleware

  /** `authMiddleware`: a header is required, a blacklisted token is
      refused, and the token must parse; the claims go into the context.
      A failed blacklist query does not refuse the token. */
  function AuthMiddleware(authorization: string, blacklist: string -> BlacklistLookup,
                          parse: string -> Parsed): (d: Decision<Claims>)
    ensures var token := StripBearer(authorization);
      d.Allow? <==> authorization != "" && blacklist(token) != Listed(true) && parse(token).Valid?
    ensures d.Allow? ==> d.value == parse(StripBearer(authorization)).claims
    ensures d.Deny? ==> d.status == 401
    ensures authorization == "" ==> d == Deny(401, "Authorization header required")
    ensures authorization != "" && blacklist(StripBearer(authorization)) == Listed(true) ==>
      d == Deny(401, "Token has been revoked")
    ensures (authorization != "" && blacklist(StripBearer(authorization)) != Listed(true)
             && parse(StripBearer(authorization)).Invalid?) ==> d == Deny(401, "Invalid token")
  {
    if authorization == "" then Deny(401, "Authorization header required")
    else
      var token := StripBearer(authorization);
      if blacklist(token) == Listed(true) then Deny(401, "Token has been revoked")
      else if parse(token).Invalid? then Deny(401, "Invalid token")
      else Allow(parse(token).claims)
  }

  /** `adminMiddleware`, over the role the context holds. */
  function AdminMiddleware(role: string): (d: Decision<()>)
    ensures d.Allow? <==> role == AdminRole
    ensures d.Deny? ==> d == Deny(403, "Admin access required")
  {
    if role != AdminRole then Deny(403, "Admin access required") else Allow(())
  }

  /** The admin routes run `authMiddleware` and then `adminMiddleware`. */
  function AdminRoute(authorization: string, blacklist: string -> BlacklistLookup,
                      parse: string -> Parsed): (d: Decision<Claims>)
  {
    match AuthMiddleware(authorization, blacklist, parse)
    case Deny(status, error) => Deny(status, error)
    case Allow(claims) =>
      match AdminMiddleware(claims.role)
      case Deny(status, error) => Deny(status, error)
      case Allow(_) => Allow(claims)
  }

  /** An admin route is reached exactly with a non-empty header, a token
      that is not blacklisted, that parses, and whose role is "admin";
      authentication failures are 401 and a non-admin role is 403. */
  lemma AdminRouteGate(authorization: string, blacklist: string -> BlacklistLookup, parse: string -> Parsed)
    ensures var token := StripBearer(authorization);
      var d := AdminRoute(authorization, blacklist, parse);
      && (d.Allow? <==> authorization != "" && blacklist(token) != Listed(true)
                        && parse(token).Valid? && parse(token).claims.role == AdminRole)
      && (d.Deny? ==> d.status == 401 || d == Deny(403, "Admin access required"))
  {
  }

  /** A failed blacklist query lets a revoked token through. */
  lemma BlacklistFailsOpen(authorization: string, blacklist: string -> BlacklistLookup, parse: string -> Parsed)
    requires authorization != ""
    requires blacklist(StripBearer(authorization)) == LookupFailed
    requires parse(StripBearer(authorization)).Valid?
    ensures AuthMiddleware(authorization, blacklist, parse).Allow?
  {
  }

  // ---------------------------------------------------------------------
  // Role and password changes

  /** The whitelist of `changeUserRole`, as the source writes it. */
  const ValidRoles: map<string, bool> :=
    map[AdminRole := true, TraderRole := true, UserRole := true, ViewerRole := true]

  /** `changeUserRole`'s validation: a missing key reads as false. */
  function ValidateRole(role: string): (d: Decision<string>)
    ensures d.Allow? <==> role in {"admin", "trader", "user", "viewer"}
    ensures d.Allow? ==> d.value == role
    ensures d.Deny? ==> d == Deny(400, "Invalid role. Allowed: admin, trader, user, viewer")
  {
    var valid := if role in ValidRoles then ValidRoles[role] else false;
    if !valid then Deny(400, "Invalid role. Allowed: admin, trader, user, viewer") else Allow(role)
  }

  /** `changePassword`'s checks in their order: the stored hash must be
      found (500), the old password must match it (401), and only then is a
      new password equal to the old one refused (400). */
  function ChangePassword(hashFound: bool, oldMatches: bool, oldPassword: string, newPassword: string)
    : (d: Decision<string>)
    ensures !hashFound ==> d == Deny(500, "User not found")
    ensures hashFound && !oldMatches ==> d == Deny(401, "Invalid old password")
    ensures hashFound && oldMatches && oldPassword == newPassword ==>
      d == Deny(400, "New password must be different from old password")
    ensures d.Allow? <==> hashFound && oldMatches && oldPassword != newPassword
    ensures d.Allow? ==> d.value == newPassword
  {
    if !hashFound then Deny(500, "User not found")
    else if !oldMatches then Deny(401, "Invalid old password")
    else if oldPassword == newPassword then Deny(400, "New password must be different from old password")
    else Allow(newPassword)
  }

  /** The password never stays the same. */
  lemma SamePasswordRefused(hashFound: bool, oldMatches: bool, password: string)
    ensures ChangePassword(hashFound, oldMatches, password, password).Deny?
  {
  }

  // ---------------------------------------------------------------------
  // Tokens

  /** `time.Now()` readings are nanoseconds since the epoch. */
  const NanosPerSecond: int := 1_000_000_000

  /** `jwt.NewNumericDate`: a reading truncated to whole seconds. */
  function NumericDate(nanos: int): (seconds: int)
    ensures seconds * 1_000_000_000 <= nanos < seconds * 1_000_000_000 + 1_000_000_000
  {
    nanos / NanosPerSecond
  }

  /** The claims of `generateToken`, which reads the clock twice: first for
      the expiry (`expiryReading` plus one hour), then for the issue time. */
  function AccessClaims(user: User, expiryReading: int, issueReading: int): (c: Claims)
    ensures c.issuer == AccessIssuer && c.issuer != RefreshIssuer
    ensures c.userId == user.id && c.email == user.email && c.role == user.role
    ensures c.issuedAt == NumericDate(issueReading)
    ensures c.expiresAt == NumericDate(expiryReading + AccessLifetimeSeconds * NanosPerSecond)
  {
    Claims(user.id, user.email, user.role, AccessIssuer, NumericDate(issueReading),
           NumericDate(expiryReading + AccessLifetimeSeconds * NanosPerSecond))
  }

  /** The claims of `generateRefreshToken`, which reads the clock twice in
      the same order, with a lifetime of seven days. */
  function RefreshClaims(user: User, expiryReading: int, issueReading: int): (c: Claims)
    ensures c.issuer == RefreshIssuer && c.issuer != AccessIssuer
    ensures c.userId == user.id && c.email == user.email && c.role == user.role
    ensures c.issuedAt == NumericDate(issueReading)
    ensures c.expiresAt == NumericDate(expiryReading + RefreshLifetimeSeconds * NanosPerSecond)
  {
    Claims(user.id, user.email, user.role, RefreshIssuer, NumericDate(issueReading),
           NumericDate(expiryReading + RefreshLifetimeSeconds * NanosPerSecond))
  }

  /** Truncating two readings less than a second apart, the later one
      first shifted by a whole number of seconds, gives that number or one
      less. */
  lemma TruncatedSpan(expiryReading: int, issueReading: int, lifetime: int)
    requires expiryReading <= issueReading < expiryReading + NanosPerSecond
    ensures var span := NumericDate(expiryReading + lifetime * NanosPerSecond) - NumericDate(issueReading);
      lifetime - 1 <= span <= lifetime
  {
  }

  /** When the two clock readings are in order and less than a second
      apart, a token lives its full lifetime or one second less. */
  lemma TokenLifetimes(user: User, expiryReading: int, issueReading: int)
    requires expiryReading <= issueReading < expiryReading + NanosPerSecond
    ensures var c := AccessClaims(user, expiryReading, issueReading);
      AccessLifetimeSeconds - 1 <= c.expiresAt - c.issuedAt <= AccessLifetimeSeconds
    ensures var c := RefreshClaims(user, expiryReading, issueReading);
      RefreshLifetimeSeconds - 1 <= c.expiresAt - c.issuedAt <= RefreshLifetimeSeconds
  {
    TruncatedSpan(expiryReading, issueReading, AccessLifetimeSeconds);
    TruncatedSpan(expiryReading, issueReading, RefreshLifetimeSeconds);
  }

  /** Two readings less than a second apart that fall in different whole
      seconds give tokens exactly one second short of their lifetime. */
  lemma LifetimeOneSecondShort(user: User, expiryReading: int, issueReading: int)
    requires expiryReading <= issueReading < expiryReading + NanosPerSecond
    requires NumericDate(expiryReading) < NumericDate(issueReading)
    ensures var c := AccessClaims(user, expiryReading, issueReading);
      c.expiresAt - c.issuedAt == AccessLifetimeSeconds - 1
    ensures var c := RefreshClaims(user, expiryReading, issueReading);
      c.expiresAt - c.issuedAt == RefreshLifetimeSeconds - 1
  {
  }

  /** The readings 999,999,999 ns and 1,000,000,000 ns give an access token
      of 3599 seconds and a refresh token of 604799 seconds. */
  lemma LifetimeShortExample(user: User)
    ensures var c := AccessClaims(user, 999_999_999, 1_000_000_000);
      c.expiresAt - c.issuedAt == 3599
    ensures var c := RefreshClaims(user, 999_999_999, 1_000_000_000);
      c.expiresAt - c.issuedAt == 604799
  {
  }

  /** The token checks of `refreshToken` before the database is asked. */
  function RefreshCheck(parsed: Parsed): (d: Decision<Claims>)
    ensures d.Allow? <==> parsed.Valid? && parsed.claims.issuer == RefreshIssuer
    ensures d.Allow? ==> d.value == parsed.claims
    ensures parsed.Invalid? ==> d == Deny(401, "Invalid refresh token")
    ensures parsed.Valid? && parsed.claims.issuer != RefreshIssuer ==> d == Deny(401, "Not a refresh token")
  {
    if parsed.Invalid? then Deny(401, "Invalid refresh token")
    else if parsed.claims.issuer != RefreshIssuer then Deny(401, "Not a refresh token")
    else Allow(parsed.claims)
  }

  /** An access token cannot be used to refresh, and a refresh token passes
      the issuer check. */
  lemma IssuerSeparatesTokens(user: User, expiryReading: int, issueReading: int)
    ensures RefreshCheck(Valid(AccessClaims(user, expiryReading, issueReading))) == Deny(401, "Not a refresh token")
    ensures var c := RefreshClaims(user, expiryReading, issueReading);
      RefreshCheck(Valid(c)) == Allow(c)
  {
  }

  /** `authMiddleware` does not look at the issuer: a refresh token that
      parses is accepted where an access token is expected. */
  lemma RefreshTokenPassesAuthMiddleware(user: User, expiryReading: int, issueReading: int, authorization: string,
                                         blacklist: string -> BlacklistLookup, parse: string -> Parsed)
    requires authorization != ""
    requires blacklist(StripBearer(authorization)) != Listed(true)
    requires parse(StripBearer(authorization)) == Valid(RefreshClaims(user, expiryReading, issueReading))
    ensures AuthMiddleware(authorization, blacklist, parse) == Allow(RefreshClaims(user, expiryReading, issueReading))
  {
  }

  // ---------------------------------------------------------------------
  // The self-delete guard of `deleteUser`

  /** Go's conversion of an `int` to `rune` (int32), which wraps. */
  function ToInt32(n: int): (r: int)
    ensures -0x8000_0000 <= r < 0x8000_0000
    ensures (r - n) % 0x1_0000_0000 == 0
  {
    (n + 0x8000_0000) % 0x1_0000_0000 - 0x8000_0000
  }

  /** Go's `string(r)` for a rune: the one character with that code point,
      or U+FFFD when it is not a Unicode scalar value. */
  function RuneString(r: int): (s: string)
    ensures |s| == 1
  {
    if 0 <= r < 0xD800 || 0xE000 <= r < 0x11_0000 then [r as char] else [0xFFFD as char]
  }

  /** The guard as written: the path id against `string(rune(adminID))`. */
  predicate IsSelfDeleteAsWritten(pathId: string, adminId: int)
  {
    pathId == RuneString(ToInt32(adminId))
  }

  /** For admin 5 the path "5" passes the guard, while admin 49 may not
      delete user "1" because rune 49 is the character '1'. */
  lemma SelfDeleteAsWrittenMisses()
    ensures !IsSelfDeleteAsWritten(Itoa(5), 5)
    ensures IsSelfDeleteAsWritten(Itoa(1), 49)
  {
    assert Itoa(5) == "5";
    assert Itoa(1) == "1";
    assert RuneString(ToInt32(5)) == [5 as char];
  }

  /** The character of a decimal digit. */
  function DigitChar(d: int): (c: char)
    requires 0 <= d < 10
    ensures '0' <= c <= '9' && c as int - '0' as int == d
  {
    ('0' as int + d) as char
  }

  /** The decimal digits of a natural number, most significant first. */
  function Digits(n: nat): (s: string)
    ensures |s| > 0 && '0' <= s[0] <= '9'
  {
    if n < 10 then [DigitChar(n)] else Digits(n / 10) + [DigitChar(n % 10)]
  }

  /** `strconv.Itoa`: decimal text of an integer, with a leading '-' when
      it is negative. */
  function Itoa(n: int): string
  {
    if n < 0 then "-" + Digits(-n) else Digits(n)
  }

  /** The value of a string of decimal digits. */
  function DigitsValue(s: string): int
  {
    if s == [] then 0 else DigitsValue(s[..|s| - 1]) * 10 + (s[|s| - 1] as int - '0' as int)
  }

  /** The value of `Itoa`'s output. */
  function ParseInt(s: string): int
  {
    if |s| > 0 && s[0] == '-' then -DigitsValue(s[1..]) else DigitsValue(s)
  }

  lemma {:induction false} DigitsRoundTrip(n: nat)
    ensures DigitsValue(Digits(n)) == n
  {
    if n >= 10 {
      DigitsRoundTrip(n / 10);
      var s := Digits(n);
      assert s[..|s| - 1] == Digits(n / 10);
    }
  }

  /** Decimal text determines the number. */
  lemma ItoaRoundTrip(n: int)
    ensures ParseInt(Itoa(n)) == n
  {
    if n < 0 {
      DigitsRoundTrip(-n);
      assert ("-" + Digits(-n))[1..] == Digits(-n);
    } else {
      DigitsRoundTrip(n);
    }
  }

  /** The guard as evidently meant: the path id against the decimal id. */
  predicate IsSelfDelete(pathId: string, adminId: int)
  {
    pathId == Itoa(adminId)
  }

  /** An admin's own id is refused and every other id is not. */
  lemma SelfDeleteBlocksOnlySelf(adminId: int, userId: int)
    ensures IsSelfDelete(Itoa(userId), adminId) <==> userId == adminId
  {
    ItoaRoundTrip(userId);
    ItoaRoundTrip(adminId);
  }

  /** Distinct ids have distinct decimal texts. */
  lemma ItoaInjective()
    ensures forall a: int, b: int {:trigger Itoa(a), Itoa(b)} :: Itoa(a) == Itoa(b) ==> a == b
  {
    forall a: int, b: int | Itoa(a) == Itoa(b) ensures a == b {
      ItoaRoundTrip(a);
      ItoaRoundTrip(b);
    }
  }

  /** The first check of `deleteUser`, with the decimal comparison: of the
      paths that name a user id, exactly the admin's own is refused. */
  function DeleteUserGuard(pathId: string, adminId: int): (d: Decision<string>)
    ensures forall userId: int {:trigger Itoa(userId)} :: pathId == Itoa(userId) ==> (d.Deny? <==> userId == adminId)
    ensures d.Allow? ==> d.value == pathId
    ensures d.Deny? ==> d == Deny(400, "Cannot delete your own account")
  {
    ItoaInjective();
    if IsSelfDelete(pathId, adminId) then Deny(400, "Cannot delete your own account") else Allow(pathId)
  }
}
