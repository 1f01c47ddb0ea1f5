/** What each handler of src/controllers/auth.controllers.js does to the
    account collection, as one function per handler from the store before the
    request to the store after it, the reply and the mail it sends. The class
    in AuthControllers is proved to do exactly this; AuthProperties proves what
    these functions promise. */
module AuthSpec {
  import opened Common
  import opened Hex
  import opened Crypto
  import opened Jwt
  import opened UserModel
  import opened ApiResponses

  /** ACCESS_TOKEN_SECRET_EXPIRY and REFRESH_TOKEN_SECRET_EXPIRY, in seconds. */
  datatype Config = Config(accessTokenExpiry: nat, refreshTokenExpiry: nat)

  /** The `users` collection: the accounts by id, and the id the next created
      account gets. */
  datatype Db = Db(users: map<UserId, Account>, nextId: UserId)

  // ---------------------------------------------------------------------------
  // Queries.

  /** The filters the handlers pass to `findOne`. */
  datatype Query =
    | ByEmail(email: string)
    | ByUsernameOrEmail(username: string, email: string)
    | ByVerificationToken(digest: TokenDigest, nowMs: nat)
    | ByResetToken(digest: TokenDigest, nowMs: nat)

  /** Whether an account satisfies a filter. `{ $gt: now }` is strict, and on a
      missing expiry it fails. */
  predicate Matches(a: Account, q: Query): (b: bool)
    ensures q.ByEmail? ==> (b <==> a.email == q.email)
    ensures q.ByUsernameOrEmail? ==> (b <==> a.username == q.username || a.email == q.email)
    ensures q.ByVerificationToken? ==>
              (b <==> a.emailVerificationToken == Some(q.digest)
                      && a.emailVerificationTokenExpiry.Some? && q.nowMs < a.emailVerificationTokenExpiry.value)
    ensures q.ByResetToken? ==>
              (b <==> a.forgotPasswordToken == Some(q.digest)
                      && a.forgotPasswordTokenExpiry.Some? && q.nowMs < a.forgotPasswordTokenExpiry.value)
  {
    match q
    case ByEmail(e) => a.email == e
    case ByUsernameOrEmail(u, e) => a.username == u || a.email == e
    case ByVerificationToken(h, now) =>
      a.emailVerificationToken == Some(h)
      && a.emailVerificationTokenExpiry.Some? && a.emailVerificationTokenExpiry.value > now
    case ByResetToken(h, now) =>
      a.forgotPasswordToken == Some(h)
      && a.forgotPasswordTokenExpiry.Some? && a.forgotPasswordTokenExpiry.value > now
  }

  /** The first matching account among the ids from `i` up to `bound`. */
  function FindFrom(users: map<UserId, Account>, bound: nat, q: Query, i: nat): (r: Option<UserId>)
    decreases bound - i
    ensures r.Some? ==> i <= r.value < bound && r.value in users && Matches(users[r.value], q)
    ensures r.Some? ==> forall j :: i <= j < r.value && j in users ==> !Matches(users[j], q)
    ensures r.None? ==> forall j :: i <= j < bound && j in users ==> !Matches(users[j], q)
  {
    if i >= bound then None
    else if i in users && Matches(users[i], q) then Some(i)
    else FindFrom(users, bound, q, i + 1)
  }

  /** `User.findOne(filter)`: the first matching account in natural order. */
  function FindOne(db: Db, q: Query): (r: Option<UserId>)
    ensures r.Some? ==> r.value in db.users && Matches(db.users[r.value], q)
    ensures r.Some? ==> forall j :: j < r.value && j in db.users ==> !Matches(db.users[j], q)
    ensures r.None? ==> forall j :: j < db.nextId && j in db.users ==> !Matches(db.users[j], q)
  {
    FindFrom(db.users, db.nextId, q, 0)
  }

  // ---------------------------------------------------------------------------
  // What the store keeps true.

  /** What every stored account satisfies. */
  ghost predicate WellFormed(id: UserId, a: Account) {
    && a.username != "" && IsNormalized(a.username)
    && a.email != "" && IsNormalized(a.email)
    && a.password.rounds == SaltRounds
    && (a.emailVerificationToken.Some? <==> a.emailVerificationTokenExpiry.Some?)
    && (a.forgotPasswordToken.Some? <==> a.forgotPasswordTokenExpiry.Some?)
    && (a.isEmailVerified ==> a.emailVerificationToken.None?)
    && (a.refreshTokens.Some? ==>
          a.refreshTokens.value.claims == RefreshClaims(id) && a.refreshTokens.value.key == RefreshTokenSecret)
  }

  /** The store invariant: ids below the counter, well-formed accounts, and
      usernames and emails unique across accounts. */
  ghost predicate Consistent(db: Db) {
    && (forall id :: id in db.users ==> id < db.nextId && WellFormed(id, db.users[id]))
    && (forall i, j :: i in db.users && j in db.users && i != j ==>
          db.users[i].username != db.users[j].username && db.users[i].email != db.users[j].email)
  }

  // ---------------------------------------------------------------------------
  // Replies and mail.

  /** An account with the password, tokens and pending secrets left out (`select("-password ...")`). */
  datatype PublicAccount = PublicAccount(id: UserId, username: string, email: string, isEmailVerified: bool)

  function Public(id: UserId, a: Account): (p: PublicAccount)
    ensures p.id == id && p.username == a.username && p.email == a.email
    ensures p.isEmailVerified == a.isEmailVerified
  {
    PublicAccount(id, a.username, a.email, a.isEmailVerified)
  }

  datatype TokenPair = TokenPair(accessToken: Token, refreshToken: Token)

  datatype LoginData = LoginData(user: PublicAccount, accessToken: Token, refreshToken: Token)

  /** What `sendEmail` is given: the address, the subject, the name the
      template greets, and the raw secret embedded in the link. */
  datatype Mail = Mail(to: string, subject: string, username: string, token: string)

  /** The outcome of one request. */
  datatype Step<T> = Step(db: Db, reply: Result<T>, mail: Option<Mail>)

  /** A thrown error: the store is as it was and nothing is sent. */
  function Fail<T>(db: Db, e: ApiError): Step<T> {
    Step(db, Err(e), None)
  }

  const RegisteredMessage: string := "User registered successfully. Please verify your email to activate your account."
  const LoggedInMessage: string := "User logged in successfully"
  const LoggedOutMessage: string := "User logged out successfully"
  const VerifiedMessage: string := "Email verified successfully"
  const VerificationSentMessage: string := "Email verification link sent successfully"
  const RefreshedMessage: string := "Access token refreshed successfully"
  const ResetSentMessage: string := "Password reset link sent successfully"
  const ResetMessage: string := "Password reset successfully"
  const PasswordChangedMessage: string := "Password changed successfully"
  const VerifySubject: string := "Verify your email"
  const ResetSubject: string := "Password Reset Request"

  // ---------------------------------------------------------------------------
  // The handlers.

  datatype Issue = Issued(db: Db, pair: TokenPair) | IssueFailed

  /** `generateAccessTokenAndRefreshToken(userId)`: sign both tokens and store
      the refresh token in place of the previous one; a missing account makes
      the call throw (500). */
  function IssueTokens(db: Db, id: UserId, nowMs: nat, cfg: Config): (r: Issue)
    ensures r.Issued? <==> id in db.users
    ensures r.Issued? ==> r.db.nextId == db.nextId && r.db.users.Keys == db.users.Keys
    ensures r.Issued? ==>
              && r.pair.refreshToken == GenerateRefreshToken(id, nowMs, cfg.refreshTokenExpiry)
              && r.pair.accessToken == GenerateAccessToken(id, db.users[id], nowMs, cfg.accessTokenExpiry)
              && r.db == Db(db.users[id := db.users[id].(refreshTokens := Some(r.pair.refreshToken))], db.nextId)
  {
    if id !in db.users then IssueFailed
    else
      var a := db.users[id];
      var accessToken := GenerateAccessToken(id, a, nowMs, cfg.accessTokenExpiry);
      var refreshToken := GenerateRefreshToken(id, nowMs, cfg.refreshTokenExpiry);
      Issued(Db(db.users[id := a.(refreshTokens := Some(refreshToken))], db.nextId),
             TokenPair(accessToken, refreshToken))
  }

  /** `registerUser`. `role` is read from the request and dropped. */
  function RegisterUser(db: Db, email: string, username: string, password: string, role: string,
                        entropy: seq<byte>, nowMs: nat): (s: Step<PublicAccount>)
    requires |entropy| == TokenBytes
    ensures s.reply.Err? ==> s.db == db && s.mail == None && (s.reply.error == Conflict || s.reply.error == Internal)
    ensures s.reply.Ok? ==>
              && s.reply.response.statusCode == 201 && s.mail.Some?
              && s.db.nextId == db.nextId + 1 && db.nextId in s.db.users
              && s.reply.response.data.id == db.nextId && s.mail.value.to == s.db.users[db.nextId].email
  {
    var u, e := Normalize(username), Normalize(email);
    if FindOne(db, ByUsernameOrEmail(u, e)).Some? then Fail(db, Conflict)
    else if !RequiredFieldsPresent(u, e, password) then Fail(db, Internal)
    else
      var id := db.nextId;
      var t := GenerateTemporaryTokens(entropy, nowMs);
      var a := Defaults(u, e, PwHash(password)).(
        emailVerificationToken := Some(t.hashedToken),
        emailVerificationTokenExpiry := Some(t.tokenExpiry));
      Step(Db(db.users[id := a], id + 1),
           Ok(NewApiResponse(201, Public(id, a), Some(RegisteredMessage))),
           Some(Mail(a.email, VerifySubject, a.username, t.unHashedToken)))
  }

  /** `loginUser`. */
  function LoginUser(db: Db, email: string, password: string, nowMs: nat, cfg: Config): (s: Step<LoginData>)
    ensures s.mail == None && s.db.nextId == db.nextId
    ensures s.reply.Err? ==> s.db == db
    ensures s.reply.Ok? ==>
              var data := s.reply.response.data;
              && s.reply.response.statusCode == 200 && data.user.id in db.users && data.user.id in s.db.users
              && db.users[data.user.id].isEmailVerified && IsPasswordCorrect(db.users[data.user.id], password)
              && data.refreshToken.claims == RefreshClaims(data.user.id)
              && s.db.users[data.user.id].refreshTokens == Some(data.refreshToken)
  {
    if email == "" then Fail(db, BadRequest)
    else match FindOne(db, ByEmail(Normalize(email)))
      case None => Fail(db, Unauthorized)
      case Some(id) =>
        if !db.users[id].isEmailVerified then Fail(db, Forbidden)
        else if !IsPasswordCorrect(db.users[id], password) then Fail(db, Unauthorized)
        else match IssueTokens(db, id, nowMs, cfg)
          case IssueFailed => Fail(db, Internal)
          case Issued(db', pair) =>
            Step(db', Ok(NewApiResponse(200, LoginData(Public(id, db'.users[id]), pair.accessToken, pair.refreshToken),
                                        Some(LoggedInMessage))), None)
  }

  /** `logoutUser` for the authenticated account `id`: `$unset` the refresh token. */
  function LogoutUser(db: Db, id: UserId): (s: Step<()>)
    ensures s.reply.Ok? && s.reply.response.statusCode == 200 && s.mail == None
    ensures s.db.nextId == db.nextId
    ensures id in db.users ==> id in s.db.users && s.db.users[id].refreshTokens == None
  {
    var users := if id in db.users then db.users[id := db.users[id].(refreshTokens := None)] else db.users;
    Step(Db(users, db.nextId), Ok(NewApiResponse(200, (), Some(LoggedOutMessage))), None)
  }

  /** `verifyEmail` with the token from the link. */
  function VerifyEmail(db: Db, verificationToken: string, nowMs: nat): (s: Step<bool>)
    ensures s.mail == None && s.db.nextId == db.nextId
    ensures s.reply.Err? ==> s.db == db
    ensures s.reply.Ok? ==> s.reply.response.statusCode == 200 && s.reply.response.data
  {
    if verificationToken == "" then Fail(db, BadRequest)
    else match FindOne(db, ByVerificationToken(TokHash(verificationToken), nowMs))
      case None => Fail(db, TokenInvalidOrExpired)
      case Some(id) =>
        var a := db.users[id].(emailVerificationToken := None, emailVerificationTokenExpiry := None,
                               isEmailVerified := true);
        Step(Db(db.users[id := a], db.nextId), Ok(NewApiResponse(200, true, Some(VerifiedMessage))), None)
  }

  /** `resendEmailVerification` for the authenticated account `id`. */
  function ResendEmailVerification(db: Db, id: UserId, entropy: seq<byte>, nowMs: nat): (s: Step<()>)
    requires |entropy| == TokenBytes
    ensures s.reply.Err? ==> s.db == db && s.mail == None
    ensures s.reply.Ok? ==>
              && id in db.users && s.mail.Some? && id in s.db.users
              && s.db.users[id].emailVerificationToken == Some(TokHash(s.mail.value.token))
  {
    if id !in db.users then Fail(db, NotFound)
    else if db.users[id].isEmailVerified then Fail(db, Conflict)
    else
      var t := GenerateTemporaryTokens(entropy, nowMs);
      var a := db.users[id].(emailVerificationToken := Some(t.hashedToken),
                             emailVerificationTokenExpiry := Some(t.tokenExpiry));
      Step(Db(db.users[id := a], db.nextId), Ok(NewApiResponse(200, (), Some(VerificationSentMessage))),
           Some(Mail(a.email, VerifySubject, a.username, t.unHashedToken)))
  }

  /** A present value in JavaScript's sense: neither undefined nor the empty string. */
  predicate Truthy(p: Presented) {
    p.Signed? || (p.Text? && p.raw != "")
  }

  /** `req.cookies?.refreshToken || req.body.refreshToken`. */
  function IncomingRefreshToken(cookie: Presented, body: Presented): (p: Presented)
    ensures Truthy(cookie) ==> p == cookie
    ensures !Truthy(cookie) ==> p == body
  {
    if Truthy(cookie) then cookie else body
  }

  /** `refreshAccessToken`: every failure inside the `try`, including one from
      issuing the new pair, is rethrown as 401. */
  function RefreshAccessToken(db: Db, cookie: Presented, body: Presented, nowMs: nat, cfg: Config): (s: Step<TokenPair>)
    ensures s.mail == None && s.db.nextId == db.nextId
    ensures s.reply.Err? ==> s.reply.error == Unauthorized && s.db == db
    ensures s.reply.Ok? ==>
              && s.reply.response.statusCode == 200
              && IncomingRefreshToken(cookie, body).Signed?
              && var id := IncomingRefreshToken(cookie, body).token.claims.userId;
              && id in db.users && id in s.db.users && db.users[id].refreshTokens == Some(IncomingRefreshToken(cookie, body).token)
              && s.db.users[id].refreshTokens == Some(s.reply.response.data.refreshToken)
  {
    var incoming := IncomingRefreshToken(cookie, body);
    if !Truthy(incoming) then Fail(db, Unauthorized)
    else match Verify(incoming, RefreshTokenSecret, nowMs)
      case Rejected(_) => Fail(db, Unauthorized)
      case Verified(claims) =>
        if claims.userId !in db.users then Fail(db, Unauthorized)
        else if !(incoming.Signed? && db.users[claims.userId].refreshTokens == Some(incoming.token)) then Fail(db, Unauthorized)
        else match IssueTokens(db, claims.userId, nowMs, cfg)
          case IssueFailed => Fail(db, Unauthorized)
          case Issued(db', pair) => Step(db', Ok(NewApiResponse(200, pair, Some(RefreshedMessage))), None)
  }

  /** `forgotPasswordRequest`. */
  function ForgotPasswordRequest(db: Db, email: string, entropy: seq<byte>, nowMs: nat): (s: Step<()>)
    requires |entropy| == TokenBytes
    ensures s.reply.Err? ==> s == Fail(db, NotFound)
    ensures s.reply.Ok? ==> s.mail.Some? && s.db.nextId == db.nextId
  {
    match FindOne(db, ByEmail(Normalize(email)))
    case None => Fail(db, NotFound)
    case Some(id) =>
      var t := GenerateTemporaryTokens(entropy, nowMs);
      var a := db.users[id].(forgotPasswordToken := Some(t.hashedToken),
                             forgotPasswordTokenExpiry := Some(t.tokenExpiry));
      Step(Db(db.users[id := a], db.nextId), Ok(NewApiResponse(200, (), Some(ResetSentMessage))),
           Some(Mail(a.email, ResetSubject, a.username, t.unHashedToken)))
  }

  /** `resetForgotPassword` with the token from the link. */
  function ResetForgotPassword(db: Db, resetToken: string, newPassword: string, nowMs: nat): (s: Step<()>)
    ensures s.mail == None && s.db.nextId == db.nextId
    ensures s.reply.Err? ==> s == Fail(db, TokenInvalidOrExpired)
  {
    match FindOne(db, ByResetToken(TokHash(resetToken), nowMs))
    case None => Fail(db, TokenInvalidOrExpired)
    case Some(id) =>
      var a := db.users[id].(password := PwHash(newPassword), forgotPasswordToken := None,
                             forgotPasswordTokenExpiry := None);
      Step(Db(db.users[id := a], db.nextId), Ok(NewApiResponse(200, (), Some(ResetMessage))), None)
  }

  /** `changeCurrentPassword` for the authenticated account `id`; a missing
      account makes `user.isPasswordCorrect` throw (500). */
  function ChangeCurrentPassword(db: Db, id: UserId, oldPassword: string, newPassword: string): (s: Step<()>)
    ensures s.mail == None && s.db.nextId == db.nextId
    ensures s.reply.Err? ==> s.db == db
    ensures s.reply.Ok? ==>
              && id in db.users && id in s.db.users && IsPasswordCorrect(db.users[id], oldPassword)
              && s.db.users[id].password == PwHash(newPassword)
              && s.db.users[id].refreshTokens == db.users[id].refreshTokens
  {
    if id !in db.users then Fail(db, Internal)
    else if !IsPasswordCorrect(db.users[id], oldPassword) then Fail(db, Unauthorized)
    else
      var a := db.users[id].(password := PwHash(newPassword));
      Step(Db(db.users[id := a], db.nextId), Ok(NewApiResponse(200, (), Some(PasswordChangedMessage))), None)
  }
}
