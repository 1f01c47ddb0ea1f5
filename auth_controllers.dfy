/** The handlers of src/controllers/auth.controllers.js over a mutable account
    collection. Each one looks an account up, loads it into a document, assigns
    fields, saves it (running the pre-save hook) and writes it back; each is
    proved to do what the matching function of AuthSpec says, and to keep the
    store invariant. */
module AuthControllers {
  import opened Common
  import opened Hex
  import opened Crypto
  import opened Jwt
  import opened UserModel
  import opened ApiResponses
  import opened AuthSpec
  import opened AuthProperties

  class AuthService {
    const config: Config
    var users: map<UserId, Account>
    var nextId: UserId

    function State(): Db
      reads this
    {
      Db(users, nextId)
    }

    ghost predicate Valid()
      reads this
    {
      Consistent(State())
    }

    constructor (config: Config)
      ensures Valid() && State() == Db(map[], 0) && this.config == config
    {
      this.config := config;
      users := map[];
      nextId := 0;
    }

    /** `generateAccessTokenAndRefreshToken(userId)`. */
    method GenerateAccessTokenAndRefreshToken(id: UserId, nowMs: nat) returns (pair: Option<TokenPair>)
      modifies this`users
      ensures match IssueTokens(old(State()), id, nowMs, config)
              case IssueFailed => pair == None && users == old(users)
              case Issued(db, p) => pair == Some(p) && State() == db
    {
      if id !in users {
        return None;
      }
      var user := new UserDocument.Hydrate(id, users[id]);
      var accessToken := GenerateAccessToken(id, user.Snapshot(), nowMs, config.accessTokenExpiry);
      var refreshToken := GenerateRefreshToken(id, nowMs, config.refreshTokenExpiry);
      user.refreshTokens := Some(refreshToken);
      var saved := user.Save();
      users := users[id := saved];
      pair := Some(TokenPair(accessToken, refreshToken));
    }

    /** The second half of `registerUser`: generate the verification pair,
        assign it to the saved document and save again. */
    static method StoreVerificationToken(user: UserDocument, entropy: seq<byte>, nowMs: nat)
      returns (saved: Account, tokens: TemporaryTokens)
      requires user.Valid() && user.password.Hashed? && |entropy| == TokenBytes
      modifies user
      ensures tokens == GenerateTemporaryTokens(entropy, nowMs)
      ensures saved == old(user.Snapshot()).(emailVerificationToken := Some(tokens.hashedToken),
                                             emailVerificationTokenExpiry := Some(tokens.tokenExpiry))
    {
      tokens := GenerateTemporaryTokens(entropy, nowMs);
      user.emailVerificationToken := Some(tokens.hashedToken);
      user.emailVerificationTokenExpiry := Some(tokens.tokenExpiry);
      saved := user.Save();
    }

    /** `registerUser`. */
    method RegisterUser(email: string, username: string, password: string, role: string,
                        entropy: seq<byte>, nowMs: nat)
      returns (r: Result<PublicAccount>, mail: Option<Mail>)
      requires Valid() && |entropy| == TokenBytes
      modifies this
      ensures Valid()
      ensures var s := AuthSpec.RegisterUser(old(State()), email, username, password, role, entropy, nowMs);
              State() == s.db && r == s.reply && mail == s.mail
    {
      ghost var db0 := State();
      var existedUser := FindOne(State(), ByUsernameOrEmail(Normalize(username), Normalize(email)));
      if existedUser.Some? {
        return Err(Conflict), None;
      }
      var id := nextId;
      var user := new UserDocument.Create(id, email, username, password);
      if !RequiredFieldsPresent(user.username, user.email, password) {
        return Err(Internal), None;
      }
      var created := user.Save();
      users := users[id := created];
      nextId := nextId + 1;

      var saved, tokens := StoreVerificationToken(user, entropy, nowMs);
      assert created == Defaults(Normalize(username), Normalize(email), PwHash(password));
      users := users[id := saved];

      mail := Some(Mail(saved.email, VerifySubject, saved.username, tokens.unHashedToken));
      r := Ok(NewApiResponse(201, Public(id, saved), Some(RegisteredMessage)));
      assert State() == AuthSpec.RegisterUser(db0, email, username, password, role, entropy, nowMs).db;
      RegisterKeepsConsistent(db0, email, username, password, role, entropy, nowMs);
    }

    /** `loginUser`. */
    method LoginUser(email: string, password: string, nowMs: nat) returns (r: Result<LoginData>)
      requires Valid()
      modifies this`users
      ensures Valid()
      ensures var s := AuthSpec.LoginUser(old(State()), email, password, nowMs, config);
              State() == s.db && r == s.reply
    {
      LoginKeepsConsistent(State(), email, password, nowMs, config);
      if email == "" {
        return Err(BadRequest);
      }
      var found := FindOne(State(), ByEmail(Normalize(email)));
      if found.None? {
        return Err(Unauthorized);
      }
      var user := new UserDocument.Hydrate(found.value, users[found.value]);
      if !user.isEmailVerified {
        return Err(Forbidden);
      }
      if !IsPasswordCorrect(user.Snapshot(), password) {
        return Err(Unauthorized);
      }
      var pair := GenerateAccessTokenAndRefreshToken(user.id, nowMs);
      if pair.None? {
        return Err(Internal);
      }
      var loggedInUser := Public(user.id, users[user.id]);
      r := Ok(NewApiResponse(200, LoginData(loggedInUser, pair.value.accessToken, pair.value.refreshToken),
                             Some(LoggedInMessage)));
    }

    /** `logoutUser` for the account the access token authenticated. */
    method LogoutUser(id: UserId) returns (r: Result<()>)
      requires Valid()
      modifies this`users
      ensures Valid()
      ensures var s := AuthSpec.LogoutUser(old(State()), id);
              State() == s.db && r == s.reply
    {
      LogoutKeepsConsistent(State(), id);
      if id in users {
        users := users[id := users[id].(refreshTokens := None)];
      }
      r := Ok(NewApiResponse(200, (), Some(LoggedOutMessage)));
    }

    /** `verifyEmail`. */
    method VerifyEmail(verificationToken: string, nowMs: nat) returns (r: Result<bool>)
      requires Valid()
      modifies this`users
      ensures Valid()
      ensures var s := AuthSpec.VerifyEmail(old(State()), verificationToken, nowMs);
              State() == s.db && r == s.reply
    {
      ghost var db0 := State();
      VerifyEmailKeepsConsistent(db0, verificationToken, nowMs);
      if verificationToken == "" {
        return Err(BadRequest);
      }
      var hashedToken := TokHash(verificationToken);
      var found := FindOne(State(), ByVerificationToken(hashedToken, nowMs));
      if found.None? {
        return Err(TokenInvalidOrExpired);
      }
      var user := new UserDocument.Hydrate(found.value, users[found.value]);
      user.emailVerificationToken := None;
      user.emailVerificationTokenExpiry := None;
      user.isEmailVerified := true;
      var saved := user.Save();
      assert saved == db0.users[found.value].(emailVerificationToken := None, emailVerificationTokenExpiry := None,
                                              isEmailVerified := true);
      users := users[user.id := saved];
      r := Ok(NewApiResponse(200, true, Some(VerifiedMessage)));
      assert State() == AuthSpec.VerifyEmail(db0, verificationToken, nowMs).db;
    }

    /** `resendEmailVerification` for the account the access token authenticated. */
    method ResendEmailVerification(id: UserId, entropy: seq<byte>, nowMs: nat)
      returns (r: Result<()>, mail: Option<Mail>)
      requires Valid() && |entropy| == TokenBytes
      modifies this`users
      ensures Valid()
      ensures var s := AuthSpec.ResendEmailVerification(old(State()), id, entropy, nowMs);
              State() == s.db && r == s.reply && mail == s.mail
    {
      ghost var db0 := State();
      ResendKeepsConsistent(db0, id, entropy, nowMs);
      if id !in users {
        return Err(NotFound), None;
      }
      var user := new UserDocument.Hydrate(id, users[id]);
      if user.isEmailVerified {
        return Err(Conflict), None;
      }
      var tokens := GenerateTemporaryTokens(entropy, nowMs);
      user.emailVerificationToken := Some(tokens.hashedToken);
      user.emailVerificationTokenExpiry := Some(tokens.tokenExpiry);
      var saved := user.Save();
      assert saved == db0.users[id].(emailVerificationToken := Some(tokens.hashedToken),
                                     emailVerificationTokenExpiry := Some(tokens.tokenExpiry));
      users := users[id := saved];
      mail := Some(Mail(saved.email, VerifySubject, saved.username, tokens.unHashedToken));
      r := Ok(NewApiResponse(200, (), Some(VerificationSentMessage)));
      assert State() == AuthSpec.ResendEmailVerification(db0, id, entropy, nowMs).db;
    }

    /** `refreshAccessToken`. */
    method RefreshAccessToken(cookie: Presented, body: Presented, nowMs: nat) returns (r: Result<TokenPair>)
      requires Valid()
      modifies this`users
      ensures Valid()
      ensures var s := AuthSpec.RefreshAccessToken(old(State()), cookie, body, nowMs, config);
              State() == s.db && r == s.reply
    {
      RefreshKeepsConsistent(State(), cookie, body, nowMs, config);
      var incomingRefreshToken := IncomingRefreshToken(cookie, body);
      if !Truthy(incomingRefreshToken) {
        return Err(Unauthorized);
      }
      var decodedToken := Verify(incomingRefreshToken, RefreshTokenSecret, nowMs);
      if decodedToken.Rejected? {
        return Err(Unauthorized);
      }
      var id := decodedToken.claims.userId;
      if id !in users {
        return Err(Unauthorized);
      }
      var user := new UserDocument.Hydrate(id, users[id]);
      if !(incomingRefreshToken.Signed? && user.refreshTokens == Some(incomingRefreshToken.token)) {
        return Err(Unauthorized);
      }
      var pair := GenerateAccessTokenAndRefreshToken(id, nowMs);
      if pair.None? {
        return Err(Unauthorized);
      }
      r := Ok(NewApiResponse(200, pair.value, Some(RefreshedMessage)));
    }

    /** `forgotPasswordRequest`. */
    method ForgotPasswordRequest(email: string, entropy: seq<byte>, nowMs: nat)
      returns (r: Result<()>, mail: Option<Mail>)
      requires Valid() && |entropy| == TokenBytes
      modifies this`users
      ensures Valid()
      ensures var s := AuthSpec.ForgotPasswordRequest(old(State()), email, entropy, nowMs);
              State() == s.db && r == s.reply && mail == s.mail
    {
      ghost var db0 := State();
      ForgotKeepsConsistent(db0, email, entropy, nowMs);
      var found := FindOne(State(), ByEmail(Normalize(email)));
      if found.None? {
        return Err(NotFound), None;
      }
      var user := new UserDocument.Hydrate(found.value, users[found.value]);
      var tokens := GenerateTemporaryTokens(entropy, nowMs);
      user.forgotPasswordToken := Some(tokens.hashedToken);
      user.forgotPasswordTokenExpiry := Some(tokens.tokenExpiry);
      var saved := user.Save();
      assert saved == db0.users[found.value].(forgotPasswordToken := Some(tokens.hashedToken),
                                              forgotPasswordTokenExpiry := Some(tokens.tokenExpiry));
      users := users[user.id := saved];
      mail := Some(Mail(saved.email, ResetSubject, saved.username, tokens.unHashedToken));
      r := Ok(NewApiResponse(200, (), Some(ResetSentMessage)));
      assert State() == AuthSpec.ForgotPasswordRequest(db0, email, entropy, nowMs).db;
    }

    /** `resetForgotPassword`. */
    method ResetForgotPassword(resetToken: string, newPassword: string, nowMs: nat) returns (r: Result<()>)
      requires Valid()
      modifies this`users
      ensures Valid()
      ensures var s := AuthSpec.ResetForgotPassword(old(State()), resetToken, newPassword, nowMs);
              State() == s.db && r == s.reply
    {
      ghost var db0 := State();
      ResetKeepsConsistent(db0, resetToken, newPassword, nowMs);
      var hashedToken := TokHash(resetToken);
      var found := FindOne(State(), ByResetToken(hashedToken, nowMs));
      if found.None? {
        return Err(TokenInvalidOrExpired);
      }
      var user := new UserDocument.Hydrate(found.value, users[found.value]);
      user.SetPassword(newPassword);
      user.forgotPasswordToken := None;
      user.forgotPasswordTokenExpiry := None;
      var saved := user.Save();
      assert saved == db0.users[found.value].(password := PwHash(newPassword), forgotPasswordToken := None,
                                              forgotPasswordTokenExpiry := None);
      users := users[user.id := saved];
      r := Ok(NewApiResponse(200, (), Some(ResetMessage)));
      assert State() == AuthSpec.ResetForgotPassword(db0, resetToken, newPassword, nowMs).db;
    }

    /** `changeCurrentPassword` for the account the access token authenticated. */
    method ChangeCurrentPassword(id: UserId, oldPassword: string, newPassword: string) returns (r: Result<()>)
      requires Valid()
      modifies this`users
      ensures Valid()
      ensures var s := AuthSpec.ChangeCurrentPassword(old(State()), id, oldPassword, newPassword);
              State() == s.db && r == s.reply
    {
      ChangePasswordKeepsConsistent(State(), id, oldPassword, newPassword);
      if id !in users {
        return Err(Internal);
      }
      var user := new UserDocument.Hydrate(id, users[id]);
      if !IsPasswordCorrect(user.Snapshot(), oldPassword) {
        return Err(Unauthorized);
      }
      user.SetPassword(newPassword);
      var saved := user.Save();
      users := users[id := saved];
      r := Ok(NewApiResponse(200, (), Some(PasswordChangedMessage)));
    }
  }
}
