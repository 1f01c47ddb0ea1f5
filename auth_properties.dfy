/** What the handlers promise, proved about their specifications in AuthSpec:
    the store invariant, the order of the error checks, single use and expiry
    of the emailed secrets, rotation of the refresh token, and that a failing
    request changes nothing. */
module AuthProperties {
  import opened Common
  import opened Hex
  import opened Crypto
  import opened Jwt
  import opened UserModel
  import opened ApiResponses
  import opened AuthSpec

  // ---------------------------------------------------------------------------
  // The store invariant.

  /** Rewriting one account without touching its username or email keeps the store consistent. */
  lemma UpdateKeepsConsistent(db: Db, id: UserId, a: Account)
    requires Consistent(db) && id in db.users && WellFormed(id, a)
    requires a.username == db.users[id].username && a.email == db.users[id].email
    ensures Consistent(Db(db.users[id := a], db.nextId))
  {
    var users := db.users[id := a];
    forall i, j | i in users && j in users && i != j
      ensures users[i].username != users[j].username && users[i].email != users[j].email
    {
      assert users[i].username == db.users[i].username && users[i].email == db.users[i].email;
      assert users[j].username == db.users[j].username && users[j].email == db.users[j].email;
    }
  }

  lemma IssueKeepsConsistent(db: Db, id: UserId, nowMs: nat, cfg: Config)
    requires Consistent(db)
    ensures IssueTokens(db, id, nowMs, cfg).Issued? ==> Consistent(IssueTokens(db, id, nowMs, cfg).db)
  {
    if id in db.users {
      var refreshToken := GenerateRefreshToken(id, nowMs, cfg.refreshTokenExpiry);
      UpdateKeepsConsistent(db, id, db.users[id].(refreshTokens := Some(refreshToken)));
    }
  }

  /** Adding a well-formed account under the next id, when no account has its
      username or email, keeps the store consistent. */
  lemma InsertKeepsConsistent(db: Db, a: Account)
    requires Consistent(db) && WellFormed(db.nextId, a)
    requires forall j :: j < db.nextId && j in db.users ==> !Matches(db.users[j], ByUsernameOrEmail(a.username, a.email))
    ensures Consistent(Db(db.users[db.nextId := a], db.nextId + 1))
  {
    var id := db.nextId;
    var users := db.users[id := a];
    forall i, j | i in users && j in users && i != j
      ensures users[i].username != users[j].username && users[i].email != users[j].email
    {
      if i == id {
        assert !Matches(db.users[j], ByUsernameOrEmail(a.username, a.email));
      } else if j == id {
        assert !Matches(db.users[i], ByUsernameOrEmail(a.username, a.email));
      } else {
        assert users[i] == db.users[i] && users[j] == db.users[j];
      }
    }
  }

  lemma RegisterKeepsConsistent(db: Db, email: string, username: string, password: string, role: string,
                                entropy: seq<byte>, nowMs: nat)
    requires Consistent(db) && |entropy| == TokenBytes
    ensures Consistent(RegisterUser(db, email, username, password, role, entropy, nowMs).db)
  {
    var u, e := Normalize(username), Normalize(email);
    if FindOne(db, ByUsernameOrEmail(u, e)).None? && RequiredFieldsPresent(u, e, password) {
      var t := GenerateTemporaryTokens(entropy, nowMs);
      var a := Defaults(u, e, PwHash(password)).(
        emailVerificationToken := Some(t.hashedToken),
        emailVerificationTokenExpiry := Some(t.tokenExpiry));
      assert WellFormed(db.nextId, a);
      InsertKeepsConsistent(db, a);
      assert RegisterUser(db, email, username, password, role, entropy, nowMs).db
          == Db(db.users[db.nextId := a], db.nextId + 1);
    }
  }

  lemma LoginKeepsConsistent(db: Db, email: string, password: string, nowMs: nat, cfg: Config)
    requires Consistent(db)
    ensures Consistent(LoginUser(db, email, password, nowMs, cfg).db)
  {
    if email != "" {
      var found := FindOne(db, ByEmail(Normalize(email)));
      if found.Some? {
        IssueKeepsConsistent(db, found.value, nowMs, cfg);
      }
    }
  }

  lemma LogoutKeepsConsistent(db: Db, id: UserId)
    requires Consistent(db)
    ensures Consistent(LogoutUser(db, id).db)
  {
    if id in db.users {
      UpdateKeepsConsistent(db, id, db.users[id].(refreshTokens := None));
    }
  }

  lemma VerifyEmailKeepsConsistent(db: Db, verificationToken: string, nowMs: nat)
    requires Consistent(db)
    ensures Consistent(VerifyEmail(db, verificationToken, nowMs).db)
  {
    if verificationToken != "" {
      var found := FindOne(db, ByVerificationToken(TokHash(verificationToken), nowMs));
      if found.Some? {
        var id := found.value;
        UpdateKeepsConsistent(db, id, db.users[id].(emailVerificationToken := None,
                                                    emailVerificationTokenExpiry := None, isEmailVerified := true));
      }
    }
  }

  lemma ResendKeepsConsistent(db: Db, id: UserId, entropy: seq<byte>, nowMs: nat)
    requires Consistent(db) && |entropy| == TokenBytes
    ensures Consistent(ResendEmailVerification(db, id, entropy, nowMs).db)
  {
    if id in db.users && !db.users[id].isEmailVerified {
      var t := GenerateTemporaryTokens(entropy, nowMs);
      UpdateKeepsConsistent(db, id, db.users[id].(emailVerificationToken := Some(t.hashedToken),
                                                  emailVerificationTokenExpiry := Some(t.tokenExpiry)));
    }
  }

  lemma RefreshKeepsConsistent(db: Db, cookie: Presented, body: Presented, nowMs: nat, cfg: Config)
    requires Consistent(db)
    ensures Consistent(RefreshAccessToken(db, cookie, body, nowMs, cfg).db)
  {
    var incoming := IncomingRefreshToken(cookie, body);
    var v := Verify(incoming, RefreshTokenSecret, nowMs);
    if Truthy(incoming) && v.Verified? {
      IssueKeepsConsistent(db, v.claims.userId, nowMs, cfg);
    }
  }

  lemma ForgotKeepsConsistent(db: Db, email: string, entropy: seq<byte>, nowMs: nat)
    requires Consistent(db) && |entropy| == TokenBytes
    ensures Consistent(ForgotPasswordRequest(db, email, entropy, nowMs).db)
  {
    var found := FindOne(db, ByEmail(Normalize(email)));
    if found.Some? {
      var t := GenerateTemporaryTokens(entropy, nowMs);
      UpdateKeepsConsistent(db, found.value, db.users[found.value].(forgotPasswordToken := Some(t.hashedToken),
                                                                    forgotPasswordTokenExpiry := Some(t.tokenExpiry)));
    }
  }

  lemma ResetKeepsConsistent(db: Db, resetToken: string, newPassword: string, nowMs: nat)
    requires Consistent(db)
    ensures Consistent(ResetForgotPassword(db, resetToken, newPassword, nowMs).db)
  {
    var found := FindOne(db, ByResetToken(TokHash(resetToken), nowMs));
    if found.Some? {
      UpdateKeepsConsistent(db, found.value, db.users[found.value].(password := PwHash(newPassword),
                                                                    forgotPasswordToken := None, forgotPasswordTokenExpiry := None));
    }
  }

  lemma ChangePasswordKeepsConsistent(db: Db, id: UserId, oldPassword: string, newPassword: string)
    requires Consistent(db)
    ensures Consistent(ChangeCurrentPassword(db, id, oldPassword, newPassword).db)
  {
    if id in db.users {
      UpdateKeepsConsistent(db, id, db.users[id].(password := PwHash(newPassword)));
    }
  }

  // ---------------------------------------------------------------------------
  // Lookups.

  /** `findOne` finds something whenever some stored account matches. */
  lemma FindOneFinds(db: Db, q: Query, id: UserId)
    requires Consistent(db) && id in db.users && Matches(db.users[id], q)
    ensures FindOne(db, q).Some?
  {
  }

  /** When exactly one account matches, `findOne` returns it. */
  lemma FindOneOnly(db: Db, q: Query, id: UserId)
    requires Consistent(db) && id in db.users && Matches(db.users[id], q)
    requires forall j :: j in db.users && j != id ==> !Matches(db.users[j], q)
    ensures FindOne(db, q) == Some(id)
  {
    FindOneFinds(db, q, id);
  }

  /** Emails are unique, so a lookup by email returns the account that has it. */
  lemma FindByEmail(db: Db, id: UserId)
    requires Consistent(db) && id in db.users
    ensures FindOne(db, ByEmail(db.users[id].email)) == Some(id)
  {
    FindOneOnly(db, ByEmail(db.users[id].email), id);
  }

  // ---------------------------------------------------------------------------
  // registerUser.

  /** Registration is refused with 409, changing nothing, exactly when some
      account already has the (normalised) username or email. */
  lemma RegisterConflict(db: Db, email: string, username: string, password: string, role: string,
                         entropy: seq<byte>, nowMs: nat)
    requires Consistent(db) && |entropy| == TokenBytes
    ensures var s := RegisterUser(db, email, username, password, role, entropy, nowMs);
            s.reply == Err(Conflict) <==>
              exists id :: id in db.users
                && (db.users[id].username == Normalize(username) || db.users[id].email == Normalize(email))
    ensures var s := RegisterUser(db, email, username, password, role, entropy, nowMs);
            s.reply.Err? ==> s.db == db && s.mail == None
  {
    var q := ByUsernameOrEmail(Normalize(username), Normalize(email));
    var found := FindOne(db, q);
    if found.Some? {
      assert Matches(db.users[found.value], q);
    }
  }

  /** A successful registration adds one unverified account under a fresh id,
      with the password hashed, no session, and a pending verification secret
      whose digest and ten-minute expiry are stored while the raw 64-digit
      secret goes out in the mail; every other account is untouched. */
  lemma RegisterCreatesUnverified(db: Db, email: string, username: string, password: string, role: string,
                                  entropy: seq<byte>, nowMs: nat)
    requires Consistent(db) && |entropy| == TokenBytes
    ensures var s := RegisterUser(db, email, username, password, role, entropy, nowMs);
            s.reply.Ok? <==>
              (forall id :: id in db.users ==>
                 db.users[id].username != Normalize(username) && db.users[id].email != Normalize(email))
              && RequiredFieldsPresent(Normalize(username), Normalize(email), password)
    ensures var s := RegisterUser(db, email, username, password, role, entropy, nowMs);
            s.reply.Ok? ==>
              var id := db.nextId;
              && id !in db.users && id in s.db.users && s.mail.Some?
              && s.db == Db(db.users[id := s.db.users[id]], id + 1)
              && var a, raw := s.db.users[id], s.mail.value.token;
              && a.username == Normalize(username) && a.email == Normalize(email)
              && !a.isEmailVerified && a.refreshTokens == None
              && a.forgotPasswordToken == None && a.forgotPasswordTokenExpiry == None
              && a.emailVerificationToken == Some(TokHash(raw))
              && a.emailVerificationTokenExpiry == Some(nowMs + 600000)
              && a.password == PwHash(password)
              && |raw| == 64 && Decode(raw) == Some(entropy)
              && s.mail.value.to == a.email
              && s.reply.response.statusCode == 201 && s.reply.response.success
              && s.reply.response.data == PublicAccount(id, a.username, a.email, false)
  {
    var q := ByUsernameOrEmail(Normalize(username), Normalize(email));
    var found := FindOne(db, q);
    if found.Some? {
      assert Matches(db.users[found.value], q);
    }
  }

  /** The `role` in the request has no effect at all. */
  lemma RegisterIgnoresRole(db: Db, email: string, username: string, password: string,
                            role1: string, role2: string, entropy: seq<byte>, nowMs: nat)
    requires |entropy| == TokenBytes
    ensures RegisterUser(db, email, username, password, role1, entropy, nowMs)
         == RegisterUser(db, email, username, password, role2, entropy, nowMs)
  {
  }

  // ---------------------------------------------------------------------------
  // loginUser.

  /** Without an email the answer is 400, and for an email no account has it is 401. */
  lemma LoginUnknownEmail(db: Db, email: string, password: string, nowMs: nat, cfg: Config)
    requires Consistent(db)
    requires forall id :: id in db.users ==> db.users[id].email != Normalize(email)
    ensures var s := LoginUser(db, email, password, nowMs, cfg);
            s.db == db && s.mail == None && s.reply == Err(if email == "" then BadRequest else Unauthorized)
  {
  }

  /** For the account that has the email, the checks run in this order: not
      verified gives 403 (whatever the password), then a wrong password gives
      401; neither failure touches the store. */
  lemma LoginErrorOrder(db: Db, id: UserId, email: string, password: string, nowMs: nat, cfg: Config)
    requires Consistent(db) && id in db.users && email != "" && db.users[id].email == Normalize(email)
    ensures var s := LoginUser(db, email, password, nowMs, cfg);
            && (!db.users[id].isEmailVerified ==> s.reply == Err(Forbidden))
            && (db.users[id].isEmailVerified && !IsPasswordCorrect(db.users[id], password) ==> s.reply == Err(Unauthorized))
            && (s.reply.Err? ==> s.db == db && s.mail == None)
  {
    FindByEmail(db, id);
  }

  /** A successful login issues an access token for the account's id, email
      and username and a refresh token for its id, and stores exactly that
      refresh token in place of any earlier one; nothing else changes. */
  lemma LoginRotates(db: Db, id: UserId, email: string, password: string, nowMs: nat, cfg: Config)
    requires Consistent(db) && id in db.users && email != "" && db.users[id].email == Normalize(email)
    requires db.users[id].isEmailVerified && IsPasswordCorrect(db.users[id], password)
    ensures var s := LoginUser(db, email, password, nowMs, cfg);
            var refreshToken := GenerateRefreshToken(id, nowMs, cfg.refreshTokenExpiry);
            && s.reply.Ok? && s.reply.response.statusCode == 200
            && s.reply.response.data.refreshToken == refreshToken
            && s.reply.response.data.accessToken.claims == AccessClaims(id, db.users[id].email, db.users[id].username)
            && s.reply.response.data.user == Public(id, db.users[id])
            && s.db == Db(db.users[id := db.users[id].(refreshTokens := Some(refreshToken))], db.nextId)
  {
    FindByEmail(db, id);
  }

  // ---------------------------------------------------------------------------
  // refreshAccessToken.

  /** Refresh succeeds exactly when a refresh token is presented (cookie first,
      then body), verifies under the refresh secret before its expiry, names an
      existing account, and is the very token that account has stored. Every
      failure is a 401 that changes nothing; a success stores the new refresh
      token it returns. */
  lemma RefreshOutcome(db: Db, cookie: Presented, body: Presented, nowMs: nat, cfg: Config)
    ensures var s := RefreshAccessToken(db, cookie, body, nowMs, cfg);
            var incoming := IncomingRefreshToken(cookie, body);
            s.reply.Ok? <==>
              && incoming.Signed?
              && incoming.token.key == RefreshTokenSecret
              && Seconds(nowMs) < incoming.token.exp
              && incoming.token.claims.userId in db.users
              && db.users[incoming.token.claims.userId].refreshTokens == Some(incoming.token)
    ensures var s := RefreshAccessToken(db, cookie, body, nowMs, cfg);
            s.reply.Err? ==> s.reply.error == Unauthorized && s.db == db && s.mail == None
    ensures var s := RefreshAccessToken(db, cookie, body, nowMs, cfg);
            var incoming := IncomingRefreshToken(cookie, body);
            s.reply.Ok? ==>
              var id := incoming.token.claims.userId;
              var refreshToken := GenerateRefreshToken(id, nowMs, cfg.refreshTokenExpiry);
              && s.reply.response.data.refreshToken == refreshToken
              && s.reply.response.data.accessToken == GenerateAccessToken(id, db.users[id], nowMs, cfg.accessTokenExpiry)
              && s.db == Db(db.users[id := db.users[id].(refreshTokens := Some(refreshToken))], db.nextId)
  {
  }

  /** Once an account's stored refresh token is `current`, presenting any other
      refresh token for that account fails with 401. */
  lemma SupersededRefreshRejected(db: Db, id: UserId, current: Token, presented: Token, nowMs: nat, cfg: Config)
    requires id in db.users && db.users[id].refreshTokens == Some(current)
    requires presented.claims.userId == id && presented != current
    ensures RefreshAccessToken(db, Signed(presented), Absent, nowMs, cfg) == Fail(db, Unauthorized)
  {
  }

  /** Rotation on login: after a successful login, every refresh token issued
      earlier for the account, other than the one just returned, is refused. */
  lemma LoginInvalidatesEarlierRefresh(db: Db, id: UserId, email: string, password: string, nowMs: nat,
                                       cfg: Config, earlier: Token, laterMs: nat)
    requires Consistent(db) && id in db.users && email != "" && db.users[id].email == Normalize(email)
    requires db.users[id].isEmailVerified && IsPasswordCorrect(db.users[id], password)
    requires earlier.claims == RefreshClaims(id)
    requires earlier != GenerateRefreshToken(id, nowMs, cfg.refreshTokenExpiry)
    ensures var s := LoginUser(db, email, password, nowMs, cfg);
            RefreshAccessToken(s.db, Signed(earlier), Absent, laterMs, cfg).reply == Err(Unauthorized)
  {
    LoginRotates(db, id, email, password, nowMs, cfg);
    var s := LoginUser(db, email, password, nowMs, cfg);
    SupersededRefreshRejected(s.db, id, GenerateRefreshToken(id, nowMs, cfg.refreshTokenExpiry), earlier, laterMs, cfg);
  }

  /** Rotation on refresh: a refresh token that was accepted once is refused
      afterwards, unless the new one happens to be the same string (issued in
      the same second as the old one). */
  lemma RefreshTokenSingleUse(db: Db, t: Token, nowMs: nat, laterMs: nat, cfg: Config)
    requires RefreshAccessToken(db, Signed(t), Absent, nowMs, cfg).reply.Ok?
    requires t.iat != Seconds(nowMs)
    ensures var s := RefreshAccessToken(db, Signed(t), Absent, nowMs, cfg);
            RefreshAccessToken(s.db, Signed(t), Absent, laterMs, cfg).reply == Err(Unauthorized)
  {
    RefreshOutcome(db, Signed(t), Absent, nowMs, cfg);
    var id := t.claims.userId;
    var s := RefreshAccessToken(db, Signed(t), Absent, nowMs, cfg);
    var newToken := GenerateRefreshToken(id, nowMs, cfg.refreshTokenExpiry);
    assert newToken.iat == Seconds(nowMs);
    SupersededRefreshRejected(s.db, id, newToken, t, laterMs, cfg);
  }

  /** The quirk behind the exception above: two logins in the same second
      store the same refresh token, so the first one's token is still accepted. */
  lemma SameSecondLoginsShareToken(db: Db, id: UserId, email: string, password: string,
                                   t1: nat, t2: nat, cfg: Config)
    requires Consistent(db) && id in db.users && email != "" && db.users[id].email == Normalize(email)
    requires db.users[id].isEmailVerified && IsPasswordCorrect(db.users[id], password)
    requires Seconds(t1) == Seconds(t2) && cfg.refreshTokenExpiry > 0
    ensures var first := LoginUser(db, email, password, t1, cfg).reply.response.data.refreshToken;
            var second := LoginUser(LoginUser(db, email, password, t1, cfg).db, email, password, t2, cfg);
            RefreshAccessToken(second.db, Signed(first), Absent, t2, cfg).reply.Ok?
  {
    LoginRotates(db, id, email, password, t1, cfg);
    var db1 := LoginUser(db, email, password, t1, cfg).db;
    LoginKeepsConsistent(db, email, password, t1, cfg);
    LoginRotates(db1, id, email, password, t2, cfg);
  }

  // ---------------------------------------------------------------------------
  // logoutUser.

  /** Logout unsets the stored refresh token and nothing else, always answers
      200, and doing it twice is the same as doing it once. */
  lemma LogoutClears(db: Db, id: UserId)
    ensures var s := LogoutUser(db, id);
            && s.reply.Ok? && s.reply.response.statusCode == 200
            && s.db.nextId == db.nextId && s.db.users.Keys == db.users.Keys
            && (id in db.users ==> s.db.users == db.users[id := db.users[id].(refreshTokens := None)])
            && (id !in db.users ==> s.db == db)
    ensures LogoutUser(LogoutUser(db, id).db, id) == LogoutUser(db, id)
  {
    if id in db.users {
      var users := db.users[id := db.users[id].(refreshTokens := None)];
      assert users[id := users[id].(refreshTokens := None)] == users;
    }
  }

  /** After logout no refresh token for the account is accepted. */
  lemma LogoutEndsSession(db: Db, id: UserId, t: Token, nowMs: nat, cfg: Config)
    requires t.claims.userId == id
    ensures RefreshAccessToken(LogoutUser(db, id).db, Signed(t), Absent, nowMs, cfg).reply == Err(Unauthorized)
  {
  }

  // ---------------------------------------------------------------------------
  // verifyEmail.

  /** Verification succeeds exactly when the link's token is non-empty and some
      account holds its digest with an expiry strictly after now; otherwise 400
      (empty token) or 489, with nothing changed. */
  lemma VerifyEmailOutcome(db: Db, token: string, nowMs: nat)
    requires Consistent(db)
    ensures var s := VerifyEmail(db, token, nowMs);
            s.reply.Ok? <==>
              token != "" && exists id :: id in db.users && Matches(db.users[id], ByVerificationToken(TokHash(token), nowMs))
    ensures var s := VerifyEmail(db, token, nowMs);
            s.reply.Err? ==> s.db == db && s.reply.error == (if token == "" then BadRequest else TokenInvalidOrExpired)
  {
    if token != "" && exists id :: id in db.users && Matches(db.users[id], ByVerificationToken(TokHash(token), nowMs)) {
      var id :| id in db.users && Matches(db.users[id], ByVerificationToken(TokHash(token), nowMs));
      FindOneFinds(db, ByVerificationToken(TokHash(token), nowMs), id);
    }
  }

  /** Verifying with the token of the one account that holds it marks that
      account verified and clears its pending pair, and only that. The store
      invariant does not make stored digests unique: the requirement that no
      other account holds the digest is the assumption that the 32 random
      bytes behind it were not drawn twice. */
  lemma VerifyEmailConsumes(db: Db, id: UserId, token: string, nowMs: nat)
    requires Consistent(db) && id in db.users && token != ""
    requires Matches(db.users[id], ByVerificationToken(TokHash(token), nowMs))
    requires forall j :: j in db.users && j != id ==> db.users[j].emailVerificationToken != Some(TokHash(token))
    ensures var s := VerifyEmail(db, token, nowMs);
            && s.reply.Ok? && s.reply.response.data
            && s.db == Db(db.users[id := db.users[id].(isEmailVerified := true, emailVerificationToken := None,
                                                       emailVerificationTokenExpiry := None)], db.nextId)
  {
    FindOneOnly(db, ByVerificationToken(TokHash(token), nowMs), id);
  }

  /** Single use: once a token has verified the account that held it, the same
      token is refused with 489 at any later time. This assumes, as above, that
      no other account was sent the same random bytes; if two accounts held the
      digest, the link would verify each of them in turn. */
  lemma VerifyEmailSingleUse(db: Db, id: UserId, token: string, nowMs: nat, laterMs: nat)
    requires Consistent(db) && id in db.users && token != ""
    requires Matches(db.users[id], ByVerificationToken(TokHash(token), nowMs))
    requires forall j :: j in db.users && j != id ==> db.users[j].emailVerificationToken != Some(TokHash(token))
    ensures var s := VerifyEmail(db, token, nowMs);
            VerifyEmail(s.db, token, laterMs).reply == Err(TokenInvalidOrExpired)
  {
    VerifyEmailConsumes(db, id, token, nowMs);
    VerifyEmailKeepsConsistent(db, token, nowMs);
    var s := VerifyEmail(db, token, nowMs);
    VerifyEmailOutcome(s.db, token, laterMs);
  }

  /** Expiry is strict: a matching token is refused with 489 from the stored
      expiry instant on, the instant itself included (assuming no other account
      holds the same digest, that is, the random bytes were not drawn twice). */
  lemma VerifyEmailExpired(db: Db, id: UserId, token: string, nowMs: nat)
    requires Consistent(db) && id in db.users && token != ""
    requires db.users[id].emailVerificationToken == Some(TokHash(token))
    requires db.users[id].emailVerificationTokenExpiry.Some? && db.users[id].emailVerificationTokenExpiry.value <= nowMs
    requires forall j :: j in db.users && j != id ==> db.users[j].emailVerificationToken != Some(TokHash(token))
    ensures VerifyEmail(db, token, nowMs) == Fail(db, TokenInvalidOrExpired)
  {
    VerifyEmailOutcome(db, token, nowMs);
  }

  // ---------------------------------------------------------------------------
  // resendEmailVerification and forgotPasswordRequest.

  /** Resend answers 404 for an unknown account and 409 for a verified one,
      changing nothing; otherwise it overwrites the pending pair with the
      digest of the mailed secret and a fresh ten-minute expiry. */
  lemma ResendOutcome(db: Db, id: UserId, entropy: seq<byte>, nowMs: nat)
    requires |entropy| == TokenBytes
    ensures var s := ResendEmailVerification(db, id, entropy, nowMs);
            && (id !in db.users ==> s == Fail(db, NotFound))
            && (id in db.users && db.users[id].isEmailVerified ==> s == Fail(db, Conflict))
            && (id in db.users && !db.users[id].isEmailVerified ==>
                  && s.reply.Ok? && s.mail.Some? && |s.mail.value.token| == 64
                  && s.mail.value.to == db.users[id].email
                  && s.db == Db(db.users[id := db.users[id].(
                       emailVerificationToken := Some(TokHash(s.mail.value.token)),
                       emailVerificationTokenExpiry := Some(nowMs + 600000))], db.nextId))
  {
  }

  /** Overwrite invalidates: after a resend, the account no longer matches any
      token other than the one just mailed. */
  lemma ResendInvalidatesPrevious(db: Db, id: UserId, entropy: seq<byte>, nowMs: nat, previous: string, laterMs: nat)
    requires |entropy| == TokenBytes && id in db.users && !db.users[id].isEmailVerified
    ensures var s := ResendEmailVerification(db, id, entropy, nowMs);
            previous != s.mail.value.token ==>
              !Matches(s.db.users[id], ByVerificationToken(TokHash(previous), laterMs))
  {
    ResendOutcome(db, id, entropy, nowMs);
  }

  /** A reset request for an email no account has answers 404 and changes
      nothing; otherwise it overwrites that account's reset pair with the
      digest of the mailed secret and a fresh ten-minute expiry. */
  lemma ForgotOutcome(db: Db, email: string, entropy: seq<byte>, nowMs: nat)
    requires Consistent(db) && |entropy| == TokenBytes
    ensures var s := ForgotPasswordRequest(db, email, entropy, nowMs);
            (forall id :: id in db.users ==> db.users[id].email != Normalize(email)) ==> s == Fail(db, NotFound)
    ensures var s := ForgotPasswordRequest(db, email, entropy, nowMs);
            forall id :: id in db.users && db.users[id].email == Normalize(email) ==>
              && s.reply.Ok? && s.mail.Some? && |s.mail.value.token| == 64
              && s.mail.value.to == db.users[id].email
              && s.db == Db(db.users[id := db.users[id].(
                   forgotPasswordToken := Some(TokHash(s.mail.value.token)),
                   forgotPasswordTokenExpiry := Some(nowMs + 600000))], db.nextId)
  {
    forall id | id in db.users && db.users[id].email == Normalize(email) {
      FindByEmail(db, id);
    }
  }

  /** Overwrite invalidates: after a second reset request, the account no
      longer matches any token other than the one just mailed. */
  lemma ForgotInvalidatesPrevious(db: Db, id: UserId, entropy: seq<byte>, nowMs: nat, previous: string, laterMs: nat)
    requires Consistent(db) && |entropy| == TokenBytes && id in db.users
    ensures var s := ForgotPasswordRequest(db, db.users[id].email, entropy, nowMs);
            previous != s.mail.value.token ==>
              !Matches(s.db.users[id], ByResetToken(TokHash(previous), laterMs))
  {
    FindByEmail(db, id);
    NormalizeIdempotentOnStored(db, id);
  }

  /** A stored email is already in normal form, so querying with it finds it. */
  lemma NormalizeIdempotentOnStored(db: Db, id: UserId)
    requires Consistent(db) && id in db.users
    ensures Normalize(db.users[id].email) == db.users[id].email
  {
    NormalizedFixed(db.users[id].email);
  }

  /** Normalising a string that is already normalised leaves it alone. */
  lemma NormalizedFixed(s: string)
    requires IsNormalized(s)
    ensures Normalize(s) == s
  {
    assert ToLower(s) == s;
  }

  // ---------------------------------------------------------------------------
  // resetForgotPassword.

  /** Reset succeeds exactly when some account holds the token's digest with an
      expiry strictly after now; otherwise 489 with nothing changed. */
  lemma ResetOutcome(db: Db, token: string, newPassword: string, nowMs: nat)
    requires Consistent(db)
    ensures var s := ResetForgotPassword(db, token, newPassword, nowMs);
            s.reply.Ok? <==> exists id :: id in db.users && Matches(db.users[id], ByResetToken(TokHash(token), nowMs))
    ensures var s := ResetForgotPassword(db, token, newPassword, nowMs);
            s.reply.Err? ==> s == Fail(db, TokenInvalidOrExpired)
  {
    if exists id :: id in db.users && Matches(db.users[id], ByResetToken(TokHash(token), nowMs)) {
      var id :| id in db.users && Matches(db.users[id], ByResetToken(TokHash(token), nowMs));
      FindOneFinds(db, ByResetToken(TokHash(token), nowMs), id);
    }
  }

  /** Resetting with the token of the one account that holds it sets the new
      password hash and clears the reset pair, leaving the session as it was.
      That no other account holds the digest is the assumption that the 32
      random bytes behind it were not drawn twice. */
  lemma ResetConsumes(db: Db, id: UserId, token: string, newPassword: string, nowMs: nat)
    requires Consistent(db) && id in db.users
    requires Matches(db.users[id], ByResetToken(TokHash(token), nowMs))
    requires forall j :: j in db.users && j != id ==> db.users[j].forgotPasswordToken != Some(TokHash(token))
    ensures var s := ResetForgotPassword(db, token, newPassword, nowMs);
            && s.reply.Ok?
            && s.db == Db(db.users[id := db.users[id].(password := PwHash(newPassword), forgotPasswordToken := None,
                                                       forgotPasswordTokenExpiry := None)], db.nextId)
  {
    FindOneOnly(db, ByResetToken(TokHash(token), nowMs), id);
  }

  /** Single use: once a reset token has been used, it is refused with 489
      (assuming, as above, that no other account holds the same digest). */
  lemma ResetSingleUse(db: Db, id: UserId, token: string, p1: string, p2: string, nowMs: nat, laterMs: nat)
    requires Consistent(db) && id in db.users
    requires Matches(db.users[id], ByResetToken(TokHash(token), nowMs))
    requires forall j :: j in db.users && j != id ==> db.users[j].forgotPasswordToken != Some(TokHash(token))
    ensures var s := ResetForgotPassword(db, token, p1, nowMs);
            ResetForgotPassword(s.db, token, p2, laterMs).reply == Err(TokenInvalidOrExpired)
  {
    ResetConsumes(db, id, token, p1, nowMs);
    ResetKeepsConsistent(db, token, p1, nowMs);
    var s := ResetForgotPassword(db, token, p1, nowMs);
    ResetOutcome(s.db, token, p2, laterMs);
  }

  // ---------------------------------------------------------------------------
  // changeCurrentPassword.

  /** A wrong old password gives 401 and changes nothing; a right one replaces
      the password hash and leaves the stored refresh token as it was. */
  lemma ChangePasswordOutcome(db: Db, id: UserId, oldPassword: string, newPassword: string)
    requires id in db.users
    ensures var s := ChangeCurrentPassword(db, id, oldPassword, newPassword);
            && (!IsPasswordCorrect(db.users[id], oldPassword) ==> s == Fail(db, Unauthorized))
            && (IsPasswordCorrect(db.users[id], oldPassword) ==>
                  && s.reply.Ok?
                  && s.db == Db(db.users[id := db.users[id].(password := PwHash(newPassword))], db.nextId)
                  && s.db.users[id].refreshTokens == db.users[id].refreshTokens)
  {
  }

  /** After a password change, logging in with the old password fails with 401
      and logging in with the new one succeeds. */
  lemma ChangePasswordThenLogin(db: Db, id: UserId, oldPassword: string, newPassword: string,
                                nowMs: nat, cfg: Config)
    requires Consistent(db) && id in db.users && db.users[id].isEmailVerified
    requires IsPasswordCorrect(db.users[id], oldPassword) && oldPassword != newPassword
    ensures var db' := ChangeCurrentPassword(db, id, oldPassword, newPassword).db;
            var email := db.users[id].email;
            && LoginUser(db', email, oldPassword, nowMs, cfg).reply == Err(Unauthorized)
            && LoginUser(db', email, newPassword, nowMs, cfg).reply.Ok?
  {
    var db' := ChangeCurrentPassword(db, id, oldPassword, newPassword).db;
    ChangePasswordKeepsConsistent(db, id, oldPassword, newPassword);
    var email := db.users[id].email;
    NormalizeIdempotentOnStored(db, id);
    assert db'.users[id].email == Normalize(email);
    assert email != "";
    PwCheckHash(oldPassword, newPassword);
    PwCheckHash(newPassword, newPassword);
    LoginErrorOrder(db', id, email, oldPassword, nowMs, cfg);
    LoginRotates(db', id, email, newPassword, nowMs, cfg);
  }

  // ---------------------------------------------------------------------------
  // The whole lifecycle on a fresh store.

  /** Register, verify with the mailed secret within ten minutes, log in, log
      out: every step succeeds, the verification link cannot be replayed, and
      the refresh token from the login is refused once the session is closed. */
  lemma Lifecycle(email: string, username: string, password: string, role: string, entropy: seq<byte>,
                  registeredMs: nat, verifiedMs: nat, loginMs: nat, cfg: Config)
    requires |entropy| == TokenBytes
    requires RequiredFieldsPresent(Normalize(username), Normalize(email), password)
    requires registeredMs <= verifiedMs < registeredMs + 600000
    ensures var registered := RegisterUser(Db(map[], 0), email, username, password, role, entropy, registeredMs);
            var link := registered.mail.value.token;
            var verified := VerifyEmail(registered.db, link, verifiedMs);
            var login := LoginUser(verified.db, email, password, loginMs, cfg);
            var logout := LogoutUser(login.db, 0);
            && registered.reply.Ok? && registered.mail.Some?
            && verified.reply.Ok?
            && VerifyEmail(verified.db, link, loginMs).reply == Err(TokenInvalidOrExpired)
            && login.reply.Ok?
            && logout.reply.Ok?
            && RefreshAccessToken(logout.db, Signed(login.reply.response.data.refreshToken), Absent, loginMs, cfg).reply
               == Err(Unauthorized)
  {
    var db := Db(map[], 0);
    var registered := RegisterUser(db, email, username, password, role, entropy, registeredMs);
    RegisterCreatesUnverified(db, email, username, password, role, entropy, registeredMs);
    RegisterKeepsConsistent(db, email, username, password, role, entropy, registeredMs);
    var link := registered.mail.value.token;
    assert registered.db.users.Keys == {0};
    VerifyEmailSingleUse(registered.db, 0, link, verifiedMs, loginMs);
    VerifyEmailConsumes(registered.db, 0, link, verifiedMs);
    var verified := VerifyEmail(registered.db, link, verifiedMs);
    VerifyEmailKeepsConsistent(registered.db, link, verifiedMs);
    assert email != "";
    PwCheckHash(password, password);
    LoginRotates(verified.db, 0, email, password, loginMs, cfg);
    var login := LoginUser(verified.db, email, password, loginMs, cfg);
    LogoutEndsSession(login.db, 0, login.reply.response.data.refreshToken, loginMs, cfg);
  }
}
