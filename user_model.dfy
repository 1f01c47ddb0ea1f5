/** The account schema of src/models/user.models.js: its fields and defaults,
    the lowercase/trim setters on username and email, the pre-save hook that
    hashes a modified password, and the instance methods that check a password
    and issue tokens. */
module UserModel {
  import opened Common
  import opened Hex
  import opened Crypto
  import opened Jwt

  /** A stored account, as the handlers read and write it. `refreshTokens`
      holds the last token string assigned to it, whatever the schema
      declares for that path. */
  datatype Account = Account(
    username: string,
    email: string,
    password: PasswordDigest,
    isEmailVerified: bool,
    refreshTokens: Option<Token>,
    forgotPasswordToken: Option<TokenDigest>,
    forgotPasswordTokenExpiry: Option<nat>,
    emailVerificationToken: Option<TokenDigest>,
    emailVerificationTokenExpiry: Option<nat>)

  /** A new account with the schema's defaults for every field the caller does not give. */
  function Defaults(username: string, email: string, password: PasswordDigest): (a: Account)
    ensures a.username == username && a.email == email && a.password == password
    ensures !a.isEmailVerified && a.refreshTokens == None
    ensures a.forgotPasswordToken == None && a.forgotPasswordTokenExpiry == None
    ensures a.emailVerificationToken == None && a.emailVerificationTokenExpiry == None
  {
    Account(username, email, password, false, None, None, None, None, None)
  }

  // ---------------------------------------------------------------------------
  // The `lowercase: true, trim: true` setters on username and email.

  predicate IsUpper(c: char) {
    'A' <= c <= 'Z'
  }

  function ToLowerChar(c: char): char {
    if IsUpper(c) then (c as int + 32) as char else c
  }

  /** `String.prototype.toLowerCase`, on the ASCII letters. */
  function ToLower(s: string): string {
    seq(|s|, i requires 0 <= i < |s| => ToLowerChar(s[i]))
  }

  /** The white space and line terminators `String.prototype.trim` removes. */
  predicate IsSpace(c: char) {
    c == ' ' || '\t' <= c <= '\r' || c as int == 0xA0 || c as int == 0x1680
    || 0x2000 <= c as int <= 0x200A || c as int == 0x2028 || c as int == 0x2029
    || c as int == 0x202F || c as int == 0x205F || c as int == 0x3000 || c as int == 0xFEFF
  }

  function TrimStart(s: string): string {
    if s != [] && IsSpace(s[0]) then TrimStart(s[1..]) else s
  }

  function TrimEnd(s: string): string {
    if s != [] && IsSpace(s[|s| - 1]) then TrimEnd(s[..|s| - 1]) else s
  }

  /** TrimStart drops the leading white space and nothing else. */
  lemma {:induction false} TrimStartShape(s: string)
    ensures |TrimStart(s)| <= |s| && TrimStart(s) == s[|s| - |TrimStart(s)|..]
    ensures TrimStart(s) == [] || !IsSpace(TrimStart(s)[0])
    ensures forall i :: 0 <= i < |s| - |TrimStart(s)| ==> IsSpace(s[i])
  {
    if s != [] && IsSpace(s[0]) {
      var rest := s[1..];
      TrimStartShape(rest);
      var t := TrimStart(rest);
      assert TrimStart(s) == t;
      assert rest[|rest| - |t|..] == s[|s| - |t|..];
      forall i | 0 <= i < |s| - |t| ensures IsSpace(s[i]) {
        if i > 0 { assert s[i] == rest[i - 1]; }
      }
    }
  }

  /** TrimEnd drops the trailing white space and nothing else. */
  lemma {:induction false} TrimEndShape(s: string)
    ensures |TrimEnd(s)| <= |s| && TrimEnd(s) == s[..|TrimEnd(s)|]
    ensures TrimEnd(s) == [] || !IsSpace(TrimEnd(s)[|TrimEnd(s)| - 1])
    ensures forall i :: |TrimEnd(s)| <= i < |s| ==> IsSpace(s[i])
  {
    if s != [] && IsSpace(s[|s| - 1]) {
      var rest := s[..|s| - 1];
      TrimEndShape(rest);
      var t := TrimEnd(rest);
      assert TrimEnd(s) == t;
      assert rest[..|t|] == s[..|t|];
      forall i | |t| <= i < |s| ensures IsSpace(s[i]) {
        if i < |s| - 1 { assert s[i] == rest[i]; }
      }
    }
  }

  /** `String.prototype.trim`. */
  function Trim(s: string): string {
    TrimEnd(TrimStart(s))
  }


  predicate NoUpper(s: string) {
    forall i :: 0 <= i < |s| ==> !IsUpper(s[i])
  }

  lemma NoUpperSlice(s: string, lo: nat, hi: nat)
    requires NoUpper(s) && lo <= hi <= |s|
    ensures NoUpper(s[lo..hi])
  {
    assert forall i :: 0 <= i < hi - lo ==> s[lo..hi][i] == s[lo + i];
  }

  /** What the setters guarantee about a stored username or email. */
  predicate IsNormalized(s: string) {
    NoUpper(s) && (s == [] || (!IsSpace(s[0]) && !IsSpace(s[|s| - 1])))
  }

  /** Lowercasing then trimming leaves no upper-case letter and no white
      space at either end. */
  lemma LowerThenTrimShape(s: string)
    ensures IsNormalized(Trim(ToLower(s)))
  {
    var lower := ToLower(s);
    assert NoUpper(lower);
    var start := TrimStart(lower);
    TrimStartShape(lower);
    NoUpperSlice(lower, |lower| - |start|, |lower|);
    var r := TrimEnd(start);
    TrimEndShape(start);
    NoUpperSlice(start, 0, |r|);
    assert r == start[..|r|];
    if r != [] {
      assert r[0] == start[0];
    }
  }

  /** The value a username or email is stored (and queried) as: the
      `lowercase` setter, then the `trim` setter. */
  function Normalize(s: string): (r: string)
    ensures IsNormalized(r)
  {
    LowerThenTrimShape(s);
    Trim(ToLower(s))
  }

  /** Running the setters on a stored value changes nothing. */
  lemma NormalizeIdempotent(s: string)
    ensures Normalize(Normalize(s)) == Normalize(s)
  {
    var n := Normalize(s);
    assert ToLower(n) == n;
    assert TrimStart(n) == n;
  }

  /** The `required: true` validators, run on the values the setters produced. */
  predicate RequiredFieldsPresent(username: string, email: string, password: string): (b: bool)
    ensures !b <==> username == "" || email == "" || password == ""
  {
    username != "" && email != "" && password != ""
  }

  // ---------------------------------------------------------------------------
  // Instance methods.

  /** `user.isPasswordCorrect(candidate)`: bcrypt's compare against the stored hash. */
  function IsPasswordCorrect(a: Account, candidate: string): (b: bool)
    ensures forall p :: a.password == PwHash(p) ==> (b <==> candidate == p)
  {
    PwCheck(candidate, a.password)
  }

  /** `user.generateAccessToken()`: the payload is the id, email and username. */
  function GenerateAccessToken(id: UserId, a: Account, nowMs: nat, expiresIn: nat): (t: Token)
    ensures t.claims == AccessClaims(id, a.email, a.username)
    ensures Verify(Signed(t), AccessTokenSecret, nowMs) == Verified(t.claims) <==> expiresIn > 0
    ensures Verify(Signed(t), RefreshTokenSecret, nowMs).Rejected?
  {
    Sign(AccessClaims(id, a.email, a.username), AccessTokenSecret, nowMs, expiresIn)
  }

  /** `user.generateRefreshToken()`: the payload is the id alone. */
  function GenerateRefreshToken(id: UserId, nowMs: nat, expiresIn: nat): (t: Token)
    ensures t.claims == RefreshClaims(id)
    ensures Verify(Signed(t), RefreshTokenSecret, nowMs) == Verified(t.claims) <==> expiresIn > 0
    ensures Verify(Signed(t), AccessTokenSecret, nowMs).Rejected?
  {
    Sign(RefreshClaims(id), RefreshTokenSecret, nowMs, expiresIn)
  }

  /** `crypto.randomBytes(32)`. */
  const TokenBytes: nat := 32

  /** How long a verification or reset secret stays valid: ten minutes, in milliseconds. */
  const TemporaryTokenLifetime: nat := 10 * 60 * 1000

  datatype TemporaryTokens = TemporaryTokens(unHashedToken: string, hashedToken: TokenDigest, tokenExpiry: nat)

  /** `user.generateTemporaryTokens()`, given the random bytes and `Date.now()`. */
  function GenerateTemporaryTokens(entropy: seq<byte>, nowMs: nat): (r: TemporaryTokens)
    requires |entropy| == TokenBytes
    ensures |r.unHashedToken| == 64
    ensures forall i :: 0 <= i < |r.unHashedToken| ==> IsHexDigit(r.unHashedToken[i])
    ensures Decode(r.unHashedToken) == Some(entropy)
    ensures r.hashedToken == TokHash(r.unHashedToken)
    ensures r.tokenExpiry == nowMs + 600000
  {
    DecodeEncode(entropy);
    var unHashedToken := Encode(entropy);
    TemporaryTokens(unHashedToken, TokHash(unHashedToken), nowMs + TemporaryTokenLifetime)
  }

  /** Different random bytes give different secrets and different stored digests. */
  lemma TemporaryTokensDistinct(e1: seq<byte>, e2: seq<byte>, now1: nat, now2: nat)
    requires |e1| == TokenBytes && |e2| == TokenBytes && e1 != e2
    ensures GenerateTemporaryTokens(e1, now1).unHashedToken != GenerateTemporaryTokens(e2, now2).unHashedToken
    ensures GenerateTemporaryTokens(e1, now1).hashedToken != GenerateTemporaryTokens(e2, now2).hashedToken
  {
    var t1, t2 := GenerateTemporaryTokens(e1, now1), GenerateTemporaryTokens(e2, now2);
    assert Decode(t1.unHashedToken) == Some(e1) && Decode(t2.unHashedToken) == Some(e2);
  }

  // ---------------------------------------------------------------------------
  // A loaded Mongoose document and its pre-save hook.

  /** The `password` path of a document: the plain text a handler assigned, or
      the stored hash. */
  datatype PasswordField = Plain(text: string) | Hashed(digest: PasswordDigest)

  /** A `User` document in memory between a lookup and a `save()`. */
  class UserDocument {
    const id: UserId
    var username: string
    var email: string
    var password: PasswordField
    var isEmailVerified: bool
    var refreshTokens: Option<Token>
    var forgotPasswordToken: Option<TokenDigest>
    var forgotPasswordTokenExpiry: Option<nat>
    var emailVerificationToken: Option<TokenDigest>
    var emailVerificationTokenExpiry: Option<nat>
    /** `this.isModified("password")`. */
    var passwordModified: bool

    /** Only an assignment puts plain text in `password`, and it marks the path modified. */
    ghost predicate Valid()
      reads this
    {
      passwordModified <==> password.Plain?
    }

    /** The record `save()` writes, once the hook has run. */
    function Snapshot(): Account
      reads this
      requires password.Hashed?
    {
      Account(username, email, password.digest, isEmailVerified, refreshTokens,
              forgotPasswordToken, forgotPasswordTokenExpiry,
              emailVerificationToken, emailVerificationTokenExpiry)
    }

    /** `new User({ email, username, password, isEmailVerified: false })`: the
        setters normalise username and email, every other field takes its default. */
    constructor Create(id: UserId, email: string, username: string, password: string)
      ensures Valid() && this.id == id
      ensures this.username == Normalize(username) && this.email == Normalize(email)
      ensures this.password == Plain(password) && passwordModified
      ensures !isEmailVerified && refreshTokens == None
      ensures forgotPasswordToken == None && forgotPasswordTokenExpiry == None
      ensures emailVerificationToken == None && emailVerificationTokenExpiry == None
    {
      this.id := id;
      this.username := Normalize(username);
      this.email := Normalize(email);
      this.password := Plain(password);
      this.passwordModified := true;
      this.isEmailVerified := false;
      this.refreshTokens := None;
      this.forgotPasswordToken := None;
      this.forgotPasswordTokenExpiry := None;
      this.emailVerificationToken := None;
      this.emailVerificationTokenExpiry := None;
    }

    /** The document a `findById`/`findOne` returns for a stored record. */
    constructor Hydrate(id: UserId, a: Account)
      ensures Valid() && this.id == id && !passwordModified
      ensures username == a.username && email == a.email && password == Hashed(a.password)
      ensures isEmailVerified == a.isEmailVerified && refreshTokens == a.refreshTokens
      ensures forgotPasswordToken == a.forgotPasswordToken && forgotPasswordTokenExpiry == a.forgotPasswordTokenExpiry
      ensures emailVerificationToken == a.emailVerificationToken
      ensures emailVerificationTokenExpiry == a.emailVerificationTokenExpiry
    {
      this.id := id;
      username := a.username;
      email := a.email;
      password := Hashed(a.password);
      isEmailVerified := a.isEmailVerified;
      refreshTokens := a.refreshTokens;
      forgotPasswordToken := a.forgotPasswordToken;
      forgotPasswordTokenExpiry := a.forgotPasswordTokenExpiry;
      emailVerificationToken := a.emailVerificationToken;
      emailVerificationTokenExpiry := a.emailVerificationTokenExpiry;
      passwordModified := false;
    }

    /** `user.password = plain`. */
    method SetPassword(plain: string)
      modifies this`password, this`passwordModified
      ensures Valid() && password == Plain(plain)
    {
      password := Plain(plain);
      passwordModified := true;
    }

    /** The pre-save hook: hash the password with 10 rounds if, and only if,
        it was modified since the document was loaded or last saved. */
    method PreSave()
      requires Valid()
      modifies this`password, this`passwordModified
      ensures Valid() && !passwordModified
      ensures old(passwordModified) ==> password == Hashed(PwHash(old(password).text))
      ensures !old(passwordModified) ==> password == old(password)
    {
      if !passwordModified {
        return;
      }
      password := Hashed(PwHash(password.text));
      passwordModified := false;
    }

    /** `user.save({ validateBeforeSave: false })`: run the hook, then write the record. */
    method Save() returns (saved: Account)
      requires Valid()
      modifies this`password, this`passwordModified
      ensures Valid() && !passwordModified && password.Hashed?
      ensures saved == Account(username, email, password.digest, isEmailVerified, refreshTokens,
                               forgotPasswordToken, forgotPasswordTokenExpiry,
                               emailVerificationToken, emailVerificationTokenExpiry)
      ensures old(passwordModified) ==> password == Hashed(PwHash(old(password).text))
      ensures !old(passwordModified) ==> password == old(password)
    {
      PreSave();
      saved := Snapshot();
    }
  }
}
