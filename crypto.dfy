/** The hash primitives the core calls into: bcrypt for passwords and SHA-256
    (FIPS 180-4) for single-use secrets. Both are foreign code; they are kept
    symbolic here. A digest is the value it was computed from, so two digests
    are equal exactly when their inputs are (collision resistance taken as
    given), and the model reads a digest's input only where the real
    primitive can decide the same question (bcrypt's compare). bcrypt's
    per-hash random salt is not kept: hashing the same password twice gives
    the same digest here. */
module Crypto {

  /** The cost factor the pre-save hook passes to `bcrypt.hash`. */
  const SaltRounds: nat := 10

  datatype PasswordDigest = Bcrypt(rounds: nat, preimage: string)

  /** `bcrypt.hash(plain, 10)`. */
  function PwHash(plain: string): (d: PasswordDigest)
    ensures d.rounds == SaltRounds
  {
    Bcrypt(SaltRounds, plain)
  }

  /** `bcrypt.compare(candidate, digest)`. */
  predicate PwCheck(candidate: string, d: PasswordDigest): (b: bool)
    ensures d.rounds == SaltRounds ==> (b <==> PwHash(candidate) == d)
  {
    candidate == d.preimage
  }

  /** A password is accepted by its own hash and by no other. */
  lemma PwCheckHash(candidate: string, plain: string)
    ensures PwCheck(candidate, PwHash(plain)) <==> candidate == plain
  {
  }

  /** The hex SHA-256 digest of a string. */
  datatype TokenDigest = Sha256Hex(preimage: string)

  /** `crypto.createHash("sha256").update(s).digest("hex")`. */
  function TokHash(s: string): (d: TokenDigest)
    ensures d.preimage == s
  {
    Sha256Hex(s)
  }

  /** Different secrets have different digests. */
  lemma TokHashInjective(s: string, t: string)
    requires TokHash(s) == TokHash(t)
    ensures s == t
  {
  }
}
