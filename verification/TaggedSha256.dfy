/** Tagged SHA-256, with the hash function as a parameter.

    Nothing is assumed of `sha`.  Where a hash has to bind its input, the theorem
    concludes that the inputs are equal or names two different strings that `sha` maps
    to one digest. */
module TaggedSha256 {
  import opened Prelude
  import opened EnvelopeGrammar
  import opened EnvelopeStatements

  type Sha256 = bytes -> bytes32

  function Preimage(sha: Sha256, tag: bytes, message: bytes): bytes {
    sha(tag) + sha(tag) + message
  }

  function TaggedDigest(sha: Sha256, tag: bytes, message: bytes): bytes32 {
    sha(Preimage(sha, tag, message))
  }

  // The digest separates tags and binds the message.
  lemma TaggedDigestBinds(sha: Sha256, tag: bytes, message: bytes, tag': bytes, message': bytes)
    requires TaggedDigest(sha, tag, message) == TaggedDigest(sha, tag', message')
    ensures || (tag == tag' && message == message')
            || Collision(sha, tag, tag')
            || Collision(sha, Preimage(sha, tag, message), Preimage(sha, tag', message'))
  {
    var p, p' := Preimage(sha, tag, message), Preimage(sha, tag', message');
    if p == p' {
      assert sha(tag) == p[..32] && sha(tag') == p'[..32];
      assert message == p[64..] && message' == p'[64..];
    }
  }

  function Ascii(text: string): bytes {
    seq(|text|, i requires 0 <= i < |text| => text[i] as int % 256)
  }

  const STATEMENT_TAG: bytes := Ascii("BarkZkBitvm/StatementV1")
  const ORACLE_ANNOUNCEMENT_TAG: bytes := Ascii("BarkZkBitvm/OracleAnnouncementV1")
  const ORACLE_ATTESTATION_TAG: bytes := Ascii("BarkZkBitvm/OracleAttestationV1")

  function StatementDigest(sha: Sha256, e: Envelope): Result<bytes32, EnvelopeError> {
    var b :- Encoded(e);
    Success(TaggedDigest(sha, STATEMENT_TAG, b))
  }

  /** A statement digest names one statement. */
  lemma StatementDigestBinds(sha: Sha256, e: Envelope, f: Envelope)
    requires StatementDigest(sha, e).Success? && StatementDigest(sha, e) == StatementDigest(sha, f)
    ensures e == f || Collision(sha, Preimage(sha, STATEMENT_TAG, Encoded(e).value),
                                     Preimage(sha, STATEMENT_TAG, Encoded(f).value))
  {
    hide Encoded;
    TaggedDigestBinds(sha, STATEMENT_TAG, Encoded(e).value, STATEMENT_TAG, Encoded(f).value);
    if Encoded(e) == Encoded(f) {
      EncodingsAreDistinct(e, f);
    }
  }
}
