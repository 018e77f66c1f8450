/** One statement, one byte string.

    `Encoded` and `Decoded` are what the encoder and the decoder return; the methods in
    `EnvelopeCodec` are proved to compute them.  The theorems here say that the two are
    inverse bijections, that no statement is a prefix of another, and which error every
    truncation or extension of a statement gets. */
module EnvelopeStatements {
  import opened Prelude
  import opened LittleEndian
  import opened EnvelopeGrammar
  import opened EnvelopeLaws
  import opened EnvelopeLimits

  function CheckLen(actual: nat, maximum: nat, field: Field): Outcome<EnvelopeError> {
    if actual > maximum then Fail(Oversized(field)) else Pass
  }

  // The limits in the order the encoder checks them.
  function LimitCheck(e: Envelope): Outcome<EnvelopeError> {
    if |e.protocolVtxo| > MAX_VTXO_BYTES then Fail(Oversized(Vtxo))
    else if |e.anchorTransaction| > MAX_TRANSACTION_BYTES then Fail(Oversized(AnchorTransaction))
    else if |e.spendTransaction| > MAX_TRANSACTION_BYTES then Fail(Oversized(SpendTransaction))
    else if |e.prevouts| > MAX_PREVOUTS then Fail(Oversized(Prevouts))
    else if !ScriptsFit(e.prevouts) then Fail(Oversized(PrevoutScript))
    else if e.evidence.OwnerExit? then Pass
    else if |e.evidence.outcome| > MAX_OUTCOME_BYTES then Fail(Oversized(OracleOutcome))
    else if |e.evidence.payouts| > MAX_PAYOUTS then Fail(Oversized(Payouts))
    else if !ScriptsFit(e.evidence.payouts) then Fail(Oversized(PayoutScript))
    else Pass
  }

  function Encoded(e: Envelope): Result<bytes, EnvelopeError> {
    var limits := LimitCheck(e);
    if limits.Fail? then Failure(limits.error)
    else if |PutEnvelope(e, [])| > MAX_ENVELOPE_BYTES then Failure(Oversized(WholeEnvelope))
    else Success(PutEnvelope(e, []))
  }

  function Decoded(b: bytes): Result<Envelope, EnvelopeError> {
    if |b| > MAX_ENVELOPE_BYTES then Failure(Oversized(WholeEnvelope))
    else
      match ParseEnvelope(b)
      case Fault(error) => Failure(error)
      case Took(e, rest) =>
        if rest != [] then Failure(TrailingBytes)
        else
          var limits := LimitCheck(e);
          if limits.Fail? then Failure(limits.error) else Success(e)
  }

  lemma LimitCheckIsFits(e: Envelope)
    ensures LimitCheck(e).Pass? <==> Fits(e)
  {
  }

  /** Encoding succeeds exactly when every field is within its limit and the closed-form
      length is within 16 MiB.  It never reports `LengthOverflow`. */
  lemma EncodeSuccessCondition(e: Envelope)
    ensures Encoded(e).Success? <==> Fits(e) && EnvelopeLength(e) <= MAX_ENVELOPE_BYTES
    ensures Fits(e) && EnvelopeLength(e) > MAX_ENVELOPE_BYTES ==> Encoded(e) == Failure(Oversized(WholeEnvelope))
    ensures Encoded(e).Failure? ==> Encoded(e).error.Oversized?
    ensures Encoded(e).Success? ==> |Encoded(e).value| == EnvelopeLength(e)
  {
    hide PutEnvelope, EnvelopeLength;
    EnvelopeSize(e, []);
  }

  /** The codec is a bijection between encodable statements and decodable byte strings. */
  lemma CodecIsABijection(e: Envelope, b: bytes)
    ensures Encoded(e) == Success(b) <==> Decoded(b) == Success(e)
  {
    hide PutEnvelope, ParseEnvelope, LimitCheck, Fits;
    LimitCheckIsFits(e);
    if Fits(e) {
      EnvelopeRoundTrip(e, []);
    }
    if ParseEnvelope(b).Took? {
      EnvelopeSound(b);
    }
  }

  // No two byte strings denote one statement, and no two statements share a byte string.
  lemma StatementsAreUnique(b: bytes, c: bytes)
    requires Decoded(b).Success? && Decoded(b) == Decoded(c)
    ensures b == c
  {
    hide Decoded, Encoded;
    CodecIsABijection(Decoded(b).value, b);
    CodecIsABijection(Decoded(b).value, c);
  }

  lemma EncodingsAreDistinct(e: Envelope, f: Envelope)
    requires Encoded(e).Success? && Encoded(e) == Encoded(f)
    ensures e == f
  {
    hide Decoded, Encoded;
    CodecIsABijection(e, Encoded(e).value);
    CodecIsABijection(f, Encoded(e).value);
  }

  /** The decoder's closing limit check can never fire: `Oversized` is only ever raised
      while reading a length, or for the input as a whole. */
  lemma FinalLimitCheckNeverFails(b: bytes)
    requires ParseEnvelope(b).Took?
    ensures LimitCheck(ParseEnvelope(b).value).Pass?
  {
    hide ParseEnvelope, Fits, LimitCheck;
    EnvelopeSound(b);
    LimitCheckIsFits(ParseEnvelope(b).value);
  }

  /** Every strict prefix of a statement is reported as truncated, and as nothing else. */
  lemma StrictPrefixIsTruncated(b: bytes, n: nat)
    requires Decoded(b).Success? && n < |b|
    ensures Decoded(b[..n]) == Failure(UnexpectedEof)
  {
    hide ParseEnvelope, LimitCheck;
    var p, x := b[..n], b[n..];
    assert p + x == b;
    if ParseEnvelope(p) != Fault(UnexpectedEof) {
      EnvelopeStable(p, x);
    }
  }

  /** Every strict extension within the size limit is reported as trailing bytes. */
  lemma StrictExtensionIsTrailing(b: bytes, x: bytes)
    requires Decoded(b).Success? && x != [] && |b + x| <= MAX_ENVELOPE_BYTES
    ensures Decoded(b + x) == Failure(TrailingBytes)
  {
    hide ParseEnvelope, LimitCheck;
    EnvelopeStable(b, x);
  }

  /** `TrailingBytes` is raised exactly for a complete statement with bytes behind it. */
  lemma TrailingBytesExactly(b: bytes)
    ensures Decoded(b) == Failure(TrailingBytes) <==>
            |b| <= MAX_ENVELOPE_BYTES && exists n: nat | n < |b| :: Decoded(b[..n]).Success?
  {
    hide ParseEnvelope, LimitCheck;
    if n: nat :| n < |b| && Decoded(b[..n]).Success? {
      if |b| <= MAX_ENVELOPE_BYTES {
        assert b[..n] + b[n..] == b;
        StrictExtensionIsTrailing(b[..n], b[n..]);
      }
    }
    if Decoded(b) == Failure(TrailingBytes) {
      if ParseEnvelope(b).Fault? {
        EnvelopeErrors(b);
      } else {
        var Took(e, rest) := ParseEnvelope(b);
        EnvelopeSound(b);
        EnvelopeRoundTrip(e, []);
        EnvelopeAppends(e, [], rest);
        var whole := PutEnvelope(e, []);
        assert [] + rest == rest;
        assert b == whole + rest && b[..|whole|] == whole;
        LimitCheckIsFits(e);
        assert Decoded(b[..|whole|]).Success?;
      }
    }
  }

  /** Every verdict but truncation is final: more bytes, within the size limit, change no other
      error. */
  lemma ErrorsAreFinal(b: bytes, x: bytes)
    requires Decoded(b).Failure? && Decoded(b).error != UnexpectedEof && |b + x| <= MAX_ENVELOPE_BYTES
    ensures Decoded(b + x) == Decoded(b)
  {
    hide ParseEnvelope, LimitCheck;
    if ParseEnvelope(b).Took? {
      FinalLimitCheckNeverFails(b);
    }
    EnvelopeStable(b, x);
  }

  lemma HeaderWord(b: bytes)
    requires |b| >= 6
    ensures forall v: u16 :: b[..6] == MAGIC + ToLE(2, v) <==> b[..4] == MAGIC && FromLE(b[4..][..2]) == v
  {
    var word := b[4..][..2];
    assert b[..6] == b[..4] + word;
    ToFromLE(word);
    WordSizes();
    forall v: u16 ensures FromLE(ToLE(2, v)) == v {
      FromToLE(2, v);
    }
    forall v: u16 ensures b[..6] == MAGIC + ToLE(2, v) <==> b[..4] == MAGIC && word == ToLE(2, v) {
      var p := MAGIC + ToLE(2, v);
      assert p[..4] == MAGIC && p[4..] == ToLE(2, v);
      assert b[..6][..4] == b[..4] && b[..6][4..] == word;
    }
  }

  /** The header's errors, read off the first seven bytes: nothing behind the header can raise
      one of them, and each is raised only when the bytes before it are right. */
  lemma HeaderErrorsExactly(b: bytes)
    ensures Decoded(b) == Failure(BadMagic) <==> 4 <= |b| <= MAX_ENVELOPE_BYTES && b[..4] != MAGIC
    ensures forall v: u16 :: Decoded(b) == Failure(UnsupportedVersion(v)) <==>
              6 <= |b| <= MAX_ENVELOPE_BYTES && b[..6] == MAGIC + ToLE(2, v) && v != VERSION
    ensures forall k: u8 :: Decoded(b) == Failure(InvalidClaimKind(k)) <==>
              7 <= |b| <= MAX_ENVELOPE_BYTES && b[..6] == MAGIC + ToLE(2, VERSION) && k == b[6] && k != 1 && k != 2
  {
    hide ParseBody, LimitCheck;
    if ParseHeader(b).Took? {
      var p := ParseBody(ParseHeader(b).value, ParseHeader(b).rest);
      if p.Fault? {
        BodyErrors(ParseHeader(b).value, ParseHeader(b).rest);
      } else {
        FinalLimitCheckNeverFails(b);
      }
    }
    if |b| >= 6 {
      HeaderWord(b);
    }
  }

  // What the bytes so far say, whatever is left over.
  function Reading(b: bytes): Result<Envelope, EnvelopeError> {
    match ParseEnvelope(b)
    case Took(e, _) => Success(e)
    case Fault(error) => Failure(error)
  }

  /** Truncation is reported exactly while the verdict is open: if and only if some continuation
      reads differently. */
  lemma TruncatedExactly(b: bytes)
    ensures Decoded(b) == Failure(UnexpectedEof) <==>
            |b| <= MAX_ENVELOPE_BYTES && exists x: bytes :: Reading(b + x) != Reading(b)
  {
    hide ParseEnvelope, LimitCheck;
    if ParseEnvelope(b).Took? {
      FinalLimitCheckNeverFails(b);
    }
    if Ran(ParseEnvelope(b)) {
      forall x: bytes ensures Reading(b + x) == Reading(b) {
        EnvelopeStable(b, x);
      }
    } else {
      var x: bytes := seq(ENOUGH, _ => 0);
      EnoughIsDecided(b + x);
      assert Reading(b + x) != Reading(b);
    }
  }

  lemma PrintedBeyondLimits(e: Envelope, t: bytes)
    requires Representable(e) && LimitCheck(e).Fail?
    ensures ParseEnvelope(PutEnvelope(e, t)) == Fault(LimitCheck(e).error)
  {
    hide PutArray, PutWord, PutBlob, PutTable, ParseArray, ParseWord, ParseBlob, ParseTable, PutEvidence, ParseEvidence;
    ArrayRoundTrip();
    WordRoundTrip();
    BlobRoundTrip();
    TableRoundTrip();
    WordSizes();
    BlobLimit();
    TableLimit();
    if !EvidenceFits(e.evidence) {
      EvidenceLimit(e.evidence, PutPins(e.pins, t));
    }
  }

  /** The decoder enforces the encoder's limits, with the encoder's errors in the encoder's order:
      whatever statement is printed, as long as its lengths fit their length words, is read back
      or refused for the very field the encoder refuses it for. */
  lemma DecoderEnforcesLimits(e: Envelope, t: bytes)
    requires Representable(e)
    ensures ParseEnvelope(PutEnvelope(e, t)) == match LimitCheck(e)
                                                case Pass => Took(e, t)
                                                case Fail(error) => Fault(error)
  {
    LimitCheckIsFits(e);
    if Fits(e) {
      EnvelopeRoundTrip(e, t);
    } else {
      PrintedBeyondLimits(e, t);
    }
  }

  // The bytes begin the printed form of some statement, whatever stands behind it, and the
  // first limit that statement exceeds is that of `field`.
  ghost predicate BeginsBeyond(b: bytes, field: Field) {
    exists e, t :: b <= PutEnvelope(e, t) && Representable(e) && LimitCheck(e) == Fail(Oversized(field))
  }

  lemma HeaderErrors(b: bytes)
    ensures ParseHeader(b).Fault? ==> !ParseHeader(b).error.Oversized?
  {
  }

  /** A field is reported oversized exactly when the bytes begin a statement whose first exceeded
      limit is that field's and no continuation can change the verdict any more. */
  lemma OversizedExactly(b: bytes, field: Field)
    requires field != WholeEnvelope
    ensures Decoded(b) == Failure(Oversized(field)) <==>
            |b| <= MAX_ENVELOPE_BYTES && BeginsBeyond(b, field) && forall x: bytes :: Reading(b + x) == Reading(b)
  {
    hide ParseHeader, ParseBody, LimitCheck, PutEnvelope, Representable;
    if Decoded(b) == Failure(Oversized(field)) {
      if ParseEnvelope(b).Took? {
        FinalLimitCheckNeverFails(b);
      }
      HeaderErrors(b);
      var e, t := EnvelopeCompletes(b);
      var x := PutEnvelope(e, t)[|b|..];
      assert b + x == PutEnvelope(e, t);
      forall y: bytes ensures Reading(b + y) == Reading(b) {
        EnvelopeStable(b, y);
      }
      assert Reading(b + x) == Failure(Oversized(field));
      DecoderEnforcesLimits(e, t);
    } else if |b| <= MAX_ENVELOPE_BYTES && BeginsBeyond(b, field) {
      var e, t :| b <= PutEnvelope(e, t) && Representable(e) && LimitCheck(e) == Fail(Oversized(field));
      var x := PutEnvelope(e, t)[|b|..];
      assert b + x == PutEnvelope(e, t);
      DecoderEnforcesLimits(e, t);
      assert Reading(b + x) == Failure(Oversized(field));
      assert Reading(b) != Reading(b + x);
    }
  }

  /** The whole input is reported oversized exactly beyond 16 MiB, and no length ever overflows. */
  lemma TopLevelErrorsExactly(b: bytes)
    ensures Decoded(b) == Failure(Oversized(WholeEnvelope)) <==> |b| > MAX_ENVELOPE_BYTES
    ensures Decoded(b) != Failure(LengthOverflow)
  {
    hide ParseEnvelope, LimitCheck;
    if ParseEnvelope(b).Took? {
      FinalLimitCheckNeverFails(b);
    } else {
      EnvelopeErrors(b);
    }
  }

  /** Valid encodings are prefix-free. */
  lemma PrefixFree(b: bytes, c: bytes)
    requires Decoded(b).Success? && Decoded(c).Success? && b <= c
    ensures b == c
  {
    assert c[..|b|] == b;
    if |b| < |c| {
      StrictPrefixIsTruncated(c, |b|);
    }
  }
}
