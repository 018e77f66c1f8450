/** The whole host verdict, and the messages its two oracle signatures are over, in literal terms. */
module HostVerdicts {
  import opened Prelude
  import opened EnvelopeGrammar
  import opened EnvelopeLayout
  import opened TaggedSha256
  import opened OraclePreimage
  import opened HostValidation

  // The bytes of a text whose characters are bytes.
  function Latin(text: string): bytes
    requires forall i :: 0 <= i < |text| ==> text[i] < 256 as char
  {
    seq(|text|, i requires 0 <= i < |text| => text[i] as int)
  }

  // SHA-256 of twice the tag's hash and the message.
  function Tagged(sha: Sha256, tag: string, message: bytes): bytes32
    requires forall i :: 0 <= i < |tag| ==> tag[i] < 256 as char
  {
    sha(sha(Latin(tag)) + sha(Latin(tag)) + message)
  }

  lemma TaggedIsTagged(sha: Sha256, tag: string, message: bytes)
    requires forall i :: 0 <= i < |tag| ==> tag[i] < 256 as char
    ensures TaggedDigest(sha, Ascii(tag), message) == Tagged(sha, tag, message)
  {
    assert Ascii(tag) == Latin(tag);
  }

  /** A statement's digest hashes its encoding under the statement tag. */
  lemma StatementDigestIsTagged(sha: Sha256, e: Envelope)
    requires WithinLimits(e) && |Wire(e)| <= 16777216
    ensures StatementDigest(sha, e) == Success(Tagged(sha, "BarkZkBitvm/StatementV1", Wire(e)))
  {
    hide Wire, WithinLimits, Ascii, Tagged;
    EncodedLayout(e, Wire(e));
    TaggedIsTagged(sha, "BarkZkBitvm/StatementV1", Wire(e));
  }

  /** The announcement is over the event and the payouts, the attestation over the event, the
      outcome and the payouts, as the wire format lays them out. */
  lemma OracleMessages(sha: Sha256, event: bytes32, outcome: bytes, payouts: seq<Payout>)
    requires |outcome| <= 256 && |payouts| <= 4096
    requires forall i :: 0 <= i < |payouts| ==> |payouts[i].scriptPubkey| <= 10000
    ensures AnnouncementDigest(sha, event, payouts)
         == Tagged(sha, "BarkZkBitvm/OracleAnnouncementV1", event + Table(payouts))
    ensures AttestationDigest(sha, event, outcome, payouts)
         == Tagged(sha, "BarkZkBitvm/OracleAttestationV1", event + Counted(outcome) + Table(payouts))
  {
    hide PutTable, PutBlob, Table, Counted, Ascii, Tagged;
    TableIsPut(payouts, []);
    assert Table(payouts) + [] == Table(payouts);
    BlobIsPut(outcome, Table(payouts));
    assert event + (Counted(outcome) + Table(payouts)) == event + Counted(outcome) + Table(payouts);
    TaggedIsTagged(sha, "BarkZkBitvm/OracleAnnouncementV1", event + Table(payouts));
    TaggedIsTagged(sha, "BarkZkBitvm/OracleAttestationV1", event + Counted(outcome) + Table(payouts));
  }

  lemma EventIsTagged(sha: Sha256)
    ensures PinnedEvent(sha) == Tagged(sha, "BarkZkBitvm/OracleEventV1", Latin("btc-usd-2026-07-13"))
  {
    hide Tagged;
    assert Ascii("btc-usd-2026-07-13") == Latin("btc-usd-2026-07-13");
    TaggedIsTagged(sha, "BarkZkBitvm/OracleEventV1", Latin("btc-usd-2026-07-13"));
  }

  // What the host accepts, over the integers.
  ghost predicate Sound(e: Envelope, h: Host) {
    && h.vtxo.Some? && h.spend.Some?
    && WellFormed(e, h, h.vtxo.value, h.spend.value)
    && SpendIsSound(e, h.vtxo.value, h.spend.value)
    && EvidenceMatches(e, h, h.vtxo.value, h.spend.value)
  }

  /** The whole verdict.  The VTXO is reported valid whenever it decodes and matches its anchor; the
      oracle evidence is reported valid exactly for an accepted virtual CET, and otherwise not
      reported; the reason says `Validated` exactly for accepted statements. */
  lemma WholeVerdict(e: Envelope, h: Host)
    ensures var v := ValidateHost(e, h);
            && v.barkVtxoValid == (h.vtxo.Some? && h.anchorDecodes && h.vtxoMatchesAnchor)
            && (v.exactSpendValid <==> Sound(e, h))
            && v.oracleEvidenceValid == (if Sound(e, h) && e.evidence.VirtualCet? then Some(true) else None)
            && (v.reason == Validated <==> Sound(e, h))
  {
    HostAcceptanceIsExact(e, h);
    hide CheckStatement, WellFormed, SpendIsSound, EvidenceMatches, AnnouncementDigest, AttestationDigest, PinnedEvent;
  }

  /** The first objection: to what the statement says, to its spend, to the role's evidence. */

  ghost function SpendObjection(e: Envelope, h: Host, vtxo: Vtxo, spend: Spend): Reason {
    if !(e.inputIndex == 0 && |spend.inputs| == 1) then NotOneInput
    else if |spend.inputs[0].scriptSig| > 0 then ScriptSigNotEmpty
    else if |spend.outputs| == 0 then NoOutput
    else if spend.weight >= 400001 then OverWeight
    else if spend.inputs[0].previousOutput != vtxo.point then OutpointMismatch
    else if spend.version <= 1 then VersionBelowTwo
    else
      var lock := Bip68(spend.inputs[0].sequence);
      if !(lock.Blocks? && lock.count >= vtxo.exitDelta) then SequenceUnsatisfied
      else if e.chainHeight - e.prevoutConfirmedHeight < vtxo.exitDelta then NotMature
      else if Total(spend.outputs) > vtxo.amountSats then OutputsExceedAmount
      else if !OwnerSigned(h, vtxo, spend) then OwnerPathRejected
      else Validated
  }

  ghost function StatementObjection(e: Envelope, h: Host, vtxo: Vtxo): Reason {
    if vtxo.id != e.vtxoId then VtxoIdMismatch
    else if forall i :: 0 <= i < 32 ==> e.contractNonce[i] == 0 then ZeroNonce
    else if e.networkGenesis != h.regtestGenesis then WrongGenesis
    else if e.scriptFlags != 15 then ScriptFlagMismatch
    else if |e.prevouts| != 1 then PrevoutCount
    else if e.prevouts != [Coin(vtxo.amountSats, vtxo.script)] then PrevoutMismatch
    else if h.spend.None? then SpendDecodeFailed
    else SpendObjection(e, h, vtxo, h.spend.value)
  }

  ghost function EvidenceObjection(e: Envelope, h: Host, vtxo: Vtxo, spend: Spend): Reason {
    match e.evidence
    case OwnerExit(_, _) =>
      if e.evidence == OwnerExit(vtxo.ownerXonly, vtxo.exitDelta) then Validated else OwnerEvidenceMismatch
    case VirtualCet(eventId, oracleXonly, announcement, attestation, outcome, payouts) =>
      if !(eventId == PinnedEvent(h.sha) && oracleXonly == h.pinnedOracle) then OracleNotPinned
      else if |payouts| != |spend.outputs| then PayoutCountMismatch
      else if payouts != spend.outputs then PayoutMismatch
      else if !h.parsesKey(oracleXonly) then OracleKeyInvalid
      else if !h.parsesSignature(announcement) then AnnouncementInvalid
      else if !h.parsesSignature(attestation) then AttestationInvalid
      else if !OracleSigned(h, outcome, payouts, announcement, attestation) then OracleSignatureRejected
      else Validated
  }

  lemma SpendReason(e: Envelope, h: Host, vtxo: Vtxo, spend: Spend)
    ensures CheckSpend(e, h, vtxo, spend) == SpendObjection(e, h, vtxo, spend)
  {
    hide SequenceSatisfies, Bip68, OutputSum, Total, OwnerPathAuthorizes, OwnerSigned;
    OutputSumIsExact(spend.outputs, 0);
    if |spend.inputs| == 1 {
      SequenceIsBip68(spend.inputs[0].sequence, vtxo.exitDelta);
      OwnerPathIsOwnerSigned(h, vtxo, spend);
    }
  }

  lemma EvidenceReason(e: Envelope, h: Host, vtxo: Vtxo, spend: Spend)
    ensures CheckEvidence(e, h, vtxo, spend).reason == EvidenceObjection(e, h, vtxo, spend)
  {
    hide PinnedEvent, AnnouncementDigest, AttestationDigest;
  }

  /** The reason is the first objection. */
  lemma ReasonIsFirstObjection(e: Envelope, h: Host)
    ensures ValidateHost(e, h).reason ==
      if h.vtxo.None? then VtxoDecodeFailed
      else if !h.anchorDecodes then AnchorDecodeFailed
      else if !h.vtxoMatchesAnchor then VtxoInvalid
      else if StatementObjection(e, h, h.vtxo.value) != Validated then StatementObjection(e, h, h.vtxo.value)
      else EvidenceObjection(e, h, h.vtxo.value, h.spend.value)
  {
    hide CheckSpend, SpendObjection, CheckEvidence, EvidenceObjection;
    if h.vtxo.Some? && h.spend.Some? {
      SpendReason(e, h, h.vtxo.value, h.spend.value);
      EvidenceReason(e, h, h.vtxo.value, h.spend.value);
    }
  }
}
