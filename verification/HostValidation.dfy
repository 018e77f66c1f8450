/** Host preflight of a statement: structure, amounts, maturity and role evidence.

    What the Bark and Bitcoin libraries report about the statement is the `Host` argument. */
module HostValidation {
  import opened Prelude
  import opened EnvelopeGrammar
  import opened EnvelopeLaws
  import opened OraclePreimage
  import opened TaggedSha256

  const REQUIRED_SCRIPT_FLAGS: u32 := 0xf

  type TxOut = Coin

  datatype Vtxo = Vtxo(
    id: bytes36,
    point: bytes36,
    amountSats: u64,
    script: bytes,
    exitDelta: u16,
    ownerXonly: bytes32)

  datatype TxIn = TxIn(previousOutput: bytes36, scriptSig: bytes, sequence: u32, stack: seq<bytes>)

  datatype Spend = Spend(version: int, lockTime: u32, inputs: seq<TxIn>, outputs: seq<TxOut>, weight: nat)

  // What the libraries decode, and the functions they provide.
  datatype Host = Host(
    vtxo: Option<Vtxo>,
    anchorDecodes: bool,
    vtxoMatchesAnchor: bool,
    regtestGenesis: bytes32,
    spend: Option<Spend>,
    pinnedOracle: bytes32,
    sha: Sha256,
    delayedSign: (u16, bytes32) -> bytes,               // the script of the owner-exit leaf
    controlBlock: bytes -> Option<bytes>,               // of a leaf in the VTXO's Taproot output
    sighash: (Spend, TxOut, bytes) -> Option<bytes32>,  // of a script-path spend of one prevout
    parsesKey: bytes32 -> bool,
    parsesSignature: bytes -> bool,
    verifySchnorr: (bytes32, bytes32, bytes) -> bool)   // key, digest, signature

  datatype Reason =
    | Validated
    | VtxoDecodeFailed | AnchorDecodeFailed | VtxoInvalid | VtxoIdMismatch | ZeroNonce | WrongGenesis
    | ScriptFlagMismatch | PrevoutCount | PrevoutMismatch | SpendDecodeFailed | NotOneInput
    | ScriptSigNotEmpty | NoOutput | OverWeight | OutpointMismatch | VersionBelowTwo
    | SequenceUnsatisfied | NotMature | OutputsExceedAmount | OwnerPathRejected
    | OwnerEvidenceMismatch | OracleNotPinned | PayoutCountMismatch | PayoutMismatch
    | OracleKeyInvalid | AnnouncementInvalid | AttestationInvalid | OracleSignatureRejected

  datatype Verdict = Verdict(
    barkVtxoValid: bool, exactSpendValid: bool, oracleEvidenceValid: Option<bool>, reason: Reason)

  function Accept(oracle: Option<bool>): Verdict {
    Verdict(true, true, oracle, Validated)
  }

  function Reject(barkVtxoValid: bool, reason: Reason): Verdict {
    Verdict(barkVtxoValid, false, None, reason)
  }

  // `try_fold` with a checked addition.
  function OutputSum(outputs: seq<TxOut>, sum: nat): Option<nat> {
    if outputs == [] then Some(sum)
    else
      match CheckedAdd(U64_LIMIT, sum, outputs[0].amountSats)
      case None => None
      case Some(next) => OutputSum(outputs[1..], next)
  }

  method SumOutputs(outputs: seq<TxOut>) returns (r: Option<nat>)
    ensures r == OutputSum(outputs, 0)
  {
    var sum := 0;
    var i := 0;
    while i < |outputs|
      invariant i <= |outputs| && OutputSum(outputs[i..], sum) == OutputSum(outputs, 0)
    {
      var next := CheckedAdd(U64_LIMIT, sum, outputs[i].amountSats);
      if next.None? {
        return None;
      }
      sum := next.value;
      i := i + 1;
    }
    return Some(sum);
  }

  method PayoutsMatch(payouts: seq<Payout>, outputs: seq<TxOut>) returns (same: bool)
    requires |payouts| == |outputs|
    ensures same <==> payouts == outputs
  {
    var i := 0;
    while i < |payouts|
      invariant i <= |payouts| && payouts[..i] == outputs[..i]
    {
      if payouts[i].amountSats != outputs[i].amountSats || payouts[i].scriptPubkey != outputs[i].scriptPubkey {
        return false;
      }
      i := i + 1;
    }
    assert payouts == payouts[..i] && outputs == outputs[..i];
    return true;
  }

  // Bit `k` of a word, given 2^k.
  function BitSet(n: nat, power: nat): bool
    requires power > 0
  {
    n / power % 2 == 1
  }

  function SequenceSatisfies(sequence: u32, exitDelta: u16): bool {
    !BitSet(sequence, 0x8000_0000) && !BitSet(sequence, 0x40_0000) && sequence % 0x1_0000 >= exitDelta
  }

  // The witness is a signature by the owner's key over this spend, the owner-exit script and
  // its control block.
  function OwnerPathAuthorizes(h: Host, vtxo: Vtxo, spend: Spend): bool
    requires |spend.inputs| == 1
  {
    var stack := spend.inputs[0].stack;
    var script := h.delayedSign(vtxo.exitDelta, vtxo.ownerXonly);
    var control := h.controlBlock(script);
    if |stack| != 3 || control.None? || stack[1] != script || stack[2] != control.value then false
    else if !h.parsesSignature(stack[0]) then false
    else
      var digest := h.sighash(spend, Coin(vtxo.amountSats, vtxo.script), script);
      digest.Some? && h.verifySchnorr(vtxo.ownerXonly, digest.value, stack[0])
  }

  function CheckSpend(e: Envelope, h: Host, vtxo: Vtxo, spend: Spend): Reason {
    if e.inputIndex != 0 || |spend.inputs| != 1 then NotOneInput
    else if spend.inputs[0].scriptSig != [] then ScriptSigNotEmpty
    else if spend.outputs == [] then NoOutput
    else if spend.weight > 400_000 then OverWeight
    else if spend.inputs[0].previousOutput != vtxo.point then OutpointMismatch
    else if spend.version < 2 then VersionBelowTwo
    else if !SequenceSatisfies(spend.inputs[0].sequence, vtxo.exitDelta) then SequenceUnsatisfied
    else
      var maturity := CheckedAdd(U32_LIMIT, e.prevoutConfirmedHeight, vtxo.exitDelta);
      if maturity.None? || e.chainHeight < maturity.value then NotMature
      else
        var sum := OutputSum(spend.outputs, 0);
        if sum.None? || sum.value > vtxo.amountSats then OutputsExceedAmount
        else if !OwnerPathAuthorizes(h, vtxo, spend) then OwnerPathRejected
        else Validated
  }

  function CheckStatement(e: Envelope, h: Host, vtxo: Vtxo): Reason {
    if vtxo.id != e.vtxoId then VtxoIdMismatch
    else if IsZero(e.contractNonce) then ZeroNonce
    else if e.networkGenesis != h.regtestGenesis then WrongGenesis
    else if e.scriptFlags != REQUIRED_SCRIPT_FLAGS then ScriptFlagMismatch
    else if |e.prevouts| != 1 then PrevoutCount
    else if e.prevouts[0] != Coin(vtxo.amountSats, vtxo.script) then PrevoutMismatch
    else if h.spend.None? then SpendDecodeFailed
    else CheckSpend(e, h, vtxo, h.spend.value)
  }

  const EVENT_TAG: bytes := Ascii("BarkZkBitvm/OracleEventV1")
  const EVENT: bytes := Ascii("btc-usd-2026-07-13")

  function PinnedEvent(sha: Sha256): bytes32 {
    TaggedDigest(sha, EVENT_TAG, EVENT)
  }

  function CheckEvidence(e: Envelope, h: Host, vtxo: Vtxo, spend: Spend): Verdict {
    match e.evidence
    case OwnerExit(ownerXonly, csvDelay) =>
      if ownerXonly != vtxo.ownerXonly || csvDelay != vtxo.exitDelta then Reject(true, OwnerEvidenceMismatch)
      else Accept(None)
    case VirtualCet(eventId, oracleXonly, announcement, attestation, outcome, payouts) =>
      if eventId != PinnedEvent(h.sha) || oracleXonly != h.pinnedOracle then Reject(true, OracleNotPinned)
      else if |payouts| != |spend.outputs| then Reject(true, PayoutCountMismatch)
      else if payouts != spend.outputs then Reject(true, PayoutMismatch)
      else if !h.parsesKey(oracleXonly) then Reject(true, OracleKeyInvalid)
      else if !h.parsesSignature(announcement) then Reject(true, AnnouncementInvalid)
      else if !h.parsesSignature(attestation) then Reject(true, AttestationInvalid)
      else if || !h.verifySchnorr(oracleXonly, AnnouncementDigest(h.sha, eventId, payouts), announcement)
              || !h.verifySchnorr(oracleXonly, AttestationDigest(h.sha, eventId, outcome, payouts), attestation)
      then Reject(true, OracleSignatureRejected)
      else Accept(Some(true))
  }

  function ValidateHost(e: Envelope, h: Host): Verdict {
    if h.vtxo.None? then Reject(false, VtxoDecodeFailed)
    else if !h.anchorDecodes then Reject(false, AnchorDecodeFailed)
    else if !h.vtxoMatchesAnchor then Reject(false, VtxoInvalid)
    else
      var reason := CheckStatement(e, h, h.vtxo.value);
      if reason != Validated then Reject(true, reason)
      else CheckEvidence(e, h, h.vtxo.value, h.spend.value)
  }

  /** The same decision, in unbounded integers. */

  function Total(coins: seq<Coin>): nat {
    if coins == [] then 0 else coins[0].amountSats + Total(coins[1..])
  }

  // The relative lock a sequence number encodes, by the Specification section of BIP 68.
  datatype RelativeLock = NoLock | Blocks(count: nat) | Time(units: nat)

  function Bip68(sequence: u32): RelativeLock {
    if sequence >= 0x8000_0000 then NoLock
    else if sequence % 0x80_0000 >= 0x40_0000 then Time(sequence % 0x1_0000)
    else Blocks(sequence % 0x1_0000)
  }

  // The spend moves no more than the VTXO, no earlier than its exit delay allows.
  ghost predicate SpendIsSound(e: Envelope, vtxo: Vtxo, spend: Spend)
    requires |spend.inputs| == 1
  {
    && (var lock := Bip68(spend.inputs[0].sequence); lock.Blocks? && lock.count >= vtxo.exitDelta)
    && e.chainHeight >= e.prevoutConfirmedHeight + vtxo.exitDelta
    && Total(spend.outputs) <= vtxo.amountSats
  }

  // The owner's key signed this spend, on the delayed owner leaf of the VTXO's output.
  ghost predicate OwnerSigned(h: Host, vtxo: Vtxo, spend: Spend)
    requires |spend.inputs| == 1
  {
    exists signature, control, digest ::
      var script := h.delayedSign(vtxo.exitDelta, vtxo.ownerXonly);
      && spend.inputs[0].stack == [signature, script, control]
      && h.controlBlock(script) == Some(control)
      && h.parsesSignature(signature)
      && h.sighash(spend, Coin(vtxo.amountSats, vtxo.script), script) == Some(digest)
      && h.verifySchnorr(vtxo.ownerXonly, digest, signature)
  }

  ghost predicate WellFormed(e: Envelope, h: Host, vtxo: Vtxo, spend: Spend) {
    && h.anchorDecodes && h.vtxoMatchesAnchor && vtxo.id == e.vtxoId
    && !IsZero(e.contractNonce) && e.networkGenesis == h.regtestGenesis && e.scriptFlags == 0xf
    && e.prevouts == [Coin(vtxo.amountSats, vtxo.script)]
    && e.inputIndex == 0 && |spend.inputs| == 1 && spend.inputs[0].scriptSig == []
    && spend.outputs != [] && spend.weight <= 400_000 && spend.version >= 2
    && spend.inputs[0].previousOutput == vtxo.point
    && OwnerSigned(h, vtxo, spend)
  }

  // The pinned oracle signed the payouts in advance, and the outcome with them.
  ghost predicate OracleSigned(h: Host, outcome: bytes, payouts: seq<Payout>, announcement: bytes, attestation: bytes) {
    && h.verifySchnorr(h.pinnedOracle, AnnouncementDigest(h.sha, PinnedEvent(h.sha), payouts), announcement)
    && h.verifySchnorr(h.pinnedOracle, AttestationDigest(h.sha, PinnedEvent(h.sha), outcome, payouts), attestation)
  }

  ghost predicate EvidenceMatches(e: Envelope, h: Host, vtxo: Vtxo, spend: Spend) {
    match e.evidence
    case OwnerExit(ownerXonly, csvDelay) => ownerXonly == vtxo.ownerXonly && csvDelay == vtxo.exitDelta
    case VirtualCet(eventId, oracleXonly, announcement, attestation, outcome, payouts) =>
      && eventId == PinnedEvent(h.sha) && oracleXonly == h.pinnedOracle && payouts == spend.outputs
      && h.parsesKey(oracleXonly) && h.parsesSignature(announcement) && h.parsesSignature(attestation)
      && OracleSigned(h, outcome, payouts, announcement, attestation)
  }

  lemma {:induction false} OutputSumIsExact(outputs: seq<TxOut>, sum: nat)
    requires sum < U64_LIMIT
    ensures OutputSum(outputs, sum)
         == if sum + Total(outputs) < U64_LIMIT then Some(sum + Total(outputs)) else None
  {
    if outputs != [] && sum + outputs[0].amountSats < U64_LIMIT {
      OutputSumIsExact(outputs[1..], sum + outputs[0].amountSats);
    }
  }

  lemma SequenceIsBip68(sequence: u32, exitDelta: u16)
    ensures SequenceSatisfies(sequence, exitDelta)
       <==> Bip68(sequence).Blocks? && Bip68(sequence).count >= exitDelta
  {
    assert sequence / 0x40_0000 % 2 == 1 <==> sequence % 0x80_0000 >= 0x40_0000;
  }

  lemma OwnerPathIsOwnerSigned(h: Host, vtxo: Vtxo, spend: Spend)
    requires |spend.inputs| == 1
    ensures OwnerPathAuthorizes(h, vtxo, spend) <==> OwnerSigned(h, vtxo, spend)
  {
    var stack := spend.inputs[0].stack;
    if OwnerPathAuthorizes(h, vtxo, spend) {
      assert stack == [stack[0], stack[1], stack[2]];
    }
  }

  /** The host accepts exactly the well-formed statements whose spend is sound over the
      integers: no checked overflow refuses a statement the integers allow. */
  lemma HostAcceptanceIsExact(e: Envelope, h: Host)
    ensures ValidateHost(e, h).exactSpendValid <==>
            && h.vtxo.Some? && h.spend.Some?
            && WellFormed(e, h, h.vtxo.value, h.spend.value)
            && SpendIsSound(e, h.vtxo.value, h.spend.value)
            && EvidenceMatches(e, h, h.vtxo.value, h.spend.value)
  {
    hide SequenceSatisfies, Bip68, OutputSum, Total, OwnerPathAuthorizes, OwnerSigned, PinnedEvent,
      AnnouncementDigest, AttestationDigest;
    if h.spend.Some? {
      OutputSumIsExact(h.spend.value.outputs, 0);
      if h.vtxo.Some? && |h.spend.value.inputs| == 1 {
        SequenceIsBip68(h.spend.value.inputs[0].sequence, h.vtxo.value.exitDelta);
        OwnerPathIsOwnerSigned(h, h.vtxo.value, h.spend.value);
      }
    }
  }

  /** Value is conserved: an accepted virtual CET pays out, element by element, the spend's
      outputs, and in total no more than its only prevout holds. */
  lemma AcceptedCetConservesValue(e: Envelope, h: Host)
    requires ValidateHost(e, h).exactSpendValid && e.evidence.VirtualCet?
    ensures h.spend.Some? && e.evidence.payouts == h.spend.value.outputs
    ensures |e.prevouts| == 1 && Total(e.evidence.payouts) <= e.prevouts[0].amountSats
  {
    hide ValidateHost, Total;
    HostAcceptanceIsExact(e, h);
  }

  /** What the oracle check is asked about. */

  // A statement that gets as far as the oracle's signatures.
  ghost predicate AsksOracle(e: Envelope, h: Host) {
    && h.vtxo.Some? && h.spend.Some? && e.evidence.VirtualCet?
    && CheckStatement(e, h, h.vtxo.value) == Validated
    && e.evidence.eventId == PinnedEvent(h.sha) && e.evidence.oracleXonly == h.pinnedOracle
    && e.evidence.payouts == h.spend.value.outputs
  }

  // The length of a compact size, and a transaction's output bytes.
  function CompactSizeLength(n: nat): nat {
    if n < 0xfd then 1 else if n < 0x1_0000 then 3 else if n < U32_LIMIT then 5 else 9
  }

  function OutputBytes(outputs: seq<TxOut>): nat {
    if outputs == [] then 0
    else
      var script := |outputs[0].scriptPubkey|;
      8 + CompactSizeLength(script) + script + OutputBytes(outputs[1..])
  }

  // By BIP 141, every byte outside the witness weighs four units.
  ghost predicate WeighsItsOutputs(spend: Spend) {
    4 * OutputBytes(spend.outputs) <= spend.weight
  }

  lemma {:induction false} RowsWeighLess(outputs: seq<TxOut>)
    ensures RowsLength(outputs) <= 4 * OutputBytes(outputs)
  {
    if outputs != [] {
      RowsWeighLess(outputs[1..]);
    }
  }

  /** The weight limit keeps every settlement that reaches the oracle check inside the bound of
      `UnambiguousExactly`, by far. */
  lemma AskedSettlementsAreShort(e: Envelope, h: Host)
    requires AsksOracle(e, h) && WeighsItsOutputs(h.spend.value)
    ensures RowsLength(e.evidence.payouts) <= 400_000
  {
    hide OutputSum, SequenceSatisfies, OwnerPathAuthorizes, PinnedEvent, RowsLength, OutputBytes;
    RowsWeighLess(h.spend.value.outputs);
  }

  ghost predicate SameSettlement(e: Envelope, h: Host, e': Envelope, h': Host)
    requires e.evidence.VirtualCet? && e'.evidence.VirtualCet? && h.spend.Some? && h'.spend.Some?
  {
    e.evidence.outcome == e'.evidence.outcome && h.spend.value.outputs == h'.spend.value.outputs
  }

  // The bytes a virtual CET's attestation is over.
  function Attested(e: Envelope): bytes
    requires e.evidence.VirtualCet?
  {
    AttestationPreimage(e.evidence.eventId, e.evidence.outcome, e.evidence.payouts)
  }

  /** So one attestation digest serves one settlement: two statements that are checked against
      one digest have the same outcome and the same spend outputs, or exhibit a collision. */
  lemma OneDigestOneSettlement(e: Envelope, h: Host, e': Envelope, h': Host)
    requires AsksOracle(e, h) && WeighsItsOutputs(h.spend.value)
    requires AsksOracle(e', h') && WeighsItsOutputs(h'.spend.value) && h.sha == h'.sha
    requires AttestationDigest(h.sha, e.evidence.eventId, e.evidence.outcome, e.evidence.payouts)
          == AttestationDigest(h.sha, e'.evidence.eventId, e'.evidence.outcome, e'.evidence.payouts)
    ensures || SameSettlement(e, h, e', h')
            || TaggedCollision(h.sha, ORACLE_ATTESTATION_TAG, Attested(e), ORACLE_ATTESTATION_TAG, Attested(e'))
  {
    hide CheckStatement, AttestationDigest, PinnedEvent, RowsLength, TaggedCollision, WeighsItsOutputs;
    AskedSettlementsAreShort(e, h);
    AskedSettlementsAreShort(e', h');
    AttestationDigestBinds(
      h.sha, e.evidence.eventId, e.evidence.outcome, e.evidence.payouts,
      e'.evidence.eventId, e'.evidence.outcome, e'.evidence.payouts);
  }

  /** An accepted virtual CET carries the pinned oracle's signatures over the digests of exactly
      its event, its outcome and the spend's outputs. */
  lemma AcceptedCetIsAttested(e: Envelope, h: Host)
    requires ValidateHost(e, h).exactSpendValid && e.evidence.VirtualCet?
    ensures AsksOracle(e, h)
    ensures OracleSigned(h, e.evidence.outcome, h.spend.value.outputs,
                         e.evidence.announcementSignature, e.evidence.attestationSignature)
  {
    hide CheckSpend, AnnouncementDigest, AttestationDigest, PinnedEvent;
  }

  // The oracle's key has signed one announcement and one attestation, and nothing else.
  ghost predicate SignedOnce(h: Host, announced: bytes, attested: bytes32) {
    forall digest: bytes32, signature: bytes :: h.verifySchnorr(h.pinnedOracle, digest, signature) ==>
      digest == TaggedDigest(h.sha, ORACLE_ANNOUNCEMENT_TAG, announced) || digest == attested
  }

  /** One oracle attestation settles one way: if the pinned oracle signed a single announcement
      and a single attestation, all accepted virtual CETs have one outcome and one list of
      outputs, or a collision is exhibited. */
  lemma OneAttestationOneSettlement(
    e: Envelope, h: Host, e': Envelope, h': Host, announced: bytes, attested: bytes32)
    requires ValidateHost(e, h).exactSpendValid && ValidateHost(e', h').exactSpendValid
    requires e.evidence.VirtualCet? && e'.evidence.VirtualCet?
    requires h.sha == h'.sha && SignedOnce(h, announced, attested) && SignedOnce(h', announced, attested)
    requires h.spend.Some? && WeighsItsOutputs(h.spend.value) && h'.spend.Some? && WeighsItsOutputs(h'.spend.value)
    ensures || SameSettlement(e, h, e', h')
            || TaggedCollision(h.sha, ORACLE_ATTESTATION_TAG, Attested(e), ORACLE_ATTESTATION_TAG, Attested(e'))
            || TaggedCollision(h.sha, ORACLE_ATTESTATION_TAG, Attested(e), ORACLE_ANNOUNCEMENT_TAG, announced)
            || TaggedCollision(h.sha, ORACLE_ATTESTATION_TAG, Attested(e'), ORACLE_ANNOUNCEMENT_TAG, announced)
  {
    AcceptedCetIsAttested(e, h);
    AcceptedCetIsAttested(e', h');
    hide ValidateHost, CheckStatement, AnnouncementDigest, AttestationDigest, PinnedEvent, TaggedCollision,
      TaggedDigest, WeighsItsOutputs, SameSettlement;
    var d := AttestationDigest(h.sha, e.evidence.eventId, e.evidence.outcome, e.evidence.payouts);
    var d' := AttestationDigest(h.sha, e'.evidence.eventId, e'.evidence.outcome, e'.evidence.payouts);
    if d != attested {
      TagsSeparate(h.sha, e.evidence.eventId, e.evidence.outcome, e.evidence.payouts, announced);
    } else if d' != attested {
      TagsSeparate(h.sha, e'.evidence.eventId, e'.evidence.outcome, e'.evidence.payouts, announced);
    } else {
      OneDigestOneSettlement(e, h, e', h');
    }
  }
}
