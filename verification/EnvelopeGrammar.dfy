/** The grammar of a canonical Bark spend statement.

    Each field of the wire format is given by a printer `Put…(value, tail)`, which
    writes the value in front of `tail`, and by a parser `Parse…(s)`, which returns
    the value and what follows it, or the decoder's error.  Printers and parsers are
    written separately; `EnvelopeLaws` proves that they describe one language. */
module EnvelopeGrammar {
  import opened Prelude
  import opened LittleEndian

  const MAGIC: bytes := [0x42, 0x5A, 0x42, 0x56]
  const VERSION: u16 := 1
  const MAX_VTXO_BYTES := 0x10_0000
  const MAX_TRANSACTION_BYTES := 0x40_0000
  const MAX_SCRIPT_BYTES := 10_000
  const MAX_OUTCOME_BYTES := 256
  const MAX_PREVOUTS := 4_096
  const MAX_PAYOUTS := 4_096
  const MAX_ENVELOPE_BYTES := 0x100_0000

  // The field named by an `Oversized` error.
  datatype Field =
    | WholeEnvelope | Vtxo | AnchorTransaction | SpendTransaction
    | Prevouts | PrevoutScript | OracleOutcome | Payouts | PayoutScript

  datatype EnvelopeError =
    | UnexpectedEof
    | BadMagic
    | UnsupportedVersion(version: u16)
    | InvalidClaimKind(kind: u8)
    | Oversized(field: Field)
    | LengthOverflow
    | TrailingBytes

  datatype ClaimKind = OwnerExitKind | VirtualCetKind

  // `Prevout` and `Payout` have the same two fields.
  datatype Coin = Coin(amountSats: u64, scriptPubkey: bytes)
  type Prevout = Coin
  type Payout = Coin

  type bytes36 = b: bytes | |b| == 36 witness seq(36, _ => 0)
  type bytes64 = b: bytes | |b| == 64 witness seq(64, _ => 0)

  datatype RoleEvidence =
    | OwnerExit(ownerXonly: bytes32, csvDelay: u32)
    | VirtualCet(
        eventId: bytes32,
        oracleXonly: bytes32,
        announcementSignature: bytes64,
        attestationSignature: bytes64,
        outcome: bytes,
        payouts: seq<Payout>)
  {
    function Kind(): ClaimKind {
      if OwnerExit? then OwnerExitKind else VirtualCetKind
    }
  }

  datatype ArtifactPins = ArtifactPins(
    shinigamiProgram: bytes32,
    cairoProgram: bytes32,
    stwoPolicy: bytes32,
    risc0ImageId: bytes32)

  datatype Envelope = Envelope(
    networkGenesis: bytes32,
    contractNonce: bytes32,
    vtxoId: bytes36,
    protocolVtxo: bytes,
    anchorTransaction: bytes,
    spendTransaction: bytes,
    inputIndex: u32,
    prevouts: seq<Prevout>,
    chainHeight: u32,
    prevoutConfirmedHeight: u32,
    scriptFlags: u32,
    evidence: RoleEvidence,
    pins: ArtifactPins)

  /** The values the format can carry: every length-prefixed field is within its limit. */

  predicate ScriptsFit(coins: seq<Coin>) {
    forall i :: 0 <= i < |coins| ==> |coins[i].scriptPubkey| <= MAX_SCRIPT_BYTES
  }

  predicate TableFits(maximum: nat, coins: seq<Coin>) {
    |coins| <= maximum && ScriptsFit(coins)
  }

  predicate EvidenceFits(evidence: RoleEvidence) {
    evidence.VirtualCet? ==>
      |evidence.outcome| <= MAX_OUTCOME_BYTES && TableFits(MAX_PAYOUTS, evidence.payouts)
  }

  predicate Fits(e: Envelope) {
    && |e.protocolVtxo| <= MAX_VTXO_BYTES
    && |e.anchorTransaction| <= MAX_TRANSACTION_BYTES
    && |e.spendTransaction| <= MAX_TRANSACTION_BYTES
    && TableFits(MAX_PREVOUTS, e.prevouts)
    && EvidenceFits(e.evidence)
  }

  /** Printers. */

  function PutArray(v: bytes, tail: bytes): bytes {
    v + tail
  }

  function PutWord(width: nat, n: nat, tail: bytes): bytes {
    ToLE(width, n) + tail
  }

  function PutBlob(v: bytes, tail: bytes): bytes {
    PutWord(4, |v|, PutArray(v, tail))
  }

  function PutRow(coin: Coin, tail: bytes): bytes {
    PutWord(8, coin.amountSats, PutBlob(coin.scriptPubkey, tail))
  }

  function PutRows(coins: seq<Coin>, tail: bytes): bytes {
    if coins == [] then tail else PutRow(coins[0], PutRows(coins[1..], tail))
  }

  function PutTable(coins: seq<Coin>, tail: bytes): bytes {
    PutWord(4, |coins|, PutRows(coins, tail))
  }

  // What the oracle attests to besides the event: the outcome and the payout table.
  function PutSettlement(outcome: bytes, payouts: seq<Payout>, tail: bytes): bytes {
    PutBlob(outcome, PutTable(payouts, tail))
  }

  function PutEvidence(evidence: RoleEvidence, tail: bytes): bytes {
    match evidence
    case OwnerExit(ownerXonly, csvDelay) =>
      PutArray(ownerXonly, PutWord(4, csvDelay, tail))
    case VirtualCet(eventId, oracleXonly, announcement, attestation, outcome, payouts) =>
      PutArray(eventId, PutArray(oracleXonly, PutArray(announcement, PutArray(attestation,
        PutSettlement(outcome, payouts, tail)))))
  }

  function PutPins(pins: ArtifactPins, tail: bytes): bytes {
    PutArray(pins.shinigamiProgram, PutArray(pins.cairoProgram,
      PutArray(pins.stwoPolicy, PutArray(pins.risc0ImageId, tail))))
  }

  function KindByte(kind: ClaimKind): u8 {
    match kind
    case OwnerExitKind => 1
    case VirtualCetKind => 2
  }

  function PutInputs(e: Envelope, tail: bytes): bytes {
    PutBlob(e.protocolVtxo, PutBlob(e.anchorTransaction, PutBlob(e.spendTransaction,
      PutWord(4, e.inputIndex, PutTable(e.prevouts, tail)))))
  }

  function PutContext(e: Envelope, tail: bytes): bytes {
    PutWord(4, e.chainHeight, PutWord(4, e.prevoutConfirmedHeight, PutWord(4, e.scriptFlags, tail)))
  }

  function PutHead(e: Envelope, tail: bytes): bytes {
    PutArray(MAGIC, PutWord(2, VERSION, PutArray([KindByte(e.evidence.Kind())],
      PutArray(e.networkGenesis, PutArray(e.contractNonce, PutArray(e.vtxoId, tail))))))
  }

  function PutEnvelope(e: Envelope, tail: bytes): bytes {
    PutHead(e, PutInputs(e, PutContext(e, PutEvidence(e.evidence, PutPins(e.pins, tail)))))
  }

  /** Parsers. */

  datatype Parsed<+T> = Took(value: T, rest: bytes) | Fault(error: EnvelopeError) {
    predicate IsFailure() { Fault? }

    function PropagateFailure<U>(): Parsed<U>
      requires Fault?
    {
      Fault(error)
    }

    function Extract(): (T, bytes)
      requires Took?
    {
      (value, rest)
    }

    // The same outcome with more bytes behind it.
    function Before(more: bytes): Parsed<T> {
      match this
      case Took(v, r) => Took(v, r + more)
      case Fault(e) => Fault(e)
    }
  }

  function ParseArray(n: nat, s: bytes): (p: Parsed<bytes>)
    ensures p.Took? ==> |p.value| == n
  {
    if n <= |s| then Took(s[..n], s[n..]) else Fault(UnexpectedEof)
  }

  function ParseWord(width: nat, s: bytes): (p: Parsed<nat>)
    ensures p.Took? ==> p.value < Pow256(width)
  {
    var (b, rest) :- ParseArray(width, s);
    Took(FromLE(b), rest)
  }

  function ParseU16(s: bytes): Parsed<u16> {
    WordSizes();
    var (n, rest) :- ParseWord(2, s);
    Took(n, rest)
  }

  function ParseU32(s: bytes): Parsed<u32> {
    WordSizes();
    var (n, rest) :- ParseWord(4, s);
    Took(n, rest)
  }

  function ParseU64(s: bytes): Parsed<u64> {
    WordSizes();
    var (n, rest) :- ParseWord(8, s);
    Took(n, rest)
  }

  function ParseCount(maximum: nat, field: Field, s: bytes): Parsed<nat> {
    var (n, rest) :- ParseU32(s);
    if n > maximum then Fault(Oversized(field)) else Took(n, rest)
  }

  function ParseBlob(maximum: nat, field: Field, s: bytes): Parsed<bytes> {
    var (n, rest) :- ParseCount(maximum, field, s);
    ParseArray(n, rest)
  }

  function ParseRow(field: Field, s: bytes): Parsed<Coin> {
    var (amount, s1) :- ParseU64(s);
    var (script, s2) :- ParseBlob(MAX_SCRIPT_BYTES, field, s1);
    Took(Coin(amount, script), s2)
  }

  function ParseRows(count: nat, field: Field, s: bytes): Parsed<seq<Coin>> {
    if count == 0 then Took([], s)
    else
      var (coin, s1) :- ParseRow(field, s);
      var (coins, s2) :- ParseRows(count - 1, field, s1);
      Took([coin] + coins, s2)
  }

  function ParseTable(maximum: nat, field: Field, rowField: Field, s: bytes): Parsed<seq<Coin>> {
    var (count, s1) :- ParseCount(maximum, field, s);
    ParseRows(count, rowField, s1)
  }

  function ParseEvidence(kind: ClaimKind, s: bytes): Parsed<RoleEvidence> {
    match kind
    case OwnerExitKind =>
      var (ownerXonly, s1) :- ParseArray(32, s);
      var (csvDelay, s2) :- ParseU32(s1);
      Took(OwnerExit(ownerXonly, csvDelay), s2)
    case VirtualCetKind =>
      var (eventId, s1) :- ParseArray(32, s);
      var (oracleXonly, s2) :- ParseArray(32, s1);
      var (announcement, s3) :- ParseArray(64, s2);
      var (attestation, s4) :- ParseArray(64, s3);
      var (outcome, s5) :- ParseBlob(MAX_OUTCOME_BYTES, OracleOutcome, s4);
      var (payouts, s6) :- ParseTable(MAX_PAYOUTS, Payouts, PayoutScript, s5);
      Took(VirtualCet(eventId, oracleXonly, announcement, attestation, outcome, payouts), s6)
  }

  function ParsePins(s: bytes): Parsed<ArtifactPins> {
    var (shinigami, s1) :- ParseArray(32, s);
    var (cairo, s2) :- ParseArray(32, s1);
    var (stwo, s3) :- ParseArray(32, s2);
    var (risc0, s4) :- ParseArray(32, s3);
    Took(ArtifactPins(shinigami, cairo, stwo, risc0), s4)
  }

  // The chain height, the height of the prevout's confirmation and the script flags.
  function ParseContext(s: bytes): Parsed<(u32, u32, u32)> {
    var (chainHeight, s1) :- ParseU32(s);
    var (confirmedHeight, s2) :- ParseU32(s1);
    var (flags, s3) :- ParseU32(s2);
    Took((chainHeight, confirmedHeight, flags), s3)
  }

  function ParseKind(s: bytes): Parsed<ClaimKind> {
    var (kind, rest) :- ParseArray(1, s);
    if kind[0] == 1 then Took(OwnerExitKind, rest)
    else if kind[0] == 2 then Took(VirtualCetKind, rest)
    else Fault(InvalidClaimKind(kind[0]))
  }

  function ParseHeader(s: bytes): Parsed<ClaimKind> {
    var (magic, s1) :- ParseArray(4, s);
    if magic != MAGIC then Fault(BadMagic) else
    var (version, s2) :- ParseU16(s1);
    if version != VERSION then Fault(UnsupportedVersion(version)) else
    ParseKind(s2)
  }

  function ParseBody(kind: ClaimKind, s: bytes): Parsed<Envelope> {
    var (genesis, s1) :- ParseArray(32, s);
    var (nonce, s2) :- ParseArray(32, s1);
    var (vtxoId, s3) :- ParseArray(36, s2);
    var (vtxo, s4) :- ParseBlob(MAX_VTXO_BYTES, Vtxo, s3);
    var (anchor, s5) :- ParseBlob(MAX_TRANSACTION_BYTES, AnchorTransaction, s4);
    var (spend, s6) :- ParseBlob(MAX_TRANSACTION_BYTES, SpendTransaction, s5);
    var (inputIndex, s7) :- ParseU32(s6);
    var (prevouts, s8) :- ParseTable(MAX_PREVOUTS, Prevouts, PrevoutScript, s7);
    var (context, s9) :- ParseContext(s8);
    var (evidence, s10) :- ParseEvidence(kind, s9);
    var (pins, s11) :- ParsePins(s10);
    Took(Envelope(genesis, nonce, vtxoId, vtxo, anchor, spend, inputIndex, prevouts,
                  context.0, context.1, context.2, evidence, pins), s11)
  }

  function ParseEnvelope(s: bytes): Parsed<Envelope> {
    var (kind, s1) :- ParseHeader(s);
    ParseBody(kind, s1)
  }
}
