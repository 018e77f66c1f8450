/** The wire format as one picture: every byte of an encoded statement, at its literal place. */
module EnvelopeLayout {
  import opened Prelude
  import opened LittleEndian
  import opened EnvelopeGrammar
  import opened EnvelopeLaws
  import opened EnvelopeStatements

  function Word16(n: u16): bytes {
    [n % 256, n / 256]
  }

  function Word32(n: u32): bytes {
    [n % 256, n / 256 % 256, n / 65536 % 256, n / 16777216]
  }

  function Word64(n: u64): bytes {
    [n % 256, n / 256 % 256, n / 65536 % 256, n / 16777216 % 256] + Word32(n / 4294967296)
  }

  // Four bytes of length, then the bytes.
  function Counted(b: bytes): bytes
    requires |b| < 4294967296
  {
    Word32(|b|) + b
  }

  // An amount and a script for each row.
  function Rows(coins: seq<Coin>): bytes
    requires forall i :: 0 <= i < |coins| ==> |coins[i].scriptPubkey| <= 10000
  {
    if coins == [] then [] else Word64(coins[0].amountSats) + Counted(coins[0].scriptPubkey) + Rows(coins[1..])
  }

  function Table(coins: seq<Coin>): bytes
    requires |coins| <= 4096 && forall i :: 0 <= i < |coins| ==> |coins[i].scriptPubkey| <= 10000
  {
    Word32(|coins|) + Rows(coins)
  }

  // The limits of the format.
  ghost predicate WithinLimits(e: Envelope) {
    && |e.protocolVtxo| <= 1048576 && |e.anchorTransaction| <= 4194304 && |e.spendTransaction| <= 4194304
    && |e.prevouts| <= 4096 && (forall i :: 0 <= i < |e.prevouts| ==> |e.prevouts[i].scriptPubkey| <= 10000)
    && (e.evidence.VirtualCet? ==>
          && |e.evidence.outcome| <= 256 && |e.evidence.payouts| <= 4096
          && forall i :: 0 <= i < |e.evidence.payouts| ==> |e.evidence.payouts[i].scriptPubkey| <= 10000)
  }

  function Evidence(r: RoleEvidence): bytes
    requires r.VirtualCet? ==>
          && |r.outcome| <= 256 && |r.payouts| <= 4096
          && forall i :: 0 <= i < |r.payouts| ==> |r.payouts[i].scriptPubkey| <= 10000
  {
    match r
    case OwnerExit(ownerXonly, csvDelay) => ownerXonly + Word32(csvDelay)
    case VirtualCet(eventId, oracleXonly, announcement, attestation, outcome, payouts) =>
      eventId + oracleXonly + announcement + attestation + Counted(outcome) + Table(payouts)
  }

  // "BZBV", version 1, then 1 for an owner exit or 2 for a virtual CET, and the identities.
  function Front(e: Envelope): bytes {
    [0x42, 0x5A, 0x42, 0x56, 1, 0, if e.evidence.OwnerExit? then 1 else 2]
    + e.networkGenesis + e.contractNonce + e.vtxoId
  }

  ghost function Middle(e: Envelope): bytes
    requires WithinLimits(e)
  {
    Counted(e.protocolVtxo) + Counted(e.anchorTransaction) + Counted(e.spendTransaction)
    + Word32(e.inputIndex) + Table(e.prevouts)
    + Word32(e.chainHeight) + Word32(e.prevoutConfirmedHeight) + Word32(e.scriptFlags)
    + Evidence(e.evidence)
  }

  function Back(e: Envelope): bytes {
    e.pins.shinigamiProgram + e.pins.cairoProgram + e.pins.stwoPolicy + e.pins.risc0ImageId
  }

  ghost function Wire(e: Envelope): bytes
    requires WithinLimits(e)
  {
    Front(e) + Middle(e) + Back(e)
  }

  /** Words. */

  lemma WordsAreLittleEndian(n: nat)
    ensures n < 65536 ==> ToLE(2, n) == Word16(n)
    ensures n < 4294967296 ==> ToLE(4, n) == Word32(n)
  {
    assert ToLE(0, n / 256 / 256) == [];
    assert ToLE(1, n / 256) == [n / 256 % 256];
    assert ToLE(0, n / 256 / 256 / 256 / 256) == [];
    assert ToLE(1, n / 256 / 256 / 256) == [n / 256 / 256 / 256 % 256];
    assert ToLE(2, n / 256 / 256) == [n / 256 / 256 % 256, n / 256 / 256 / 256 % 256];
    assert ToLE(3, n / 256) == [n / 256 % 256, n / 256 / 256 % 256, n / 256 / 256 / 256 % 256];
  }

  lemma FourBytes(width: nat, n: nat)
    ensures ToLE(width + 4, n)
         == [n % 256, n / 256 % 256, n / 65536 % 256, n / 16777216 % 256] + ToLE(width, n / 4294967296)
  {
    var n1 := n / 256;
    var n2 := n1 / 256;
    var n3 := n2 / 256;
    assert n2 == n / 65536 && n3 == n / 16777216 && n3 / 256 == n / 4294967296;
    assert ToLE(width + 1, n3) == [n3 % 256] + ToLE(width, n3 / 256);
    assert ToLE(width + 2, n2) == [n2 % 256] + ToLE(width + 1, n3);
    assert ToLE(width + 3, n1) == [n1 % 256] + ToLE(width + 2, n2);
  }

  lemma LongWord(n: u64)
    ensures ToLE(8, n) == Word64(n)
  {
    FourBytes(4, n);
    WordsAreLittleEndian(n / 4294967296);
  }

  /** Printers write these pieces in front of what follows. */

  lemma BlobIsPut(b: bytes, tail: bytes)
    requires |b| < 4294967296
    ensures PutBlob(b, tail) == Counted(b) + tail
  {
    hide ToLE, Word32;
    WordsAreLittleEndian(|b|);
    assert Counted(b) + tail == Word32(|b|) + (b + tail);
  }

  lemma RowIsPut(coin: Coin, tail: bytes)
    requires |coin.scriptPubkey| <= 10000
    ensures PutRow(coin, tail) == Word64(coin.amountSats) + (Counted(coin.scriptPubkey) + tail)
  {
    LongWord(coin.amountSats);
    hide ToLE, Word64, PutBlob, Counted;
    BlobIsPut(coin.scriptPubkey, tail);
  }

  lemma {:induction false} RowsArePut(coins: seq<Coin>, tail: bytes)
    requires forall i :: 0 <= i < |coins| ==> |coins[i].scriptPubkey| <= 10000
    ensures PutRows(coins, tail) == Rows(coins) + tail
  {
    hide PutRow, Word64, Counted;
    if coins != [] {
      RowsArePut(coins[1..], tail);
      var rest := Rows(coins[1..]) + tail;
      RowIsPut(coins[0], rest);
      var amount, script := Word64(coins[0].amountSats), Counted(coins[0].scriptPubkey);
      assert amount + (script + rest) == amount + script + Rows(coins[1..]) + tail;
    }
  }

  lemma TableIsPut(coins: seq<Coin>, tail: bytes)
    requires |coins| <= 4096 && forall i :: 0 <= i < |coins| ==> |coins[i].scriptPubkey| <= 10000
    ensures PutTable(coins, tail) == Table(coins) + tail
  {
    hide Rows, PutRows, ToLE, Word32;
    RowsArePut(coins, tail);
    WordsAreLittleEndian(|coins|);
    assert Table(coins) + tail == Word32(|coins|) + (Rows(coins) + tail);
  }

  lemma WordIsPut(n: u32, tail: bytes)
    ensures PutWord(4, n, tail) == Word32(n) + tail
  {
    hide ToLE, Word32;
    WordsAreLittleEndian(n);
  }

  lemma FrontIsPut(e: Envelope, tail: bytes)
    ensures PutHead(e, tail) == Front(e) + tail
  {
    WordsAreLittleEndian(1);
    assert Word16(1) == [1, 0];
    hide ToLE;
    var kind: u8 := if e.evidence.OwnerExit? then 1 else 2;
    var ids := e.networkGenesis + e.contractNonce + e.vtxoId + tail;
    assert e.networkGenesis + (e.contractNonce + (e.vtxoId + tail)) == ids;
    var magic: bytes := [0x42, 0x5A, 0x42, 0x56];
    var version: bytes, one: bytes := [1, 0], [kind];
    assert PutHead(e, tail) == magic + (version + (one + ids));
    assert magic + version + one == [0x42, 0x5A, 0x42, 0x56, 1, 0, kind];
    assert magic + (version + (one + ids)) == magic + version + one + ids;
  }

  lemma BackIsPut(e: Envelope, tail: bytes)
    ensures PutPins(e.pins, tail) == Back(e) + tail
  {
  }

  lemma EvidenceIsPut(e: Envelope, tail: bytes)
    requires WithinLimits(e)
    ensures PutEvidence(e.evidence, tail) == Evidence(e.evidence) + tail
  {
    hide PutTable, PutBlob, Table, Counted, PutWord, Word32;
    match e.evidence
    case OwnerExit(ownerXonly, csvDelay) =>
      WordIsPut(csvDelay, tail);
      assert ownerXonly + (Word32(csvDelay) + tail) == ownerXonly + Word32(csvDelay) + tail;
    case VirtualCet(eventId, oracleXonly, announcement, attestation, outcome, payouts) =>
      TableIsPut(payouts, tail);
      BlobIsPut(outcome, Table(payouts) + tail);
      var settlement := Counted(outcome) + (Table(payouts) + tail);
      assert PutSettlement(outcome, payouts, tail) == settlement;
      assert announcement + (attestation + settlement) == announcement + attestation + settlement;
  }

  lemma FiveJoin(a: bytes, b: bytes, c: bytes, d: bytes, e: bytes, tail: bytes)
    ensures a + (b + (c + (d + (e + tail)))) == a + b + c + d + e + tail
  {
    assert c + (d + (e + tail)) == c + d + e + tail;
    assert a + (b + (c + d + e + tail)) == a + b + (c + d + e + tail);
    assert a + b + (c + d + e + tail) == a + b + c + d + e + tail;
  }

  lemma InputsArePut(e: Envelope, tail: bytes)
    requires WithinLimits(e)
    ensures PutInputs(e, tail)
         == Counted(e.protocolVtxo) + Counted(e.anchorTransaction) + Counted(e.spendTransaction)
          + Word32(e.inputIndex) + Table(e.prevouts) + tail
  {
    hide PutTable, PutBlob, Table, Counted, PutWord, Word32;
    TableIsPut(e.prevouts, tail);
    var rest := Table(e.prevouts) + tail;
    WordIsPut(e.inputIndex, rest);
    BlobIsPut(e.spendTransaction, Word32(e.inputIndex) + rest);
    BlobIsPut(e.anchorTransaction, Counted(e.spendTransaction) + (Word32(e.inputIndex) + rest));
    BlobIsPut(e.protocolVtxo,
              Counted(e.anchorTransaction) + (Counted(e.spendTransaction) + (Word32(e.inputIndex) + rest)));
    FiveJoin(Counted(e.protocolVtxo), Counted(e.anchorTransaction), Counted(e.spendTransaction),
             Word32(e.inputIndex), Table(e.prevouts), tail);
  }

  lemma ContextIsPut(e: Envelope, tail: bytes)
    ensures PutContext(e, tail)
         == Word32(e.chainHeight) + Word32(e.prevoutConfirmedHeight) + Word32(e.scriptFlags) + tail
  {
    hide PutWord, Word32;
    WordIsPut(e.scriptFlags, tail);
    WordIsPut(e.prevoutConfirmedHeight, Word32(e.scriptFlags) + tail);
    WordIsPut(e.chainHeight, Word32(e.prevoutConfirmedHeight) + (Word32(e.scriptFlags) + tail));
  }

  lemma FourJoin(a: bytes, b: bytes, c: bytes, d: bytes)
    ensures a + (b + c + d) == a + b + c + d
  {
  }

  lemma WireIsPut(e: Envelope)
    requires WithinLimits(e)
    ensures PutEnvelope(e, []) == Wire(e)
  {
    hide PutTable, PutBlob, Table, Counted, PutWord, Word32, PutHead, PutInputs, PutContext, PutEvidence, PutPins,
      Front, Back, Evidence;
    var back := Back(e);
    BackIsPut(e, []);
    assert back + [] == back;
    EvidenceIsPut(e, back);
    var behind := Evidence(e.evidence) + back;
    ContextIsPut(e, behind);
    var context := Word32(e.chainHeight) + Word32(e.prevoutConfirmedHeight) + Word32(e.scriptFlags);
    InputsArePut(e, context + behind);
    var inputs := Counted(e.protocolVtxo) + Counted(e.anchorTransaction) + Counted(e.spendTransaction)
                + Word32(e.inputIndex) + Table(e.prevouts);
    FrontIsPut(e, inputs + (context + behind));
    assert Middle(e) == inputs + context + Evidence(e.evidence) by {
      FourJoin(inputs, Word32(e.chainHeight), Word32(e.prevoutConfirmedHeight), Word32(e.scriptFlags));
    }
    assert inputs + (context + behind) == inputs + context + Evidence(e.evidence) + back;
    assert Front(e) + (Middle(e) + back) == Front(e) + Middle(e) + back;
  }

  /** Encoding writes exactly these bytes, for exactly the statements within the limits whose bytes
      are at most 16 MiB. */
  lemma EncodedLayout(e: Envelope, b: bytes)
    ensures Encoded(e) == Success(b) <==> WithinLimits(e) && b == Wire(e) && |b| <= 16777216
  {
    hide PutEnvelope, Wire, LimitCheck;
    LimitCheckIsFits(e);
    assert Fits(e) <==> WithinLimits(e);
    if WithinLimits(e) {
      WireIsPut(e);
    }
  }

  lemma FrontOffsets(e: Envelope)
    ensures var f := Front(e);
            && |f| == 107
            && f[0..7] == [0x42, 0x5A, 0x42, 0x56, 1, 0, if e.evidence.OwnerExit? then 1 else 2]
            && f[7..39] == e.networkGenesis && f[39..71] == e.contractNonce && f[71..107] == e.vtxoId
  {
  }

  lemma BackOffsets(e: Envelope)
    ensures var p := Back(e);
            && |p| == 128
            && p[0..32] == e.pins.shinigamiProgram && p[32..64] == e.pins.cairoProgram
            && p[64..96] == e.pins.stwoPolicy && p[96..128] == e.pins.risc0ImageId
  {
  }

  // The pieces at the two ends of a string.
  lemma Ends(front: bytes, middle: bytes, back: bytes)
    requires |front| == 107 && |back| == 128
    ensures var b := front + middle + back;
            && |b| >= 235
            && b[..7] == front[0..7] && b[7..39] == front[7..39] && b[39..71] == front[39..71]
            && b[71..107] == front[71..107]
            && b[|b| - 128..|b| - 96] == back[0..32] && b[|b| - 96..|b| - 64] == back[32..64]
            && b[|b| - 64..|b| - 32] == back[64..96] && b[|b| - 32..] == back[96..128]
  {
  }

  /** The fixed places of a decodable string: the header, the identities behind it, and the four
      pins at its end. */
  lemma FixedOffsets(b: bytes)
    requires Decoded(b).Success?
    ensures var e := Decoded(b).value;
            && |b| >= 235
            && b[..7] == [0x42, 0x5A, 0x42, 0x56, 1, 0, if e.evidence.OwnerExit? then 1 else 2]
            && b[7..39] == e.networkGenesis && b[39..71] == e.contractNonce && b[71..107] == e.vtxoId
            && b[|b| - 128..|b| - 96] == e.pins.shinigamiProgram && b[|b| - 96..|b| - 64] == e.pins.cairoProgram
            && b[|b| - 64..|b| - 32] == e.pins.stwoPolicy && b[|b| - 32..] == e.pins.risc0ImageId
  {
    var e := Decoded(b).value;
    hide Encoded, Decoded, WithinLimits, Middle, Front, Back;
    CodecIsABijection(e, b);
    EncodedLayout(e, b);
    var front, middle, back := Front(e), Middle(e), Back(e);
    FrontOffsets(e);
    BackOffsets(e);
    assert b == front + middle + back;
    hide Wire;
    Ends(front, middle, back);
  }
}
