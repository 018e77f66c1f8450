/** The codec as it runs: a reader with a moving offset and a growing output buffer. */
module EnvelopeCodec {
  import opened Prelude
  import opened LittleEndian
  import opened EnvelopeGrammar
  import opened EnvelopeLaws
  import opened EnvelopeStatements

  /** The limit checks, with their two loops over scripts. */

  method CheckScripts(coins: seq<Coin>, field: Field) returns (r: Outcome<EnvelopeError>)
    ensures r == if ScriptsFit(coins) then Pass else Fail(Oversized(field))
  {
    var i := 0;
    while i < |coins|
      invariant i <= |coins| && ScriptsFit(coins[..i])
    {
      if |coins[i].scriptPubkey| > MAX_SCRIPT_BYTES {
        return Fail(Oversized(field));
      }
      i := i + 1;
    }
    assert coins[..i] == coins;
    return Pass;
  }

  method ValidateLimits(e: Envelope) returns (r: Outcome<EnvelopeError>)
    ensures r == LimitCheck(e)
  {
    r := CheckLen(|e.protocolVtxo|, MAX_VTXO_BYTES, Vtxo);
    if r.Fail? { return; }
    r := CheckLen(|e.anchorTransaction|, MAX_TRANSACTION_BYTES, AnchorTransaction);
    if r.Fail? { return; }
    r := CheckLen(|e.spendTransaction|, MAX_TRANSACTION_BYTES, SpendTransaction);
    if r.Fail? { return; }
    r := CheckLen(|e.prevouts|, MAX_PREVOUTS, Prevouts);
    if r.Fail? { return; }
    r := CheckScripts(e.prevouts, PrevoutScript);
    if r.Fail? { return; }
    match e.evidence {
      case OwnerExit(_, _) =>
      case VirtualCet(_, _, _, _, outcome, payouts) =>
        r := CheckLen(|outcome|, MAX_OUTCOME_BYTES, OracleOutcome);
        if r.Fail? { return; }
        r := CheckLen(|payouts|, MAX_PAYOUTS, Payouts);
        if r.Fail? { return; }
        r := CheckScripts(payouts, PayoutScript);
    }
  }

  /** Reading. */

  // A read refines a parser when it returns what the parser returns and, on success,
  // leaves what the parser leaves.
  ghost predicate Refines<T>(r: Result<T, EnvelopeError>, left: bytes, p: Parsed<T>) {
    match p
    case Took(v, rest) => r == Success(v) && left == rest
    case Fault(e) => r == Failure(e)
  }

  // A parse that has already read `done`.
  ghost function Continue(done: seq<Coin>, p: Parsed<seq<Coin>>): Parsed<seq<Coin>> {
    match p
    case Took(more, rest) => Took(done + more, rest)
    case Fault(e) => Fault(e)
  }

  lemma ContinueTwice(done: seq<Coin>, coin: Coin, p: Parsed<seq<Coin>>)
    ensures Continue(done, Continue([coin], p)) == Continue(done + [coin], p)
  {
    if p.Took? {
      assert done + ([coin] + p.value) == done + [coin] + p.value;
    }
  }

  class Reader {
    const input: bytes
    var offset: nat

    ghost predicate Valid()
      reads this
    {
      offset <= |input|
    }

    ghost function Remaining(): bytes
      requires Valid()
      reads this
    {
      input[offset..]
    }

    constructor (input: bytes)
      ensures Valid() && this.input == input && Remaining() == input
    {
      this.input := input;
      offset := 0;
    }

    method IsFinished() returns (finished: bool)
      requires Valid()
      ensures finished <==> Remaining() == []
    {
      finished := offset == |input|;
    }

    method Take(len: nat) returns (r: Result<bytes, EnvelopeError>)
      requires Valid()
      modifies `offset
      ensures Valid() && old(offset) <= offset
      ensures Refines(r, Remaining(), ParseArray(len, old(Remaining())))
      ensures r.Failure? ==> offset == old(offset)
    {
      // An `offset + len` beyond the address space fails with the same error as one
      // beyond the input.
      var end := offset + len;
      if end > |input| {
        return Failure(UnexpectedEof);
      }
      var value := input[offset..end];
      assert value == Remaining()[..len] && input[end..] == Remaining()[len..];
      offset := end;
      return Success(value);
    }

    method U8() returns (r: Result<u8, EnvelopeError>)
      requires Valid()
      modifies `offset
      ensures Valid() && old(offset) <= offset
      ensures match ParseArray(1, old(Remaining()))
              case Took(b, rest) => r == Success(b[0]) && Remaining() == rest
              case Fault(e) => r == Failure(e)
    {
      var b :- Take(1);
      return Success(b[0]);
    }

    method U16() returns (r: Result<u16, EnvelopeError>)
      requires Valid()
      modifies `offset
      ensures Valid() && old(offset) <= offset
      ensures Refines(r, Remaining(), ParseU16(old(Remaining())))
    {
      WordSizes();
      var b :- Take(2);
      return Success(FromLE(b));
    }

    method U32() returns (r: Result<u32, EnvelopeError>)
      requires Valid()
      modifies `offset
      ensures Valid() && old(offset) <= offset
      ensures Refines(r, Remaining(), ParseU32(old(Remaining())))
    {
      WordSizes();
      var b :- Take(4);
      return Success(FromLE(b));
    }

    method U64() returns (r: Result<u64, EnvelopeError>)
      requires Valid()
      modifies `offset
      ensures Valid() && old(offset) <= offset
      ensures Refines(r, Remaining(), ParseU64(old(Remaining())))
    {
      WordSizes();
      var b :- Take(8);
      return Success(FromLE(b));
    }

    method Count(maximum: nat, field: Field) returns (r: Result<nat, EnvelopeError>)
      requires Valid()
      modifies `offset
      ensures Valid() && old(offset) <= offset
      ensures Refines(r, Remaining(), ParseCount(maximum, field, old(Remaining())))
    {
      var value :- U32();
      if value > maximum {
        return Failure(Oversized(field));
      }
      return Success(value);
    }

    method Bytes(maximum: nat, field: Field) returns (r: Result<bytes, EnvelopeError>)
      requires Valid()
      modifies `offset
      ensures Valid() && old(offset) <= offset
      ensures Refines(r, Remaining(), ParseBlob(maximum, field, old(Remaining())))
    {
      var len :- Count(maximum, field);
      r := Take(len);
    }

    method Row(field: Field) returns (r: Result<Coin, EnvelopeError>)
      requires Valid()
      modifies `offset
      ensures Valid() && old(offset) <= offset
      ensures Refines(r, Remaining(), ParseRow(field, old(Remaining())))
    {
      hide ParseU64, ParseBlob;
      var amount :- U64();
      var script :- Bytes(MAX_SCRIPT_BYTES, field);
      return Success(Coin(amount, script));
    }

    // The counted loop that reads prevouts and, in the other role, payouts.
    method Coins(maximum: nat, field: Field, rowField: Field) returns (r: Result<seq<Coin>, EnvelopeError>)
      requires Valid()
      modifies `offset
      ensures Valid() && old(offset) <= offset
      ensures Refines(r, Remaining(), ParseTable(maximum, field, rowField, old(Remaining())))
    {
      hide ParseRow, ParseCount;
      var count :- Count(maximum, field);
      ghost var start := Remaining();
      var coins: seq<Coin> := [];
      assert forall more: seq<Coin> :: [] + more == more;
      while |coins| < count
        invariant Valid() && old(offset) <= offset && |coins| <= count
        invariant ParseRows(count, rowField, start)
               == Continue(coins, ParseRows(count - |coins|, rowField, Remaining()))
      {
        ghost var left := count - |coins|;
        var coin :- Row(rowField);
        ContinueTwice(coins, coin, ParseRows(left - 1, rowField, Remaining()));
        coins := coins + [coin];
      }
      assert coins + [] == coins;
      return Success(coins);
    }
  }

  method DecodeEvidence(kind: ClaimKind, reader: Reader) returns (r: Result<RoleEvidence, EnvelopeError>)
    requires reader.Valid()
    modifies reader`offset
    ensures reader.Valid() && old(reader.offset) <= reader.offset
    ensures Refines(r, reader.Remaining(), ParseEvidence(kind, old(reader.Remaining())))
  {
    hide ParseArray, ParseU32, ParseBlob, ParseTable;
    match kind {
      case OwnerExitKind =>
        var ownerXonly :- reader.Take(32);
        var csvDelay :- reader.U32();
        return Success(OwnerExit(ownerXonly, csvDelay));
      case VirtualCetKind =>
        var eventId :- reader.Take(32);
        var oracleXonly :- reader.Take(32);
        var announcement :- reader.Take(64);
        var attestation :- reader.Take(64);
        var outcome :- reader.Bytes(MAX_OUTCOME_BYTES, OracleOutcome);
        var payouts :- reader.Coins(MAX_PAYOUTS, Payouts, PayoutScript);
        return Success(VirtualCet(eventId, oracleXonly, announcement, attestation, outcome, payouts));
    }
  }

  method DecodeContext(reader: Reader) returns (r: Result<(u32, u32, u32), EnvelopeError>)
    requires reader.Valid()
    modifies reader`offset
    ensures reader.Valid() && old(reader.offset) <= reader.offset
    ensures Refines(r, reader.Remaining(), ParseContext(old(reader.Remaining())))
  {
    hide ParseU32;
    var chainHeight :- reader.U32();
    var confirmedHeight :- reader.U32();
    var flags :- reader.U32();
    return Success((chainHeight, confirmedHeight, flags));
  }

  method DecodePins(reader: Reader) returns (r: Result<ArtifactPins, EnvelopeError>)
    requires reader.Valid()
    modifies reader`offset
    ensures reader.Valid() && old(reader.offset) <= reader.offset
    ensures Refines(r, reader.Remaining(), ParsePins(old(reader.Remaining())))
  {
    hide ParseArray;
    var shinigami :- reader.Take(32);
    var cairo :- reader.Take(32);
    var stwo :- reader.Take(32);
    var risc0 :- reader.Take(32);
    return Success(ArtifactPins(shinigami, cairo, stwo, risc0));
  }

  method DecodeHeader(reader: Reader) returns (r: Result<ClaimKind, EnvelopeError>)
    requires reader.Valid()
    modifies reader`offset
    ensures reader.Valid() && old(reader.offset) <= reader.offset
    ensures Refines(r, reader.Remaining(), ParseHeader(old(reader.Remaining())))
  {
    hide ParseArray, ParseU16;
    var magic :- reader.Take(4);
    if magic != MAGIC {
      return Failure(BadMagic);
    }
    var version :- reader.U16();
    if version != VERSION {
      return Failure(UnsupportedVersion(version));
    }
    var kind :- reader.U8();
    match kind {
      case 1 => return Success(OwnerExitKind);
      case 2 => return Success(VirtualCetKind);
      case _ => return Failure(InvalidClaimKind(kind));
    }
  }

  method DecodeBody(kind: ClaimKind, reader: Reader) returns (r: Result<Envelope, EnvelopeError>)
    requires reader.Valid()
    modifies reader`offset
    ensures reader.Valid() && old(reader.offset) <= reader.offset
    ensures Refines(r, reader.Remaining(), ParseBody(kind, old(reader.Remaining())))
  {
    hide ParseArray, ParseU32, ParseBlob, ParseTable, ParseContext, ParseEvidence, ParsePins;
    var genesis :- reader.Take(32);
    var nonce :- reader.Take(32);
    var vtxoId :- reader.Take(36);
    var vtxo :- reader.Bytes(MAX_VTXO_BYTES, Vtxo);
    var anchor :- reader.Bytes(MAX_TRANSACTION_BYTES, AnchorTransaction);
    var spend :- reader.Bytes(MAX_TRANSACTION_BYTES, SpendTransaction);
    var inputIndex :- reader.U32();
    var prevouts :- reader.Coins(MAX_PREVOUTS, Prevouts, PrevoutScript);
    var context :- DecodeContext(reader);
    var evidence :- DecodeEvidence(kind, reader);
    var pins :- DecodePins(reader);
    return Success(Envelope(genesis, nonce, vtxoId, vtxo, anchor, spend, inputIndex, prevouts,
                            context.0, context.1, context.2, evidence, pins));
  }

  method Decode(encoded: bytes) returns (r: Result<Envelope, EnvelopeError>)
    ensures r == Decoded(encoded)
  {
    hide ParseHeader, ParseBody, LimitCheck;
    if |encoded| > MAX_ENVELOPE_BYTES {
      return Failure(Oversized(WholeEnvelope));
    }
    var reader := new Reader(encoded);
    var kind :- DecodeHeader(reader);
    var envelope :- DecodeBody(kind, reader);
    var finished := reader.IsFinished();
    if !finished {
      return Failure(TrailingBytes);
    }
    var limits := ValidateLimits(envelope);
    if limits.Fail? {
      return Failure(limits.error);
    }
    return Success(envelope);
  }

  lemma PutRowAppends(coin: Coin, t: bytes)
    ensures PutRow(coin, []) + t == PutRow(coin, t)
  {
    hide PutWord, PutBlob;
    FieldsAppend(t);
    assert [] + t == t;
  }

  lemma PutWordAppends(width: nat, n: nat, t: bytes)
    ensures PutWord(width, n, []) + t == PutWord(width, n, t)
  {
  }

  /** The output buffer. */
  class Buffer {
    var data: bytes

    constructor ()
      ensures data == []
    {
      data := [];
    }

    method Extend(v: bytes)
      modifies this
      ensures data == old(data) + v
    {
      data := data + v;
    }

    method PutInt(width: nat, n: nat)
      modifies this
      ensures data == old(data) + PutWord(width, n, [])
    {
      data := data + ToLE(width, n);
    }

    // The `usize` to `u32` conversion in front of every length.
    method PutLength(n: nat) returns (r: Outcome<EnvelopeError>)
      modifies this
      ensures n < U32_LIMIT ==> r == Pass && data == old(data) + PutWord(4, n, [])
      ensures n >= U32_LIMIT ==> r == Fail(LengthOverflow) && data == old(data)
    {
      if n >= U32_LIMIT {
        return Fail(LengthOverflow);
      }
      PutInt(4, n);
      return Pass;
    }

    method PutBytes(v: bytes) returns (r: Outcome<EnvelopeError>)
      modifies this
      ensures |v| < U32_LIMIT ==> r == Pass && data == old(data) + PutBlob(v, [])
      ensures |v| >= U32_LIMIT ==> r == Fail(LengthOverflow) && data == old(data)
    {
      r := PutLength(|v|);
      if r.Fail? { return; }
      Extend(v);
      FieldsAppend(v);
      assert [] + v == PutArray(v, []);
    }

    method PutCoin(coin: Coin) returns (r: Outcome<EnvelopeError>)
      requires |coin.scriptPubkey| < U32_LIMIT
      modifies this
      ensures r == Pass && data == old(data) + PutRow(coin, [])
    {
      hide PutBlob;
      PutInt(8, coin.amountSats);
      r := PutBytes(coin.scriptPubkey);
      PutWordAppends(8, coin.amountSats, PutBlob(coin.scriptPubkey, []));
    }

    method PutCoins(coins: seq<Coin>) returns (r: Outcome<EnvelopeError>)
      requires |coins| < U32_LIMIT && ScriptsFit(coins)
      modifies this
      ensures r == Pass && data == old(data) + PutTable(coins, [])
    {
      hide PutWord, PutRow;
      r := PutLength(|coins|);
      ghost var start := data;
      var i := 0;
      while i < |coins|
        invariant i <= |coins| && r == Pass
        invariant start + PutRows(coins, []) == data + PutRows(coins[i..], [])
      {
        ghost var before, rest := data, PutRows(coins[i + 1..], []);
        r := PutCoin(coins[i]);
        PutRowAppends(coins[i], rest);
        assert before + PutRow(coins[i], rest) == data + rest;
        i := i + 1;
      }
      assert data + [] == data;
      PutWordAppends(4, |coins|, PutRows(coins, []));
    }
  }

  lemma Reassociate3(a: bytes, b: bytes, c: bytes, d: bytes)
    ensures a + b + c + d == a + (b + (c + d))
  {
  }

  lemma Reassociate5(a: bytes, b: bytes, c: bytes, d: bytes, e: bytes, f: bytes)
    ensures a + b + c + d + e + f == a + (b + (c + (d + (e + f))))
  {
  }

  // A field printed in front of a tail is the field followed by the tail.
  lemma PrintsAppend()
    ensures forall v: bytes, t: bytes {:trigger PutBlob(v, t)} :: PutBlob(v, t) == PutBlob(v, []) + t
    ensures forall w: nat, n: nat, t: bytes {:trigger PutWord(w, n, t)} :: PutWord(w, n, t) == PutWord(w, n, []) + t
  {
    forall v: bytes, t: bytes ensures PutBlob(v, t) == PutBlob(v, []) + t {
      FieldsAppend(t);
      assert [] + t == t;
    }
    forall w: nat, n: nat, t: bytes ensures PutWord(w, n, t) == PutWord(w, n, []) + t {
    }
  }

  /** Each part of the statement appends what the grammar prints for it. */

  method EncodeInputs(e: Envelope, out: Buffer) returns (r: Outcome<EnvelopeError>)
    requires Fits(e)
    modifies out
    ensures r == Pass && out.data == old(out.data) + PutInputs(e, [])
  {
    hide PutWord, PutArray, PutBlob, PutTable;
    ghost var before := out.data;
    r := out.PutBytes(e.protocolVtxo);
    r := out.PutBytes(e.anchorTransaction);
    r := out.PutBytes(e.spendTransaction);
    out.PutInt(4, e.inputIndex);
    r := out.PutCoins(e.prevouts);
    var coins := PutTable(e.prevouts, []);
    Reassociate5(before, PutBlob(e.protocolVtxo, []), PutBlob(e.anchorTransaction, []),
                 PutBlob(e.spendTransaction, []), PutWord(4, e.inputIndex, []), coins);
    PrintsAppend();
  }

  method EncodeContext(e: Envelope, out: Buffer)
    modifies out
    ensures out.data == old(out.data) + PutContext(e, [])
  {
    hide PutWord;
    ghost var before := out.data;
    out.PutInt(4, e.chainHeight);
    out.PutInt(4, e.prevoutConfirmedHeight);
    out.PutInt(4, e.scriptFlags);
    Reassociate3(before, PutWord(4, e.chainHeight, []), PutWord(4, e.prevoutConfirmedHeight, []),
                 PutWord(4, e.scriptFlags, []));
    PrintsAppend();
  }

  method EncodeEvidence(evidence: RoleEvidence, out: Buffer) returns (r: Outcome<EnvelopeError>)
    requires EvidenceFits(evidence)
    modifies out
    ensures r == Pass && out.data == old(out.data) + PutEvidence(evidence, [])
  {
    hide PutWord, PutBlob, PutTable;
    ghost var before := out.data;
    match evidence {
      case OwnerExit(ownerXonly, csvDelay) =>
        out.Extend(ownerXonly);
        out.PutInt(4, csvDelay);
        r := Pass;
      case VirtualCet(eventId, oracleXonly, announcement, attestation, outcome, payouts) =>
        out.Extend(eventId);
        out.Extend(oracleXonly);
        out.Extend(announcement);
        out.Extend(attestation);
        r := out.PutBytes(outcome);
        r := out.PutCoins(payouts);
        Reassociate5(before + eventId, oracleXonly, announcement, attestation,
                     PutBlob(outcome, []), PutTable(payouts, []));
        PrintsAppend();
    }
  }

  method EncodeHead(e: Envelope, out: Buffer)
    modifies out
    ensures out.data == old(out.data) + PutHead(e, [])
  {
    hide PutWord;
    ghost var before := out.data;
    out.Extend(MAGIC);
    out.PutInt(2, VERSION);
    out.Extend([KindByte(e.evidence.Kind())]);
    out.Extend(e.networkGenesis);
    out.Extend(e.contractNonce);
    out.Extend(e.vtxoId);
    Reassociate5(before + MAGIC, PutWord(2, VERSION, []), [KindByte(e.evidence.Kind())],
                 e.networkGenesis, e.contractNonce, e.vtxoId);
    PrintsAppend();
  }

  method EncodePins(pins: ArtifactPins, out: Buffer)
    modifies out
    ensures out.data == old(out.data) + PutPins(pins, [])
  {
    out.Extend(pins.shinigamiProgram);
    out.Extend(pins.cairoProgram);
    out.Extend(pins.stwoPolicy);
    out.Extend(pins.risc0ImageId);
  }

  lemma PartsAppend(e: Envelope)
    ensures [] + PutHead(e, []) + PutInputs(e, []) + PutContext(e, [])
            + PutEvidence(e.evidence, []) + PutPins(e.pins, [])
         == PutEnvelope(e, [])
  {
    hide PutArray, PutWord, PutBlob, PutTable, PutEvidence, PutPins;
    var pins := PutPins(e.pins, []);
    var evidence := PutEvidence(e.evidence, pins);
    EvidenceAppends(e.evidence, [], pins);
    assert [] + pins == pins;
    var context := PutContext(e, evidence);
    FieldsAppend(evidence);
    assert [] + evidence == evidence;
    var inputs := PutInputs(e, context);
    FieldsAppend(context);
    TableAppends(e.prevouts, [], context);
    assert [] + context == context;
    FieldsAppend(inputs);
    assert [] + inputs == inputs;
    Reassociate5([], PutHead(e, []), PutInputs(e, []), PutContext(e, []), PutEvidence(e.evidence, []), pins);
    assert [] + PutHead(e, inputs) == PutHead(e, inputs);
  }

  method Encode(e: Envelope) returns (r: Result<bytes, EnvelopeError>)
    ensures r == Encoded(e)
  {
    assert Fits(e) ==> EvidenceFits(e.evidence);
    hide LimitCheck, Fits, PutHead, PutInputs, PutContext, PutEvidence, PutPins;
    LimitCheckIsFits(e);
    var limits := ValidateLimits(e);
    if limits.Fail? {
      return Failure(limits.error);
    }
    var out := new Buffer();
    EncodeHead(e, out);
    var _ := EncodeInputs(e, out);
    EncodeContext(e, out);
    var _ := EncodeEvidence(e.evidence, out);
    EncodePins(e.pins, out);
    PartsAppend(e);
    if |out.data| > MAX_ENVELOPE_BYTES {
      return Failure(Oversized(WholeEnvelope));
    }
    return Success(out.data);
  }
}
