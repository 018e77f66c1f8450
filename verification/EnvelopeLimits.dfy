/** Statements and inputs at and beyond the limits: what the parsers make of printed lengths that
    exceed a limit, how many bytes they can ask for, and which inputs begin a statement. */
module EnvelopeLimits {
  import opened Prelude
  import opened LittleEndian
  import opened EnvelopeGrammar
  import opened EnvelopeLaws

  /** What the parsers make of lengths beyond a limit that 32 bits still hold. */

  ghost predicate ScriptsRepresentable(coins: seq<Coin>) {
    forall i :: 0 <= i < |coins| ==> |coins[i].scriptPubkey| < U32_LIMIT
  }

  ghost predicate EvidenceRepresentable(evidence: RoleEvidence) {
    evidence.VirtualCet? ==>
      && |evidence.outcome| < U32_LIMIT
      && |evidence.payouts| < U32_LIMIT && ScriptsRepresentable(evidence.payouts)
  }

  // Every length fits its length word.
  ghost predicate Representable(e: Envelope) {
    && |e.protocolVtxo| < U32_LIMIT && |e.anchorTransaction| < U32_LIMIT && |e.spendTransaction| < U32_LIMIT
    && |e.prevouts| < U32_LIMIT && ScriptsRepresentable(e.prevouts)
    && EvidenceRepresentable(e.evidence)
  }

  lemma BlobLimit()
    ensures forall m: nat, f: Field, v: bytes, t: bytes {:trigger ParseBlob(m, f, PutBlob(v, t))} ::
              m < |v| < U32_LIMIT ==> ParseBlob(m, f, PutBlob(v, t)) == Fault(Oversized(f))
  {
    WordRoundTrip();
    WordSizes();
  }

  lemma RowLimit(f: Field, coin: Coin, t: bytes)
    requires MAX_SCRIPT_BYTES < |coin.scriptPubkey| < U32_LIMIT
    ensures ParseRow(f, PutRow(coin, t)) == Fault(Oversized(f))
  {
    hide PutWord, ParseWord, PutBlob, ParseBlob;
    WordRoundTrip();
    WordSizes();
    BlobLimit();
  }

  lemma {:induction false} RowsLimit(f: Field, coins: seq<Coin>, t: bytes)
    requires ScriptsRepresentable(coins) && !ScriptsFit(coins)
    ensures ParseRows(|coins|, f, PutRows(coins, t)) == Fault(Oversized(f))
  {
    hide PutRow, ParseRow;
    assert coins != [];
    var rest := PutRows(coins[1..], t);
    if |coins[0].scriptPubkey| <= MAX_SCRIPT_BYTES {
      RowRoundTrip(f, coins[0], rest);
      RowsLimit(f, coins[1..], t);
    } else {
      RowLimit(f, coins[0], rest);
    }
  }

  lemma TableLimit()
    ensures forall m: nat, f: Field, g: Field, coins: seq<Coin>, t: bytes
                {:trigger ParseTable(m, f, g, PutTable(coins, t))} ::
              m < U32_LIMIT && |coins| < U32_LIMIT && ScriptsRepresentable(coins) && !TableFits(m, coins) ==>
                ParseTable(m, f, g, PutTable(coins, t)) == Fault(Oversized(if |coins| > m then f else g))
  {
    forall m: nat, f: Field, g: Field, coins: seq<Coin>, t: bytes
      | m < U32_LIMIT && |coins| < U32_LIMIT && ScriptsRepresentable(coins) && !TableFits(m, coins)
      ensures ParseTable(m, f, g, PutTable(coins, t)) == Fault(Oversized(if |coins| > m then f else g))
    {
      hide PutWord, ParseWord;
      WordRoundTrip();
      WordSizes();
      if |coins| <= m {
        RowsLimit(g, coins, t);
      }
    }
  }

  lemma EvidenceLimit(evidence: RoleEvidence, t: bytes)
    requires EvidenceRepresentable(evidence) && !EvidenceFits(evidence)
    ensures ParseEvidence(VirtualCetKind, PutEvidence(evidence, t))
         == Fault(Oversized(if |evidence.outcome| > MAX_OUTCOME_BYTES then OracleOutcome
                            else if |evidence.payouts| > MAX_PAYOUTS then Payouts else PayoutScript))
  {
    hide PutArray, PutWord, PutBlob, PutTable, ParseArray, ParseWord, ParseBlob, ParseTable;
    ArrayRoundTrip();
    BlobRoundTrip();
    BlobLimit();
    TableLimit();
  }

  /** Enough input: no parser runs out of more bytes than its limits let it ask for. */

  // Decided, after at most `n` of the bytes of `s`.
  ghost predicate Within<T>(n: nat, s: bytes, p: Parsed<T>) {
    Ran(p) && (p.Took? ==> |p.rest| >= |s| - n)
  }

  const MAX_ROW_BYTES := 12 + MAX_SCRIPT_BYTES

  lemma FieldsWithin()
    ensures forall n: nat, s: bytes {:trigger ParseArray(n, s)} :: |s| >= n ==> Within(n, s, ParseArray(n, s))
    ensures forall w: nat, s: bytes {:trigger ParseWord(w, s)} :: |s| >= w ==> Within(w, s, ParseWord(w, s))
    ensures forall m: nat, f: Field, s: bytes {:trigger ParseBlob(m, f, s)} ::
              |s| >= 4 + m ==> Within(4 + m, s, ParseBlob(m, f, s))
  {
  }

  lemma RowWithin(f: Field, s: bytes)
    requires |s| >= MAX_ROW_BYTES
    ensures Within(MAX_ROW_BYTES, s, ParseRow(f, s))
  {
    hide ParseWord, ParseBlob;
    FieldsWithin();
  }

  lemma {:induction false} RowsWithin(count: nat, f: Field, s: bytes)
    requires |s| >= count * MAX_ROW_BYTES
    ensures Within(count * MAX_ROW_BYTES, s, ParseRows(count, f, s))
  {
    hide ParseRow;
    if count > 0 {
      RowWithin(f, s);
      if ParseRow(f, s).Took? {
        RowsWithin(count - 1, f, ParseRow(f, s).rest);
      }
    }
  }

  lemma FewerRows(n: nat, m: nat)
    requires n <= m
    ensures n * MAX_ROW_BYTES <= m * MAX_ROW_BYTES
  {
  }

  lemma CountWithin(m: nat, f: Field, s: bytes)
    requires |s| >= 4
    ensures Within(4, s, ParseCount(m, f, s)) && (ParseCount(m, f, s).Took? ==> ParseCount(m, f, s).value <= m)
  {
    hide ParseWord;
    FieldsWithin();
  }

  lemma TableWithin()
    ensures forall m: nat, f: Field, g: Field, s: bytes {:trigger ParseTable(m, f, g, s)} ::
              |s| >= 4 + m * MAX_ROW_BYTES ==> Within(4 + m * MAX_ROW_BYTES, s, ParseTable(m, f, g, s))
  {
    forall m: nat, f: Field, g: Field, s: bytes | |s| >= 4 + m * MAX_ROW_BYTES
      ensures Within(4 + m * MAX_ROW_BYTES, s, ParseTable(m, f, g, s))
    {
      CountWithin(m, f, s);
      hide ParseCount, ParseRows;
      var count := ParseCount(m, f, s);
      if count.Took? {
        FewerRows(count.value, m);
        RowsWithin(count.value, g, count.rest);
      }
    }
  }

  // The longest statement the fields' limits allow is shorter than this.
  const ENOUGH := 0x1000_0000

  lemma EvidenceWithin(kind: ClaimKind, s: bytes)
    requires |s| >= 0x400_0000
    ensures Within(0x400_0000, s, ParseEvidence(kind, s))
  {
    hide ParseArray, ParseWord, ParseBlob, ParseTable;
    FieldsWithin();
    TableWithin();
  }

  lemma EnoughIsDecided(s: bytes)
    requires |s| >= ENOUGH
    ensures Ran(ParseEnvelope(s))
  {
    hide ParseArray, ParseWord, ParseBlob, ParseTable, ParseEvidence;
    FieldsWithin();
    TableWithin();
    forall kind, r {:trigger ParseEvidence(kind, r)} | |r| >= 0x400_0000 {
      EvidenceWithin(kind, r);
    }
  }

  /** Completion: any bytes are the beginning of some printed value, its lengths within their
      length words.  (`<=` between sequences is the prefix order.) */

  lemma ArrayCompletes(n: nat, s: bytes) returns (v: bytes, t: bytes)
    ensures |v| == n && s <= PutArray(v, t)
  {
    var padded: bytes := s + seq(n, _ => 0);
    v, t := padded[..n], padded[n..];
    assert PutArray(v, t) == padded;
  }

  lemma WordCompletes(w: nat, s: bytes) returns (n: nat, t: bytes)
    ensures n < Pow256(w) && s <= PutWord(w, n, t)
  {
    var v;
    v, t := ArrayCompletes(w, s);
    n := FromLE(v);
    ToFromLE(v);
  }

  // What begins a field in front of a tail begins it in front of a longer tail.
  lemma ArrayBegins(s: bytes, v: bytes, t: bytes, u: bytes)
    requires s <= PutArray(v, t) && t <= u
    ensures s <= PutArray(v, u)
  {
    assert u == t + u[|t|..];
    assert PutArray(v, u) == PutArray(v, t) + u[|t|..];
  }

  lemma WordBegins(s: bytes, w: nat, n: nat, t: bytes, u: bytes)
    requires s <= PutWord(w, n, t) && t <= u
    ensures s <= PutWord(w, n, u)
  {
    ArrayBegins(s, ToLE(w, n), t, u);
  }

  lemma BlobBegins(s: bytes, v: bytes, t: bytes, u: bytes)
    requires s <= PutBlob(v, t) && t <= u
    ensures s <= PutBlob(v, u)
  {
    hide PutWord;
    ArrayBegins(PutArray(v, t), v, t, u);
    WordBegins(s, 4, |v|, PutArray(v, t), PutArray(v, u));
  }

  lemma TableBegins(s: bytes, coins: seq<Coin>, t: bytes, u: bytes)
    requires s <= PutTable(coins, t) && t <= u
    ensures s <= PutTable(coins, u)
  {
    hide PutTable;
    TableAppends(coins, t, u[|t|..]);
    assert u == t + u[|t|..];
  }

  lemma EvidenceBegins(s: bytes, evidence: RoleEvidence, t: bytes, u: bytes)
    requires s <= PutEvidence(evidence, t) && t <= u
    ensures s <= PutEvidence(evidence, u)
  {
    hide PutEvidence;
    EvidenceAppends(evidence, t, u[|t|..]);
    assert u == t + u[|t|..];
  }

  lemma BlobCompletes(s: bytes) returns (v: bytes, t: bytes)
    ensures |v| < U32_LIMIT && s <= PutBlob(v, t)
  {
    hide PutArray, PutWord;
    WordSizes();
    var n, r := WordCompletes(4, s);
    v, t := ArrayCompletes(n, r);
    WordBegins(s, 4, n, r, PutArray(v, t));
  }

  lemma RowCompletes(s: bytes) returns (coin: Coin, t: bytes)
    ensures |coin.scriptPubkey| < U32_LIMIT && s <= PutRow(coin, t)
  {
    hide PutWord, PutBlob;
    WordSizes();
    var amount, r := WordCompletes(8, s);
    var script;
    script, t := BlobCompletes(r);
    coin := Coin(amount, script);
    WordBegins(s, 8, amount, r, PutBlob(script, t));
  }

  lemma RowBegins(s: bytes, coin: Coin, t: bytes, u: bytes)
    requires s <= PutRow(coin, t) && t <= u
    ensures s <= PutRow(coin, u)
  {
    hide PutWord, PutBlob;
    BlobBegins(PutBlob(coin.scriptPubkey, t), coin.scriptPubkey, t, u);
    WordBegins(s, 8, coin.amountSats, PutBlob(coin.scriptPubkey, t), PutBlob(coin.scriptPubkey, u));
  }

  lemma {:induction false} RowsComplete(count: nat, s: bytes) returns (coins: seq<Coin>, t: bytes)
    ensures |coins| == count && ScriptsRepresentable(coins) && s <= PutRows(coins, t)
  {
    if count == 0 {
      coins, t := [], s;
    } else {
      hide PutRow;
      var coin, r := RowCompletes(s);
      var rest;
      rest, t := RowsComplete(count - 1, r);
      coins := [coin] + rest;
      assert coins[1..] == rest;
      RowBegins(s, coin, r, PutRows(rest, t));
    }
  }

  lemma TableCompletes(s: bytes) returns (coins: seq<Coin>, t: bytes)
    ensures |coins| < U32_LIMIT && ScriptsRepresentable(coins) && s <= PutTable(coins, t)
  {
    hide PutWord, PutRows;
    WordSizes();
    var n, r := WordCompletes(4, s);
    coins, t := RowsComplete(n, r);
    WordBegins(s, 4, n, r, PutRows(coins, t));
  }

  lemma EvidenceCompletes(kind: ClaimKind, s: bytes) returns (evidence: RoleEvidence, t: bytes)
    ensures evidence.Kind() == kind && EvidenceRepresentable(evidence) && s <= PutEvidence(evidence, t)
  {
    hide PutArray, PutWord, PutBlob, PutTable;
    WordSizes();
    match kind {
      case OwnerExitKind =>
        var ownerXonly, r := ArrayCompletes(32, s);
        var csvDelay;
        csvDelay, t := WordCompletes(4, r);
        evidence := OwnerExit(ownerXonly, csvDelay);
        ArrayBegins(s, ownerXonly, r, PutWord(4, csvDelay, t));
      case VirtualCetKind =>
        var eventId, s1 := ArrayCompletes(32, s);
        var oracleXonly, s2 := ArrayCompletes(32, s1);
        var announcement, s3 := ArrayCompletes(64, s2);
        var attestation, s4 := ArrayCompletes(64, s3);
        var outcome, s5 := BlobCompletes(s4);
        var payouts;
        payouts, t := TableCompletes(s5);
        evidence := VirtualCet(eventId, oracleXonly, announcement, attestation, outcome, payouts);
        var u5 := PutTable(payouts, t);
        var u4 := PutBlob(outcome, u5);
        BlobBegins(s4, outcome, s5, u5);
        var u3 := PutArray(attestation, u4);
        ArrayBegins(s3, attestation, s4, u4);
        var u2 := PutArray(announcement, u3);
        ArrayBegins(s2, announcement, s3, u3);
        var u1 := PutArray(oracleXonly, u2);
        ArrayBegins(s1, oracleXonly, s2, u2);
        ArrayBegins(s, eventId, s1, u1);
    }
  }

  lemma PinsComplete(s: bytes) returns (pins: ArtifactPins, t: bytes)
    ensures s <= PutPins(pins, t)
  {
    hide PutArray;
    var shinigami, s1 := ArrayCompletes(32, s);
    var cairo, s2 := ArrayCompletes(32, s1);
    var stwo, s3 := ArrayCompletes(32, s2);
    var risc0;
    risc0, t := ArrayCompletes(32, s3);
    pins := ArtifactPins(shinigami, cairo, stwo, risc0);
    var u3 := PutArray(risc0, t);
    var u2 := PutArray(stwo, u3);
    ArrayBegins(s2, stwo, s3, u3);
    var u1 := PutArray(cairo, u2);
    ArrayBegins(s1, cairo, s2, u2);
    ArrayBegins(s, shinigami, s1, u1);
  }

  lemma ContextCompletes(s: bytes) returns (context: (u32, u32, u32), t: bytes)
    ensures s <= PutWord(4, context.0, PutWord(4, context.1, PutWord(4, context.2, t)))
  {
    hide PutWord;
    WordSizes();
    var chainHeight, s1 := WordCompletes(4, s);
    var confirmedHeight, s2 := WordCompletes(4, s1);
    var flags;
    flags, t := WordCompletes(4, s2);
    context := (chainHeight, confirmedHeight, flags);
    var u2 := PutWord(4, flags, t);
    WordBegins(s1, 4, confirmedHeight, s2, u2);
    WordBegins(s, 4, chainHeight, s1, PutWord(4, confirmedHeight, u2));
  }

  // What a statement prints behind its header.
  function PutBody(e: Envelope, tail: bytes): bytes {
    PutArray(e.networkGenesis, PutArray(e.contractNonce, PutArray(e.vtxoId,
      PutInputs(e, PutContext(e, PutEvidence(e.evidence, PutPins(e.pins, tail)))))))
  }

  lemma ContextAppends(e: Envelope, t: bytes, u: bytes)
    ensures PutContext(e, t) + u == PutContext(e, t + u)
  {
    hide PutWord;
    FieldsAppend(u);
  }

  lemma ContextBegins(s: bytes, e: Envelope, t: bytes, u: bytes)
    requires s <= PutContext(e, t) && t <= u
    ensures s <= PutContext(e, u)
  {
    hide PutContext;
    ContextAppends(e, t, u[|t|..]);
    assert u == t + u[|t|..];
  }

  lemma BodyCompletes(kind: ClaimKind, s: bytes) returns (e: Envelope, t: bytes)
    ensures Representable(e) && e.evidence.Kind() == kind && s <= PutBody(e, t)
  {
    hide PutArray, PutWord, PutBlob, PutTable, PutEvidence, PutPins;
    WordSizes();
    var genesis, s1 := ArrayCompletes(32, s);
    var nonce, s2 := ArrayCompletes(32, s1);
    var vtxoId, s3 := ArrayCompletes(36, s2);
    var vtxo, s4 := BlobCompletes(s3);
    var anchor, s5 := BlobCompletes(s4);
    var spend, s6 := BlobCompletes(s5);
    var inputIndex, s7 := WordCompletes(4, s6);
    var prevouts, s8 := TableCompletes(s7);
    var context, s9 := ContextCompletes(s8);
    var evidence, s10 := EvidenceCompletes(kind, s9);
    var pins;
    pins, t := PinsComplete(s10);
    e := Envelope(genesis, nonce, vtxoId, vtxo, anchor, spend, inputIndex, prevouts,
                  context.0, context.1, context.2, evidence, pins);
    var u10 := PutPins(pins, t);
    var u9 := PutEvidence(evidence, u10);
    EvidenceBegins(s9, evidence, s10, u10);
    var u8 := PutContext(e, u9);
    ContextBegins(s8, e, s9, u9);
    var u7 := PutTable(prevouts, u8);
    TableBegins(s7, prevouts, s8, u8);
    var u6 := PutWord(4, inputIndex, u7);
    WordBegins(s6, 4, inputIndex, s7, u7);
    var u5 := PutBlob(spend, u6);
    BlobBegins(s5, spend, s6, u6);
    var u4 := PutBlob(anchor, u5);
    BlobBegins(s4, anchor, s5, u5);
    var u3 := PutBlob(vtxo, u4);
    BlobBegins(s3, vtxo, s4, u4);
    var u2 := PutArray(vtxoId, u3);
    ArrayBegins(s2, vtxoId, s3, u3);
    var u1 := PutArray(nonce, u2);
    ArrayBegins(s1, nonce, s2, u2);
    ArrayBegins(s, genesis, s1, u1);
  }

  lemma PutBodyIsTail(e: Envelope, t: bytes)
    ensures PutEnvelope(e, t)
         == PutArray(MAGIC, PutWord(2, VERSION, PutArray([KindByte(e.evidence.Kind())], PutBody(e, t))))
  {
    hide PutArray, PutWord, PutInputs, PutContext, PutEvidence, PutPins;
  }

  /** Whatever stands behind a good header begins some printed statement. */
  lemma EnvelopeCompletes(s: bytes) returns (e: Envelope, t: bytes)
    requires ParseHeader(s).Took?
    ensures Representable(e) && s <= PutEnvelope(e, t)
  {
    HeaderSound(s);
    hide ParseHeader, PutBody, PutInputs, PutContext, PutEvidence, PutPins, PutWord;
    var header := ParseHeader(s);
    e, t := BodyCompletes(header.value, header.rest);
    var body := PutBody(e, t);
    PutBodyIsTail(e, t);
    var kind: bytes := [KindByte(header.value)];
    hide PutArray;
    ArrayBegins(PutArray(kind, header.rest), kind, header.rest, body);
    WordBegins(PutWord(2, VERSION, PutArray(kind, header.rest)), 2, VERSION,
               PutArray(kind, header.rest), PutArray(kind, body));
    ArrayBegins(s, MAGIC, PutWord(2, VERSION, PutArray(kind, header.rest)), PutWord(2, VERSION, PutArray(kind, body)));
  }
}
