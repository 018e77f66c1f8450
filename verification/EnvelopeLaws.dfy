/** Printer and parser agree, field by field.

    For every field three laws are proved and then composed:
      round trip - parsing what was printed, with any bytes behind it, gives back
                   exactly the value and those bytes;
      soundness  - whatever a parser takes was printed by the printer, and is in range;
      stability  - unless a parser ran out of input, more input changes nothing but
                   what is left over. */
module EnvelopeLaws {
  import opened Prelude
  import opened LittleEndian
  import opened EnvelopeGrammar

  /** Round trips. */

  lemma ArrayRoundTrip()
    ensures forall v: bytes, n: nat, t: bytes {:trigger ParseArray(n, PutArray(v, t))} ::
              |v| == n ==> ParseArray(n, PutArray(v, t)) == Took(v, t)
  {
  }

  lemma WordRoundTrip()
    ensures forall w: nat, n: nat, t: bytes {:trigger ParseWord(w, PutWord(w, n, t))} ::
              n < Pow256(w) ==> ParseWord(w, PutWord(w, n, t)) == Took(n, t)
  {
    forall w: nat, n: nat, t: bytes | n < Pow256(w)
      ensures ParseWord(w, PutWord(w, n, t)) == Took(n, t)
    {
      FromToLE(w, n);
      assert PutWord(w, n, t)[..w] == ToLE(w, n);
      assert PutWord(w, n, t)[w..] == t;
    }
  }

  lemma BlobRoundTrip()
    ensures forall m: nat, f: Field, v: bytes, t: bytes {:trigger ParseBlob(m, f, PutBlob(v, t))} ::
              |v| <= m && |v| < U32_LIMIT ==> ParseBlob(m, f, PutBlob(v, t)) == Took(v, t)
  {
    ArrayRoundTrip();
    WordRoundTrip();
    WordSizes();
  }

  lemma RowRoundTrip(f: Field, coin: Coin, t: bytes)
    requires |coin.scriptPubkey| <= MAX_SCRIPT_BYTES
    ensures ParseRow(f, PutRow(coin, t)) == Took(coin, t)
  {
    WordRoundTrip();
    BlobRoundTrip();
    WordSizes();
  }

  lemma {:induction false} RowsRoundTrip(f: Field, coins: seq<Coin>, t: bytes)
    requires ScriptsFit(coins)
    ensures ParseRows(|coins|, f, PutRows(coins, t)) == Took(coins, t)
  {
    if coins != [] {
      RowsRoundTrip(f, coins[1..], t);
      RowRoundTrip(f, coins[0], PutRows(coins[1..], t));
      assert [coins[0]] + coins[1..] == coins;
    }
  }

  lemma TableRoundTrip()
    ensures forall m: nat, f: Field, g: Field, coins: seq<Coin>, t: bytes
                {:trigger ParseTable(m, f, g, PutTable(coins, t))} ::
              TableFits(m, coins) && |coins| < U32_LIMIT ==>
                ParseTable(m, f, g, PutTable(coins, t)) == Took(coins, t)
  {
    forall m: nat, f: Field, g: Field, coins: seq<Coin>, t: bytes | TableFits(m, coins) && |coins| < U32_LIMIT
      ensures ParseTable(m, f, g, PutTable(coins, t)) == Took(coins, t)
    {
      RowsRoundTrip(g, coins, t);
      WordRoundTrip();
      WordSizes();
    }
  }

  lemma EvidenceRoundTrip(evidence: RoleEvidence, t: bytes)
    requires EvidenceFits(evidence)
    ensures ParseEvidence(evidence.Kind(), PutEvidence(evidence, t)) == Took(evidence, t)
  {
    ArrayRoundTrip();
    WordRoundTrip();
    BlobRoundTrip();
    TableRoundTrip();
    WordSizes();
  }

  lemma PinsRoundTrip(pins: ArtifactPins, t: bytes)
    ensures ParsePins(PutPins(pins, t)) == Took(pins, t)
  {
    ArrayRoundTrip();
  }

  lemma EnvelopeRoundTrip(e: Envelope, t: bytes)
    requires Fits(e)
    ensures ParseEnvelope(PutEnvelope(e, t)) == Took(e, t)
  {
    hide PutArray, PutWord, PutBlob, PutTable, ParseArray, ParseWord, ParseBlob, ParseTable;
    ArrayRoundTrip();
    WordRoundTrip();
    BlobRoundTrip();
    TableRoundTrip();
    EvidenceRoundTrip(e.evidence, PutPins(e.pins, t));
    PinsRoundTrip(e.pins, t);
    WordSizes();
  }

  /** Soundness. */

  lemma ArraySound()
    ensures forall n: nat, s: bytes {:trigger ParseArray(n, s)} ::
              var p := ParseArray(n, s); p.Took? ==> s == PutArray(p.value, p.rest)
  {
  }

  lemma WordSound()
    ensures forall w: nat, s: bytes {:trigger ParseWord(w, s)} ::
              var p := ParseWord(w, s); p.Took? ==> s == PutWord(w, p.value, p.rest)
  {
    forall w: nat, s: bytes | w <= |s|
      ensures s == PutWord(w, FromLE(s[..w]), s[w..])
    {
      ToFromLE(s[..w]);
    }
  }

  lemma BlobSound()
    ensures forall m: nat, f: Field, s: bytes {:trigger ParseBlob(m, f, s)} ::
              var p := ParseBlob(m, f, s); p.Took? ==> |p.value| <= m && s == PutBlob(p.value, p.rest)
  {
    hide PutArray, PutWord, ParseArray, ParseWord;
    ArraySound();
    WordSound();
  }

  lemma RowSound(f: Field, s: bytes)
    requires ParseRow(f, s).Took?
    ensures var p := ParseRow(f, s);
            |p.value.scriptPubkey| <= MAX_SCRIPT_BYTES && s == PutRow(p.value, p.rest)
  {
    hide PutBlob, PutWord, ParseBlob, ParseWord;
    WordSound();
    BlobSound();
  }

  lemma {:induction false} RowsSound(count: nat, f: Field, s: bytes)
    requires ParseRows(count, f, s).Took?
    ensures var p := ParseRows(count, f, s);
            |p.value| == count && ScriptsFit(p.value) && s == PutRows(p.value, p.rest)
  {
    hide PutRow, ParseRow;
    if count > 0 {
      RowSound(f, s);
      var row := ParseRow(f, s);
      RowsSound(count - 1, f, row.rest);
      var rows := ParseRows(count - 1, f, row.rest);
      assert ([row.value] + rows.value)[1..] == rows.value;
    }
  }

  lemma TableSound()
    ensures forall m: nat, f: Field, g: Field, s: bytes {:trigger ParseTable(m, f, g, s)} ::
              var p := ParseTable(m, f, g, s);
              p.Took? ==> TableFits(m, p.value) && s == PutTable(p.value, p.rest)
  {
    forall m: nat, f: Field, g: Field, s: bytes | ParseTable(m, f, g, s).Took?
      ensures var p := ParseTable(m, f, g, s); TableFits(m, p.value) && s == PutTable(p.value, p.rest)
    {
      hide PutWord, ParseWord;
      WordSound();
      var count := ParseCount(m, f, s);
      RowsSound(count.value, g, count.rest);
    }
  }

  lemma EvidenceSound(kind: ClaimKind, s: bytes)
    requires ParseEvidence(kind, s).Took?
    ensures var p := ParseEvidence(kind, s);
            p.value.Kind() == kind && EvidenceFits(p.value) && s == PutEvidence(p.value, p.rest)
  {
    hide PutArray, PutWord, PutBlob, PutTable, ParseArray, ParseWord, ParseBlob, ParseTable;
    ArraySound();
    WordSound();
    BlobSound();
    TableSound();
  }

  lemma PinsSound(s: bytes)
    requires ParsePins(s).Took?
    ensures s == PutPins(ParsePins(s).value, ParsePins(s).rest)
  {
    hide PutArray, ParseArray;
    ArraySound();
  }

  lemma HeaderSound(s: bytes)
    requires ParseHeader(s).Took?
    ensures var p := ParseHeader(s);
            s == PutArray(MAGIC, PutWord(2, VERSION, PutArray([KindByte(p.value)], p.rest)))
  {
    hide PutArray, PutWord, ParseArray, ParseWord;
    ArraySound();
    WordSound();
    var kind := ParseArray(1, ParseU16(ParseArray(4, s).rest).rest);
    assert kind.value == [kind.value[0]];
  }

  lemma EnvelopeSound(s: bytes)
    requires ParseEnvelope(s).Took?
    ensures var p := ParseEnvelope(s); Fits(p.value) && s == PutEnvelope(p.value, p.rest)
  {
    hide PutArray, PutWord, PutBlob, PutTable, PutEvidence, PutPins,
      ParseHeader, ParseArray, ParseWord, ParseBlob, ParseTable, ParseEvidence, ParsePins;
    HeaderSound(s);
    ArraySound();
    WordSound();
    BlobSound();
    TableSound();
    forall kind, r {:trigger ParseEvidence(kind, r)} | ParseEvidence(kind, r).Took? {
      EvidenceSound(kind, r);
    }
    forall r {:trigger ParsePins(r)} | ParsePins(r).Took? {
      PinsSound(r);
    }
  }

  /** Stability. */

  ghost predicate Ran<T>(p: Parsed<T>) {
    p != Fault(UnexpectedEof)
  }

  lemma ArrayStable(x: bytes)
    ensures forall n: nat, s: bytes {:trigger ParseArray(n, s + x)} ::
              Ran(ParseArray(n, s)) ==> ParseArray(n, s + x) == ParseArray(n, s).Before(x)
  {
    forall n: nat, s: bytes | n <= |s|
      ensures ParseArray(n, s + x) == ParseArray(n, s).Before(x)
    {
      assert (s + x)[..n] == s[..n] && (s + x)[n..] == s[n..] + x;
    }
  }

  lemma WordStable(x: bytes)
    ensures forall w: nat, s: bytes {:trigger ParseWord(w, s + x)} ::
              Ran(ParseWord(w, s)) ==> ParseWord(w, s + x) == ParseWord(w, s).Before(x)
  {
    hide ParseArray;
    ArrayStable(x);
  }

  lemma BlobStable(x: bytes)
    ensures forall m: nat, f: Field, s: bytes {:trigger ParseBlob(m, f, s + x)} ::
              Ran(ParseBlob(m, f, s)) ==> ParseBlob(m, f, s + x) == ParseBlob(m, f, s).Before(x)
  {
    hide ParseArray, ParseWord;
    ArrayStable(x);
    WordStable(x);
  }

  lemma {:induction false} RowsStable(count: nat, f: Field, s: bytes, x: bytes)
    requires Ran(ParseRows(count, f, s))
    ensures ParseRows(count, f, s + x) == ParseRows(count, f, s).Before(x)
  {
    hide ParseWord, ParseBlob;
    if count > 0 {
      WordStable(x);
      BlobStable(x);
      assert ParseRow(f, s + x) == ParseRow(f, s).Before(x);
      if ParseRow(f, s).Took? {
        RowsStable(count - 1, f, ParseRow(f, s).rest, x);
      }
    }
  }

  lemma TableStable(x: bytes)
    ensures forall m: nat, f: Field, g: Field, s: bytes {:trigger ParseTable(m, f, g, s + x)} ::
              Ran(ParseTable(m, f, g, s)) ==> ParseTable(m, f, g, s + x) == ParseTable(m, f, g, s).Before(x)
  {
    forall m: nat, f: Field, g: Field, s: bytes | Ran(ParseTable(m, f, g, s))
      ensures ParseTable(m, f, g, s + x) == ParseTable(m, f, g, s).Before(x)
    {
      hide ParseWord;
      WordStable(x);
      var count := ParseCount(m, f, s);
      if count.Took? {
        RowsStable(count.value, g, count.rest, x);
      }
    }
  }

  lemma EvidenceStable(kind: ClaimKind, s: bytes, x: bytes)
    requires Ran(ParseEvidence(kind, s))
    ensures ParseEvidence(kind, s + x) == ParseEvidence(kind, s).Before(x)
  {
    hide ParseArray, ParseWord, ParseBlob, ParseTable;
    ArrayStable(x);
    WordStable(x);
    BlobStable(x);
    TableStable(x);
  }

  lemma PinsStable(s: bytes, x: bytes)
    requires Ran(ParsePins(s))
    ensures ParsePins(s + x) == ParsePins(s).Before(x)
  {
    hide ParseArray;
    ArrayStable(x);
  }

  lemma HeaderStable(s: bytes, x: bytes)
    requires Ran(ParseHeader(s))
    ensures ParseHeader(s + x) == ParseHeader(s).Before(x)
  {
    hide ParseArray, ParseWord;
    ArrayStable(x);
    WordStable(x);
  }

  lemma BodyStable(kind: ClaimKind, s: bytes, x: bytes)
    requires Ran(ParseBody(kind, s))
    ensures ParseBody(kind, s + x) == ParseBody(kind, s).Before(x)
  {
    hide ParseArray, ParseWord, ParseBlob, ParseTable, ParseEvidence, ParsePins;
    ArrayStable(x);
    WordStable(x);
    BlobStable(x);
    TableStable(x);
    forall r {:trigger ParseEvidence(kind, r + x)} | Ran(ParseEvidence(kind, r)) {
      EvidenceStable(kind, r, x);
    }
    forall r {:trigger ParsePins(r + x)} | Ran(ParsePins(r)) {
      PinsStable(r, x);
    }
  }

  lemma EnvelopeStable(s: bytes, x: bytes)
    requires Ran(ParseEnvelope(s))
    ensures ParseEnvelope(s + x) == ParseEnvelope(s).Before(x)
  {
    hide ParseHeader, ParseBody;
    HeaderStable(s, x);
    if ParseHeader(s).Took? {
      BodyStable(ParseHeader(s).value, ParseHeader(s).rest, x);
    }
  }

  /** Printing onto a longer tail. */

  lemma FieldsAppend(u: bytes)
    ensures forall v: bytes, t: bytes {:trigger PutArray(v, t) + u} :: PutArray(v, t) + u == PutArray(v, t + u)
    ensures forall w: nat, n: nat, t: bytes {:trigger PutWord(w, n, t) + u} ::
              PutWord(w, n, t) + u == PutWord(w, n, t + u)
    ensures forall v: bytes, t: bytes {:trigger PutBlob(v, t) + u} :: PutBlob(v, t) + u == PutBlob(v, t + u)
  {
    forall v: bytes, t: bytes ensures PutArray(v, t) + u == PutArray(v, t + u) {
    }
    forall w: nat, n: nat, t: bytes ensures PutWord(w, n, t) + u == PutWord(w, n, t + u) {
    }
  }

  lemma {:induction false} RowsAppend(coins: seq<Coin>, t: bytes, u: bytes)
    ensures PutRows(coins, t) + u == PutRows(coins, t + u)
  {
    if coins != [] {
      hide PutWord, PutBlob;
      RowsAppend(coins[1..], t, u);
      FieldsAppend(u);
    }
  }

  lemma TableAppends(coins: seq<Coin>, t: bytes, u: bytes)
    ensures PutTable(coins, t) + u == PutTable(coins, t + u)
  {
    hide PutWord;
    RowsAppend(coins, t, u);
    FieldsAppend(u);
  }

  lemma EvidenceAppends(evidence: RoleEvidence, t: bytes, u: bytes)
    ensures PutEvidence(evidence, t) + u == PutEvidence(evidence, t + u)
  {
    hide PutArray, PutWord, PutBlob, PutTable;
    FieldsAppend(u);
    if evidence.VirtualCet? {
      TableAppends(evidence.payouts, t, u);
    }
  }

  lemma EnvelopeAppends(e: Envelope, t: bytes, u: bytes)
    ensures PutEnvelope(e, t) + u == PutEnvelope(e, t + u)
  {
    hide PutArray, PutWord, PutBlob, PutTable, PutEvidence;
    FieldsAppend(u);
    EvidenceAppends(e.evidence, PutPins(e.pins, t), u);
    TableAppends(e.prevouts, PutContext(e, PutEvidence(e.evidence, PutPins(e.pins, t))), u);
  }

  /** The size of what is printed. */

  function RowsLength(coins: seq<Coin>): nat {
    if coins == [] then 0 else 12 + |coins[0].scriptPubkey| + RowsLength(coins[1..])
  }

  function TableLength(coins: seq<Coin>): nat {
    4 + RowsLength(coins)
  }

  function EvidenceLength(evidence: RoleEvidence): nat {
    match evidence
    case OwnerExit(_, _) => 36
    case VirtualCet(_, _, _, _, outcome, payouts) => 196 + |outcome| + TableLength(payouts)
  }

  // 7 header bytes, 100 of identity, three blobs, the input index, the context and four pins.
  function EnvelopeLength(e: Envelope): nat {
    263 + |e.protocolVtxo| + |e.anchorTransaction| + |e.spendTransaction|
    + TableLength(e.prevouts) + EvidenceLength(e.evidence)
  }

  lemma {:induction false} RowsSize(coins: seq<Coin>, t: bytes)
    ensures |PutRows(coins, t)| == RowsLength(coins) + |t|
  {
    if coins != [] {
      RowsSize(coins[1..], t);
    }
  }

  lemma EnvelopeSize(e: Envelope, t: bytes)
    ensures |PutEnvelope(e, t)| == EnvelopeLength(e) + |t|
  {
    hide PutRows;
    var behindEvidence := PutPins(e.pins, t);
    if e.evidence.VirtualCet? {
      RowsSize(e.evidence.payouts, behindEvidence);
    }
    assert |PutEvidence(e.evidence, behindEvidence)| == EvidenceLength(e.evidence) + |behindEvidence|;
    assert |PutPins(e.pins, t)| == 128 + |t|;
    hide PutEvidence, PutPins;
    RowsSize(e.prevouts, PutContext(e, PutEvidence(e.evidence, behindEvidence)));
  }

  /** Which errors a field can raise, behind the header. */

  ghost predicate FieldError(error: EnvelopeError) {
    error == UnexpectedEof || (error.Oversized? && error.field != WholeEnvelope)
  }

  lemma RowErrors(f: Field, s: bytes)
    requires f != WholeEnvelope
    ensures ParseRow(f, s).Fault? ==> FieldError(ParseRow(f, s).error)
  {
  }

  lemma {:induction false} RowsErrors(count: nat, f: Field, s: bytes)
    requires f != WholeEnvelope && ParseRows(count, f, s).Fault?
    ensures FieldError(ParseRows(count, f, s).error)
  {
    hide ParseRow;
    if count > 0 {
      RowErrors(f, s);
      if ParseRow(f, s).Took? {
        RowsErrors(count - 1, f, ParseRow(f, s).rest);
      }
    }
  }

  lemma FieldErrors()
    ensures forall n: nat, s: bytes {:trigger ParseArray(n, s)} ::
              ParseArray(n, s).Fault? ==> FieldError(ParseArray(n, s).error)
    ensures forall w: nat, s: bytes {:trigger ParseWord(w, s)} ::
              ParseWord(w, s).Fault? ==> FieldError(ParseWord(w, s).error)
    ensures forall m: nat, f: Field, s: bytes {:trigger ParseBlob(m, f, s)} ::
              f != WholeEnvelope && ParseBlob(m, f, s).Fault? ==> FieldError(ParseBlob(m, f, s).error)
  {
  }

  lemma TableErrors()
    ensures forall m: nat, f: Field, g: Field, s: bytes {:trigger ParseTable(m, f, g, s)} ::
              f != WholeEnvelope && g != WholeEnvelope && ParseTable(m, f, g, s).Fault? ==>
                FieldError(ParseTable(m, f, g, s).error)
  {
    forall m: nat, f: Field, g: Field, s: bytes |
      f != WholeEnvelope && g != WholeEnvelope && ParseTable(m, f, g, s).Fault?
      ensures FieldError(ParseTable(m, f, g, s).error)
    {
      var count := ParseCount(m, f, s);
      if count.Took? {
        RowsErrors(count.value, g, count.rest);
      }
    }
  }

  lemma BodyErrors(kind: ClaimKind, s: bytes)
    requires ParseBody(kind, s).Fault?
    ensures FieldError(ParseBody(kind, s).error)
  {
    hide ParseArray, ParseWord, ParseBlob, ParseTable;
    FieldErrors();
    TableErrors();
  }

  lemma EnvelopeErrors(s: bytes)
    requires ParseEnvelope(s).Fault?
    ensures var error := ParseEnvelope(s).error;
            FieldError(error) || error.BadMagic? || error.UnsupportedVersion? || error.InvalidClaimKind?
  {
    hide ParseBody;
    if ParseHeader(s).Took? {
      BodyErrors(ParseHeader(s).value, ParseHeader(s).rest);
    }
  }
}
