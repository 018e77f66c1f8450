/** Strict parsing of Boundless receipts and of the one public scalar they bind. */
module BoundlessReceipt {
  import opened Prelude
  import opened LittleEndian
  import opened BigEndian

  const SELECTOR: bytes := [0x62, 0xf0, 0x49, 0xf6]
  const JOURNAL_LEN := 32
  const PROOF_LEN := 256
  const SEAL_LEN := 260

  // The order of the BN254 scalar field, as bytes and as a number.
  const MODULUS_BE: bytes := [
    0x30, 0x64, 0x4e, 0x72, 0xe1, 0x31, 0xa0, 0x29, 0xb8, 0x50, 0x45, 0xb6, 0x81, 0x81, 0x58, 0x5d,
    0x28, 0x33, 0xe8, 0x48, 0x79, 0xb9, 0x70, 0x91, 0x43, 0xe1, 0xf5, 0x93, 0xf0, 0x00, 0x00, 0x01]
  const MODULUS := 0x30644e72e131a029b85045b68181585d2833e84879b9709143e1f593f0000001

  type proof = b: bytes | |b| == PROOF_LEN witness seq(PROOF_LEN, _ => 0)

  datatype ReceiptError =
    | SealLength(actual: nat)
    | SelectorLength(actual: nat)
    | SelectorMismatch(selector: bytes)
    | JournalLength(actual: nat)
    | ProofLength(actual: nat)
    | ClaimDigestLength(actual: nat)
    | PublicInputCount(actual: nat)
    | PublicInputLength(actual: nat)
    | NonCanonicalPublicScalar
    | PublicInputMismatch

  datatype Receipt = Receipt(journal: bytes32, claimDigest: bytes32, rawProof: proof, publicScalar: bytes32)

  function ParseScalar(b: bytes): Result<bytes32, ReceiptError> {
    if |b| != 32 then Failure(PublicInputLength(|b|))
    else if !LexLess(b, MODULUS_BE) then Failure(NonCanonicalPublicScalar)
    else Success(b)
  }

  function ParseParts(selector: bytes, rawProof: bytes, journal: bytes, claimDigest: bytes, inputs: seq<bytes>)
    : Result<Receipt, ReceiptError>
  {
    if |selector| != |SELECTOR| then Failure(SelectorLength(|selector|))
    else if selector != SELECTOR then Failure(SelectorMismatch(selector))
    else if |rawProof| != PROOF_LEN then Failure(ProofLength(|rawProof|))
    else if |journal| != JOURNAL_LEN then Failure(JournalLength(|journal|))
    else if |claimDigest| != 32 then Failure(ClaimDigestLength(|claimDigest|))
    else
      var claimScalar :- ParseScalar(claimDigest);
      if |inputs| != 1 then Failure(PublicInputCount(|inputs|))
      else
        var expected :- ParseScalar(inputs[0]);
        if expected != claimScalar then Failure(PublicInputMismatch)
        else Success(Receipt(journal, claimDigest, rawProof, claimScalar))
  }

  function ParseSeal(seal: bytes, journal: bytes, claimDigest: bytes, inputs: seq<bytes>)
    : Result<Receipt, ReceiptError>
  {
    if |seal| != SEAL_LEN then Failure(SealLength(|seal|))
    else ParseParts(seal[..4], seal[4..], journal, claimDigest, inputs)
  }

  method Seal(r: Receipt) returns (seal: array<u8>)
    ensures fresh(seal) && seal[..] == SELECTOR + r.rawProof
  {
    seal := new u8[SEAL_LEN](_ => 0);
    forall i | 0 <= i < 4 {
      seal[i] := SELECTOR[i];
    }
    forall i | 0 <= i < PROOF_LEN {
      seal[4 + i] := r.rawProof[i];
    }
  }

  lemma NextByte(b: bytes, k: nat)
    requires k < |b|
    ensures FromBE(b[..k + 1]) == 256 * FromBE(b[..k]) + b[k]
  {
    assert b[..k + 1][..k] == b[..k];
  }

  lemma NextWord(b: bytes, k: nat)
    requires k + 4 <= |b|
    ensures var b0: int, b1: int, b2: int, b3: int := b[k], b[k + 1], b[k + 2], b[k + 3];
            FromBE(b[..k + 4])
            == 0x1_0000_0000 * FromBE(b[..k]) + 0x100_0000 * b0 + 0x1_0000 * b1 + 0x100 * b2 + b3
  {
    hide FromBE;
    NextByte(b, k);
    NextByte(b, k + 1);
    NextByte(b, k + 2);
    NextByte(b, k + 3);
  }

  lemma ModulusValue()
    ensures FromBE(MODULUS_BE) == MODULUS
  {
    var m := MODULUS_BE;
    assert FromBE(m[..0]) == 0;
    hide FromBE;
    NextWord(m, 0);
    assert FromBE(m[..4]) == 0x30644e72;
    NextWord(m, 4);
    assert FromBE(m[..8]) == 0x30644e72e131a029;
    NextWord(m, 8);
    NextWord(m, 12);
    assert FromBE(m[..16]) == 0x30644e72e131a029b85045b68181585d;
    NextWord(m, 16);
    NextWord(m, 20);
    assert FromBE(m[..24]) == 0x30644e72e131a029b85045b68181585d2833e84879b97091;
    NextWord(m, 24);
    NextWord(m, 28);
    assert m[..32] == m;
  }

  lemma ModulusFits()
    ensures MODULUS < Pow256(32)
  {
    ModulusValue();
  }

  /** A scalar is accepted exactly when its big-endian value is below the modulus. */
  lemma CanonicalIffBelowModulus(b: bytes)
    requires |b| == 32
    ensures ParseScalar(b).Success? <==> FromBE(b) < MODULUS
  {
    ModulusValue();
    LexicographicIsNumeric(b, MODULUS_BE);
  }

  /** Accepted strings and residues correspond one to one: every residue has its string, and
      two accepted strings that are congruent modulo the field order are the same string. */
  lemma EveryResidueHasAScalar(x: nat)
    requires x < MODULUS
    ensures ParseScalar(ToBE(32, x)) == Success(ToBE(32, x)) && FromBE(ToBE(32, x)) == x
  {
    ModulusFits();
    FromToBE(32, x);
    CanonicalIffBelowModulus(ToBE(32, x));
  }

  lemma CongruentScalarsAreEqual(a: bytes, b: bytes)
    requires ParseScalar(a).Success? && ParseScalar(b).Success?
    requires FromBE(a) % MODULUS == FromBE(b) % MODULUS
    ensures a == b
  {
    hide LexLess, FromBE;
    CanonicalIffBelowModulus(a);
    CanonicalIffBelowModulus(b);
    LexicographicIsNumeric(a, b);
  }

  lemma ScalarOutcome(b: bytes)
    ensures ParseScalar(b)
         == if |b| != 32 then Failure(PublicInputLength(|b|))
            else if FromBE(b) < 0x30644e72e131a029b85045b68181585d2833e84879b9709143e1f593f0000001 then Success(b)
            else Failure(NonCanonicalPublicScalar)
  {
    hide LexLess, FromBE;
    if |b| == 32 {
      CanonicalIffBelowModulus(b);
    }
  }

  /** A seal parses exactly when it is the selector and a proof, and the claim digest, as a number
      below the field order, is the only public input; the receipt then repeats what was parsed. */
  lemma ParseSealExactly(seal: bytes, journal: bytes, claimDigest: bytes, inputs: seq<bytes>)
    ensures ParseSeal(seal, journal, claimDigest, inputs).Success? <==>
            && |seal| == 260 && seal[..4] == [0x62, 0xf0, 0x49, 0xf6]
            && |journal| == 32 && |claimDigest| == 32
            && FromBE(claimDigest) < 0x30644e72e131a029b85045b68181585d2833e84879b9709143e1f593f0000001
            && inputs == [claimDigest]
    ensures ParseSeal(seal, journal, claimDigest, inputs).Success? ==>
            var r := ParseSeal(seal, journal, claimDigest, inputs).value;
            r.journal == journal && r.claimDigest == claimDigest == r.publicScalar && seal[4..] == r.rawProof
  {
    hide ParseScalar, FromBE;
    ScalarOutcome(claimDigest);
    if |inputs| == 1 {
      ScalarOutcome(inputs[0]);
      assert inputs == [inputs[0]];
    }
  }

  /** Which error is reported when several parts are wrong. */
  lemma ParsePartsReason(selector: bytes, rawProof: bytes, journal: bytes, claimDigest: bytes, inputs: seq<bytes>)
    requires ParseParts(selector, rawProof, journal, claimDigest, inputs).Failure?
    ensures ParseParts(selector, rawProof, journal, claimDigest, inputs) == Failure(
      if |selector| != 4 then SelectorLength(|selector|)
      else if selector != [0x62, 0xf0, 0x49, 0xf6] then SelectorMismatch(selector)
      else if |rawProof| != 256 then ProofLength(|rawProof|)
      else if |journal| != 32 then JournalLength(|journal|)
      else if |claimDigest| != 32 then ClaimDigestLength(|claimDigest|)
      else if FromBE(claimDigest) >= 0x30644e72e131a029b85045b68181585d2833e84879b9709143e1f593f0000001 then
        NonCanonicalPublicScalar
      else if |inputs| != 1 then PublicInputCount(|inputs|)
      else if |inputs[0]| != 32 then PublicInputLength(|inputs[0]|)
      else if FromBE(inputs[0]) >= 0x30644e72e131a029b85045b68181585d2833e84879b9709143e1f593f0000001 then
        NonCanonicalPublicScalar
      else PublicInputMismatch)
  {
    hide ParseScalar, FromBE;
    ScalarOutcome(claimDigest);
    if |inputs| == 1 {
      ScalarOutcome(inputs[0]);
    }
  }

  /** Sealing a parsed receipt gives back the 260 bytes, and parsing those gives back the
      receipt, whatever the other inputs were. */
  lemma SealRoundTrip(seal: bytes, journal: bytes, claimDigest: bytes, inputs: seq<bytes>)
    requires ParseSeal(seal, journal, claimDigest, inputs).Success?
    ensures var r := ParseSeal(seal, journal, claimDigest, inputs).value;
            && SELECTOR + r.rawProof == seal
            && ParseSeal(SELECTOR + r.rawProof, r.journal, r.claimDigest, [r.publicScalar]) == Success(r)
  {
    assert seal == seal[..4] + seal[4..];
  }

  // The receipt's claim digest, its public scalar and the verifier's only input are one value.
  lemma OneScalar(seal: bytes, journal: bytes, claimDigest: bytes, inputs: seq<bytes>)
    requires ParseSeal(seal, journal, claimDigest, inputs).Success?
    ensures var r := ParseSeal(seal, journal, claimDigest, inputs).value;
            && r.journal == journal
            && r.claimDigest == r.publicScalar == claimDigest
            && inputs == [claimDigest]
            && FromBE(claimDigest) < MODULUS
  {
    CanonicalIffBelowModulus(claimDigest);
  }

  /** Lowercase hexadecimal. */

  const HEX: string := "0123456789abcdef"

  function Hex(b: bytes): (s: string)
    ensures |s| == 2 * |b|
  {
    if b == [] then "" else Hex(b[..|b| - 1]) + [HEX[b[|b| - 1] / 16], HEX[b[|b| - 1] % 16]]
  }

  method EncodeHex(b: bytes) returns (encoded: string)
    ensures encoded == Hex(b)
  {
    encoded := "";
    var i := 0;
    while i < |b|
      invariant i <= |b| && encoded == Hex(b[..i])
    {
      assert b[..i + 1][..i] == b[..i];
      encoded := encoded + [HEX[b[i] / 16]];
      encoded := encoded + [HEX[b[i] % 16]];
      i := i + 1;
    }
    assert b[..i] == b;
  }

  // The digit of a nibble.
  predicate HexDigit(c: char, n: int) {
    if n < 10 then c as int == '0' as int + n else c as int == 'a' as int + (n - 10)
  }

  lemma DigitOf(k: nat)
    requires k < 16
    ensures HexDigit(HEX[k], k)
  {
  }

  /** Two digits a byte, the high nibble first, from `0` to `9` and `a` to `f`. */
  lemma {:induction false} HexDigits(b: bytes, i: nat)
    requires i < |b|
    ensures HexDigit(Hex(b)[2 * i], b[i] / 16) && HexDigit(Hex(b)[2 * i + 1], b[i] % 16)
  {
    hide HexDigit;
    var n := |b| - 1;
    if i < n {
      HexDigits(b[..n], i);
    } else {
      DigitOf(b[n] / 16);
      DigitOf(b[n] % 16);
    }
  }

  lemma HexDigitsDiffer(i: nat, j: nat)
    requires i < 16 && j < 16 && HEX[i] == HEX[j]
    ensures i == j
  {
    assert forall k: nat :: k < 16 ==> HEX[k] as int == if k < 10 then 48 + k else 87 + k;
  }

  lemma {:induction false} HexInjective(a: bytes, b: bytes)
    requires Hex(a) == Hex(b)
    ensures a == b
  {
    assert 2 * |a| == 2 * |b|;
    if a != [] {
      var n := |a| - 1;
      assert Hex(a)[..2 * n] == Hex(a[..n]) && Hex(b)[..2 * n] == Hex(b[..n]);
      HexInjective(a[..n], b[..n]);
      HexDigitsDiffer(a[n] / 16, b[n] / 16);
      HexDigitsDiffer(a[n] % 16, b[n] % 16);
      assert a == a[..n] + [a[n]] && b == b[..n] + [b[n]];
    }
  }
}
