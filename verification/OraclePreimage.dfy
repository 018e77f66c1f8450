/** What the oracle of a virtual CET signs. */
module OraclePreimage {
  import opened Prelude
  import opened LittleEndian
  import opened EnvelopeGrammar
  import opened EnvelopeLaws
  import opened TaggedSha256

  function AnnouncementPreimage(eventId: bytes32, payouts: seq<Payout>): bytes {
    PutArray(eventId, PutTable(payouts, []))
  }

  function AttestationPreimage(eventId: bytes32, outcome: bytes, payouts: seq<Payout>): bytes {
    PutArray(eventId, PutSettlement(outcome, payouts, []))
  }

  function AnnouncementDigest(sha: Sha256, eventId: bytes32, payouts: seq<Payout>): bytes32 {
    TaggedDigest(sha, ORACLE_ANNOUNCEMENT_TAG, AnnouncementPreimage(eventId, payouts))
  }

  function AttestationDigest(sha: Sha256, eventId: bytes32, outcome: bytes, payouts: seq<Payout>): bytes32 {
    TaggedDigest(sha, ORACLE_ATTESTATION_TAG, AttestationPreimage(eventId, outcome, payouts))
  }

  /** The builders cast lengths to `u32` without a check, which keeps the low 32 bits. */

  lemma Regroup(power: nat, k: nat)
    ensures 256 * power * k == 256 * (power * k)
  {
  }

  lemma LowByte(m: nat, j: nat)
    ensures (m + 256 * j) % 256 == m % 256 && (m + 256 * j) / 256 == m / 256 + j
  {
  }

  lemma {:induction false} HighBitsVanish(width: nat, m: nat, k: nat)
    ensures ToLE(width, m + Pow256(width) * k) == ToLE(width, m)
  {
    if width > 0 {
      var power := Pow256(width - 1);
      Regroup(power, k);
      HighBitsVanish(width - 1, m / 256, k);
      LowByte(m, power * k);
    }
  }

  lemma LowWord(n: nat)
    ensures ToLE(4, n % U32_LIMIT) == ToLE(4, n)
  {
    WordSizes();
    HighBitsVanish(4, n % U32_LIMIT, n / U32_LIMIT);
  }

  lemma Word4(n: nat)
    ensures ToLE(4, n) == [n % 256, n / 256 % 256, n / 0x1_0000 % 256, n / 0x100_0000 % 256]
  {
    assert n / 256 / 256 == n / 0x1_0000 && n / 0x1_0000 / 256 == n / 0x100_0000;
    assert ToLE(1, n / 0x100_0000) == [n / 0x100_0000 % 256];
    assert ToLE(2, n / 0x1_0000) == [n / 0x1_0000 % 256] + ToLE(1, n / 0x100_0000);
    assert ToLE(3, n / 256) == [n / 256 % 256] + ToLE(2, n / 0x1_0000);
  }

  lemma RowBytes(done: bytes, payout: Payout, rest: bytes)
    ensures done + PutRow(payout, rest)
         == done + ToLE(8, payout.amountSats) + ToLE(4, |payout.scriptPubkey| % U32_LIMIT) + payout.scriptPubkey + rest
  {
    LowWord(|payout.scriptPubkey|);
  }

  method EncodePayouts(before: bytes, payouts: seq<Payout>) returns (out: bytes)
    ensures out == before + PutTable(payouts, [])
  {
    hide PutRow, ToLE;
    out := before + ToLE(4, |payouts| % U32_LIMIT);
    LowWord(|payouts|);
    ghost var start := out;
    var i := 0;
    while i < |payouts|
      invariant i <= |payouts|
      invariant start + PutRows(payouts, []) == out + PutRows(payouts[i..], [])
    {
      ghost var rest := PutRows(payouts[i + 1..], []);
      RowBytes(out, payouts[i], rest);
      out := out + ToLE(8, payouts[i].amountSats);
      out := out + ToLE(4, |payouts[i].scriptPubkey| % U32_LIMIT);
      out := out + payouts[i].scriptPubkey;
      i := i + 1;
    }
    assert out + [] == out;
  }

  method OracleAnnouncementDigest(sha: Sha256, eventId: bytes32, payouts: seq<Payout>) returns (d: bytes32)
    ensures d == AnnouncementDigest(sha, eventId, payouts)
  {
    var message := EncodePayouts(eventId, payouts);
    d := TaggedDigest(sha, ORACLE_ANNOUNCEMENT_TAG, message);
  }

  method OracleAttestationDigest(sha: Sha256, eventId: bytes32, outcome: bytes, payouts: seq<Payout>)
    returns (d: bytes32)
    ensures d == AttestationDigest(sha, eventId, outcome, payouts)
  {
    hide ToLE, PutRows, TaggedDigest, Ascii;
    var message := eventId + ToLE(4, |outcome| % U32_LIMIT) + outcome;
    LowWord(|outcome|);
    message := EncodePayouts(message, payouts);
    assert message == AttestationPreimage(eventId, outcome, payouts);
    d := TaggedDigest(sha, ORACLE_ATTESTATION_TAG, message);
  }

  /** The oracle signs the bytes the statement commits to: after the event, exactly the
      end of the encoded evidence. */
  lemma SignsTheCommittedBytes(evidence: RoleEvidence)
    requires evidence.VirtualCet?
    ensures |PutEvidence(evidence, [])| >= 192
    ensures AttestationPreimage(evidence.eventId, evidence.outcome, evidence.payouts)
         == PutEvidence(evidence, [])[..32] + PutEvidence(evidence, [])[192..]
  {
    hide PutSettlement;
    var tail := PutSettlement(evidence.outcome, evidence.payouts, []);
    var VirtualCet(eventId, oracleXonly, announcement, attestation, _, _) := evidence;
    var head := eventId + oracleXonly + announcement + attestation;
    assert PutEvidence(evidence, []) == head + tail;
  }

  /** No cast loses a bit. */
  ghost predicate CastsAreExact(outcome: bytes, payouts: seq<Payout>) {
    && |outcome| < U32_LIMIT
    && |payouts| < U32_LIMIT
    && forall i :: 0 <= i < |payouts| ==> |payouts[i].scriptPubkey| < U32_LIMIT
  }

  lemma LimitsMakeCastsExact(evidence: RoleEvidence)
    requires evidence.VirtualCet? && EvidenceFits(evidence)
    ensures CastsAreExact(evidence.outcome, evidence.payouts)
  {
  }

  lemma {:induction false} ShortRows(coins: seq<Coin>)
    ensures 12 * |coins| <= RowsLength(coins)
    ensures forall i :: 0 <= i < |coins| ==> |coins[i].scriptPubkey| < RowsLength(coins)
  {
    if coins != [] {
      ShortRows(coins[1..]);
      assert forall i :: 0 < i < |coins| ==> coins[i] == coins[1..][i - 1];
    }
  }

  lemma WordInjective(width: nat, n: nat, t: bytes, m: nat, u: bytes)
    requires n < Pow256(width) && m < Pow256(width)
    requires PutWord(width, n, t) == PutWord(width, m, u)
    ensures n == m && t == u
  {
    hide PutWord, ParseWord;
    WordRoundTrip();
    assert ParseWord(width, PutWord(width, n, t)) == ParseWord(width, PutWord(width, m, u));
  }

  lemma BlobInjective(v: bytes, t: bytes, w: bytes, u: bytes)
    requires |v| < U32_LIMIT && |w| < U32_LIMIT
    requires PutBlob(v, t) == PutBlob(w, u)
    ensures v == w && t == u
  {
    WordSizes();
    WordInjective(4, |v|, v + t, |w|, w + u);
    assert v == (v + t)[..|v|] && t == (v + t)[|v|..];
  }

  lemma {:induction false} RowsInjective(a: seq<Coin>, t: bytes, b: seq<Coin>, u: bytes)
    requires CastsAreExact([], a) && CastsAreExact([], b) && |a| == |b|
    requires PutRows(a, t) == PutRows(b, u)
    ensures a == b && t == u
  {
    if a != [] {
      hide PutBlob, PutWord;
      WordSizes();
      var restA, restB := PutRows(a[1..], t), PutRows(b[1..], u);
      WordInjective(8, a[0].amountSats, PutBlob(a[0].scriptPubkey, restA),
                    b[0].amountSats, PutBlob(b[0].scriptPubkey, restB));
      BlobInjective(a[0].scriptPubkey, restA, b[0].scriptPubkey, restB);
      RowsInjective(a[1..], t, b[1..], u);
      assert a == [a[0]] + a[1..] && b == [b[0]] + b[1..];
    }
  }

  // The low word of a length is what its cast writes.
  lemma SameLowWord(n: nat, m: nat)
    requires ToLE(4, n) == ToLE(4, m)
    ensures n % U32_LIMIT == m % U32_LIMIT
  {
    WordSizes();
    LowWord(n);
    LowWord(m);
    FromToLE(4, n % U32_LIMIT);
    FromToLE(4, m % U32_LIMIT);
  }

  lemma SettlementParts(outcome: bytes, payouts: seq<Payout>)
    ensures var s := PutSettlement(outcome, payouts, []);
            && |s| == 8 + |outcome| + RowsLength(payouts)
            && s[..4] == ToLE(4, |outcome|)
            && s[4..][..|outcome|] == outcome && s[4..][|outcome|..] == PutTable(payouts, [])
  {
    hide PutRows, ToLE;
    RowsSize(payouts, []);
    assert PutSettlement(outcome, payouts, []) == ToLE(4, |outcome|) + (outcome + PutTable(payouts, []));
  }

  lemma MultipleOfLimit(n: nat, m: nat)
    requires n % U32_LIMIT == m % U32_LIMIT && -U32_LIMIT < n - m < U32_LIMIT
    ensures n == m
  {
  }

  lemma TablesInjective(a: seq<Payout>, b: seq<Payout>)
    requires CastsAreExact([], a) && CastsAreExact([], b) && PutTable(a, []) == PutTable(b, [])
    ensures a == b
  {
    hide PutRows;
    WordSizes();
    WordInjective(4, |a|, PutRows(a, []), |b|, PutRows(b, []));
    RowsInjective(a, [], b, []);
  }

  /** Where the payout rows stay under 2^32 bytes, an attestation preimage names one event, one
      outcome and one payout table, however long the outcomes are: two outcomes with one low
      word differ in length by a multiple of 2^32, more than the rows could make up for. */
  lemma AttestationPreimageInjective(
    event: bytes32, outcome: bytes, payouts: seq<Payout>,
    event': bytes32, outcome': bytes, payouts': seq<Payout>)
    requires RowsLength(payouts) < U32_LIMIT && RowsLength(payouts') < U32_LIMIT
    requires AttestationPreimage(event, outcome, payouts) == AttestationPreimage(event', outcome', payouts')
    ensures event == event' && outcome == outcome' && payouts == payouts'
  {
    var s, s' := PutSettlement(outcome, payouts, []), PutSettlement(outcome', payouts', []);
    assert event == (event + s)[..32] && s == (event + s)[32..];
    assert event' == (event' + s')[..32] && s' == (event' + s')[32..];
    hide PutSettlement, PutRows, RowsLength, ToLE;
    SettlementParts(outcome, payouts);
    SettlementParts(outcome', payouts');
    SameLowWord(|outcome|, |outcome'|);
    MultipleOfLimit(|outcome|, |outcome'|);
    ShortRows(payouts);
    ShortRows(payouts');
    TablesInjective(payouts, payouts');
  }

  lemma ZeroWord()
    ensures ToLE(4, 0) == [0, 0, 0, 0] && ToLE(4, U32_LIMIT) == [0, 0, 0, 0]
  {
    Word4(0);
    LowWord(U32_LIMIT);
  }

  // The table of one payout ends in the zeros of its script.
  lemma OneRowTable(payout: Payout)
    requires payout == Coin(0, seq(U32_LIMIT - 12, _ => 0))
    ensures |PutTable([payout], [])| == U32_LIMIT + 4
    ensures PutTable([payout], [])[U32_LIMIT..] == [0, 0, 0, 0]
  {
    var script := payout.scriptPubkey;
    assert PutRows([payout], []) == PutRow(payout, []);
    assert PutTable([payout], []) == ToLE(4, 1) + (ToLE(8, 0) + (ToLE(4, |script|) + (script + [])));
  }

  lemma LongOutcome(outcome: bytes)
    requires |outcome| == U32_LIMIT
    ensures PutSettlement(outcome, [], []) == [0, 0, 0, 0] + (outcome + [0, 0, 0, 0])
  {
    ZeroWord();
    assert PutTable([], []) == [0, 0, 0, 0];
  }

  lemma EmptyOutcome(payouts: seq<Payout>)
    ensures PutSettlement([], payouts, []) == [0, 0, 0, 0] + PutTable(payouts, [])
  {
    hide PutTable;
    ZeroWord();
    assert [] + PutTable(payouts, []) == PutTable(payouts, []);
  }

  // Behind an outcome of 2^32 bytes without payouts, the preimage is that of an empty outcome
  // with one payout.
  lemma LongOutcomeCollides(event: bytes32) returns (outcome: bytes, payout: Payout)
    ensures |outcome| == U32_LIMIT && RowsLength([payout]) == U32_LIMIT
    ensures AttestationPreimage(event, outcome, []) == AttestationPreimage(event, [], [payout])
  {
    hide PutSettlement, PutTable;
    payout := Coin(0, seq(U32_LIMIT - 12, _ => 0));
    OneRowTable(payout);
    EmptyOutcome([payout]);
    var table := PutTable([payout], []);
    outcome := table[..U32_LIMIT];
    assert table == outcome + [0, 0, 0, 0];
    LongOutcome(outcome);
    assert [payout][1..] == [];
  }

  // No two settlements with payout rows of fewer than `n` bytes share a preimage.
  ghost predicate Unambiguous(n: nat) {
    forall event: bytes32, outcome: bytes, payouts: seq<Payout>,
           event': bytes32, outcome': bytes, payouts': seq<Payout>
      {:trigger AttestationPreimage(event, outcome, payouts), AttestationPreimage(event', outcome', payouts')} ::
      && RowsLength(payouts) < n && RowsLength(payouts') < n
      && AttestationPreimage(event, outcome, payouts) == AttestationPreimage(event', outcome', payouts')
      ==> event == event' && outcome == outcome' && payouts == payouts'
  }

  lemma NoRows()
    ensures RowsLength([]) == 0
  {
  }

  /** The exact bound: preimages are unambiguous up to payout rows of 2^32 - 1 bytes, for
      outcomes of any length, and not beyond. */
  lemma UnambiguousExactly(n: nat)
    ensures Unambiguous(n) <==> n <= U32_LIMIT
  {
    hide AttestationPreimage, RowsLength;
    if n <= U32_LIMIT {
      forall event: bytes32, outcome: bytes, payouts: seq<Payout>,
             event': bytes32, outcome': bytes, payouts': seq<Payout>
        | && RowsLength(payouts) < n && RowsLength(payouts') < n
          && AttestationPreimage(event, outcome, payouts) == AttestationPreimage(event', outcome', payouts')
        ensures event == event' && outcome == outcome' && payouts == payouts'
      {
        AttestationPreimageInjective(event, outcome, payouts, event', outcome', payouts');
      }
    } else {
      var event: bytes32 := seq(32, _ => 0);
      var outcome, payout := LongOutcomeCollides(event);
      NoRows();
      assert AttestationPreimage(event, outcome, []) == AttestationPreimage(event, [], [payout]);
    }
  }

  /** Equal tagged digests over different messages, told apart by tag or by message. */
  ghost predicate TaggedCollision(sha: Sha256, tag: bytes, message: bytes, tag': bytes, message': bytes) {
    || Collision(sha, tag, tag')
    || Collision(sha, Preimage(sha, tag, message), Preimage(sha, tag', message'))
  }

  /** So does the digest bind event, outcome and payouts. */
  lemma AttestationDigestBinds(
    sha: Sha256,
    event: bytes32, outcome: bytes, payouts: seq<Payout>,
    event': bytes32, outcome': bytes, payouts': seq<Payout>)
    requires RowsLength(payouts) < U32_LIMIT && RowsLength(payouts') < U32_LIMIT
    requires AttestationDigest(sha, event, outcome, payouts) == AttestationDigest(sha, event', outcome', payouts')
    ensures || (event == event' && outcome == outcome' && payouts == payouts')
            || TaggedCollision(sha, ORACLE_ATTESTATION_TAG, AttestationPreimage(event, outcome, payouts),
                                    ORACLE_ATTESTATION_TAG, AttestationPreimage(event', outcome', payouts'))
  {
    var m, m' := AttestationPreimage(event, outcome, payouts), AttestationPreimage(event', outcome', payouts');
    hide AttestationPreimage, RowsLength;
    TaggedDigestBinds(sha, ORACLE_ATTESTATION_TAG, m, ORACLE_ATTESTATION_TAG, m');
    if m == m' {
      AttestationPreimageInjective(event, outcome, payouts, event', outcome', payouts');
    }
  }

  // What is announced is never what is attested.
  lemma TagsSeparate(sha: Sha256, event: bytes32, outcome: bytes, payouts: seq<Payout>, announced: bytes)
    requires AttestationDigest(sha, event, outcome, payouts) == TaggedDigest(sha, ORACLE_ANNOUNCEMENT_TAG, announced)
    ensures TaggedCollision(sha, ORACLE_ATTESTATION_TAG, AttestationPreimage(event, outcome, payouts),
                                 ORACLE_ANNOUNCEMENT_TAG, announced)
  {
    assert |ORACLE_ATTESTATION_TAG| == 31 && |ORACLE_ANNOUNCEMENT_TAG| == 32;
    hide Ascii;
    TaggedDigestBinds(sha, ORACLE_ATTESTATION_TAG, AttestationPreimage(event, outcome, payouts),
                      ORACLE_ANNOUNCEMENT_TAG, announced);
  }
}
