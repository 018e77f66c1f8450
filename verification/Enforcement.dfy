/** The timing policy around a dispute, and the operator's bond. */
module Enforcement {
  import opened Prelude

  datatype TimingPolicy = TimingPolicy(
    challengeBlocks: u32,
    responseWindowBlocks: u32,
    responseRounds: u32,
    reorgMarginBlocks: u32,
    operatorTakeHeightDelta: u32,
    emergencyRecoveryHeightDelta: u32)

  function Validate(p: TimingPolicy): bool {
    match CheckedMul(U32_LIMIT, p.responseWindowBlocks, p.responseRounds)
    case None => false
    case Some(responses) =>
      match CheckedAdd(U32_LIMIT, p.challengeBlocks, responses)
      case None => false
      case Some(blocks) =>
        match CheckedAdd(U32_LIMIT, blocks, p.reorgMarginBlocks)
        case None => false
        case Some(dispute) =>
          p.operatorTakeHeightDelta >= dispute && p.emergencyRecoveryHeightDelta > p.operatorTakeHeightDelta
  }

  // The checked arithmetic refuses no policy that satisfies the inequalities.
  lemma ValidateIsExact(p: TimingPolicy)
    ensures Validate(p) <==>
            && p.challengeBlocks + p.responseWindowBlocks * p.responseRounds + p.reorgMarginBlocks
                 <= p.operatorTakeHeightDelta
            && p.operatorTakeHeightDelta < p.emergencyRecoveryHeightDelta
  {
    ProductBound(p.responseWindowBlocks, p.responseRounds);
  }

  /** A dispute: the height of the challenge, then of each response, counted from the
      assertion. */
  datatype Dispute = Dispute(challenge: nat, responses: seq<nat>) {
    function End(): nat {
      if responses == [] then challenge else responses[|responses| - 1]
    }

    function Before(): Dispute
      requires responses != []
    {
      Dispute(challenge, responses[..|responses| - 1])
    }
  }

  // Every move is made inside its window, and there are at most the allowed rounds.
  ghost predicate InTime(p: TimingPolicy, d: Dispute)
    decreases |d.responses|
  {
    && |d.responses| <= p.responseRounds
    && if d.responses == [] then d.challenge <= p.challengeBlocks
       else InTime(p, d.Before()) && d.Before().End() <= d.End() <= d.Before().End() + p.responseWindowBlocks
  }

  lemma {:induction false} DisputeEndsBy(p: TimingPolicy, d: Dispute)
    requires InTime(p, d)
    ensures d.End() <= p.challengeBlocks + |d.responses| * p.responseWindowBlocks
    decreases |d.responses|
  {
    if d.responses != [] {
      DisputeEndsBy(p, d.Before());
      assert |d.responses| * p.responseWindowBlocks
          == (|d.responses| - 1) * p.responseWindowBlocks + p.responseWindowBlocks;
    }
  }

  // The slowest dispute that is still in time.
  lemma {:induction false} SlowestDispute(p: TimingPolicy, rounds: nat) returns (d: Dispute)
    requires rounds <= p.responseRounds
    ensures InTime(p, d) && |d.responses| == rounds
    ensures d.End() == p.challengeBlocks + rounds * p.responseWindowBlocks
  {
    if rounds == 0 {
      d := Dispute(p.challengeBlocks, []);
    } else {
      var before := SlowestDispute(p, rounds - 1);
      d := Dispute(before.challenge, before.responses + [before.End() + p.responseWindowBlocks]);
      assert d.Before() == before;
      assert rounds * p.responseWindowBlocks == (rounds - 1) * p.responseWindowBlocks + p.responseWindowBlocks;
    }
  }

  lemma FewerRounds(a: nat, b: nat, window: nat)
    requires a <= b
    ensures a * window <= window * b
  {
    assert window * b - a * window == (b - a) * window;
  }

  /** A policy validates exactly when every in-time dispute is over, with the reorg margin to
      spare, before the operator can take, and that is before emergency recovery. */
  lemma ValidateIsTheTimingGuarantee(p: TimingPolicy)
    ensures Validate(p) <==>
            && (forall d :: InTime(p, d) ==> d.End() + p.reorgMarginBlocks <= p.operatorTakeHeightDelta)
            && p.operatorTakeHeightDelta < p.emergencyRecoveryHeightDelta
  {
    ValidateIsExact(p);
    if Validate(p) {
      forall d | InTime(p, d) ensures d.End() + p.reorgMarginBlocks <= p.operatorTakeHeightDelta {
        DisputeEndsBy(p, d);
        FewerRounds(|d.responses|, p.responseRounds, p.responseWindowBlocks);
      }
    } else {
      var d := SlowestDispute(p, p.responseRounds);
      assert InTime(p, d);
    }
  }

  datatype BondPolicy = BondPolicy(
    protectedValueSats: u64,
    watcherRewardSats: u64,
    graphVbytes: u64,
    feeRateSatPerVbyte: u64)

  function RequiredBond(p: BondPolicy): Option<nat> {
    match CheckedMul(U64_LIMIT, p.graphVbytes, p.feeRateSatPerVbyte)
    case None => None
    case Some(fees) =>
      match CheckedAdd(U64_LIMIT, fees, p.protectedValueSats)
      case None => None
      case Some(total) => CheckedAdd(U64_LIMIT, total, p.watcherRewardSats)
  }

  /** The bond is the exact sum whenever that fits, and is missing only when it does not. */
  lemma BondIsExact(p: BondPolicy)
    ensures var exact := p.graphVbytes * p.feeRateSatPerVbyte + p.protectedValueSats + p.watcherRewardSats;
            RequiredBond(p) == if exact < U64_LIMIT then Some(exact) else None
  {
    ProductBound(p.graphVbytes, p.feeRateSatPerVbyte);
  }

  // A policy that demands no less of anything requires no smaller a bond.
  lemma BondIsMonotone(p: BondPolicy, q: BondPolicy)
    requires p.protectedValueSats <= q.protectedValueSats && p.watcherRewardSats <= q.watcherRewardSats
    requires p.graphVbytes <= q.graphVbytes && p.feeRateSatPerVbyte <= q.feeRateSatPerVbyte
    requires RequiredBond(q).Some?
    ensures RequiredBond(p).Some? && RequiredBond(p).value <= RequiredBond(q).value
  {
    BondIsExact(p);
    BondIsExact(q);
    FewerRounds(p.graphVbytes, q.graphVbytes, p.feeRateSatPerVbyte);
    FewerRounds(p.feeRateSatPerVbyte, q.feeRateSatPerVbyte, q.graphVbytes);
  }
}
