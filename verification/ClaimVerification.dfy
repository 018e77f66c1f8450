/** When a legacy claim verifies: the path fold and the binding as affine functions of the claim's
    fields, with every weight written out. */
module ClaimVerification {
  import opened Prelude
  import opened LinearBinding

  /** A branch.  The left child of a mix weighs 31 and the right child 17. */

  predicate IsBit(side: felt) {
    side == 0 || side == 1
  }

  // The weight of the running value: it is the right child of a left sibling.
  function RunningWeight(side: felt): int {
    if side == 1 then 17 else 31
  }

  function SiblingWeight(side: felt): int {
    if side == 1 then 31 else 17
  }

  // Two limbs of a hash as one number, unreduced.
  function Limbs(hi: int, lo: int): int {
    31 * hi + 17 * lo + 7
  }

  // How a whole path scales the leaf, and what it adds.
  function PathWeight(path: seq<Sibling>): int {
    if path == [] then 1 else PathWeight(path[1..]) * RunningWeight(path[0].isLeft)
  }

  function PathOffset(path: seq<Sibling>): int {
    if path == [] then 0
    else
      var first := SiblingWeight(path[0].isLeft) * Limbs(path[0].hi, path[0].lo) + 7;
      PathWeight(path[1..]) * first + PathOffset(path[1..])
  }

  ghost predicate SidesAreBits(path: seq<Sibling>) {
    forall i :: 0 <= i < |path| ==> IsBit(path[i].isLeft)
  }

  lemma LimbsMix(hi: u128, lo: u128)
    ensures MixHashLimbs(hi, lo) == Residue(Limbs(hi, lo))
  {
    MixResidues(hi, lo);
    ResidueOfFelt(hi);
    ResidueOfFelt(lo);
  }

  lemma BranchIsAffine(current: int, s: Sibling)
    ensures MixPathBranch(Residue(current), MixHashLimbs(s.hi, s.lo), s.isLeft)
         == if !IsBit(s.isLeft) then Failure(BadPathSide)
            else Success(Residue(RunningWeight(s.isLeft) * current + SiblingWeight(s.isLeft) * Limbs(s.hi, s.lo) + 7))
  {
    var x := Limbs(s.hi, s.lo);
    LimbsMix(s.hi, s.lo);
    MixResidues(current, x);
    MixResidues(x, current);
    hide Mix, Residue, MixHashLimbs, Limbs;
  }

  lemma Distribute(a: int, b: int, x: int, y: int, z: int)
    ensures a * (b * x + y) + z == (a * b) * x + (a * y + z)
  {
  }

  /** A fold is affine in the leaf, with integer weights that compose along the path, and fails
      exactly when some side on the path is neither 0 nor 1. */
  lemma {:induction false} FoldIsAffine(current: int, path: seq<Sibling>)
    ensures Fold(Residue(current), path)
         == if SidesAreBits(path) then Success(Residue(PathWeight(path) * current + PathOffset(path)))
            else Failure(BadPathSide)
    decreases |path|
  {
    hide Mix, Residue, MixHashLimbs, MixPathBranch, Limbs;
    if path != [] {
      var s, rest := path[0], path[1..];
      assert path == [s] + rest;
      BranchIsAffine(current, s);
      if IsBit(s.isLeft) {
        var added := SiblingWeight(s.isLeft) * Limbs(s.hi, s.lo) + 7;
        var next := RunningWeight(s.isLeft) * current + added;
        assert next == RunningWeight(s.isLeft) * current + SiblingWeight(s.isLeft) * Limbs(s.hi, s.lo) + 7;
        FoldIsAffine(next, rest);
        Distribute(PathWeight(rest), RunningWeight(s.isLeft), current, added, PathOffset(rest));
        assert SidesAreBits(path) <==> SidesAreBits(rest);
      }
    }
  }

  // The fold of a claim, unreduced.
  function FoldValue(c: Claim): int {
    PathWeight(UsedSiblings(c)) * Limbs(c.selectedLeafHashHi, c.selectedLeafHashLo) + PathOffset(UsedSiblings(c))
  }

  lemma PathFoldExactly(c: Claim)
    ensures PathFold(c)
         == if SidesAreBits(UsedSiblings(c)) then Success(FoldValue(c) % PRIME) else Failure(BadPathSide)
  {
    LimbsMix(c.selectedLeafHashHi, c.selectedLeafHashLo);
    hide Mix, MixHashLimbs, Fold, Limbs, PathWeight, PathOffset;
    FoldIsAffine(Limbs(c.selectedLeafHashHi, c.selectedLeafHashLo), UsedSiblings(c));
  }

  // What one sibling adds.
  function Added(s: Sibling): int {
    SiblingWeight(s.isLeft) * Limbs(s.hi, s.lo) + 7
  }

  lemma ThreeSteps(a: Sibling, b: Sibling, d: Sibling)
    ensures var r0, r1, r2 := RunningWeight(a.isLeft), RunningWeight(b.isLeft), RunningWeight(d.isLeft);
            && PathWeight([a, b, d]) == r2 * r1 * r0
            && PathOffset([a, b, d]) == r2 * r1 * Added(a) + r2 * Added(b) + Added(d)
  {
    hide Limbs, RunningWeight, SiblingWeight;
    assert [a, b, d][1..] == [b, d] && [b, d][1..] == [d] && [d][1..] == [];
    assert PathWeight([d]) == RunningWeight(d.isLeft) && PathOffset([d]) == Added(d);
    assert PathWeight([b, d]) == RunningWeight(d.isLeft) * RunningWeight(b.isLeft);
    assert PathOffset([b, d]) == RunningWeight(d.isLeft) * Added(b) + Added(d);
  }

  // The fold of the deepest claim, written out over its fields.
  lemma FoldOfThree(c: Claim)
    requires c.pathDepth >= 3
    ensures FoldValue(c) ==
            var r0, r1, r2 :=
              RunningWeight(c.sibling0.isLeft), RunningWeight(c.sibling1.isLeft), RunningWeight(c.sibling2.isLeft);
            r2 * r1 * r0 * Limbs(c.selectedLeafHashHi, c.selectedLeafHashLo)
            + r2 * r1 * Added(c.sibling0) + r2 * Added(c.sibling1) + Added(c.sibling2)
  {
    hide Limbs, RunningWeight, SiblingWeight, PathWeight, PathOffset, Added;
    ThreeSteps(c.sibling0, c.sibling1, c.sibling2);
  }

  // The binding, unreduced, with 28629151 = 31^5, 15699857 = 31^4 * 17 and so on along the tree.
  function BindingValue(c: Claim): int {
    28629151 * c.manifestIdHi + 15699857 * c.manifestIdLo + 15699857 * c.taprootRootHi + 8609599 * c.taprootRootLo
    + 506447 * c.selectedLeafHashHi + 277729 * c.selectedLeafHashLo + 8959 * c.selectedLeafRole
    + 15699857 * c.pathCommitmentHi + 8609599 * c.pathCommitmentLo + 277729 * c.pathFold
    + 506447 * c.settlementHashHi + 277729 * c.settlementHashLo + 8959 * c.amountSats + 289 * c.exitDelay
    + 14120967
  }

  lemma BindingWeights(c: Claim)
    ensures Weighted(ToFields(c)) + OFFSET == BindingValue(c)
  {
  }

  /** A claim verifies if and only if its role is one of the five, its amount and delay are not
      zero, its path has at most three siblings, each on a side 0 or 1, and its fold and binding
      are the affine values of its fields modulo the prime. */
  lemma VerifyClaimExactly(c: Claim)
    ensures VerifyClaim(c).Success? <==>
            && c.selectedLeafRole in {1, 2, 3, 4, 5}
            && c.amountSats > 0 && c.exitDelay > 0 && c.pathDepth <= 3
            && SidesAreBits(UsedSiblings(c))
            && c.pathFold == FoldValue(c) % 0x800000000000011000000000000000000000000000000000000000000000001
            && c.bindingCommitment
               == BindingValue(c) % 0x800000000000011000000000000000000000000000000000000000000000001
    ensures VerifyClaim(c).Success? ==>
            VerifyClaim(c).value == ClaimOutput(1, c.selectedLeafRole, c.bindingCommitment)
  {
    PathFoldExactly(c);
    BindingIsAffine(c);
    BindingWeights(c);
    hide ComputeBinding, Weighted, PathFold, FoldValue, BindingValue, SidesAreBits;
  }

  // Which error a claim gets when several conditions fail.
  lemma VerifyClaimReasons(c: Claim)
    requires VerifyClaim(c).Failure?
    ensures VerifyClaim(c).error ==
      if c.selectedLeafRole !in {1, 2, 3, 4, 5} then BadLeafRole
      else if c.amountSats == 0 then AmountIsZero
      else if c.exitDelay == 0 then ExitDelayIsZero
      else if c.pathDepth > 3 then PathTooDeep
      else if !SidesAreBits(UsedSiblings(c)) then BadPathSide
      else if c.pathFold != FoldValue(c) % 0x800000000000011000000000000000000000000000000000000000000000001 then
        BadPathFold
      else BadBinding
  {
    PathFoldExactly(c);
    hide ComputeBinding, PathFold, FoldValue, SidesAreBits;
  }

  /** The three claims the repository ships. */

  // Sides 1, 0, 0.
  const OWNER_CSV_EXIT := Claim(
    0xa2da72a8bdf8f995947aebb930f9ce13, 0xa2a9aca1364ad16f0ff44bc0cbab8b82,
    0xc97ebd1a80a2872a8a5ebf409d8493a3, 0x3fe46762dac1f1ef74430252fa3836f8,
    0x6e1f2643eb32ddd2be8c614346101581, 0x24acecf9e74b7843c0bbdf0565f51536,
    0x2,
    0xbcc9cd524c3d23cd98394c734379b0c6, 0x2eb272c2ca6c819d415a08e70c5d29b3,
    0x123a46f1b596ce69c9f7d37d663499acdb2336,
    0x3,
    Sibling(0x8dc604fa7fe0838318061c62ab48a284, 0xcf78f649705a11c0bf6a654c0072cc3a, 0x1),
    Sibling(0xbff956c63945a5806280b96ff171a6ea, 0x4700095d69ba9cbe453cba570a57a900, 0x0),
    Sibling(0x29087138601b332a91f24f03d4c02e40, 0xba5b6f505bdf6b3668b3a0165f43b5a6, 0x0),
    0x8b8cd30852f4edbd86df233402d4ca88, 0x1fab9e765c7669731c9c120db7946855,
    0x186a0,
    0x90,
    0x4d4226614ba0e3cf8e3061925ddcc0f4ee8d463a5a)

  // Sides 1, 1, 0.
  const DLC_VIRTUAL_CET := Claim(
    0x572c9ed462aa894883e94f2f4494e15b, 0x100445f7176610dafbdbb86d6c707d0e,
    0xc97ebd1a80a2872a8a5ebf409d8493a3, 0x3fe46762dac1f1ef74430252fa3836f8,
    0xfa43d12f2f77e6aa29dd88cf370ff5b1, 0x8f15ebf3385db339fd00be69895f3b92,
    0x4,
    0x78e258989a2cbd1b6a75a330353be107, 0x6ee7289ae978f164184a9342aab614e9,
    0xb7651c02dd8a6dd96202d6983c233d9b24207,
    0x3,
    Sibling(0x55ac950d92b70e5d8ae4a3c5f7f80305, 0xad366ff594ce73e2ab50ee7a629536e6, 0x1),
    Sibling(0xc14545b24183f27a73455944b15934f9, 0xe10b88fcbd87895a1130dd25b6284fc3, 0x1),
    Sibling(0x29087138601b332a91f24f03d4c02e40, 0xba5b6f505bdf6b3668b3a0165f43b5a6, 0x0),
    0x8b8cd30852f4edbd86df233402d4ca88, 0x1fab9e765c7669731c9c120db7946855,
    0x186a0,
    0x90,
    0x30954eeff3ef6e0f0bb22ac53d9a5c672b198935d4)

  // No path.
  const BARK_OWNER_EXIT := Claim(
    0xb6711e6bda799c7a28766166f1dd110f, 0x54222befef8593f01acf8bd97c3c612d,
    0x17fe70f5b5ea6e3a8679b61938f3def6, 0xbea97213d9dcd4e028d93febb9e5be45,
    0x17fe70f5b5ea6e3a8679b61938f3def6, 0xbea97213d9dcd4e028d93febb9e5be45,
    0x2,
    0xac24b0a5963569ce1d6e80b9211fc59d, 0x22e5d39ea9440235a8d6dade640f1b47,
    0xf911041127f0d7bf8ff2a4bb53dc9a266,
    0x0,
    Sibling(0x0, 0x0, 0x0),
    Sibling(0x0, 0x0, 0x0),
    Sibling(0x0, 0x0, 0x0),
    0x8b8cd30852f4edbd86df233402d4ca88, 0x1fab9e765c7669731c9c120db7946855,
    0x2710,
    0x7e0,
    0x2fbef1d3496f428d84f5031c8619cd7c8136d3c)

  lemma OwnerCsvExitVerifies()
    ensures VerifyClaim(OWNER_CSV_EXIT).Success?
  {
    hide VerifyClaim, PathFold;
    VerifyClaimExactly(OWNER_CSV_EXIT);
    FoldOfThree(OWNER_CSV_EXIT);
  }

  lemma DlcVirtualCetVerifies()
    ensures VerifyClaim(DLC_VIRTUAL_CET).Success?
  {
    hide VerifyClaim, PathFold;
    VerifyClaimExactly(DLC_VIRTUAL_CET);
    FoldOfThree(DLC_VIRTUAL_CET);
  }

  lemma ShippedClaimsVerify()
    ensures VerifyClaim(OWNER_CSV_EXIT).Success?
    ensures VerifyClaim(DLC_VIRTUAL_CET).Success?
    ensures VerifyClaim(BARK_OWNER_EXIT).Success?
  {
    hide VerifyClaim, PathFold;
    OwnerCsvExitVerifies();
    DlcVirtualCetVerifies();
    VerifyClaimExactly(BARK_OWNER_EXIT);
    assert UsedSiblings(BARK_OWNER_EXIT) == [];
  }
}
