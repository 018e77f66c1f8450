/** The legacy linear claim binding over the Cairo field.

    The relation is collision-prone by design of the regression tests that keep it.
    What is proved is exactly how: the kernel of the binding over the bounded inputs. */
module LinearBinding {
  import opened Prelude

  // 2^251 + 17 * 2^192 + 1
  const PRIME := 0x800000000000011000000000000000000000000000000000000000000000001

  type felt = x: int | 0 <= x < PRIME

  datatype Sibling = Sibling(hi: u128, lo: u128, isLeft: felt)

  datatype Claim = Claim(
    manifestIdHi: u128, manifestIdLo: u128,
    taprootRootHi: u128, taprootRootLo: u128,
    selectedLeafHashHi: u128, selectedLeafHashLo: u128,
    selectedLeafRole: felt,
    pathCommitmentHi: u128, pathCommitmentLo: u128,
    pathFold: felt,
    pathDepth: u32,
    sibling0: Sibling, sibling1: Sibling, sibling2: Sibling,
    settlementHashHi: u128, settlementHashLo: u128,
    amountSats: u64,
    exitDelay: u32,
    bindingCommitment: felt)

  datatype ClaimError =
    | BadLeafRole | AmountIsZero | ExitDelayIsZero | PathTooDeep | BadPathSide | BadPathFold | BadBinding

  datatype ClaimOutput = ClaimOutput(ok: felt, selectedLeafRole: felt, bindingCommitment: felt)

  function Mix(left: felt, right: felt): felt {
    (left * 31 + right * 17 + 7) % PRIME
  }

  function MixHashLimbs(hi: u128, lo: u128): felt {
    Mix(hi, lo)
  }

  predicate IsSupportedLeafRole(role: felt) {
    role == 1 || role == 2 || role == 3 || role == 4 || role == 5
  }

  function MixPathBranch(current: felt, sibling: felt, siblingIsLeft: felt): Result<felt, ClaimError> {
    if siblingIsLeft == 1 then Success(Mix(sibling, current))
    else if siblingIsLeft == 0 then Success(Mix(current, sibling))
    else Failure(BadPathSide)
  }

  /** The path fold: a left fold over the first `pathDepth` siblings. */

  function Siblings(c: Claim): seq<Sibling> {
    [c.sibling0, c.sibling1, c.sibling2]
  }

  function Fold(current: felt, path: seq<Sibling>): Result<felt, ClaimError>
    decreases |path|
  {
    if path == [] then Success(current)
    else
      var next :- MixPathBranch(current, MixHashLimbs(path[0].hi, path[0].lo), path[0].isLeft);
      Fold(next, path[1..])
  }

  function UsedSiblings(c: Claim): seq<Sibling> {
    if c.pathDepth < 3 then Siblings(c)[..c.pathDepth] else Siblings(c)
  }

  function PathFold(c: Claim): Result<felt, ClaimError> {
    Fold(MixHashLimbs(c.selectedLeafHashHi, c.selectedLeafHashLo), UsedSiblings(c))
  }

  lemma FoldStep(current: felt, path: seq<Sibling>)
    requires path != []
    ensures var next := MixPathBranch(current, MixHashLimbs(path[0].hi, path[0].lo), path[0].isLeft);
            Fold(current, path) == if next.Failure? then next else Fold(next.value, path[1..])
  {
  }

  method ComputeTaprootPathFold(c: Claim) returns (r: Result<felt, ClaimError>)
    ensures r == PathFold(c)
  {
    hide Mix;
    var current := MixHashLimbs(c.selectedLeafHashHi, c.selectedLeafHashLo);
    ghost var path := UsedSiblings(c);
    if c.pathDepth > 0 {
      FoldStep(current, path);
      current :- MixPathBranch(current, MixHashLimbs(c.sibling0.hi, c.sibling0.lo), c.sibling0.isLeft);
    }
    if c.pathDepth > 1 {
      FoldStep(current, path[1..]);
      current :- MixPathBranch(current, MixHashLimbs(c.sibling1.hi, c.sibling1.lo), c.sibling1.isLeft);
    }
    if c.pathDepth > 2 {
      assert path[1..][1..] == path[2..];
      FoldStep(current, path[2..]);
      current :- MixPathBranch(current, MixHashLimbs(c.sibling2.hi, c.sibling2.lo), c.sibling2.isLeft);
    }
    return Success(current);
  }

  function ComputeBinding(c: Claim): felt {
    var manifestId := MixHashLimbs(c.manifestIdHi, c.manifestIdLo);
    var taprootRoot := MixHashLimbs(c.taprootRootHi, c.taprootRootLo);
    var selectedLeafHash := MixHashLimbs(c.selectedLeafHashHi, c.selectedLeafHashLo);
    var pathCommitment := MixHashLimbs(c.pathCommitmentHi, c.pathCommitmentLo);
    var settlementHash := MixHashLimbs(c.settlementHashHi, c.settlementHashLo);
    var policyPair := Mix(manifestId, taprootRoot);
    var pathPair := Mix(pathCommitment, c.pathFold);
    var leafPair := Mix(selectedLeafHash, c.selectedLeafRole);
    var policyPath := Mix(policyPair, pathPair);
    var policyLeaf := Mix(policyPath, leafPair);
    var settlementAmount := Mix(settlementHash, c.amountSats);
    var settlementDelay := Mix(settlementAmount, c.exitDelay);
    Mix(policyLeaf, settlementDelay)
  }

  function VerifyClaim(c: Claim): Result<ClaimOutput, ClaimError> {
    if !IsSupportedLeafRole(c.selectedLeafRole) then Failure(BadLeafRole)
    else if c.amountSats == 0 then Failure(AmountIsZero)
    else if c.exitDelay == 0 then Failure(ExitDelayIsZero)
    else if c.pathDepth > 3 then Failure(PathTooDeep)
    else
      var fold :- PathFold(c);
      if c.pathFold != fold then Failure(BadPathFold)
      else if c.bindingCommitment != ComputeBinding(c) then Failure(BadBinding)
      else Success(ClaimOutput(1, c.selectedLeafRole, ComputeBinding(c)))
  }

  /** The verifier cannot see sibling slots at or beyond the depth. */
  lemma UnusedSlotsAreInvisible(c: Claim, s0: Sibling, s1: Sibling, s2: Sibling)
    requires c.pathDepth > 0 ==> s0 == c.sibling0
    requires c.pathDepth > 1 ==> s1 == c.sibling1
    requires c.pathDepth > 2 ==> s2 == c.sibling2
    ensures VerifyClaim(c.(sibling0 := s0, sibling1 := s1, sibling2 := s2)) == VerifyClaim(c)
  {
    hide Mix, Fold;
    assert UsedSiblings(c.(sibling0 := s0, sibling1 := s1, sibling2 := s2)) == UsedSiblings(c);
  }

  /** The binding as an affine function of the claim's 25 serialised fields. */

  function ToFields(c: Claim): (v: seq<int>)
    ensures |v| == 25
  {
    [c.manifestIdHi, c.manifestIdLo, c.taprootRootHi, c.taprootRootLo,
     c.selectedLeafHashHi, c.selectedLeafHashLo, c.selectedLeafRole,
     c.pathCommitmentHi, c.pathCommitmentLo, c.pathFold, c.pathDepth,
     c.sibling0.hi, c.sibling0.lo, c.sibling0.isLeft,
     c.sibling1.hi, c.sibling1.lo, c.sibling1.isLeft,
     c.sibling2.hi, c.sibling2.lo, c.sibling2.isLeft,
     c.settlementHashHi, c.settlementHashLo, c.amountSats, c.exitDelay, c.bindingCommitment]
  }

  // Each field is weighted by 31 for every left branch and by 17 for every right branch on
  // its way up the tree of mixes.
  function Weighted(v: seq<int>): int
    requires |v| >= 24
  {
    28629151 * v[0] + 15699857 * v[1] + 15699857 * v[2] + 8609599 * v[3]
    + 506447 * v[4] + 277729 * v[5] + 8959 * v[6]
    + 15699857 * v[7] + 8609599 * v[8] + 277729 * v[9]
    + 506447 * v[20] + 277729 * v[21] + 8959 * v[22] + 289 * v[23]
  }

  const OFFSET := 14120967

  function Residue(x: int): felt {
    x % PRIME
  }

  lemma ResidueOfSum(x: int, k: int)
    ensures Residue(x + PRIME * k) == Residue(x)
  {
  }

  lemma ResidueOfFelt(x: felt)
    ensures Residue(x) == x
  {
  }

  function Unreduced(left: int, right: int): int {
    31 * left + 17 * right + 7
  }

  // Mixing residues is mixing, then taking the residue.
  lemma MixResidues(a: int, b: int)
    ensures Mix(Residue(a), Residue(b)) == Residue(Unreduced(a, b))
  {
    var k := 31 * (a / PRIME) + 17 * (b / PRIME);
    assert Unreduced(a, b) == Unreduced(Residue(a), Residue(b)) + PRIME * k;
    ResidueOfSum(Unreduced(Residue(a), Residue(b)), k);
  }

  // The tree of mixes over any integers, reduced modulo the prime at the leaves.
  function Tree(v: seq<int>): felt
    requires |v| >= 24
  {
    Mix(Mix(Mix(Mix(Mix(Residue(v[0]), Residue(v[1])), Mix(Residue(v[2]), Residue(v[3]))),
                Mix(Mix(Residue(v[7]), Residue(v[8])), Residue(v[9]))),
            Mix(Mix(Residue(v[4]), Residue(v[5])), Residue(v[6]))),
        Mix(Mix(Mix(Residue(v[20]), Residue(v[21])), Residue(v[22])), Residue(v[23])))
  }

  lemma TreeIsAffine(v: seq<int>)
    requires |v| >= 24
    ensures Tree(v) == Residue(Weighted(v) + OFFSET)
  {
    var manifest, root := Unreduced(v[0], v[1]), Unreduced(v[2], v[3]);
    var leaf, commitment := Unreduced(v[4], v[5]), Unreduced(v[7], v[8]);
    var policyPair, pathPair := Unreduced(manifest, root), Unreduced(commitment, v[9]);
    var policyLeaf := Unreduced(Unreduced(policyPair, pathPair), Unreduced(leaf, v[6]));
    var settlement := Unreduced(Unreduced(Unreduced(v[20], v[21]), v[22]), v[23]);
    assert Unreduced(policyLeaf, settlement) == Weighted(v) + OFFSET;
    hide Mix, Residue, Unreduced, Weighted;
    forall a: int, b: int {:trigger Mix(Residue(a), Residue(b))}
      ensures Mix(Residue(a), Residue(b)) == Residue(Unreduced(a, b))
    {
      MixResidues(a, b);
    }
  }

  /** The binding is affine, with the weights above. */
  lemma BindingIsAffine(c: Claim)
    ensures ComputeBinding(c) == Residue(Weighted(ToFields(c)) + OFFSET)
  {
    hide Mix, Residue, Weighted;
    forall x: felt ensures Residue(x) == x { ResidueOfFelt(x); }
    TreeIsAffine(ToFields(c));
  }

  lemma SmallDifference(x: int, y: int)
    requires -PRIME < x - y < PRIME
    ensures Residue(x) == Residue(y) <==> x == y
  {
    if Residue(x) == Residue(y) {
      assert x - y == PRIME * (x / PRIME - y / PRIME);
    }
  }

  /** The exact kernel: among claims with one path fold, whatever the limbs, amount, delay
      and supported role, two bindings agree only if the weighted sums agree over the
      integers; the modulus never helps. */
  lemma BindingKernel(c: Claim, d: Claim)
    requires c.pathFold == d.pathFold
    requires c.selectedLeafRole == d.selectedLeafRole
          || (IsSupportedLeafRole(c.selectedLeafRole) && IsSupportedLeafRole(d.selectedLeafRole))
    ensures ComputeBinding(c) == ComputeBinding(d) <==> Weighted(ToFields(c)) == Weighted(ToFields(d))
  {
    hide ComputeBinding;
    BindingIsAffine(c);
    BindingIsAffine(d);
    var x, y := Weighted(ToFields(c)), Weighted(ToFields(d));
    assert -PRIME < x - y < PRIME;
    SmallDifference(x + OFFSET, y + OFFSET);
  }

  // Amount and delay: one satoshi more is hidden by 31 blocks less, and by nothing else.
  lemma AmountDelayKernel(c: Claim, amount: u64, delay: u32)
    ensures ComputeBinding(c.(amountSats := amount, exitDelay := delay)) == ComputeBinding(c)
       <==> delay - c.exitDelay == -31 * (amount - c.amountSats)
  {
    hide ComputeBinding;
    BindingKernel(c, c.(amountSats := amount, exitDelay := delay));
  }

  // Settlement limbs: the invisible changes are the integer multiples of (+17, -31).
  lemma SettlementLimbKernel(c: Claim, hi: u128, lo: u128)
    ensures ComputeBinding(c.(settlementHashHi := hi, settlementHashLo := lo)) == ComputeBinding(c)
       <==> exists k :: hi - c.settlementHashHi == 17 * k && lo - c.settlementHashLo == -31 * k
  {
    hide ComputeBinding;
    BindingKernel(c, c.(settlementHashHi := hi, settlementHashLo := lo));
    var x, y := hi - c.settlementHashHi, lo - c.settlementHashLo;
    if 31 * x + 17 * y == 0 {
      var k := 11 * x + 6 * y;
      assert x == 17 * k && y == -31 * k;
    }
  }

  /** Which forgeries of amount and delay a verified claim admits. */
  lemma VerifiedForgeries(c: Claim, amount: u64, delay: u32)
    requires VerifyClaim(c).Success?
    ensures VerifyClaim(c.(amountSats := amount, exitDelay := delay)).Success?
       <==> amount > 0 && delay > 0 && delay - c.exitDelay == -31 * (amount - c.amountSats)
  {
    hide ComputeBinding, Fold;
    AmountDelayKernel(c, amount, delay);
  }

  /** And which forgeries of the settlement limbs. */
  lemma SettlementForgeries(c: Claim, hi: u128, lo: u128)
    requires VerifyClaim(c).Success?
    ensures VerifyClaim(c.(settlementHashHi := hi, settlementHashLo := lo)).Success?
       <==> exists k :: hi - c.settlementHashHi == 17 * k && lo - c.settlementHashLo == -31 * k
  {
    hide ComputeBinding, Fold;
    SettlementLimbKernel(c, hi, lo);
  }

  // What a path fold can contribute to a difference of weighted sums, in multiples of the prime.
  const FOLD_WEIGHT := 277729

  lemma VerifiedIsBound(c: Claim)
    requires VerifyClaim(c).Success?
    ensures c.bindingCommitment == ComputeBinding(c) && IsSupportedLeafRole(c.selectedLeafRole)
  {
    hide ComputeBinding, Fold;
  }

  lemma WeightedRange(c: Claim, d: Claim)
    requires IsSupportedLeafRole(c.selectedLeafRole) && IsSupportedLeafRole(d.selectedLeafRole)
    ensures -PRIME * (FOLD_WEIGHT + 1) < Weighted(ToFields(c)) - Weighted(ToFields(d)) < PRIME * (FOLD_WEIGHT + 1)
  {
  }

  lemma SameResidue(x: int, y: int)
    requires -PRIME * (FOLD_WEIGHT + 1) < x - y < PRIME * (FOLD_WEIGHT + 1)
    ensures Residue(x) == Residue(y) <==> exists m :: -FOLD_WEIGHT <= m <= FOLD_WEIGHT && x - y == PRIME * m
  {
    if Residue(x) == Residue(y) {
      var m := x / PRIME - y / PRIME;
      assert x - y == PRIME * m;
      assert -FOLD_WEIGHT <= m <= FOLD_WEIGHT;
    }
    if m :| -FOLD_WEIGHT <= m <= FOLD_WEIGHT && x - y == PRIME * m {
      ResidueOfSum(y, m);
    }
  }

  /** Any two verified claims, whatever their folds: they carry one binding if and only if their
      weighted sums differ by a multiple of the prime, and then by at most 277729 of them. */
  lemma VerifiedClaimsKernel(c: Claim, d: Claim)
    requires VerifyClaim(c).Success? && VerifyClaim(d).Success?
    ensures c.bindingCommitment == d.bindingCommitment
       <==> exists m :: -FOLD_WEIGHT <= m <= FOLD_WEIGHT
                     && Weighted(ToFields(c)) - Weighted(ToFields(d)) == PRIME * m
  {
    hide ComputeBinding, Fold, Weighted, ToFields;
    VerifiedIsBound(c);
    VerifiedIsBound(d);
    BindingIsAffine(c);
    BindingIsAffine(d);
    WeightedRange(c, d);
    SameResidue(Weighted(ToFields(c)) + OFFSET, Weighted(ToFields(d)) + OFFSET);
  }

  /** Mixing is a bijection in each argument, so no change confined to one bound field is
      invisible.  The inverses of 31 and 17 modulo the prime are explicit. */

  const INVERSE_OF_31 := 0x6318c6318c631998c6318c6318c6318c6318c6318c6318c6318c6318c6318c7
  const INVERSE_OF_17 := 0x70f0f0f0f0f0f1e0f0f0f0f0f0f0f0f0f0f0f0f0f0f0f0f0f0f0f0f0f0f0f10

  lemma MixInjectiveLeft(a: felt, b: felt, right: felt)
    requires Mix(a, right) == Mix(b, right)
    ensures a == b
  {
    var m := (31 * a + 17 * right + 7) / PRIME - (31 * b + 17 * right + 7) / PRIME;
    assert 31 * (a - b) == PRIME * m;
    assert a - b == PRIME * (m * INVERSE_OF_31 - 24 * (a - b));
  }

  lemma MixInjectiveRight(left: felt, a: felt, b: felt)
    requires Mix(left, a) == Mix(left, b)
    ensures a == b
  {
    var m := (31 * left + 17 * a + 7) / PRIME - (31 * left + 17 * b + 7) / PRIME;
    assert 17 * (a - b) == PRIME * m;
    assert a - b == PRIME * (m * INVERSE_OF_17 - 15 * (a - b));
  }

  // Path siblings, the path depth and the claimed binding itself are not bound.
  predicate IsBound(index: nat) {
    index < 10 || 20 <= index < 24
  }

  lemma SingleFieldChange(v: seq<int>, i: nat, x: int)
    requires |v| == 25 && i < 25
    ensures Tree(v[i := x]) == Tree(v) <==> !IsBound(i) || Residue(x) == Residue(v[i])
  {
    hide Mix, Residue;
    forall a, b, right {:trigger Mix(a, right), Mix(b, right)} | Mix(a, right) == Mix(b, right) ensures a == b {
      MixInjectiveLeft(a, b, right);
    }
    forall left, a, b {:trigger Mix(left, a), Mix(left, b)} | Mix(left, a) == Mix(left, b) ensures a == b {
      MixInjectiveRight(left, a, b);
    }
  }
}
