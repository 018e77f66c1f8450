/** The two JavaScript copies of the binding, over unbounded integers with truncating `%`,
    and the red-team probes built on them.  The bindings read a claim as 25 parsed numbers. */
module JsBinding {
  import opened Prelude
  import opened JsText
  import opened LinearBinding

  // The remainder of a division that rounds toward zero.
  function TruncatedRemainder(a: int, m: int): int
    requires m > 0
  {
    if a >= 0 then a % m else -((-a) % m)
  }

  function ModPrime(value: int): int {
    var reduced := TruncatedRemainder(value, PRIME);
    if reduced < 0 then reduced + PRIME else reduced
  }

  function JsMix(left: int, right: int): int {
    ModPrime(31 * left + 17 * right + 7)
  }

  // As the red-team probes spell it.
  function RedTeamBinding(f: seq<int>): int
    requires |f| == 25
  {
    var manifestId := JsMix(f[0], f[1]);
    var taprootRoot := JsMix(f[2], f[3]);
    var selectedLeaf := JsMix(f[4], f[5]);
    var pathCommitment := JsMix(f[7], f[8]);
    var settlementHash := JsMix(f[20], f[21]);
    var policyPair := JsMix(manifestId, taprootRoot);
    var pathPair := JsMix(pathCommitment, f[9]);
    var leafPair := JsMix(selectedLeaf, f[6]);
    var policyPath := JsMix(policyPair, pathPair);
    var policyLeaf := JsMix(policyPath, leafPair);
    var settlementAmount := JsMix(settlementHash, f[22]);
    var settlementDelay := JsMix(settlementAmount, f[23]);
    JsMix(policyLeaf, settlementDelay)
  }

  // As the trusted gate spells it.
  function GateBinding(f: seq<int>): int
    requires |f| == 25
  {
    var policyPair := JsMix(JsMix(f[0], f[1]), JsMix(f[2], f[3]));
    var pathPair := JsMix(JsMix(f[7], f[8]), f[9]);
    var leafPair := JsMix(JsMix(f[4], f[5]), f[6]);
    JsMix(JsMix(JsMix(policyPair, pathPair), leafPair), JsMix(JsMix(JsMix(f[20], f[21]), f[22]), f[23]))
  }

  lemma ModPrimeIsResidue(value: int)
    ensures ModPrime(value) == Residue(value)
  {
    if value < 0 {
      var q, r := (-value) / PRIME, (-value) % PRIME;
      assert value == -r + PRIME * -q;
      ResidueOfSum(-r, -q);
      ResidueOfSum(PRIME - r, -1);
    }
  }

  lemma JsMixIsMix(a: int, b: int)
    ensures JsMix(a, b) == Mix(Residue(a), Residue(b))
  {
    hide ModPrime, Residue, Mix;
    ModPrimeIsResidue(31 * a + 17 * b + 7);
    MixResidues(a, b);
  }

  /** Both copies compute the field binding, on every list of integers. */
  lemma JsBindingsAgree(f: seq<int>)
    requires |f| == 25
    ensures RedTeamBinding(f) == Tree(f) && GateBinding(f) == Tree(f)
  {
    hide JsMix, Mix, Residue;
    forall a: int, b: int {:trigger JsMix(a, b)} ensures JsMix(a, b) == Mix(Residue(a), Residue(b)) {
      JsMixIsMix(a, b);
    }
    forall x: felt ensures Residue(x) == x {
      ResidueOfFelt(x);
    }
  }

  lemma JsBindingsMatchCairo(c: Claim)
    ensures RedTeamBinding(ToFields(c)) == GateBinding(ToFields(c)) == ComputeBinding(c)
  {
    hide RedTeamBinding, GateBinding, ComputeBinding, Weighted, Residue;
    JsBindingsAgree(ToFields(c));
    TreeIsAffine(ToFields(c));
    BindingIsAffine(c);
  }

  /** The probes. */

  // `cairoHex`, for the hexadecimal form of a number.
  function HexDigits(n: nat): text {
    if n < 16 then [HexDigit(n)] else HexDigits(n / 16) + [HexDigit(n % 16)]
  }

  function CairoHex(n: int): text {
    T("0x") + (if n < 0 then [MINUS] + HexDigits(-n) else HexDigits(n))
  }

  // What the number parser is relied on for: it reads back what `cairoHex` writes.
  ghost predicate ReadsHex(parse: text -> int) {
    forall n: nat {:trigger CairoHex(n)} :: parse(CairoHex(n)) == n
  }

  function Values(parse: text -> int, fields: seq<text>): (v: seq<int>)
    ensures |v| == |fields|
    ensures forall i :: 0 <= i < |fields| ==> v[i] == parse(fields[i])
  {
    seq(|fields|, i requires 0 <= i < |fields| => parse(fields[i]))
  }

  method ChangedIndexes(left: seq<text>, right: seq<text>) returns (changed: seq<nat>)
    requires |left| == |right|
    ensures forall i, j :: 0 <= i < j < |changed| ==> changed[i] < changed[j]
    ensures forall k: nat :: k in changed <==> k < |left| && left[k] != right[k]
  {
    changed := [];
    var index := 0;
    while index < |left|
      invariant index <= |left|
      invariant forall i, j :: 0 <= i < j < |changed| ==> changed[i] < changed[j]
      invariant forall k: nat :: k in changed <==> k < index && left[k] != right[k]
    {
      assert forall i :: 0 <= i < |changed| ==> changed[i] in changed;
      if left[index] != right[index] {
        changed := changed + [index];
      }
      index := index + 1;
    }
  }

  // Replaces two fields of a copied claim.
  method Substitute(fields: seq<text>, i: nat, x: text, j: nat, y: text) returns (collided: seq<text>)
    requires i < j < |fields|
    ensures collided == fields[i := x][j := y]
  {
    var copy := new text[|fields|](k requires 0 <= k < |fields| => fields[k]);
    copy[i] := x;
    copy[j] := y;
    collided := copy[..];
  }

  lemma AmountDelayInvisible(f: seq<int>)
    requires |f| == 25
    ensures RedTeamBinding(f[22 := f[22] + 1][23 := f[23] - 31]) == RedTeamBinding(f)
  {
    var g := f[22 := f[22] + 1][23 := f[23] - 31];
    assert Weighted(g) == Weighted(f);
    hide RedTeamBinding, Weighted, Residue, Tree;
    JsBindingsAgree(f);
    JsBindingsAgree(g);
    TreeIsAffine(f);
    TreeIsAffine(g);
  }

  function At(s: seq<nat>, i: int): int {
    if 0 <= i < |s| then s[i] else 0
  }

  lemma OnlyTwo(s: seq<nat>, a: nat, b: nat)
    requires a < b && forall i, j :: 0 <= i < j < |s| ==> s[i] < s[j]
    requires forall k: nat :: k in s <==> k == a || k == b
    ensures s == [a, b]
  {
    assert forall i :: 0 <= i < |s| ==> s[i] in s;
    assert a in s && b in s;
    assert |s| > 2 ==> At(s, 0) < At(s, 1) < At(s, 2);
    assert |s| == 2 ==> At(s, 0) < At(s, 1);
  }

  // The probes take a claim's 25 strings.  None when a requirement fails; `digest` hashes the
  // claim's canonical text, and `pinned` is the digest the probe expects of the collision.
  method ReproduceAmountDelayCollision(
    parse: text -> int, fields: seq<text>, digest: seq<text> -> text, pinned: text) returns (r: Option<seq<text>>)
    requires |fields| == 25 && ReadsHex(parse)
    ensures var v := Values(parse, fields);
            var collided := fields[22 := CairoHex(v[22] + 1)][23 := CairoHex(v[23] - 31)];
            r == if && 0 < v[22] + 1 < U64_LIMIT && 0 < v[23] - 31 < U32_LIMIT
                    && RedTeamBinding(v) == v[24] && digest(fields) != digest(collided) == pinned
                 then Some(collided) else None
  {
    hide RedTeamBinding, CairoHex;
    var v := Values(parse, fields);
    var amount, delay := v[22] + 1, v[23] - 31;
    if !(0 < amount < U64_LIMIT) || !(0 < delay < U32_LIMIT) {
      return None;
    }
    var collided := Substitute(fields, 22, CairoHex(amount), 23, CairoHex(delay));
    var w := Values(parse, collided);
    assert w == v[22 := amount][23 := delay];
    AmountDelayInvisible(v);
    var changed := ChangedIndexes(fields, collided);
    assert forall k: nat :: k < 25 && k != 22 && k != 23 ==> fields[k] == collided[k];
    assert parse(fields[22]) != parse(collided[22]) && parse(fields[23]) != parse(collided[23]);
    OnlyTwo(changed, 22, 23);
    if RedTeamBinding(w) != RedTeamBinding(v) || RedTeamBinding(w) != w[24]
       || digest(collided) == digest(fields) || digest(collided) != pinned || changed != [22, 23] {
      return None;
    }
    return Some(collided);
  }

  lemma SettlementLimbsInvisible(f: seq<int>)
    requires |f| == 25
    ensures RedTeamBinding(f[20 := f[20] + 17][21 := f[21] - 31]) == RedTeamBinding(f)
  {
    var g := f[20 := f[20] + 17][21 := f[21] - 31];
    assert Weighted(g) == Weighted(f);
    hide RedTeamBinding, Weighted, Residue, Tree;
    JsBindingsAgree(f);
    JsBindingsAgree(g);
    TreeIsAffine(f);
    TreeIsAffine(g);
  }

  method ReproduceSettlementLimbCollision(
    parse: text -> int, fields: seq<text>, digest: seq<text> -> text, pinned: text) returns (r: Option<seq<text>>)
    requires |fields| == 25 && ReadsHex(parse)
    ensures var v := Values(parse, fields);
            var collided := fields[20 := CairoHex(v[20] + 17)][21 := CairoHex(v[21] - 31)];
            r == if && 0 <= v[20] + 17 < U128_LIMIT && 0 <= v[21] - 31 < U128_LIMIT
                    && RedTeamBinding(v) == v[24] && digest(fields) != digest(collided) == pinned
                 then Some(collided) else None
  {
    hide RedTeamBinding, CairoHex;
    var v := Values(parse, fields);
    var high, low := v[20] + 17, v[21] - 31;
    if !(0 <= high < U128_LIMIT) || !(0 <= low < U128_LIMIT) {
      return None;
    }
    var collided := Substitute(fields, 20, CairoHex(high), 21, CairoHex(low));
    var w := Values(parse, collided);
    assert w == v[20 := high][21 := low];
    SettlementLimbsInvisible(v);
    var changed := ChangedIndexes(fields, collided);
    assert forall k: nat :: k < 25 && k != 20 && k != 21 ==> fields[k] == collided[k];
    assert parse(fields[20]) != parse(collided[20]) && parse(fields[21]) != parse(collided[21]);
    OnlyTwo(changed, 20, 21);
    if RedTeamBinding(w) != RedTeamBinding(v) || RedTeamBinding(w) != w[24]
       || digest(collided) == digest(fields) || digest(collided) != pinned || changed != [20, 21] {
      return None;
    }
    return Some(collided);
  }
}
