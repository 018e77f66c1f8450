/** The full claim digest: why it pins all 25 fields of a claim. */
module ClaimDigest {
  import opened Prelude
  import opened JsText
  import opened Utf8Encoding
  import opened CanonicalJson
  import opened JsTaggedHash
  import opened CosignerPolicy
  import opened CosignerGate
  import opened JsBinding
  import LinearBinding

  const CLOSING: text := T("\n]\n")

  // The lines of a claim, in front of the closing bracket.
  function Lines(items: JsonList): text
    requires ClaimLines(items).Some?
  {
    JoinLines(ClaimLines(items).value) + CLOSING
  }

  // What follows the quoted string of a first field.
  function Behind(items: JsonList): text
    requires items.Cons? && ClaimLines(items).Some?
  {
    if items.tail.Nil? then CLOSING else T(",\n") + Lines(items.tail)
  }

  lemma FirstLine(items: JsonList)
    requires items.Cons? && ClaimLines(items).Some?
    ensures Lines(items) == T("  ") + PutString(items.head.s, Behind(items))
  {
    hide T;
    var first := T("  ") + Quote(items.head.s);
    QuoteAppends(items.head.s, Behind(items));
    hide Quote, PutString;
    if items.tail.Nil? {
      assert ClaimLines(items).value == [first];
    } else {
      var rest := ClaimLines(items.tail).value;
      assert rest != [];
      assert ([first] + rest)[1..] == rest;
      assert first + T(",\n") + JoinLines(rest) + CLOSING == first + (T(",\n") + (JoinLines(rest) + CLOSING));
    }
    assert first + Behind(items) == T("  ") + (Quote(items.head.s) + Behind(items));
  }

  lemma {:induction false} LinesIdentify(a: JsonList, b: JsonList)
    requires a.Cons? && b.Cons? && ClaimLines(a).Some? && ClaimLines(b).Some?
    requires Lines(a) == Lines(b)
    ensures a == b
  {
    FirstLine(a);
    FirstLine(b);
    var x, y := PutString(a.head.s, Behind(a)), PutString(b.head.s, Behind(b));
    assert x == Lines(a)[2..] && y == Lines(b)[2..];
    StringIsPrefixCode(a.head.s, Behind(a), b.head.s, Behind(b));
    assert T(",\n")[0] != CLOSING[0];
    assert a.tail.Nil? <==> Behind(a)[0] == CLOSING[0];
    assert b.tail.Nil? <==> Behind(b)[0] == CLOSING[0];
    if a.tail.Cons? {
      assert Lines(a.tail) == Behind(a)[2..] && Lines(b.tail) == Behind(b)[2..];
      LinesIdentify(a.tail, b.tail);
    }
  }

  /** The canonical text of a claim determines its 25 fields. */
  lemma ClaimTextIdentifies(v: Json, w: Json)
    requires CanonicalCairoJson(v).Some? && CanonicalCairoJson(v) == CanonicalCairoJson(w)
    ensures v == w
  {
    var a, b := ClaimLines(v.items).value, ClaimLines(w.items).value;
    var s, t := CanonicalCairoJson(v).value, CanonicalCairoJson(w).value;
    hide JoinLines;
    assert s == T("[\n") + (JoinLines(a) + CLOSING) && t == T("[\n") + (JoinLines(b) + CLOSING);
    assert s[2..] == Lines(v.items) && t[2..] == Lines(w.items);
    LinesIdentify(v.items, w.items);
  }

  lemma {:induction false} LinesWellFormed(items: JsonList)
    requires items.Cons? && ClaimLines(items).Some?
    ensures WellFormed(Lines(items))
  {
    FirstLine(items);
    PlainWellFormed(T("  "));
    PlainWellFormed(CLOSING);
    PlainWellFormed(T(",\n"));
    if items.tail.Cons? {
      LinesWellFormed(items.tail);
      WellFormedConcat(T(",\n"), Lines(items.tail));
    }
    hide Lines, T;
    StringWellFormed(items.head.s, Behind(items));
    WellFormedConcat(T("  "), PutString(items.head.s, Behind(items)));
  }

  lemma ClaimTextWellFormed(v: Json)
    requires CanonicalCairoJson(v).Some?
    ensures WellFormed(CanonicalCairoJson(v).value)
  {
    var s := CanonicalCairoJson(v).value;
    LinesWellFormed(v.items);
    PlainWellFormed(T("[\n"));
    WellFormedConcat(T("[\n"), Lines(v.items));
    assert s == T("[\n") + Lines(v.items);
  }

  // Two proposals whose claims have different canonical bytes with one digest.
  ghost predicate ClaimCollision(c: Crypto, q: Proposal, q': Proposal)
    requires CanonicalCairoJson(q.claimInput).Some? && CanonicalCairoJson(q'.claimInput).Some?
  {
    Collision(c.sha, Utf8(CanonicalCairoJson(q.claimInput).value), Utf8(CanonicalCairoJson(q'.claimInput).value))
  }

  /** Two claims accepted for cases with one pinned digest are the same claim in every field, or
      exhibit a SHA-256 collision. */
  lemma PinnedClaimIsOneClaim(
    c: Crypto, p: Policy, consumed: set<text>, q: Proposal, u: Utxoref,
    consumed': set<text>, q': Proposal, u': Utxoref)
    requires Verdict(c, p, consumed, q, u).Accepted? && Verdict(c, p, consumed', q', u').Accepted?
    requires q.caseId.Str? && q'.caseId.Str? && ExpectedClaim(q.caseId.s) == ExpectedClaim(q'.caseId.s)
    ensures CanonicalCairoJson(q.claimInput).Some? && CanonicalCairoJson(q'.claimInput).Some?
    ensures || q.claimInput == q'.claimInput
            || ClaimCollision(c, q, q')
  {
    hide VerifyAttestation, PolicyCheck, NormalizeFacts, StateMark, CanonicalCairoJson, Utf8, ExpectedClaim, T;
    var s, t := CanonicalCairoJson(q.claimInput).value, CanonicalCairoJson(q'.claimInput).value;
    if Utf8(s) == Utf8(t) {
      ClaimTextWellFormed(q.claimInput);
      ClaimTextWellFormed(q'.claimInput);
      Utf8Injective(s, t);
      ClaimTextIdentifies(q.claimInput, q'.claimInput);
    }
  }

  /** The 25 numbers of a claim, as the linear binding reads them. */

  function Parsed(parse: text -> int, items: JsonList): (v: seq<int>)
    requires ClaimLines(items).Some?
    ensures |v| == |ClaimLines(items).value|
  {
    match items
    case Nil => []
    case Cons(head, tail) => [parse(head.s)] + Parsed(parse, tail)
  }

  function ClaimFields(parse: text -> int, claim: Json): (v: seq<int>)
    requires CanonicalCairoJson(claim).Some?
    ensures |v| == 25
  {
    Parsed(parse, claim.items)
  }

  // Two accepted claims under one pinned digest read as the same 25 numbers, or collide.
  lemma DifferentFieldsCollide(
    c: Crypto, p: Policy, parse: text -> int,
    consumed: set<text>, q: Proposal, u: Utxoref,
    consumed': set<text>, q': Proposal, u': Utxoref)
    requires Verdict(c, p, consumed, q, u).Accepted? && Verdict(c, p, consumed', q', u').Accepted?
    requires q.caseId.Str? && q'.caseId.Str? && ExpectedClaim(q.caseId.s) == ExpectedClaim(q'.caseId.s)
    requires CanonicalCairoJson(q.claimInput).Some? && CanonicalCairoJson(q'.claimInput).Some?
    requires ClaimFields(parse, q.claimInput) != ClaimFields(parse, q'.claimInput)
    ensures ClaimCollision(c, q, q')
  {
    hide Verdict, ExpectedClaim, CanonicalCairoJson, ClaimFields, T;
    PinnedClaimIsOneClaim(c, p, consumed, q, u, consumed', q', u');
  }

  // What the linear binding cannot see: amount against delay, and the settlement limbs.
  ghost predicate KernelChange(f: seq<int>, g: seq<int>)
    requires |f| == 25
  {
    exists k :: k != 0 && (|| g == f[22 := f[22] + k][23 := f[23] - 31 * k]
                           || g == f[20 := f[20] + 17 * k][21 := f[21] - 31 * k])
  }

  lemma KernelChangeWeighsNothing(f: seq<int>, g: seq<int>)
    requires |f| == 25 && KernelChange(f, g)
    ensures |g| == 25 && g != f && LinearBinding.Weighted(g) == LinearBinding.Weighted(f)
  {
    var k :| k != 0 && (|| g == f[22 := f[22] + k][23 := f[23] - 31 * k]
                        || g == f[20 := f[20] + 17 * k][21 := f[21] - 31 * k]);
    assert g[22] != f[22] || g[20] != f[20];
  }

  lemma KernelChangeIsInvisible(f: seq<int>, g: seq<int>)
    requires |f| == 25 && KernelChange(f, g)
    ensures |g| == 25 && g != f && GateBinding(f) == RedTeamBinding(g) == GateBinding(g)
  {
    hide KernelChange, GateBinding, RedTeamBinding, LinearBinding.Weighted, LinearBinding.Residue, LinearBinding.Tree;
    KernelChangeWeighsNothing(f, g);
    JsBindingsAgree(f);
    JsBindingsAgree(g);
    LinearBinding.TreeIsAffine(f);
    LinearBinding.TreeIsAffine(g);
  }

  /** The full digest catches what the linear binding cannot: a claim that differs from an accepted
      one by a change in the binding's kernel, however its numbers are spelled, has the same binding
      and is not accepted for the same digest unless a collision is exhibited. */
  lemma KernelForgeryIsCaught(
    c: Crypto, p: Policy, parse: text -> int,
    consumed: set<text>, q: Proposal, u: Utxoref,
    consumed': set<text>, q': Proposal, u': Utxoref)
    requires Verdict(c, p, consumed, q, u).Accepted? && Verdict(c, p, consumed', q', u').Accepted?
    requires q.caseId.Str? && q'.caseId.Str? && ExpectedClaim(q.caseId.s) == ExpectedClaim(q'.caseId.s)
    requires CanonicalCairoJson(q.claimInput).Some? && CanonicalCairoJson(q'.claimInput).Some?
    requires KernelChange(ClaimFields(parse, q.claimInput), ClaimFields(parse, q'.claimInput))
    ensures GateBinding(ClaimFields(parse, q.claimInput)) == GateBinding(ClaimFields(parse, q'.claimInput))
    ensures ClaimCollision(c, q, q')
  {
    hide Verdict, ExpectedClaim, CanonicalCairoJson, ClaimFields, KernelChange, GateBinding, RedTeamBinding, T;
    KernelChangeIsInvisible(ClaimFields(parse, q.claimInput), ClaimFields(parse, q'.claimInput));
    DifferentFieldsCollide(c, p, parse, consumed, q, u, consumed', q', u');
  }
}
