/** The trusted cosigner gate.

    `Verdict` is the decision on one proposal; class `TrustedGate` keeps the consumed
    nonces.  The calls into UTXORef, whose code is not part of this model, are the
    `Utxoref` argument: it says whether they throw, refuse or succeed. */
module CosignerGate {
  import opened Prelude
  import opened JsText
  import opened Utf8Encoding
  import opened CanonicalJson
  import opened JsTaggedHash
  import opened KeyLists
  import opened CosignerPolicy

  // What the operator sends: any JSON in every field.
  datatype Proposal = Proposal(
    caseId: Json,
    operatorDisclosures: Json,
    claimInput: Json,
    artifactMaterial: Json,
    claimedArtifactBundle: Json,
    verifierAttestation: Json,
    requestNonce: Json,
    proposedPolicy: Json,
    operatorXonly: Json,
    challengerXonly: Json,
    stateSignerKeyId: Json)

  datatype GraphOutcome =
    | GraphThrew
    | GraphRefused
    | GraphVerified(readable: bool)   // readable: every field the receipt copies is there, as
                                      // far as UTXORef's own verification guarantees that

  datatype Utxoref = Utxoref(traceBuilds: bool, graph: GraphOutcome)

  datatype Reason =
    | WrongPolicyKind | PolicySelfHashInvalid | PolicySubstitution
    | OperatorKeySubstitution | ChallengerKeySubstitution | StateSignerKeySubstitution
    | Malformed
    | BundleMismatch | ContextNotPolicy | WrongSchema | WrongKindOrVersion | VerifierKeySubstitution
    | ContextMismatch | NotBoundToArtifacts | SignatureInvalid | AttestationMalformed
    | NonceConsumed
    | ClaimDigestSubstitution | DisclosuresDiffer | FactsDoNotAuthorize | GraphRejected

  datatype AttestationCheck = AttestationCheck(
    facts: Facts,
    bundle: Bundle,
    bundleSha: hexDigest,
    attestationSha: hexDigest)

  datatype Receipt = Receipt(
    caseId: text,
    requestNonce: text,
    facts: Facts,
    disclosures: Facts,
    claimInputSha: hexDigest,
    bundle: Bundle,
    bundleSha: hexDigest,
    attestationSha: hexDigest,
    material: Json,
    attestation: Json,
    stateMark: Json)

  datatype Decision = Accepted(receipt: Receipt) | Rejected(reason: Reason)

  function Remove<T>(a: Assoc<T>, key: text): Assoc<T> {
    if a.Empty? then Empty
    else if a.key == key then Remove(a.tail, key)
    else Entry(a.key, a.value, Remove(a.tail, key))
  }

  // The attestation without its signature.
  function SignedPart(attestation: Json): Json
    requires attestation.Obj?
  {
    Obj(Remove(attestation.fields, SIGNATURE))
  }

  const CORE: text := T("core")

  function PolicyCheck(c: Crypto, p: Policy, proposed: Json): Outcome<Reason> {
    if Field(proposed, KIND) != Some(Str(POLICY_KIND)) || Field(proposed, VERSION) != Some(Num(1)) then
      Fail(WrongPolicyKind)
    else if Field(proposed, CORE).None? then Fail(Malformed)
    else
      var core := Field(proposed, CORE).value;
      if Field(proposed, POLICY_HASH) != Some(Str(TaggedHash(c.sha, POLICY_DOMAIN, core))) then
        Fail(PolicySelfHashInvalid)
      else if Field(proposed, POLICY_HASH) != Some(Str(PolicyHash(c, p)))
           || Stringify(core) != Stringify(CoreJson(p)) then
        Fail(PolicySubstitution)
      else Pass
  }

  /** The canonical text of a claim of 25 strings. */

  function ClaimLines(items: JsonList): Option<seq<text>> {
    match items
    case Nil => Some([])
    case Cons(head, tail) =>
      if !head.Str? || ClaimLines(tail).None? then None
      else Some([T("  ") + Quote(head.s)] + ClaimLines(tail).value)
  }

  function JoinLines(lines: seq<text>): text {
    if lines == [] then []
    else if |lines| == 1 then lines[0]
    else lines[0] + T(",\n") + JoinLines(lines[1..])
  }

  function CanonicalCairoJson(claim: Json): Option<text> {
    if !claim.Arr? || ClaimLines(claim.items).None? || |ClaimLines(claim.items).value| != 25 then None
    else Some(T("[\n") + JoinLines(ClaimLines(claim.items).value) + T("\n]\n"))
  }

  function RequestContext(c: Crypto, p: Policy, caseId: Json, nonce: Json): Json {
    Literal(CONTEXT_NAMES, [Str(PolicyHash(c, p)), Str(NETWORK), caseId, nonce])
  }

  // Whether an attestation carries this context, these artifacts and the pinned key.
  function AttestationBinding(c: Crypto, p: Policy, x: Context, b: Bundle, a: Json): (r: Outcome<Reason>)
    ensures r.Pass? ==> a.Obj? && Field(a, FACTS).Some? && NormalizeFacts(Field(a, FACTS).value).Some?
  {
    if !a.Obj? || !JoinMatches(a.fields, ATTESTATION_NAMES) then Fail(WrongSchema)
    else if Field(a, KIND) != Some(Str(ATTESTATION_KIND)) || Field(a, VERSION) != Some(Num(1)) then
      Fail(WrongKindOrVersion)
    else if Field(a, VERIFIER_KEY_ID) != Some(Str(p.verifier.keyId)) then Fail(VerifierKeySubstitution)
    else if || Field(a, POLICY_HASH) != Some(Str(x.policyHash)) || Field(a, NETWORK_NAME) != Some(Str(x.network))
            || Field(a, CASE_ID) != Some(Str(x.caseId)) || Field(a, REQUEST_NONCE) != Some(Str(x.requestNonce))
    then Fail(ContextMismatch)
    else if || Field(a, BUNDLE_SHA) != Some(Str(BundleDigest(c, b)))
            || Field(a, CLAIM_SHA) != Some(Str(b.claimSha))
    then Fail(NotBoundToArtifacts)
    else if Field(a, FACTS).None? || NormalizeFacts(Field(a, FACTS).value).None? then Fail(AttestationMalformed)
    else Pass
  }

  predicate SignatureVerifies(c: Crypto, p: Policy, a: Json)
    requires a.Obj?
  {
    && c.keyIdOf(p.verifier.publicKeyPem) == Some(p.verifier.keyId)
    && IsText(Field(a, SIGNATURE))
    && c.verify(p.verifier.publicKeyPem, Message(SignedPart(a)), Field(a, SIGNATURE).value.s)
  }

  function VerifyAttestation(c: Crypto, p: Policy, q: Proposal): Result<AttestationCheck, Reason> {
    hide AttestationBinding, NormalizeMaterial, NormalBundle, NormalizeContext, RequestContext, NormalizeFacts, T;
    var material := NormalizeMaterial(c, q.artifactMaterial);
    if material.None? || !NormalBundle(q.claimedArtifactBundle) then Failure(AttestationMalformed)
    else
      var bundle := DeriveBundle(c, material.value);
      if Stringify(q.claimedArtifactBundle) != Stringify(BundleJson(bundle)) then Failure(BundleMismatch)
      else
        var context := NormalizeContext(RequestContext(c, p, q.caseId, q.requestNonce));
        if context.None? then Failure(AttestationMalformed)
        else if context.value.policyHash != PolicyHash(c, p) || context.value.network != NETWORK then
          Failure(ContextNotPolicy)
        else
          var a := q.verifierAttestation;
          var binding := AttestationBinding(c, p, context.value, bundle, a);
          if binding.Fail? then Failure(binding.error)
          else if !IsText(Field(a, SIGNATURE)) || !IsHexText(Field(a, SIGNATURE).value.s, 128) then
            Failure(AttestationMalformed)
          else if !SignatureVerifies(c, p, a) then Failure(SignatureInvalid)
          else Success(AttestationCheck(
            NormalizeFacts(Field(a, FACTS).value).value, bundle, BundleDigest(c, bundle),
            TaggedHash(c.sha, VERIFIER_ATTESTATION_TAG, a)))
  }

  const STATE_MARK_NAMES: seq<text> :=
    [POLICY_HASH, CASE_ID, CLAIM_SHA, BUNDLE_SHA, T("verifierAttestationSha256"), REQUEST_NONCE,
     T("recomputedFacts"), T("operatorDisclosures"), T("disclosureMatchesRecomputation"),
     T("trustedVerifierNotBitcoinStwo")]

  // The mark the gate puts into the signed state checkpoint.
  function StateMark(
    c: Crypto, p: Policy, caseId: text, facts: Facts, disclosures: Facts,
    claimSha: hexDigest, check: AttestationCheck, nonce: text): Json
  {
    Literal(STATE_MARK_NAMES, [
      Str(PolicyHash(c, p)), Str(caseId), Str(claimSha), Str(check.bundleSha), Str(check.attestationSha), Str(nonce),
      FactsJson(facts), FactsJson(disclosures), Bool(facts == disclosures), Bool(true)])
  }

  // What a cleared proposal is cleared with.
  datatype Clearance = Clearance(disclosures: Facts, claimSha: hexDigest, check: AttestationCheck)

  // Everything before the nonce check.
  function Screen(c: Crypto, p: Policy, q: Proposal): Result<Clearance, Reason> {
    var policyCheck := PolicyCheck(c, p, q.proposedPolicy);
    if policyCheck.Fail? then Failure(policyCheck.error)
    else if q.operatorXonly != Str(p.operatorXonly) then Failure(OperatorKeySubstitution)
    else if q.challengerXonly != Str(p.challengerXonly) then Failure(ChallengerKeySubstitution)
    else if q.stateSignerKeyId != Str(p.stateSigner.keyId) then Failure(StateSignerKeySubstitution)
    else
      var disclosures := NormalizeFacts(q.operatorDisclosures);
      var claim := CanonicalCairoJson(q.claimInput);
      if disclosures.None? || claim.None? then Failure(Malformed)
      else
        var check :- VerifyAttestation(c, p, q);
        Success(Clearance(disclosures.value, c.sha(Utf8(claim.value)), check))
  }

  // The checks behind a fresh attestation: the trace, the pinned claim, the disclosures, the
  // facts and the signed graph.
  function Authorize(caseId: text, u: Utxoref, k: Clearance): Outcome<Reason> {
    if !u.traceBuilds then Fail(Malformed)
    else if ExpectedClaim(caseId) != Some(k.claimSha) || k.claimSha != k.check.bundle.claimSha then
      Fail(ClaimDigestSubstitution)
    else if k.check.facts != k.disclosures then Fail(DisclosuresDiffer)
    else if !k.check.facts.AllTrue() then Fail(FactsDoNotAuthorize)
    else if u.graph.GraphThrew? then Fail(Malformed)
    else if u.graph.GraphRefused? then Fail(GraphRejected)
    else Pass
  }

  lemma ScreenedContext(c: Crypto, p: Policy, q: Proposal)
    requires VerifyAttestation(c, p, q).Success?
    ensures q.caseId.Str? && q.requestNonce.Str?
    ensures NormalizeContext(RequestContext(c, p, q.caseId, q.requestNonce))
         == Some(Context(PolicyHash(c, p), NETWORK, q.caseId.s, q.requestNonce.s))
  {
    var values := [Str(PolicyHash(c, p)), Str(NETWORK), q.caseId, q.requestNonce];
    NamesDiffer();
    ObjectMembers(CONTEXT_NAMES, values);
    assert Get(Object(CONTEXT_NAMES, values), CONTEXT_NAMES[2]) == values[2];
    assert Get(Object(CONTEXT_NAMES, values), CONTEXT_NAMES[3]) == values[3];
    hide PolicyHash, Object, NormalizeMaterial, NormalBundle, AttestationBinding, SignatureVerifies, JoinMatches;
  }

  lemma ScreenedStrings(c: Crypto, p: Policy, q: Proposal)
    requires Screen(c, p, q).Success?
    ensures q.caseId.Str? && q.requestNonce.Str?
  {
    hide PolicyCheck, VerifyAttestation;
    ScreenedContext(c, p, q);
  }

  /** Whether a proposal gets its cosigned graph, given the nonces consumed so far. */
  function Clear(c: Crypto, p: Policy, consumed: set<text>, q: Proposal, u: Utxoref): (r: Result<Clearance, Reason>)
    ensures r.Success? ==> u.graph.GraphVerified? && q.caseId.Str? && q.requestNonce.Str?
    ensures r.Success? ==> q.requestNonce.s !in consumed
  {
    var k :- Screen(c, p, q);
    ScreenedStrings(c, p, q);
    if q.requestNonce.s in consumed then Failure(NonceConsumed)
    else
      var authorization := Authorize(q.caseId.s, u, k);
      if authorization.Fail? then Failure(authorization.error) else Success(k)
  }

  /** The decision on a proposal.  The receipt is read off the signed graph at the very end,
      and an exception there is a rejection too. */
  function Verdict(c: Crypto, p: Policy, consumed: set<text>, q: Proposal, u: Utxoref): Decision {
    match Clear(c, p, consumed, q, u)
    case Failure(reason) => Rejected(reason)
    case Success(k) =>
      if !u.graph.readable then Rejected(Malformed)
      else Accepted(Receipt(
        q.caseId.s, q.requestNonce.s, k.check.facts, k.disclosures, k.claimSha, k.check.bundle, k.check.bundleSha,
        k.check.attestationSha, q.artifactMaterial, q.verifierAttestation,
        StateMark(c, p, q.caseId.s, k.check.facts, k.disclosures, k.claimSha, k.check, q.requestNonce.s)))
  }

  // The nonces consumed after a proposal.
  function ConsumedAfter(c: Crypto, p: Policy, consumed: set<text>, q: Proposal, u: Utxoref): set<text> {
    if Clear(c, p, consumed, q, u).Success? then consumed + {q.requestNonce.s} else consumed
  }

  class TrustedGate {
    const crypto: Crypto
    const policy: Policy
    var consumed: set<text>

    constructor (crypto: Crypto, policy: Policy)
      ensures this.crypto == crypto && this.policy == policy && consumed == {}
    {
      this.crypto := crypto;
      this.policy := policy;
      consumed := {};
    }

    method Evaluate(q: Proposal, u: Utxoref) returns (d: Decision)
      modifies `consumed
      ensures d == Verdict(crypto, policy, old(consumed), q, u)
      ensures consumed == ConsumedAfter(crypto, policy, old(consumed), q, u)
    {
      hide Screen, Authorize, StateMark;
      var screened := Screen(crypto, policy, q);
      if screened.Failure? {
        return Rejected(screened.error);
      }
      ScreenedStrings(crypto, policy, q);
      var nonce := q.requestNonce.s;
      if nonce in consumed {
        return Rejected(NonceConsumed);
      }
      var k := screened.value;
      var authorization := Authorize(q.caseId.s, u, k);
      if authorization.Fail? {
        return Rejected(authorization.error);
      }
      assert Clear(crypto, policy, consumed, q, u) == Success(k);
      consumed := consumed + {nonce};
      if !u.graph.readable {
        return Rejected(Malformed);
      }
      return Accepted(Receipt(
        q.caseId.s, nonce, k.check.facts, k.disclosures, k.claimSha, k.check.bundle, k.check.bundleSha,
        k.check.attestationSha, q.artifactMaterial, q.verifierAttestation,
        StateMark(crypto, policy, q.caseId.s, k.check.facts, k.disclosures, k.claimSha, k.check, nonce)));
    }
  }
}
