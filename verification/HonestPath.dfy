/** The gate is not merely safe: the honest proposal goes through. */
module HonestPath {
  import opened Prelude
  import opened JsText
  import opened Utf8Encoding
  import opened CanonicalJson
  import opened JsTaggedHash
  import opened KeyLists
  import opened CosignerPolicy
  import opened CosignerGate
  import opened GateSafety
  import opened EvidenceAudit

  const POLICY_NAMES: seq<text> := [KIND, VERSION, CORE, POLICY_HASH]

  function MaterialJson(m: Material): Json {
    Literal(MATERIAL_NAMES, [Str(MATERIAL_KIND), Str(m.claim), Str(m.proof), Str(m.shinigami)])
  }

  function PolicyJson(c: Crypto, p: Policy): Json {
    Literal(POLICY_NAMES, [Str(POLICY_KIND), Num(1), CoreJson(p), Str(PolicyHash(c, p))])
  }

  // The verifier's attestation, with its signature appended.
  function AttestationJson(c: Crypto, p: Policy, s: Signed, signature: text): Json {
    Literal(ATTESTATION_NAMES, PayloadValues(c, p.verifier.keyId, s) + [Str(signature)])
  }

  // The proposal an honest operator assembles.
  function HonestProposal(
    c: Crypto, p: Policy, caseId: text, nonce: text, m: Material, claim: Json, signature: text): Proposal
  {
    var s := Signed(Context(PolicyHash(c, p), NETWORK, caseId, nonce), DeriveBundle(c, m));
    Proposal(
      Str(caseId), FactsJson(Facts(true, true, true)), claim, MaterialJson(m), BundleJson(s.bundle),
      AttestationJson(c, p, s, signature), Str(nonce), PolicyJson(c, p),
      Str(p.operatorXonly), Str(p.challengerXonly), Str(p.stateSigner.keyId))
  }

  lemma PolicyPassesOwnCheck(c: Crypto, p: Policy)
    ensures PolicyCheck(c, p, PolicyJson(c, p)).Pass?
  {
    var values := [Str(POLICY_KIND), Num(1), CoreJson(p), Str(PolicyHash(c, p))];
    assert |KIND| == 4 && |VERSION| == 7 && |CORE| == 4 && |POLICY_HASH| == 10 && KIND[0] != CORE[0];
    assert NoRepeats(POLICY_NAMES);
    hide NoRepeats, Object, T, Field, CoreJson, TaggedHash, Stringify;
    FieldOf(POLICY_NAMES, values, 0);
    FieldOf(POLICY_NAMES, values, 1);
    FieldOf(POLICY_NAMES, values, 2);
    FieldOf(POLICY_NAMES, values, 3);
  }

  lemma MaterialNormalizes(c: Crypto, m: Material)
    requires CanonicalBase64(c, m.claim) && CanonicalBase64(c, m.proof) && CanonicalBase64(c, m.shinigami)
    ensures NormalizeMaterial(c, MaterialJson(m)) == Some(m)
  {
    var values := [Str(MATERIAL_KIND), Str(m.claim), Str(m.proof), Str(m.shinigami)];
    NamesDiffer();
    hide NoRepeats, Object, T, Field, JoinMatches, CanonicalBase64;
    LiteralJoins(MATERIAL_NAMES, values);
    FieldOf(MATERIAL_NAMES, values, 0);
    FieldOf(MATERIAL_NAMES, values, 1);
    FieldOf(MATERIAL_NAMES, values, 2);
    FieldOf(MATERIAL_NAMES, values, 3);
  }

  /** Normalising a derived bundle cannot throw. */
  lemma DerivedBundleIsNormal(b: Bundle)
    ensures NormalBundle(BundleJson(b))
  {
    var values := [Str(BUNDLE_KIND), Str(b.claimSha), Str(b.proofSha), Str(b.shinigamiSha)];
    NamesDiffer();
    hide NoRepeats, Object, T, Field, JoinMatches;
    LiteralJoins(BUNDLE_NAMES, values);
    FieldOf(BUNDLE_NAMES, values, 0);
    FieldOf(BUNDLE_NAMES, values, 1);
    FieldOf(BUNDLE_NAMES, values, 2);
    FieldOf(BUNDLE_NAMES, values, 3);
  }

  lemma FactsNormalize(f: Facts)
    ensures NormalizeFacts(FactsJson(f)) == Some(f)
  {
    var values := [Bool(f.claimBinding), Bool(f.stwoVerified), Bool(f.shinigamiVerified)];
    NamesDiffer();
    hide NoRepeats, Object, T, Field, JoinMatches;
    LiteralJoins(FACT_NAMES, values);
    FieldOf(FACT_NAMES, values, 0);
    FieldOf(FACT_NAMES, values, 1);
    FieldOf(FACT_NAMES, values, 2);
  }

  lemma ContextNormalizes(c: Crypto, p: Policy, caseId: text, nonce: text)
    requires caseId != [] && IsHexText(nonce, 64)
    ensures NormalizeContext(RequestContext(c, p, Str(caseId), Str(nonce)))
         == Some(Context(PolicyHash(c, p), NETWORK, caseId, nonce))
  {
    var values := [Str(PolicyHash(c, p)), Str(NETWORK), Str(caseId), Str(nonce)];
    NamesDiffer();
    assert NETWORK != [];
    hide NoRepeats, Object, T, Field, JoinMatches;
    LiteralJoins(CONTEXT_NAMES, values);
    FieldOf(CONTEXT_NAMES, values, 0);
    FieldOf(CONTEXT_NAMES, values, 1);
    FieldOf(CONTEXT_NAMES, values, 2);
    FieldOf(CONTEXT_NAMES, values, 3);
  }

  // Taking the signature off gives back the payload.
  lemma {:induction false} WithoutSignature(names: seq<text>, values: seq<Json>, signature: Json)
    requires |names| == |values| && SIGNATURE !in names
    ensures Remove(Object(names + [SIGNATURE], values + [signature]), SIGNATURE) == Object(names, values)
  {
    var n, v := names + [SIGNATURE], values + [signature];
    if names == [] {
      assert n[1..] == [] && v[1..] == [];
    } else {
      WithoutSignature(names[1..], values[1..], signature);
      assert n[1..] == names[1..] + [SIGNATURE] && v[1..] == values[1..] + [signature];
      assert names[0] in names;
    }
  }

  lemma SignatureIsExtra()
    ensures SIGNATURE !in PAYLOAD_NAMES && NoRepeats(ATTESTATION_NAMES)
  {
    NamesDiffer();
    assert forall i :: 0 <= i < 10 ==> ATTESTATION_NAMES[i] == PAYLOAD_NAMES[i] != ATTESTATION_NAMES[10];
  }

  lemma AttestationBinds(c: Crypto, p: Policy, s: Signed, signature: text)
    requires s.context.policyHash == PolicyHash(c, p)
    ensures var a := AttestationJson(c, p, s, signature);
            && AttestationBinding(c, p, s.context, s.bundle, a).Pass?
            && Field(a, FACTS).Some? && NormalizeFacts(Field(a, FACTS).value) == Some(FactsFor(c, s.bundle))
            && a.Obj? && Field(a, SIGNATURE) == Some(Str(signature))
            && SignedPart(a) == Payload(c, p.verifier.keyId, s)
  {
    hide Has, Get, NoRepeats, Object, T, Field, JoinMatches, NormalizeFacts, BundleDigest, FactsFor, FactsJson, Remove;
    var values := PayloadValues(c, p.verifier.keyId, s) + [Str(signature)];
    SignatureIsExtra();
    FactsNormalize(FactsFor(c, s.bundle));
    WithoutSignature(PAYLOAD_NAMES, PayloadValues(c, p.verifier.keyId, s), Str(signature));
    LiteralJoins(ATTESTATION_NAMES, values);
    FieldOf(ATTESTATION_NAMES, values, 0);
    FieldOf(ATTESTATION_NAMES, values, 1);
    FieldOf(ATTESTATION_NAMES, values, 2);
    FieldOf(ATTESTATION_NAMES, values, 3);
    FieldOf(ATTESTATION_NAMES, values, 4);
    FieldOf(ATTESTATION_NAMES, values, 5);
    FieldOf(ATTESTATION_NAMES, values, 6);
    FieldOf(ATTESTATION_NAMES, values, 7);
    FieldOf(ATTESTATION_NAMES, values, 8);
    FieldOf(ATTESTATION_NAMES, values, 9);
    FieldOf(ATTESTATION_NAMES, values, 10);
  }

  lemma CasesAreNamed(caseId: text)
    requires ExpectedClaim(caseId).Some?
    ensures caseId != []
  {
  }

  lemma HonestScreen(c: Crypto, p: Policy, q: Proposal)
    requires q.proposedPolicy == PolicyJson(c, p) && q.operatorDisclosures == FactsJson(Facts(true, true, true))
    requires q.operatorXonly == Str(p.operatorXonly) && q.challengerXonly == Str(p.challengerXonly)
    requires q.stateSignerKeyId == Str(p.stateSigner.keyId)
    requires CanonicalCairoJson(q.claimInput).Some? && VerifyAttestation(c, p, q).Success?
    ensures Screen(c, p, q)
         == Success(Clearance(Facts(true, true, true), c.sha(Utf8(CanonicalCairoJson(q.claimInput).value)),
                              VerifyAttestation(c, p, q).value))
  {
    hide VerifyAttestation, PolicyCheck, NormalizeFacts, FactsJson, CanonicalCairoJson, PolicyJson, Utf8;
    PolicyPassesOwnCheck(c, p);
    FactsNormalize(Facts(true, true, true));
  }

  lemma HonestAttestationVerifies(c: Crypto, p: Policy, q: Proposal, s: Signed, m: Material, signature: text)
    requires CanonicalBase64(c, m.claim) && CanonicalBase64(c, m.proof) && CanonicalBase64(c, m.shinigami)
    requires s.bundle == DeriveBundle(c, m) && s.context.caseId != [] && IsHexText(s.context.requestNonce, 64)
    requires s.context.policyHash == PolicyHash(c, p) && s.context.network == NETWORK
    requires q.artifactMaterial == MaterialJson(m) && q.claimedArtifactBundle == BundleJson(s.bundle)
    requires q.verifierAttestation == AttestationJson(c, p, s, signature)
    requires q.caseId == Str(s.context.caseId) && q.requestNonce == Str(s.context.requestNonce)
    requires c.keyIdOf(p.verifier.publicKeyPem) == Some(p.verifier.keyId) && IsHexText(signature, 128)
    requires c.verify(p.verifier.publicKeyPem, Message(Payload(c, p.verifier.keyId, s)), signature)
    ensures VerifyAttestation(c, p, q).Success?
    ensures VerifyAttestation(c, p, q).value.facts == FactsFor(c, s.bundle)
    ensures VerifyAttestation(c, p, q).value.bundle == s.bundle
  {
    hide PolicyHash, NormalizeMaterial, NormalBundle, NormalizeContext, NormalizeFacts, FactsFor, DeriveBundle,
      AttestationBinding, AttestationJson, BundleJson, MaterialJson, Payload, SignedPart, RequestContext, Message,
      Stringify, TaggedHash, BundleDigest, CanonicalBase64, IsHexText, Field, T;
    MaterialNormalizes(c, m);
    DerivedBundleIsNormal(s.bundle);
    ContextNormalizes(c, p, s.context.caseId, s.context.requestNonce);
    AttestationBinds(c, p, s, signature);
  }

  /** The honest proposal is accepted: artifacts whose recomputed facts are all true, the claim
      pinned for the case, the verifier's own signature, a fresh nonce and a graph that
      verifies. */
  lemma HonestProposalIsAccepted(
    c: Crypto, p: Policy, consumed: set<text>, caseId: text, nonce: text, m: Material, claim: Json, signature: text,
    u: Utxoref)
    requires CanonicalBase64(c, m.claim) && CanonicalBase64(c, m.proof) && CanonicalBase64(c, m.shinigami)
    requires FactsFor(c, DeriveBundle(c, m)).AllTrue()
    requires CanonicalCairoJson(claim).Some?
    requires ExpectedClaim(caseId) == Some(c.sha(Utf8(CanonicalCairoJson(claim).value)))
    requires ExpectedClaim(caseId) == Some(DeriveBundle(c, m).claimSha)
    requires c.keyIdOf(p.verifier.publicKeyPem) == Some(p.verifier.keyId)
    requires IsHexText(signature, 128)
    requires var s := Signed(Context(PolicyHash(c, p), NETWORK, caseId, nonce), DeriveBundle(c, m));
             c.verify(p.verifier.publicKeyPem, Message(Payload(c, p.verifier.keyId, s)), signature)
    requires IsHexText(nonce, 64) && nonce !in consumed
    requires u.traceBuilds && u.graph == GraphVerified(true)
    ensures Verdict(c, p, consumed, HonestProposal(c, p, caseId, nonce, m, claim, signature), u).Accepted?
  {
    var q := HonestProposal(c, p, caseId, nonce, m, claim, signature);
    var b := DeriveBundle(c, m);
    var s := Signed(Context(PolicyHash(c, p), NETWORK, caseId, nonce), b);
    hide VerifyAttestation, PolicyCheck, NormalizeFacts, FactsJson, CanonicalCairoJson, StateMark, ExpectedClaim,
      AttestationJson, MaterialJson, PolicyJson, BundleJson, DeriveBundle, Utf8, Payload, Message, CanonicalBase64,
      IsHexText, FactsFor, PolicyHash, T, Screen;
    CasesAreNamed(caseId);
    HonestAttestationVerifies(c, p, q, s, m, signature);
    HonestScreen(c, p, q);
  }

  /** Whole runs: the premises of the safety theorem can be met. */

  // The honest run: the verifier attests, then the proposal is put to the gate.
  function HonestRun(
    c: Crypto, p: Policy, caseId: text, nonce: text, m: Material, claim: Json, signature: text, u: Utxoref): seq<Event>
  {
    [AttestRequest(MaterialJson(m), RequestContext(c, p, Str(caseId), Str(nonce))),
     Evaluation(HonestProposal(c, p, caseId, nonce, m, claim, signature), u)]
  }

  lemma PolicyDistinct(c: Crypto, p: Policy)
    ensures DistinctKeys(PolicyJson(c, p))
  {
    assert |KIND| == 4 && |VERSION| == 7 && |CORE| == 4 && |POLICY_HASH| == 10 && KIND[0] != CORE[0];
    assert NoRepeats(POLICY_NAMES);
    CoreDistinct(p);
    hide NoRepeats, Object, T, CoreJson, TaggedHash;
    LiteralDistinct(POLICY_NAMES, [Str(POLICY_KIND), Num(1), CoreJson(p), Str(PolicyHash(c, p))]);
  }

  lemma MaterialDistinct(m: Material)
    ensures DistinctKeys(MaterialJson(m))
  {
    NamesDiffer();
    hide NoRepeats, Object, T;
    LiteralDistinct(MATERIAL_NAMES, [Str(MATERIAL_KIND), Str(m.claim), Str(m.proof), Str(m.shinigami)]);
  }

  lemma AttestationDistinct(c: Crypto, p: Policy, s: Signed, signature: text)
    ensures DistinctKeys(AttestationJson(c, p, s, signature))
  {
    NamesDiffer();
    FactsDistinct(FactsFor(c, s.bundle));
    hide NoRepeats, Object, T, BundleDigest, FactsFor, FactsJson;
    LiteralDistinct(ATTESTATION_NAMES, PayloadValues(c, p.verifier.keyId, s) + [Str(signature)]);
  }

  lemma HonestProposalIsWellKeyed(
    c: Crypto, p: Policy, caseId: text, nonce: text, m: Material, claim: Json, signature: text)
    ensures WellKeyed(HonestProposal(c, p, caseId, nonce, m, claim, signature))
  {
    var s := Signed(Context(PolicyHash(c, p), NETWORK, caseId, nonce), DeriveBundle(c, m));
    PolicyDistinct(c, p);
    AttestationDistinct(c, p, s, signature);
    MaterialDistinct(m);
    BundleDistinct(s.bundle);
    FactsDistinct(Facts(true, true, true));
    hide DistinctKeys, PolicyJson, AttestationJson, MaterialJson, BundleJson, FactsJson, DeriveBundle, PolicyHash, T;
  }

  lemma HonestRequestIsAttested(c: Crypto, p: Policy, caseId: text, nonce: text, m: Material)
    requires CanonicalBase64(c, m.claim) && CanonicalBase64(c, m.proof) && CanonicalBase64(c, m.shinigami)
    requires caseId != [] && IsHexText(nonce, 64)
    ensures Attest(c, MaterialJson(m), RequestContext(c, p, Str(caseId), Str(nonce)))
         == Some(Signed(Context(PolicyHash(c, p), NETWORK, caseId, nonce), DeriveBundle(c, m)))
  {
    hide NormalizeMaterial, NormalizeContext, MaterialJson, RequestContext, DeriveBundle, PolicyHash, IsHexText,
      CanonicalBase64, T;
    MaterialNormalizes(c, m);
    ContextNormalizes(c, p, caseId, nonce);
  }

  lemma RunOfOneRequest(c: Crypto, p: Policy, events: seq<Event>, s: Signed)
    requires |events| >= 1 && events[0].AttestRequest?
    requires Attest(c, events[0].material, events[0].context) == Some(s)
    ensures Run(c, p, events[..1]) == State([s], {}, [], [])
  {
    hide Attest, Verdict, Clear;
    assert events[..1][..0] == [];
    assert Run(c, p, []) == INITIAL;
    assert [] + [s] == [s];
  }

  lemma UnforgeableIfKnown(c: Crypto, p: Policy, events: seq<Event>)
    requires |events| == 2 && events[0].AttestRequest? && events[1].Evaluation?
    requires SignedBefore(c, p, Run(c, p, events[..1]).log, events[1].q.verifierAttestation)
    ensures Unforgeable(c, p, events)
  {
    hide Run, SignedBefore;
  }

  lemma HonestSignatureIsKnown(c: Crypto, p: Policy, s: Signed, signature: text)
    requires s.context.policyHash == PolicyHash(c, p)
    ensures SignedBefore(c, p, [s], AttestationJson(c, p, s, signature))
  {
    hide PolicyHash, AttestationJson, SignedPart, SignatureVerifies, Payload, Message, AttestationBinding, Field,
      NormalizeFacts, FactsFor, T;
    AttestationBinds(c, p, s, signature);
    assert s in [s];
  }

  /** An honest run meets every premise of `AcceptedProposalsAreSafe`: no signature in it is
      forged, no object repeats a key, and its proposal is accepted. */
  lemma HonestRunIsAccepted(
    c: Crypto, p: Policy, caseId: text, nonce: text, m: Material, claim: Json, signature: text, u: Utxoref)
    requires CanonicalBase64(c, m.claim) && CanonicalBase64(c, m.proof) && CanonicalBase64(c, m.shinigami)
    requires FactsFor(c, DeriveBundle(c, m)).AllTrue()
    requires CanonicalCairoJson(claim).Some?
    requires ExpectedClaim(caseId) == Some(c.sha(Utf8(CanonicalCairoJson(claim).value)))
    requires ExpectedClaim(caseId) == Some(DeriveBundle(c, m).claimSha)
    requires c.keyIdOf(p.verifier.publicKeyPem) == Some(p.verifier.keyId)
    requires IsHexText(signature, 128) && IsHexText(nonce, 64)
    requires var s := Signed(Context(PolicyHash(c, p), NETWORK, caseId, nonce), DeriveBundle(c, m));
             c.verify(p.verifier.publicKeyPem, Message(Payload(c, p.verifier.keyId, s)), signature)
    requires u.traceBuilds && u.graph == GraphVerified(true)
    ensures var events := HonestRun(c, p, caseId, nonce, m, claim, signature, u);
            && Unforgeable(c, p, events) && WellKeyed(events[1].q)
            && Verdict(c, p, Run(c, p, events[..1]).consumed, events[1].q, u).Accepted?
  {
    var events := HonestRun(c, p, caseId, nonce, m, claim, signature, u);
    var q := events[1].q;
    var s := Signed(Context(PolicyHash(c, p), NETWORK, caseId, nonce), DeriveBundle(c, m));
    CasesAreNamed(caseId);
    hide Run, Verdict, Attest, PolicyHash, DeriveBundle, MaterialJson, PolicyJson, AttestationJson, RequestContext,
      CanonicalBase64, CanonicalCairoJson, FactsFor, FactsJson, BundleJson, ExpectedClaim, Payload, Message, Utf8, T,
      WellKeyed, IsHexText, SignatureVerifies, SignedBefore, Unforgeable, Object, Literal, DistinctKeys;
    HonestRequestIsAttested(c, p, caseId, nonce, m);
    RunOfOneRequest(c, p, events, s);
    HonestSignatureIsKnown(c, p, s, signature);
    UnforgeableIfKnown(c, p, events);
    HonestProposalIsWellKeyed(c, p, caseId, nonce, m, claim, signature);
    HonestProposalIsAccepted(c, p, {}, caseId, nonce, m, claim, signature, u);
  }

  lemma AcceptedIsAudited(c: Crypto, own: Policy, q: Proposal, u: Utxoref) returns (e: Evidence)
    requires c.toBase64([]) == [] && WellKeyed(q) && q.caseId == Str(HONEST_TRUE)
    requires Verdict(c, own, {}, q, u).Accepted?
    ensures Audit(c, own.utxorefSourceDigest, e) && DistinctKeys(e.attestation)
    ensures e.factProviderKeyId == Str(own.verifier.keyId)
  {
    hide Verdict, Screen, Authorize, StateMark, Audit, DistinctKeys, CoreJson, PolicyHash, T;
    AcceptedIsScreened(c, own, {}, q, u);
    AcceptedEvidencePassesAudit(c, own, {}, q, u);
    e := EvidenceOf(c, own, Verdict(c, own, {}, q, u).receipt);
  }

  /** The audit pins no key: whoever runs a verifier and a gate of their own gets evidence that
      passes, while the verifier with another key id, which signs nothing for others, has vouched
      for none of it. */
  lemma SelfIssuedEvidencePasses(
    c: Crypto, own: Policy, nonce: text, m: Material, claim: Json, signature: text, u: Utxoref,
    log: seq<Signed>, keyId: text) returns (e: Evidence)
    requires c.toBase64([]) == []
    requires CanonicalBase64(c, m.claim) && CanonicalBase64(c, m.proof) && CanonicalBase64(c, m.shinigami)
    requires FactsFor(c, DeriveBundle(c, m)).AllTrue()
    requires CanonicalCairoJson(claim).Some?
    requires ExpectedClaim(HONEST_TRUE) == Some(c.sha(Utf8(CanonicalCairoJson(claim).value)))
    requires ExpectedClaim(HONEST_TRUE) == Some(DeriveBundle(c, m).claimSha)
    requires c.keyIdOf(own.verifier.publicKeyPem) == Some(own.verifier.keyId)
    requires IsHexText(signature, 128) && IsHexText(nonce, 64)
    requires var s := Signed(Context(PolicyHash(c, own), NETWORK, HONEST_TRUE, nonce), DeriveBundle(c, m));
             c.verify(own.verifier.publicKeyPem, Message(Payload(c, own.verifier.keyId, s)), signature)
    requires u.traceBuilds && u.graph == GraphVerified(true)
    requires HonestKey(c, log, keyId) && keyId != own.verifier.keyId
    ensures Audit(c, own.utxorefSourceDigest, e) && e.factProviderKeyId == Str(own.verifier.keyId)
    ensures !InLog(c, e, log, keyId)
  {
    var q := HonestProposal(c, own, HONEST_TRUE, nonce, m, claim, signature);
    assert q.caseId == Str(HONEST_TRUE);
    HonestProposalIsAccepted(c, own, {}, HONEST_TRUE, nonce, m, claim, signature, u);
    HonestProposalIsWellKeyed(c, own, HONEST_TRUE, nonce, m, claim, signature);
    hide HonestProposal, Audit, InLog, HonestKey, FactsFor, DeriveBundle, CanonicalCairoJson, ExpectedClaim, Message,
      Payload, PolicyHash, Utf8, CanonicalBase64, IsHexText, DistinctKeys, T;
    e := AcceptedIsAudited(c, own, q, u);
    AuditedSignerExactly(c, own.utxorefSourceDigest, e, log, keyId);
  }
}
