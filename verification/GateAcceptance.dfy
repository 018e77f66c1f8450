/** What the gate accepts, in full: a proposal is accepted if and only if it is, up to key order,
    the one proposal that the policy, the artifacts, the verifier's signature and a fresh nonce
    determine. */
module GateAcceptance {
  import opened Prelude
  import opened JsText
  import opened Utf8Encoding
  import opened CanonicalJson
  import opened JsTaggedHash
  import opened KeyLists
  import opened CosignerPolicy
  import opened CosignerGate
  import opened GateSafety
  import opened GateObjects

  /** The policy. */

  ghost predicate IsPinnedPolicy(c: Crypto, p: Policy, v: Json) {
    && Field(v, T("kind")) == Some(Str(T("bark_bitvm_trusted_cosigner_policy")))
    && Field(v, T("version")) == Some(Num(1))
    && Field(v, T("policyHash")) == Some(Str(PolicyHash(c, p)))
    && Field(v, T("core")).Some? && Same(Field(v, T("core")).value, CoreJson(p))
  }

  lemma PolicyExactly(c: Crypto, p: Policy, v: Json)
    requires DistinctKeys(v)
    ensures PolicyCheck(c, p, v).Pass? <==> IsPinnedPolicy(c, p, v)
  {
    CoreDistinct(p);
    if Field(v, CORE).Some? {
      FieldDistinct(v, CORE);
      CanonicalTextIdentifies(Field(v, CORE).value, CoreJson(p));
    }
    hide CoreJson, Same, DistinctKeys, Stringify, Field, T, Utf8;
  }

  /** The attestation. */

  lemma BundleShaIsDigest(c: Crypto, b: Bundle)
    ensures BundleSha(c, b) == BundleDigest(c, b)
  {
    hide Object, TaggedHash;
  }

  // The facts as an object.
  function FactsOf(f: Facts): Json {
    FactsObject(f.claimBinding, f.stwoVerified, f.shinigamiVerified)
  }

  function AttestationOf(c: Crypto, p: Policy, x: Context, b: Bundle, f: Facts, signature: text): Json {
    AttestationObject(p.verifier.keyId, x, BundleSha(c, b), b.claimSha, FactsOf(f), signature)
  }

  function PayloadOf(c: Crypto, p: Policy, x: Context, b: Bundle, f: Facts): Json {
    PayloadObject(p.verifier.keyId, x, BundleSha(c, b), b.claimSha, FactsOf(f))
  }

  // An attestation that passes every field check, with these facts and this signature.
  ghost predicate Bound(c: Crypto, p: Policy, x: Context, b: Bundle, a: Json, f: Facts, signature: text) {
    && AttestationBinding(c, p, x, b, a).Pass?
    && Field(a, SIGNATURE) == Some(Str(signature))
    && NormalizeFacts(Field(a, FACTS).value) == Some(f)
  }

  function AttestationItems(c: Crypto, p: Policy, x: Context, b: Bundle, f: Facts, signature: text): seq<Json> {
    PayloadItems(p.verifier.keyId, x, BundleSha(c, b), b.claimSha, FactsOf(f)) + [Str(signature)]
  }

  lemma BoundFields(c: Crypto, p: Policy, x: Context, b: Bundle, a: Json, f: Facts, signature: text)
    ensures Bound(c, p, x, b, a, f, signature) <==>
            && a.Obj? && JoinMatches(a.fields, ATTESTATION_NAMES)
            && Field(a, KIND) == Some(Str(ATTESTATION_KIND)) && Field(a, VERSION) == Some(Num(1))
            && Field(a, VERIFIER_KEY_ID) == Some(Str(p.verifier.keyId))
            && Field(a, POLICY_HASH) == Some(Str(x.policyHash)) && Field(a, NETWORK_NAME) == Some(Str(x.network))
            && Field(a, CASE_ID) == Some(Str(x.caseId)) && Field(a, REQUEST_NONCE) == Some(Str(x.requestNonce))
            && Field(a, BUNDLE_SHA) == Some(Str(BundleSha(c, b))) && Field(a, CLAIM_SHA) == Some(Str(b.claimSha))
            && Field(a, FACTS).Some? && Same(FactsOf(f), Field(a, FACTS).value)
            && Field(a, SIGNATURE) == Some(Str(signature))
  {
    BundleShaIsDigest(c, b);
    hide Field, NormalizeFacts, BundleDigest, BundleSha, JoinMatches, FactsObject, Same, T;
    if Field(a, FACTS).Some? {
      FactsExactly(Field(a, FACTS).value, f);
      if NormalizeFacts(Field(a, FACTS).value).Some? {
        FactsExactly(Field(a, FACTS).value, NormalizeFacts(Field(a, FACTS).value).value);
      }
    }
  }

  lemma ElevenFields(values: seq<Json>, a: Json, facts: Json)
    requires |values| == 11 && values[9] == facts
    requires forall i :: 0 <= i < 11 && i != 9 ==>
               ((Field(a, ATTESTATION_NAMES[i]).Some? && Same(values[i], Field(a, ATTESTATION_NAMES[i]).value))
                <==> Field(a, ATTESTATION_NAMES[i]) == Some(values[i]))
    ensures (forall i :: 0 <= i < 11 ==>
               Field(a, ATTESTATION_NAMES[i]).Some? && Same(values[i], Field(a, ATTESTATION_NAMES[i]).value))
       <==> && Field(a, KIND) == Some(values[0]) && Field(a, VERSION) == Some(values[1])
            && Field(a, VERIFIER_KEY_ID) == Some(values[2]) && Field(a, POLICY_HASH) == Some(values[3])
            && Field(a, NETWORK_NAME) == Some(values[4]) && Field(a, CASE_ID) == Some(values[5])
            && Field(a, REQUEST_NONCE) == Some(values[6]) && Field(a, BUNDLE_SHA) == Some(values[7])
            && Field(a, CLAIM_SHA) == Some(values[8])
            && Field(a, FACTS).Some? && Same(facts, Field(a, FACTS).value)
            && Field(a, SIGNATURE) == Some(values[10])
  {
    hide T, Field, Same;
    var n := ATTESTATION_NAMES;
    assert n[0] == KIND && n[1] == VERSION && n[2] == VERIFIER_KEY_ID && n[3] == POLICY_HASH && n[4] == NETWORK_NAME;
    assert n[5] == CASE_ID && n[6] == REQUEST_NONCE && n[7] == BUNDLE_SHA && n[8] == CLAIM_SHA && n[9] == FACTS;
    assert n[10] == SIGNATURE;
  }

  lemma BoundExactly(c: Crypto, p: Policy, x: Context, b: Bundle, a: Json, f: Facts, signature: text)
    ensures Bound(c, p, x, b, a, f, signature) <==> Same(AttestationOf(c, p, x, b, f, signature), a)
  {
    BoundFields(c, p, x, b, a, f, signature);
    NamesDiffer();
    var values := AttestationItems(c, p, x, b, f, signature);
    assert AttestationOf(c, p, x, b, f, signature) == Literal(ATTESTATION_NAMES, values);
    hide Object, T, Field, JoinMatches, NoRepeats, Literal, AttestationObject, Bound, BundleSha, FactsObject, Has, Get;
    FieldsAreSame(ATTESTATION_NAMES, values, a);
    var facts := FactsOf(f);
    forall i | 0 <= i < 11 && i != 9
      ensures (Field(a, ATTESTATION_NAMES[i]).Some? && Same(values[i], Field(a, ATTESTATION_NAMES[i]).value))
         <==> Field(a, ATTESTATION_NAMES[i]) == Some(values[i])
    {
      AtomIsItself(values[i], Field(a, ATTESTATION_NAMES[i]));
    }
    hide Same;
    ElevenFields(values, a, facts);
  }

  lemma {:induction false} RemoveAbsent(a: Assoc<Json>, key: text)
    requires !Has(a, key)
    ensures Remove(a, key) == a
  {
    if a.Entry? {
      RemoveAbsent(a.tail, key);
    }
  }

  // Without its signature, it is the payload.
  lemma {:induction false} RemoveSize(a: Assoc<Json>, key: text)
    requires Distinct(a) && Has(a, key)
    ensures Size(Remove(a, key)) == Size(a) - 1
  {
    if a.key == key {
      RemoveAbsent(a.tail, key);
    } else {
      RemoveSize(a.tail, key);
    }
  }

  lemma SignedPartIsSame(names: seq<text>, values: seq<Json>, signature: Json, a: Json)
    requires |names| == |values| && NoRepeats(names + [SIGNATURE]) && DistinctKeys(a)
    requires Same(Literal(names + [SIGNATURE], values + [signature]), a)
    ensures Same(Literal(names, values), SignedPart(a))
  {
    var n, v := names + [SIGNATURE], values + [signature];
    SameAsLiteral(n, v, a);
    RemoveKeeps(a.fields, SIGNATURE);
    assert n[|names|] == SIGNATURE;
    RemoveSize(a.fields, SIGNATURE);
    ObjectSize(n, v);
    ObjectSize(names, values);
    forall i | 0 <= i < |names|
      ensures Has(Remove(a.fields, SIGNATURE), names[i]) && Same(values[i], Get(Remove(a.fields, SIGNATURE), names[i]))
    {
      assert n[i] == names[i] && v[i] == values[i] && n[i] != n[|names|];
    }
    ObjectInto(names, values, Remove(a.fields, SIGNATURE));
  }

  lemma FactsObjectDistinct(f: Facts)
    ensures DistinctKeys(FactsOf(f))
  {
    FactsDistinct(f);
    hide Object;
    assert FactsOf(f) == FactsJson(f);
  }

  lemma SignedBytes(c: Crypto, p: Policy, x: Context, b: Bundle, a: Json, f: Facts, signature: text)
    requires Same(AttestationOf(c, p, x, b, f, signature), a) && DistinctKeys(a) && a.Obj?
    ensures Message(SignedPart(a)) == Utf8(Stringify(PayloadOf(c, p, x, b, f)))
  {
    NamesDiffer();
    FactsObjectDistinct(f);
    RemoveKeeps(a.fields, SIGNATURE);
    RemoveKeepsValues(a.fields, SIGNATURE);
    var values := PayloadItems(p.verifier.keyId, x, BundleSha(c, b), b.claimSha, FactsOf(f));
    hide Object, T, NoRepeats, BundleSha, FactsObject, Remove, Utf8, Stringify;
    SignedPartIsSame(PAYLOAD_NAMES, values, Str(signature), a);
    LiteralDistinct(PAYLOAD_NAMES, values);
    CanonicalTextIdentifies(PayloadOf(c, p, x, b, f), SignedPart(a));
  }

  /** The attestation check as a whole. */

  ghost predicate Presents(c: Crypto, p: Policy, q: Proposal, m: Material, x: Context, f: Facts, signature: text) {
    var b := DeriveBundle(c, m);
    && Same(MaterialObject(m), q.artifactMaterial) && BytesInBase64(c, m)
    && Same(BundleObject(b.claimSha, b.proofSha, b.shinigamiSha), q.claimedArtifactBundle)
    && x.policyHash == PolicyHash(c, p) && x.network == T("bitcoin-regtest")
    && q.caseId == Str(x.caseId) && x.caseId != []
    && q.requestNonce == Str(x.requestNonce) && IsHexText(x.requestNonce, 64)
    && Same(AttestationOf(c, p, x, b, f, signature), q.verifierAttestation)
    && IsHexText(signature, 128) && c.keyIdOf(p.verifier.publicKeyPem) == Some(p.verifier.keyId)
    && c.verify(p.verifier.publicKeyPem, Utf8(Stringify(PayloadOf(c, p, x, b, f))), signature)
  }

  lemma ContextIsObject(c: Crypto, p: Policy, caseId: Json, nonce: Json)
    ensures var x := NormalizeContext(RequestContext(c, p, caseId, nonce));
            && (x.Some? <==> caseId.Str? && caseId.s != [] && nonce.Str? && IsHexText(nonce.s, 64))
            && (x.Some? ==> x == Some(Context(PolicyHash(c, p), NETWORK, caseId.s, nonce.s)))
  {
    var values := [Str(PolicyHash(c, p)), Str(NETWORK), caseId, nonce];
    NamesDiffer();
    assert NETWORK != [];
    hide NoRepeats, Object, T, Field, JoinMatches, PolicyHash;
    LiteralJoins(CONTEXT_NAMES, values);
    FieldOf(CONTEXT_NAMES, values, 0);
    FieldOf(CONTEXT_NAMES, values, 1);
    FieldOf(CONTEXT_NAMES, values, 2);
    FieldOf(CONTEXT_NAMES, values, 3);
  }

  // The claimed bundle has the canonical text of the derived one.
  lemma ClaimedBundle(b: Bundle, v: Json)
    requires DistinctKeys(v)
    ensures NormalBundle(v) && Stringify(v) == Stringify(BundleJson(b)) <==>
            Same(BundleObject(b.claimSha, b.proofSha, b.shinigamiSha), v)
  {
    BundleDistinct(b);
    BundleExactly(v);
    assert BundleObject(b.claimSha, b.proofSha, b.shinigamiSha) == BundleJson(b) by {
      hide Object;
    }
    hide NormalBundle, BundleJson, BundleObject, Stringify, T;
    CanonicalTextIdentifies(v, BundleJson(b));
    CanonicalTextIdentifies(BundleJson(b), v);
  }

  // What the attestation check computes from what its steps find.
  lemma StepsVerify(c: Crypto, p: Policy, q: Proposal, m: Material, x: Context, f: Facts, signature: text)
    requires NormalizeMaterial(c, q.artifactMaterial) == Some(m) && NormalBundle(q.claimedArtifactBundle)
    requires Stringify(q.claimedArtifactBundle) == Stringify(BundleJson(DeriveBundle(c, m)))
    requires NormalizeContext(RequestContext(c, p, q.caseId, q.requestNonce)) == Some(x)
    requires x.policyHash == PolicyHash(c, p) && x.network == NETWORK
    requires Bound(c, p, x, DeriveBundle(c, m), q.verifierAttestation, f, signature)
    requires IsHexText(signature, 128) && SignatureVerifies(c, p, q.verifierAttestation)
    ensures VerifyAttestation(c, p, q)
         == Success(AttestationCheck(
              f, DeriveBundle(c, m), BundleDigest(c, DeriveBundle(c, m)),
              TaggedHash(c.sha, VERIFIER_ATTESTATION_TAG, q.verifierAttestation)))
  {
    hide NormalizeMaterial, NormalBundle, NormalizeContext, RequestContext, AttestationBinding, NormalizeFacts,
      DeriveBundle, BundleJson, BundleDigest, Stringify, TaggedHash, PolicyHash, SignatureVerifies, IsHexText, Field, T;
  }

  lemma PresentedSteps(c: Crypto, p: Policy, q: Proposal, m: Material, x: Context, f: Facts, signature: text)
    requires DistinctKeys(q.claimedArtifactBundle) && Presents(c, p, q, m, x, f, signature)
    ensures NormalizeMaterial(c, q.artifactMaterial) == Some(m) && NormalBundle(q.claimedArtifactBundle)
    ensures Stringify(q.claimedArtifactBundle) == Stringify(BundleJson(DeriveBundle(c, m)))
    ensures NormalizeContext(RequestContext(c, p, q.caseId, q.requestNonce)) == Some(x)
  {
    MaterialExactly(c, q.artifactMaterial, m);
    ClaimedBundle(DeriveBundle(c, m), q.claimedArtifactBundle);
    ContextIsObject(c, p, q.caseId, q.requestNonce);
    hide NormalizeMaterial, NormalBundle, NormalizeContext, RequestContext, Same, DeriveBundle, BundleJson,
      MaterialObject, BundleObject, AttestationOf, PayloadOf, Stringify, PolicyHash, Utf8, IsHexText, BytesInBase64, T;
  }

  lemma PresentedSignature(c: Crypto, p: Policy, q: Proposal, m: Material, x: Context, f: Facts, signature: text)
    requires DistinctKeys(q.verifierAttestation) && Presents(c, p, q, m, x, f, signature)
    ensures Bound(c, p, x, DeriveBundle(c, m), q.verifierAttestation, f, signature)
    ensures q.verifierAttestation.Obj? && SignatureVerifies(c, p, q.verifierAttestation)
  {
    var b, a := DeriveBundle(c, m), q.verifierAttestation;
    BoundExactly(c, p, x, b, a, f, signature);
    SignedBytes(c, p, x, b, a, f, signature);
    hide AttestationBinding, NormalizeFacts, Same, DeriveBundle, MaterialObject, BundleObject, AttestationOf,
      PayloadOf, Stringify, PolicyHash, SignedPart, Message, Utf8, IsHexText, Field, DistinctKeys, BytesInBase64, T;
  }

  lemma PresentedVerifies(
    c: Crypto, p: Policy, q: Proposal, m: Material, x: Context, f: Facts, signature: text)
    requires DistinctKeys(q.verifierAttestation) && DistinctKeys(q.claimedArtifactBundle)
    requires Presents(c, p, q, m, x, f, signature)
    ensures VerifyAttestation(c, p, q)
         == Success(AttestationCheck(
              f, DeriveBundle(c, m), BundleSha(c, DeriveBundle(c, m)),
              TaggedHash(c.sha, T("bark-bitvm-showcase/verifier-attestation/v1"), q.verifierAttestation)))
  {
    PresentedSteps(c, p, q, m, x, f, signature);
    PresentedSignature(c, p, q, m, x, f, signature);
    BundleShaIsDigest(c, DeriveBundle(c, m));
    hide VerifyAttestation, NormalizeMaterial, NormalBundle, NormalizeContext, RequestContext, Same, DeriveBundle,
      BundleJson, BundleSha, BundleDigest, MaterialObject, BundleObject, AttestationOf, PayloadOf, Stringify, Bound,
      TaggedHash, PolicyHash, SignatureVerifies, Utf8, IsHexText, DistinctKeys, BytesInBase64, T;
    StepsVerify(c, p, q, m, x, f, signature);
  }

  lemma VerifiedShapes(c: Crypto, p: Policy, q: Proposal)
    requires VerifyAttestation(c, p, q).Success?
    ensures NormalBundle(q.claimedArtifactBundle)
    ensures NormalizeContext(RequestContext(c, p, q.caseId, q.requestNonce)).Some?
    ensures IsText(Field(q.verifierAttestation, SIGNATURE))
    ensures IsHexText(Field(q.verifierAttestation, SIGNATURE).value.s, 128)
  {
    hide NormalizeMaterial, NormalBundle, NormalizeContext, RequestContext, AttestationBinding, SignatureVerifies,
      NormalizeFacts, DeriveBundle, BundleJson, BundleDigest, Stringify, TaggedHash, PolicyHash, IsHexText, Field, T;
  }

  lemma VerifiedPresents(c: Crypto, p: Policy, q: Proposal)
    returns (m: Material, x: Context, f: Facts, signature: text)
    requires DistinctKeys(q.verifierAttestation) && DistinctKeys(q.claimedArtifactBundle)
    requires VerifyAttestation(c, p, q).Success?
    ensures Presents(c, p, q, m, x, f, signature)
  {
    var k, a := VerifyAttestation(c, p, q).value, q.verifierAttestation;
    VerifiedParts(c, p, q);
    VerifiedIsChecked(c, p, q);
    m := NormalizeMaterial(c, q.artifactMaterial).value;
    x := Context(PolicyHash(c, p), NETWORK, q.caseId.s, q.requestNonce.s);
    f := k.facts;
    signature := Field(a, SIGNATURE).value.s;
    VerifiedShapes(c, p, q);
    MaterialExactly(c, q.artifactMaterial, m);
    ClaimedBundle(k.bundle, q.claimedArtifactBundle);
    ContextIsObject(c, p, q.caseId, q.requestNonce);
    hide VerifyAttestation, NormalizeMaterial, NormalBundle, NormalizeContext, RequestContext, AttestationBinding,
      NormalizeFacts, Same, DeriveBundle, BundleJson, BundleSha, BundleDigest, MaterialObject, BundleObject,
      AttestationOf, PayloadOf, Stringify, TaggedHash, PolicyHash, SignedPart, Message, Utf8, IsHexText, Field,
      DistinctKeys, BytesInBase64, T;
    BoundExactly(c, p, x, k.bundle, a, f, signature);
    SignedBytes(c, p, x, k.bundle, a, f, signature);
  }

  /** Acceptance. */

  // The digest pinned for a case.
  function PinnedDigest(caseId: text): Option<text> {
    if caseId == T("honest_true") then Some(T("5e341808c92820f3fd78ce4ac7687658005fdd0308de9dc26d88cf9b0632be1b"))
    else if caseId == T("false_stwo") then Some(T("5e341808c92820f3fd78ce4ac7687658005fdd0308de9dc26d88cf9b0632be1b"))
    else if caseId == T("bark_true") then Some(T("565c91be50cde7cb99c08acb9c1120ec99b3a68bd1277a723fc56663abfda273"))
    else None
  }

  lemma ExpectedIsPinned(caseId: text)
    ensures ExpectedClaim(caseId) == PinnedDigest(caseId)
  {
    hide T;
  }

  ghost predicate Acceptable(
    c: Crypto, p: Policy, consumed: set<text>, q: Proposal, u: Utxoref, m: Material, x: Context, signature: text)
  {
    && IsPinnedPolicy(c, p, q.proposedPolicy)
    && q.operatorXonly == Str(p.operatorXonly) && q.challengerXonly == Str(p.challengerXonly)
    && q.stateSignerKeyId == Str(p.stateSigner.keyId)
    && Presents(c, p, q, m, x, Facts(true, true, true), signature)
    && Same(FactsObject(true, true, true), q.operatorDisclosures)
    && CanonicalCairoJson(q.claimInput).Some?
    && PinnedDigest(x.caseId) == Some(c.sha(Utf8(CanonicalCairoJson(q.claimInput).value)))
    && PinnedDigest(x.caseId) == Some(c.sha(c.fromBase64(m.claim)))
    && x.requestNonce !in consumed
    && u.traceBuilds && u.graph == GraphVerified(true)
  }

  lemma AcceptedRuns(c: Crypto, p: Policy, consumed: set<text>, q: Proposal, u: Utxoref)
    requires Verdict(c, p, consumed, q, u).Accepted?
    ensures u.traceBuilds && u.graph == GraphVerified(true)
  {
    hide Screen, StateMark;
  }

  lemma ScreenedPolicy(c: Crypto, p: Policy, q: Proposal)
    requires Screen(c, p, q).Success? && WellKeyed(q)
    ensures IsPinnedPolicy(c, p, q.proposedPolicy)
  {
    PolicyExactly(c, p, q.proposedPolicy);
    hide PolicyCheck, IsPinnedPolicy, VerifyAttestation;
  }

  lemma PresentedParts(
    c: Crypto, p: Policy, q: Proposal, m: Material, x: Context, f: Facts, signature: text)
    requires Presents(c, p, q, m, x, f, signature)
    requires DistinctKeys(q.verifierAttestation) && DistinctKeys(q.claimedArtifactBundle)
    ensures VerifyAttestation(c, p, q).Success?
    ensures VerifyAttestation(c, p, q).value.facts == f
    ensures VerifyAttestation(c, p, q).value.bundle == DeriveBundle(c, m)
    ensures DeriveBundle(c, m).claimSha == c.sha(c.fromBase64(m.claim))
    ensures q.caseId == Str(x.caseId) && q.requestNonce == Str(x.requestNonce)
  {
    PresentedVerifies(c, p, q, m, x, f, signature);
    hide VerifyAttestation, T, Same;
  }

  lemma AcceptedIsAcceptable(c: Crypto, p: Policy, consumed: set<text>, q: Proposal, u: Utxoref)
    returns (m: Material, x: Context, signature: text)
    requires WellKeyed(q) && Verdict(c, p, consumed, q, u).Accepted?
    ensures Acceptable(c, p, consumed, q, u, m, x, signature)
  {
    AcceptedIsScreened(c, p, consumed, q, u);
    AcceptedRuns(c, p, consumed, q, u);
    ScreenParts(c, p, q);
    VerifiedParts(c, p, q);
    ScreenedPolicy(c, p, q);
    var f;
    m, x, f, signature := VerifiedPresents(c, p, q);
    hide Verdict, Screen, VerifyAttestation, NormalizeMaterial, CanonicalCairoJson, Same, CoreJson, TaggedHash,
      BundleDigest, DistinctKeys, Field, IsPinnedPolicy, ExpectedClaim, PinnedDigest, Utf8, Presents, T;
    PresentedParts(c, p, q, m, x, f, signature);
    ExpectedIsPinned(x.caseId);
    FactsExactly(q.operatorDisclosures, Screen(c, p, q).value.disclosures);
  }

  // A proposal in order but for its facts `f` and disclosures `d`.
  ghost predicate InOrder(
    c: Crypto, p: Policy, consumed: set<text>, q: Proposal, m: Material, x: Context, f: Facts, d: Facts,
    signature: text)
  {
    && IsPinnedPolicy(c, p, q.proposedPolicy)
    && q.operatorXonly == Str(p.operatorXonly) && q.challengerXonly == Str(p.challengerXonly)
    && q.stateSignerKeyId == Str(p.stateSigner.keyId)
    && Presents(c, p, q, m, x, f, signature)
    && Same(FactsOf(d), q.operatorDisclosures)
    && CanonicalCairoJson(q.claimInput).Some?
    && PinnedDigest(x.caseId) == Some(c.sha(Utf8(CanonicalCairoJson(q.claimInput).value)))
    && PinnedDigest(x.caseId) == Some(c.sha(c.fromBase64(m.claim)))
    && x.requestNonce !in consumed
  }

  // What the screening yields once every step has passed.
  lemma StepsScreen(c: Crypto, p: Policy, q: Proposal, disclosures: Facts)
    requires PolicyCheck(c, p, q.proposedPolicy).Pass?
    requires q.operatorXonly == Str(p.operatorXonly) && q.challengerXonly == Str(p.challengerXonly)
    requires q.stateSignerKeyId == Str(p.stateSigner.keyId)
    requires NormalizeFacts(q.operatorDisclosures) == Some(disclosures)
    requires CanonicalCairoJson(q.claimInput).Some? && VerifyAttestation(c, p, q).Success?
    ensures Screen(c, p, q)
         == Success(Clearance(disclosures, c.sha(Utf8(CanonicalCairoJson(q.claimInput).value)),
                              VerifyAttestation(c, p, q).value))
  {
    hide PolicyCheck, NormalizeFacts, CanonicalCairoJson, VerifyAttestation, Utf8, T;
  }

  lemma InOrderScreens(
    c: Crypto, p: Policy, consumed: set<text>, q: Proposal, m: Material, x: Context, f: Facts, d: Facts,
    signature: text)
    requires WellKeyed(q) && InOrder(c, p, consumed, q, m, x, f, d, signature)
    ensures Screen(c, p, q).Success?
    ensures var k := Screen(c, p, q).value;
            && k.disclosures == d && k.check.facts == f
            && ExpectedClaim(x.caseId) == Some(k.claimSha) && k.claimSha == k.check.bundle.claimSha
    ensures q.caseId == Str(x.caseId) && q.requestNonce == Str(x.requestNonce)
  {
    PolicyExactly(c, p, q.proposedPolicy);
    FactsExactly(q.operatorDisclosures, d);
    ExpectedIsPinned(x.caseId);
    hide VerifyAttestation, PolicyCheck, NormalizeFacts, CanonicalCairoJson, ExpectedClaim, PinnedDigest, Screen,
      Presents, IsPinnedPolicy, Utf8, Same, FactsObject, DeriveBundle, DistinctKeys, T;
    PresentedParts(c, p, q, m, x, f, signature);
    StepsScreen(c, p, q, d);
  }

  // The decision on a screened proposal with the pinned claim.
  lemma ScreenedVerdict(c: Crypto, p: Policy, consumed: set<text>, q: Proposal, u: Utxoref)
    requires Screen(c, p, q).Success? && q.caseId.Str? && q.requestNonce.Str?
    requires var k := Screen(c, p, q).value;
             ExpectedClaim(q.caseId.s) == Some(k.claimSha) && k.claimSha == k.check.bundle.claimSha
    requires q.requestNonce.s !in consumed && u.traceBuilds && u.graph == GraphVerified(true)
    ensures var k, v := Screen(c, p, q).value, Verdict(c, p, consumed, q, u);
            if k.check.facts != k.disclosures then v == Rejected(DisclosuresDiffer)
            else if !k.check.facts.AllTrue() then v == Rejected(FactsDoNotAuthorize)
            else v.Accepted?
  {
    hide Screen, StateMark, ExpectedClaim;
  }

  /** A proposal in order is refused because its disclosures differ from the attested facts, or
      else because the facts are not all true, or else accepted. */
  lemma InOrderVerdict(
    c: Crypto, p: Policy, consumed: set<text>, q: Proposal, u: Utxoref, m: Material, x: Context, f: Facts, d: Facts,
    signature: text)
    requires WellKeyed(q) && InOrder(c, p, consumed, q, m, x, f, d, signature)
    requires u.traceBuilds && u.graph == GraphVerified(true)
    ensures d != f ==> Verdict(c, p, consumed, q, u) == Rejected(DisclosuresDiffer)
    ensures d == f && !(f.claimBinding && f.stwoVerified && f.shinigamiVerified) ==>
              Verdict(c, p, consumed, q, u) == Rejected(FactsDoNotAuthorize)
    ensures d == f == Facts(true, true, true) ==> Verdict(c, p, consumed, q, u).Accepted?
  {
    InOrderScreens(c, p, consumed, q, m, x, f, d, signature);
    hide Screen, Verdict, ExpectedClaim, PinnedDigest, Presents, IsPinnedPolicy, Same, FactsObject,
      CanonicalCairoJson, WellKeyed, T;
    ScreenedVerdict(c, p, consumed, q, u);
  }

  lemma AcceptableIsAccepted(
    c: Crypto, p: Policy, consumed: set<text>, q: Proposal, u: Utxoref, m: Material, x: Context, signature: text)
    requires WellKeyed(q) && Acceptable(c, p, consumed, q, u, m, x, signature)
    ensures Verdict(c, p, consumed, q, u).Accepted?
  {
    hide Verdict, PinnedDigest, Presents, IsPinnedPolicy, Same, FactsObject, CanonicalCairoJson, WellKeyed, T;
    var f := Facts(true, true, true);
    InOrderVerdict(c, p, consumed, q, u, m, x, f, f, signature);
  }

  /** The gate accepts exactly the acceptable proposals. */
  lemma AcceptedExactly(c: Crypto, p: Policy, consumed: set<text>, q: Proposal, u: Utxoref)
    requires WellKeyed(q)
    ensures Verdict(c, p, consumed, q, u).Accepted? <==>
            exists m, x, signature :: Acceptable(c, p, consumed, q, u, m, x, signature)
  {
    hide Acceptable;
    if Verdict(c, p, consumed, q, u).Accepted? {
      var m, x, signature := AcceptedIsAcceptable(c, p, consumed, q, u);
    }
    if m, x, signature :| Acceptable(c, p, consumed, q, u, m, x, signature) {
      AcceptableIsAccepted(c, p, consumed, q, u, m, x, signature);
    }
  }

  // The artifact digests of a material.
  function Digests(c: Crypto, m: Material): Bundle {
    Bundle(c.sha(c.fromBase64(m.claim)), c.sha(c.fromBase64(m.proof)), c.sha(c.fromBase64(m.shinigami)))
  }

  // The mark the gate puts into the signed checkpoint.
  function MarkObject(x: Context, claimSha: text, bundleSha: text, attestationSha: text, facts: Facts): Json {
    Literal(
      [T("policyHash"), T("caseId"), T("claimInputSha256"), T("artifactBundleSha256"),
       T("verifierAttestationSha256"), T("requestNonce"), T("recomputedFacts"), T("operatorDisclosures"),
       T("disclosureMatchesRecomputation"), T("trustedVerifierNotBitcoinStwo")],
      [Str(x.policyHash), Str(x.caseId), Str(claimSha), Str(bundleSha), Str(attestationSha), Str(x.requestNonce),
       FactsOf(facts), FactsOf(facts), Bool(true), Bool(true)])
  }

  lemma MarkIsObject(c: Crypto, p: Policy, x: Context, k: AttestationCheck, f: Facts)
    requires x.policyHash == PolicyHash(c, p)
    ensures StateMark(c, p, x.caseId, f, f, k.bundle.claimSha, k, x.requestNonce)
         == MarkObject(x, k.bundle.claimSha, k.bundleSha, k.attestationSha, f)
  {
    hide Object, PolicyHash;
  }

  /** The receipt of an acceptable proposal, field by field. */
  lemma AcceptedReceipt(
    c: Crypto, p: Policy, consumed: set<text>, q: Proposal, u: Utxoref, m: Material, x: Context, signature: text)
    requires WellKeyed(q) && Acceptable(c, p, consumed, q, u, m, x, signature)
    ensures Verdict(c, p, consumed, q, u).Accepted?
    ensures var r, all := Verdict(c, p, consumed, q, u).receipt, Facts(true, true, true);
            && r.caseId == x.caseId && r.requestNonce == x.requestNonce && r.facts == all && r.disclosures == all
            && r.bundle == Digests(c, m) && r.bundleSha == BundleSha(c, Digests(c, m))
            && r.claimInputSha == r.bundle.claimSha
            && r.attestationSha
               == TaggedHash(c.sha, T("bark-bitvm-showcase/verifier-attestation/v1"), q.verifierAttestation)
            && r.material == q.artifactMaterial && r.attestation == q.verifierAttestation
            && r.stateMark == MarkObject(x, r.claimInputSha, r.bundleSha, r.attestationSha, all)
  {
    AcceptableIsAccepted(c, p, consumed, q, u, m, x, signature);
    AcceptedIsScreened(c, p, consumed, q, u);
    ScreenParts(c, p, q);
    PresentedVerifies(c, p, q, m, x, Facts(true, true, true), signature);
    InOrderScreens(c, p, consumed, q, m, x, Facts(true, true, true), Facts(true, true, true), signature);
    hide Verdict, Screen, VerifyAttestation, NormalizeFacts, CanonicalCairoJson, Same, CoreJson, TaggedHash, BundleSha,
      PolicyHash, DistinctKeys, Field, IsPinnedPolicy, ExpectedClaim, PinnedDigest, Utf8, WellKeyed, Authorize, Object;
    var k := Screen(c, p, q).value.check;
    MarkIsObject(c, p, x, k, Facts(true, true, true));
  }
}
