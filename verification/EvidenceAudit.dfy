/** The independent audit of what the gate emitted, and its agreement with the gate. */
module EvidenceAudit {
  import opened Prelude
  import opened JsText
  import opened Utf8Encoding
  import opened CanonicalJson
  import opened JsTaggedHash
  import opened KeyLists
  import opened CosignerPolicy
  import opened CosignerGate
  import opened GateSafety

  // The evidence file, as far as the audit of policy, artifacts, attestation and state mark
  // reads it.
  datatype Evidence = Evidence(
    policyCore: Json,
    policyHash: Json,
    factProviderKeyId: Json,
    material: Json,
    bundle: Json,
    attestation: Json,
    stateMark: Json,
    receiptClaimSha: Json,
    receiptBundleSha: Json,
    receiptAttestationSha: Json,
    receiptNonce: Json)

  const ATTESTATION_SHA: text := T("verifierAttestationSha256")
  const RECOMPUTED_FACTS: text := T("recomputedFacts")
  const DISCLOSED_FACTS: text := T("operatorDisclosures")
  const DISCLOSURE_MATCHES: text := T("disclosureMatchesRecomputation")
  const TRUSTED_VERIFIER: text := T("trustedVerifierNotBitcoinStwo")

  predicate IsObject(v: Json, names: seq<text>) {
    v.Obj? && ExactKeys(v.fields, names)
  }

  // `assert.equal` in strict mode: objects and arrays read from one file are never identical.
  predicate Identical(v: Option<Json>, w: Option<Json>) {
    v == w && (v.Some? ==> !v.value.Obj? && !v.value.Arr?)
  }

  // A field of a field.
  function Inner(v: Json, outer: text, inner: text): Option<Json> {
    if Field(v, outer).Some? then Field(Field(v, outer).value, inner) else None
  }

  predicate CanonicalBytes(c: Crypto, v: Option<Json>) {
    IsText(v) && c.fromBase64(v.value.s) != [] && c.toBase64(c.fromBase64(v.value.s)) == v.value.s
  }

  predicate MaterialPasses(c: Crypto, m: Json) {
    && IsObject(m, MATERIAL_NAMES) && Field(m, KIND) == Some(Str(MATERIAL_KIND))
    && CanonicalBytes(c, Field(m, CLAIM_BASE64)) && CanonicalBytes(c, Field(m, PROOF_BASE64))
    && CanonicalBytes(c, Field(m, SHINIGAMI_BASE64))
  }

  function AuditedBundle(c: Crypto, m: Json): Bundle
    requires MaterialPasses(c, m)
  {
    DeriveBundle(c, Material(Field(m, CLAIM_BASE64).value.s, Field(m, PROOF_BASE64).value.s,
                             Field(m, SHINIGAMI_BASE64).value.s))
  }

  predicate PolicyPasses(c: Crypto, sourceDigest: text, e: Evidence) {
    && e.policyHash == Str(TaggedHash(c.sha, POLICY_DOMAIN, e.policyCore))
    && Field(e.policyCore, T("utxorefCommit")) == Some(Str(UTXOREF_COMMIT))
    && Field(e.policyCore, T("utxorefSourceDigest")) == Some(Str(sourceDigest))
  }

  predicate BundlePasses(c: Crypto, e: Evidence, b: Bundle) {
    && Stringify(BundleJson(b)) == Stringify(e.bundle)
    && (var cases := Field(e.policyCore, T("claimInputs"));
        cases.Some? && Inner(cases.value, HONEST_TRUE, T("sha256")) == Some(Str(b.claimSha)))
    && e.receiptClaimSha == Str(b.claimSha)
    && e.receiptBundleSha == Str(BundleDigest(c, b))
  }

  predicate AllValuesTrue(a: Assoc<Json>) {
    a.Entry? ==> a.value == Bool(true) && AllValuesTrue(a.tail)
  }

  predicate AttestationPasses(c: Crypto, e: Evidence, b: Bundle) {
    var a := e.attestation;
    && IsObject(a, ATTESTATION_NAMES)
    && Field(a, KIND) == Some(Str(ATTESTATION_KIND)) && Field(a, VERSION) == Some(Num(1))
    && Field(a, FACTS).Some? && IsObject(Field(a, FACTS).value, FACT_NAMES)
    && AllValuesTrue(Field(a, FACTS).value.fields)
    && Identical(Field(a, POLICY_HASH), Some(e.policyHash))
    && Identical(Field(a, NETWORK_NAME), Field(e.policyCore, T("network")))
    && Field(a, CASE_ID) == Some(Str(HONEST_TRUE))
    && Identical(Field(a, REQUEST_NONCE), Some(e.receiptNonce))
    && Field(a, BUNDLE_SHA) == Some(Str(BundleDigest(c, b)))
    && Field(a, CLAIM_SHA) == Some(Str(b.claimSha))
    && e.receiptAttestationSha == Str(TaggedHash(c.sha, VERIFIER_ATTESTATION_TAG, a))
  }

  predicate SignaturePasses(c: Crypto, e: Evidence)
    requires e.attestation.Obj?
  {
    var pem := Inner(e.policyCore, T("factProvider"), T("publicKeyPem"));
    && IsText(pem) && c.keyIdOf(pem.value.s).Some?
    && e.factProviderKeyId == Str(c.keyIdOf(pem.value.s).value)
    && Field(e.attestation, VERIFIER_KEY_ID) == Some(e.factProviderKeyId)
    && IsText(Field(e.attestation, SIGNATURE))
    && c.verify(pem.value.s, Message(SignedPart(e.attestation)), Field(e.attestation, SIGNATURE).value.s)
  }

  predicate StateMarkPasses(c: Crypto, e: Evidence) {
    var a, m := e.attestation, e.stateMark;
    && IsObject(m, STATE_MARK_NAMES)
    && Identical(Field(m, POLICY_HASH), Field(a, POLICY_HASH))
    && Identical(Field(m, CASE_ID), Field(a, CASE_ID))
    && Identical(Field(m, CLAIM_SHA), Field(a, CLAIM_SHA))
    && Identical(Field(m, BUNDLE_SHA), Field(a, BUNDLE_SHA))
    && Identical(Field(m, ATTESTATION_SHA), Some(e.receiptAttestationSha))
    && Identical(Field(m, REQUEST_NONCE), Field(a, REQUEST_NONCE))
    && Field(m, RECOMPUTED_FACTS).Some? && Field(m, DISCLOSED_FACTS).Some? && Field(a, FACTS).Some?
    && Stringify(Field(m, RECOMPUTED_FACTS).value) == Stringify(Field(a, FACTS).value)
    && Stringify(Field(m, DISCLOSED_FACTS).value) == Stringify(Field(a, FACTS).value)
    && Field(m, DISCLOSURE_MATCHES) == Some(Bool(true))
    && Field(m, TRUSTED_VERIFIER) == Some(Bool(true))
  }

  /** The audit passes. */
  predicate Audit(c: Crypto, sourceDigest: text, e: Evidence) {
    && PolicyPasses(c, sourceDigest, e)
    && MaterialPasses(c, e.material)
    && BundlePasses(c, e, AuditedBundle(c, e.material))
    && AttestationPasses(c, e, AuditedBundle(c, e.material))
    && SignaturePasses(c, e)
    && StateMarkPasses(c, e)
  }

  // What the gate's side writes into the evidence file for an accepted proposal.  The state
  // mark is read back from the signed checkpoint, which keeps the marks it was given.
  function EvidenceOf(c: Crypto, p: Policy, r: Receipt): Evidence {
    Evidence(CoreJson(p), Str(PolicyHash(c, p)), Str(p.verifier.keyId), r.material, BundleJson(r.bundle),
             r.attestation, r.stateMark, Str(r.claimInputSha), Str(r.bundleSha), Str(r.attestationSha),
             Str(r.requestNonce))
  }

  /** Fields of literals. */

  lemma MarkNamesDiffer()
    ensures NoRepeats(STATE_MARK_NAMES)
  {
    assert STATE_MARK_NAMES[8] == DISCLOSURE_MATCHES;
    assert BUNDLE_SHA[0] != CLAIM_SHA[0];
  }

  lemma CoreFields(p: Policy)
    ensures Field(CoreJson(p), T("utxorefCommit")) == Some(Str(UTXOREF_COMMIT))
    ensures Field(CoreJson(p), T("utxorefSourceDigest")) == Some(Str(p.utxorefSourceDigest))
    ensures Field(CoreJson(p), T("network")) == Some(Str(NETWORK))
    ensures Field(CoreJson(p), T("claimInputs")) == Some(CLAIM_INPUTS)
    ensures Inner(CLAIM_INPUTS, HONEST_TRUE, T("sha256")) == Some(Str(GENERIC_CLAIM_SHA))
    ensures Inner(CoreJson(p), T("factProvider"), T("publicKeyPem")) == Some(Str(p.verifier.publicKeyPem))
  {
    PolicyNamesDiffer();
    var core := CoreValues(p);
    var provider := [Str(PROVIDER_KIND), Str(p.verifier.keyId), Str(p.verifier.publicKeyPem), Str(PROVIDER_MEANING)];
    var pinned := [Str(T("generic-owner-exit")), Str(GENERIC_CLAIM_SHA)];
    var generic := PinnedClaim(T("generic-owner-exit"), GENERIC_CLAIM_SHA);
    var cases := [generic, generic, PinnedClaim(T("bark-native-owner-exit"), BARK_CLAIM_SHA)];
    assert core[3] == Str(UTXOREF_COMMIT) && core[4] == Str(p.utxorefSourceDigest) && core[1] == Str(NETWORK);
    assert core[11] == CLAIM_INPUTS && core[12] == Literal(PROVIDER_NAMES, provider);
    hide NoRepeats, Object, Literal, CoreValues, T, Field;
    FieldOf(CORE_NAMES, core, 1);
    FieldOf(CORE_NAMES, core, 3);
    FieldOf(CORE_NAMES, core, 4);
    FieldOf(CORE_NAMES, core, 11);
    FieldOf(CORE_NAMES, core, 12);
    FieldOf(PROVIDER_NAMES, provider, 2);
    FieldOf(CASE_NAMES, cases, 0);
    FieldOf(CLAIM_NAMES, pinned, 1);
  }

  /** The gate's join and its per-field checks give the auditor's exact key sets. */

  lemma MaterialAgrees(c: Crypto, m: Json)
    requires NormalizeMaterial(c, m).Some? && c.toBase64([]) == []
    ensures MaterialPasses(c, m) && AuditedBundle(c, m) == DeriveBundle(c, NormalizeMaterial(c, m).value)
  {
    NamesDiffer();
    hide NoRepeats, JoinMatches, ExactKeys, T, Get;
    forall n | n in MATERIAL_NAMES ensures Has(m.fields, n) {
    }
    hide Has;
    JoinAndPresenceAreExact(m.fields, MATERIAL_NAMES);
  }

  lemma AttestationKeysAgree(c: Crypto, p: Policy, x: Context, b: Bundle, a: Json)
    requires AttestationBinding(c, p, x, b, a).Pass? && IsText(Field(a, SIGNATURE))
    ensures IsObject(a, ATTESTATION_NAMES)
  {
    NamesDiffer();
    hide NoRepeats, JoinMatches, ExactKeys, T, Get, BundleDigest, NormalizeFacts;
    forall n | n in ATTESTATION_NAMES ensures Has(a.fields, n) {
    }
    hide Has;
    JoinAndPresenceAreExact(a.fields, ATTESTATION_NAMES);
  }

  lemma FactKeysAgree(v: Json)
    requires NormalizeFacts(v).Some?
    ensures IsObject(v, FACT_NAMES)
  {
    NamesDiffer();
    hide NoRepeats, JoinMatches, ExactKeys, T, Get;
    forall n | n in FACT_NAMES ensures Has(v.fields, n) {
    }
    hide Has;
    JoinAndPresenceAreExact(v.fields, FACT_NAMES);
  }

  lemma BundleKeysAgree(v: Json)
    requires NormalBundle(v)
    ensures IsObject(v, BUNDLE_NAMES)
  {
    NamesDiffer();
    hide NoRepeats, JoinMatches, ExactKeys, T, Get;
    forall n | n in BUNDLE_NAMES ensures Has(v.fields, n) {
    }
    hide Has;
    JoinAndPresenceAreExact(v.fields, BUNDLE_NAMES);
  }

  lemma ContextKeysAgree(v: Json)
    requires NormalizeContext(v).Some?
    ensures IsObject(v, CONTEXT_NAMES)
  {
    NamesDiffer();
    hide NoRepeats, JoinMatches, ExactKeys, T, Get;
    forall n | n in CONTEXT_NAMES ensures Has(v.fields, n) {
    }
    hide Has;
    JoinAndPresenceAreExact(v.fields, CONTEXT_NAMES);
  }

  lemma {:induction false} TrueEverywhere(a: Assoc<Json>)
    requires Distinct(a) && forall k :: Has(a, k) ==> Get(a, k) == Bool(true)
    ensures AllValuesTrue(a)
  {
    if a.Entry? {
      assert Has(a, a.key);
      forall k | Has(a.tail, k) ensures Get(a.tail, k) == Bool(true) {
        assert Has(a, k) && k != a.key;
      }
      TrueEverywhere(a.tail);
    }
  }

  // Normalising facts keeps them, up to key order.
  lemma FactsKept(v: Json)
    requires NormalizeFacts(v).Some? && DistinctKeys(v)
    ensures Same(FactsJson(NormalizeFacts(v).value), v)
    ensures Stringify(FactsJson(NormalizeFacts(v).value)) == Stringify(v)
    ensures NormalizeFacts(v).value.AllTrue() ==> AllValuesTrue(v.fields)
  {
    var f := NormalizeFacts(v).value;
    FactKeysAgree(v);
    ExactMembers(v.fields, FACT_NAMES);
    var values := [Bool(f.claimBinding), Bool(f.stwoVerified), Bool(f.shinigamiVerified)];
    FactsDistinct(f);
    assert forall i :: 0 <= i < 3 ==> Has(v.fields, FACT_NAMES[i]) && Get(v.fields, FACT_NAMES[i]) == values[i];
    hide T, JoinMatches, ExactKeys, Stringify;
    ObjectInto(FACT_NAMES, values, v.fields);
    ObjectSize(FACT_NAMES, values);
    CanonicalTextIdentifies(FactsJson(f), v);
    if f.AllTrue() {
      forall k | Has(v.fields, k) ensures Get(v.fields, k) == Bool(true) {
        assert k in FACT_NAMES;
        assert k == FACT_NAMES[0] || k == FACT_NAMES[1] || k == FACT_NAMES[2];
      }
      TrueEverywhere(v.fields);
    }
  }

  // A checked attestation passes the auditor's checks, if the evidence repeats its context.
  lemma CheckedAttestationPasses(c: Crypto, p: Policy, x: Context, k: AttestationCheck, e: Evidence)
    requires Checked(c, p, x, e.attestation, k) && DistinctKeys(e.attestation) && k.facts.AllTrue()
    requires e.policyHash == Str(x.policyHash) && Field(e.policyCore, T("network")) == Some(Str(x.network))
    requires x.caseId == HONEST_TRUE && e.receiptNonce == Str(x.requestNonce)
    requires e.receiptAttestationSha == Str(k.attestationSha)
    ensures AttestationPasses(c, e, k.bundle)
  {
    var a := e.attestation;
    BindingFields(c, p, x, k.bundle, a);
    AttestationKeysAgree(c, p, x, k.bundle, a);
    FieldDistinct(a, FACTS);
    FactKeysAgree(Field(a, FACTS).value);
    FactsKept(Field(a, FACTS).value);
    hide AttestationBinding, BundleDigest, NormalizeFacts, TaggedHash, T, FactsJson, Same, DistinctKeys, Field,
      ExactKeys, SignatureVerifies;
  }

  lemma CheckedSignaturePasses(c: Crypto, p: Policy, x: Context, k: AttestationCheck, e: Evidence)
    requires Checked(c, p, x, e.attestation, k)
    requires e.policyCore == CoreJson(p) && e.factProviderKeyId == Str(p.verifier.keyId)
    ensures SignaturePasses(c, e)
  {
    BindingFields(c, p, x, k.bundle, e.attestation);
    CoreFields(p);
    hide AttestationBinding, CoreJson, BundleDigest, NormalizeFacts, TaggedHash, T, Message, SignedPart, Field, Inner;
  }

  lemma AttestationAgrees(c: Crypto, p: Policy, q: Proposal, r: Receipt)
    requires VerifyAttestation(c, p, q).Success? && DistinctKeys(q.verifierAttestation)
    requires r.attestation == q.verifierAttestation
    requires q.caseId == Str(HONEST_TRUE) && q.requestNonce == Str(r.requestNonce)
    requires var k := VerifyAttestation(c, p, q).value;
             && r.bundle == k.bundle && r.bundleSha == k.bundleSha && r.attestationSha == k.attestationSha
             && k.facts.AllTrue()
    ensures AttestationPasses(c, EvidenceOf(c, p, r), r.bundle)
    ensures SignaturePasses(c, EvidenceOf(c, p, r))
  {
    VerifiedIsChecked(c, p, q);
    CoreFields(p);
    hide VerifyAttestation, Checked, PolicyHash, CoreJson, DistinctKeys, AttestationPasses, SignaturePasses, T, Field;
    var k := VerifyAttestation(c, p, q).value;
    var x := Context(PolicyHash(c, p), NETWORK, HONEST_TRUE, r.requestNonce);
    CheckedAttestationPasses(c, p, x, k, EvidenceOf(c, p, r));
    CheckedSignaturePasses(c, p, x, k, EvidenceOf(c, p, r));
  }

  lemma MarkFields(values: seq<Json>)
    requires |values| == |STATE_MARK_NAMES|
    ensures var m := Literal(STATE_MARK_NAMES, values);
            && IsObject(m, STATE_MARK_NAMES)
            && Field(m, POLICY_HASH) == Some(values[0]) && Field(m, CASE_ID) == Some(values[1])
            && Field(m, CLAIM_SHA) == Some(values[2]) && Field(m, BUNDLE_SHA) == Some(values[3])
            && Field(m, ATTESTATION_SHA) == Some(values[4]) && Field(m, REQUEST_NONCE) == Some(values[5])
            && Field(m, RECOMPUTED_FACTS) == Some(values[6]) && Field(m, DISCLOSED_FACTS) == Some(values[7])
            && Field(m, DISCLOSURE_MATCHES) == Some(values[8]) && Field(m, TRUSTED_VERIFIER) == Some(values[9])
  {
    MarkNamesDiffer();
    ObjectMembers(STATE_MARK_NAMES, values);
    hide NoRepeats, Object, T, Field, SortNames;
    FieldOf(STATE_MARK_NAMES, values, 0);
    FieldOf(STATE_MARK_NAMES, values, 1);
    FieldOf(STATE_MARK_NAMES, values, 2);
    FieldOf(STATE_MARK_NAMES, values, 3);
    FieldOf(STATE_MARK_NAMES, values, 4);
    FieldOf(STATE_MARK_NAMES, values, 5);
    FieldOf(STATE_MARK_NAMES, values, 6);
    FieldOf(STATE_MARK_NAMES, values, 7);
    FieldOf(STATE_MARK_NAMES, values, 8);
    FieldOf(STATE_MARK_NAMES, values, 9);
  }

  // The values of the state mark for a checked attestation, with the facts disclosed as they are.
  function MarkValues(c: Crypto, x: Context, k: AttestationCheck): seq<Json> {
    [Str(x.policyHash), Str(x.caseId), Str(k.bundle.claimSha), Str(k.bundleSha), Str(k.attestationSha),
     Str(x.requestNonce), FactsJson(k.facts), FactsJson(k.facts), Bool(true), Bool(true)]
  }

  lemma IdenticalText(v: Option<Json>, w: Option<Json>, s: text)
    requires v == Some(Str(s)) && w == Some(Str(s))
    ensures Identical(v, w)
  {
  }

  lemma CheckedStateMarkPasses(c: Crypto, p: Policy, x: Context, k: AttestationCheck, e: Evidence)
    requires Checked(c, p, x, e.attestation, k) && DistinctKeys(e.attestation)
    requires e.stateMark == Literal(STATE_MARK_NAMES, MarkValues(c, x, k))
    requires e.receiptAttestationSha == Str(k.attestationSha)
    ensures StateMarkPasses(c, e)
  {
    var a, m := e.attestation, e.stateMark;
    BindingFields(c, p, x, k.bundle, a);
    FieldDistinct(a, FACTS);
    FactsKept(Field(a, FACTS).value);
    MarkFields(MarkValues(c, x, k));
    hide AttestationBinding, BundleDigest, NormalizeFacts, TaggedHash, T, FactsJson, Same, DistinctKeys, Field, Object,
      SignatureVerifies, Stringify, SortNames, Literal, IsObject, Identical;
    IdenticalText(Field(m, POLICY_HASH), Field(a, POLICY_HASH), x.policyHash);
    IdenticalText(Field(m, CASE_ID), Field(a, CASE_ID), x.caseId);
    IdenticalText(Field(m, CLAIM_SHA), Field(a, CLAIM_SHA), k.bundle.claimSha);
    IdenticalText(Field(m, BUNDLE_SHA), Field(a, BUNDLE_SHA), k.bundleSha);
    IdenticalText(Field(m, ATTESTATION_SHA), Some(e.receiptAttestationSha), k.attestationSha);
    IdenticalText(Field(m, REQUEST_NONCE), Field(a, REQUEST_NONCE), x.requestNonce);
  }

  lemma StateMarkAgrees(c: Crypto, p: Policy, q: Proposal, r: Receipt)
    requires VerifyAttestation(c, p, q).Success? && DistinctKeys(q.verifierAttestation)
    requires r.attestation == q.verifierAttestation
    requires q.caseId == Str(r.caseId) && q.requestNonce == Str(r.requestNonce)
    requires var k := VerifyAttestation(c, p, q).value;
             && r.bundle == k.bundle && r.facts == r.disclosures == k.facts && r.claimInputSha == k.bundle.claimSha
             && r.attestationSha == k.attestationSha
             && r.stateMark == StateMark(c, p, r.caseId, r.facts, r.disclosures, r.claimInputSha, k, r.requestNonce)
    ensures StateMarkPasses(c, EvidenceOf(c, p, r))
  {
    VerifiedIsChecked(c, p, q);
    hide VerifyAttestation, Checked, PolicyHash, DistinctKeys, StateMarkPasses, FactsJson, Literal, T;
    var k := VerifyAttestation(c, p, q).value;
    var x := Context(PolicyHash(c, p), NETWORK, r.caseId, r.requestNonce);
    assert r.stateMark == Literal(STATE_MARK_NAMES, MarkValues(c, x, k));
    CheckedStateMarkPasses(c, p, x, k, EvidenceOf(c, p, r));
  }

  // What acceptance has established about a receipt.
  ghost predicate Established(c: Crypto, p: Policy, q: Proposal, r: Receipt) {
    && VerifyAttestation(c, p, q).Success?
    && (var k := VerifyAttestation(c, p, q).value;
        && r.bundle == k.bundle && r.bundleSha == k.bundleSha && r.attestationSha == k.attestationSha
        && r.facts == r.disclosures == k.facts && k.facts.AllTrue()
        && r.stateMark == StateMark(c, p, r.caseId, r.facts, r.disclosures, r.claimInputSha, k, r.requestNonce))
    && r.bundleSha == BundleDigest(c, r.bundle) && r.claimInputSha == r.bundle.claimSha
    && ExpectedClaim(r.caseId) == Some(r.claimInputSha)
    && q.caseId == Str(r.caseId) && q.requestNonce == Str(r.requestNonce)
    && r.attestation == q.verifierAttestation && r.material == q.artifactMaterial
    && NormalizeMaterial(c, r.material).Some?
    && r.bundle == DeriveBundle(c, NormalizeMaterial(c, r.material).value)
  }

  lemma AcceptanceEstablishes(c: Crypto, p: Policy, consumed: set<text>, q: Proposal, u: Utxoref)
    requires WellKeyed(q) && Verdict(c, p, consumed, q, u).Accepted?
    ensures Established(c, p, q, Verdict(c, p, consumed, q, u).receipt)
  {
    hide WellKeyed;
    AcceptedIsScreened(c, p, consumed, q, u);
    ScreenParts(c, p, q);
    hide Verdict, Screen, VerifyAttestation, StateMark, NormalizeMaterial, NormalizeFacts, DeriveBundle, Field,
      CanonicalCairoJson, Same, CoreJson, BundleDigest, TaggedHash;
    VerifiedParts(c, p, q);
  }

  lemma BundleAgrees(c: Crypto, p: Policy, r: Receipt)
    requires r.caseId == HONEST_TRUE && ExpectedClaim(r.caseId) == Some(r.claimInputSha)
    requires r.claimInputSha == r.bundle.claimSha && r.bundleSha == BundleDigest(c, r.bundle)
    ensures BundlePasses(c, EvidenceOf(c, p, r), r.bundle)
  {
    CoreFields(p);
    hide CoreJson, T, Field, Inner, BundleDigest, Stringify;
  }

  lemma PolicyAgrees(c: Crypto, p: Policy, r: Receipt)
    ensures PolicyPasses(c, p.utxorefSourceDigest, EvidenceOf(c, p, r))
  {
    CoreFields(p);
    hide CoreJson, T, Field;
  }

  lemma EstablishedPassesAudit(c: Crypto, p: Policy, q: Proposal, r: Receipt)
    requires c.toBase64([]) == [] && DistinctKeys(q.verifierAttestation)
    requires Established(c, p, q, r) && r.caseId == HONEST_TRUE
    ensures Audit(c, p.utxorefSourceDigest, EvidenceOf(c, p, r))
  {
    hide VerifyAttestation, StateMark, NormalizeMaterial, DeriveBundle, AuditedBundle, MaterialPasses, PolicyPasses,
      BundlePasses, AttestationPasses, SignaturePasses, StateMarkPasses, DistinctKeys, CoreJson, BundleDigest,
      PolicyHash, BundleJson, ExpectedClaim, T;
    PolicyAgrees(c, p, r);
    MaterialAgrees(c, r.material);
    BundleAgrees(c, p, r);
    AttestationAgrees(c, p, q, r);
    StateMarkAgrees(c, p, q, r);
  }

  /** Agreement: the evidence of every accepted `honest_true` proposal passes the audit.  Of
      base64 it is assumed only that no bytes encode to no text. */
  lemma AcceptedEvidencePassesAudit(c: Crypto, p: Policy, consumed: set<text>, q: Proposal, u: Utxoref)
    requires c.toBase64([]) == [] && WellKeyed(q)
    requires Verdict(c, p, consumed, q, u).Accepted?
    requires Verdict(c, p, consumed, q, u).receipt.caseId == HONEST_TRUE
    ensures Audit(c, p.utxorefSourceDigest, EvidenceOf(c, p, Verdict(c, p, consumed, q, u).receipt))
  {
    AcceptanceEstablishes(c, p, consumed, q, u);
    EstablishedPassesAudit(c, p, q, Verdict(c, p, consumed, q, u).receipt);
  }

  lemma {:induction false} AllTrueAt(a: Assoc<Json>, key: text)
    requires AllValuesTrue(a) && Has(a, key)
    ensures Get(a, key) == Bool(true)
  {
    if a.key != key {
      AllTrueAt(a.tail, key);
    }
  }

  lemma TrueFacts(f: Facts, v: Json)
    requires Same(FactsJson(f), v) && v.Obj? && AllValuesTrue(v.fields)
    ensures f.AllTrue()
  {
    var values := [Bool(f.claimBinding), Bool(f.stwoVerified), Bool(f.shinigamiVerified)];
    SameAsObject(FACT_NAMES, values, v.fields);
    assert Same(values[0], Get(v.fields, FACT_NAMES[0]));
    assert Same(values[1], Get(v.fields, FACT_NAMES[1]));
    assert Same(values[2], Get(v.fields, FACT_NAMES[2]));
    AllTrueAt(v.fields, FACT_NAMES[0]);
    AllTrueAt(v.fields, FACT_NAMES[1]);
    AllTrueAt(v.fields, FACT_NAMES[2]);
  }

  /** What a passing audit establishes.  The auditor takes the verifier's key from the evidence and
      compares it with nothing outside, so the answer depends on whose key that is. */

  // Whatever verifies under a key with this id, the verifier signed.
  ghost predicate HonestKey(c: Crypto, log: seq<Signed>, keyId: text) {
    forall pem: text, m: bytes, signature: text :: c.keyIdOf(pem) == Some(keyId) && c.verify(pem, m, signature) ==>
      exists t :: t in log && Message(Payload(c, keyId, t)) == m
  }

  // The audited attestation is one the verifier with this key id signed.
  ghost predicate InLog(c: Crypto, e: Evidence, log: seq<Signed>, keyId: text) {
    e.attestation.Obj? && exists t :: t in log && Message(Payload(c, keyId, t)) == Message(SignedPart(e.attestation))
  }

  lemma AuditedKey(c: Crypto, sourceDigest: text, e: Evidence)
    requires Audit(c, sourceDigest, e)
    ensures e.attestation.Obj? && SignaturePasses(c, e)
    ensures Field(e.attestation, VERIFIER_KEY_ID) == Some(e.factProviderKeyId)
  {
    hide Field, Inner, PolicyPasses, MaterialPasses, BundlePasses, StateMarkPasses, ExactKeys, T, SignedPart, Message;
  }

  /** Evidence that passes the audit carries the verifier's attestation if and only if the key id
      it reports is the verifier's. */
  lemma AuditedSignerExactly(c: Crypto, sourceDigest: text, e: Evidence, log: seq<Signed>, keyId: text)
    requires Audit(c, sourceDigest, e) && DistinctKeys(e.attestation) && HonestKey(c, log, keyId)
    ensures InLog(c, e, log, keyId) <==> e.factProviderKeyId == Str(keyId)
  {
    AuditedKey(c, sourceDigest, e);
    hide Audit, Field, Inner, T, DistinctKeys, Payload, Message, SignedPart, BundleDigest, FactsFor, FactsJson, Same;
    if InLog(c, e, log, keyId) {
      var t :| t in log && Message(Payload(c, keyId, t)) == Message(SignedPart(e.attestation));
      SignedFields(c, keyId, t, e.attestation);
    }
  }

  /** So under the verifier's key id a passing audit establishes that the verifier vouched for
      exactly this policy, network and nonce in the case `honest_true`, with all facts true, for
      the audited bytes or a collision. */
  lemma AuditedEvidenceIsVouched(c: Crypto, sourceDigest: text, e: Evidence, log: seq<Signed>, keyId: text)
    returns (s: Signed)
    requires Audit(c, sourceDigest, e) && DistinctKeys(e.attestation)
    requires HonestKey(c, log, keyId) && e.factProviderKeyId == Str(keyId)
    ensures s in log && Field(e.attestation, VERIFIER_KEY_ID) == Some(Str(keyId))
    ensures e.policyHash == Str(s.context.policyHash) && e.receiptNonce == Str(s.context.requestNonce)
    ensures Field(e.policyCore, T("network")) == Some(Str(s.context.network)) && s.context.caseId == HONEST_TRUE
    ensures FactsFor(c, s.bundle).AllTrue()
    ensures var b := AuditedBundle(c, e.material);
            s.bundle.claimSha == b.claimSha && BundleDigest(c, s.bundle) == BundleDigest(c, b)
    ensures var b := AuditedBundle(c, e.material);
            s.bundle == b
            || Collision(c.sha, TaggedPreimage(BUNDLE_TAG, BundleJson(s.bundle)),
                                TaggedPreimage(BUNDLE_TAG, BundleJson(b)))
  {
    AuditedKey(c, sourceDigest, e);
    AuditedSignerExactly(c, sourceDigest, e, log, keyId);
    hide Inner, T, DistinctKeys, Payload, Message, SignedPart, BundleDigest, FactsFor, FactsJson, Same, SignaturePasses,
      StateMarkPasses, PolicyPasses, MaterialPasses, BundlePasses, AuditedBundle, Field, ExactKeys;
    var a, b := e.attestation, AuditedBundle(c, e.material);
    s :| s in log && Message(Payload(c, keyId, s)) == Message(SignedPart(a));
    SignedFields(c, keyId, s, a);
    SameBundleOrCollision(c, s.bundle, b);
    TrueFacts(FactsFor(c, s.bundle), Field(a, FACTS).value);
  }

  lemma SameCoreSameKey(p: Policy, core: Json)
    requires Same(CoreJson(p), core)
    ensures Inner(core, T("factProvider"), T("publicKeyPem")) == Some(Str(p.verifier.publicKeyPem))
  {
    var values := CoreValues(p);
    var provider := [Str(PROVIDER_KIND), Str(p.verifier.keyId), Str(p.verifier.publicKeyPem), Str(PROVIDER_MEANING)];
    assert values[12] == Literal(PROVIDER_NAMES, provider);
    hide T, Object, CoreValues;
    SameAsObject(CORE_NAMES, values, core.fields);
    assert Same(values[12], Get(core.fields, CORE_NAMES[12]));
    var w := Get(core.fields, CORE_NAMES[12]);
    SameAsObject(PROVIDER_NAMES, provider, w.fields);
    assert Same(provider[2], Get(w.fields, PROVIDER_NAMES[2]));
  }

  /** A policy hash known from elsewhere settles whose key it is: evidence with the pinned policy's
      hash reports the pinned key's id, or exhibits a collision. */
  lemma PinnedPolicyPinsTheKey(c: Crypto, p: Policy, sourceDigest: text, e: Evidence)
    requires Audit(c, sourceDigest, e) && DistinctKeys(e.policyCore) && e.policyHash == Str(PolicyHash(c, p))
    ensures || (c.keyIdOf(p.verifier.publicKeyPem).Some?
                && e.factProviderKeyId == Str(c.keyIdOf(p.verifier.publicKeyPem).value))
            || Collision(c.sha, TaggedPreimage(POLICY_DOMAIN, CoreJson(p)), TaggedPreimage(POLICY_DOMAIN, e.policyCore))
  {
    AuditedKey(c, sourceDigest, e);
    CoreDistinct(p);
    Literals("bark-bitvm-showcase/trusted-cosigner-policy/v1");
    hide MaterialPasses, BundlePasses, AttestationPasses, StateMarkPasses, TaggedPreimage, CoreJson, T, Same,
      DistinctKeys, Inner, Field, NulFree, WellFormed, Message, SignedPart;
    TaggedHashBinds(c.sha, POLICY_DOMAIN, CoreJson(p), POLICY_DOMAIN, e.policyCore);
    if Same(CoreJson(p), e.policyCore) {
      SameCoreSameKey(p, e.policyCore);
    }
  }
}
