/** What the audit accepts, in full, and what the state mark and the receipt of audited evidence
    therefore say. */
module AuditAcceptance {
  import opened Prelude
  import opened JsText
  import opened Utf8Encoding
  import opened CanonicalJson
  import opened JsTaggedHash
  import opened KeyLists
  import opened CosignerPolicy
  import opened CosignerGate
  import opened GateSafety
  import opened GateObjects
  import opened GateAcceptance
  import opened EvidenceAudit

  // The names of an object, exactly, and with these values.
  lemma FieldsAreExact(names: seq<text>, values: seq<Json>, v: Json)
    requires |names| == |values| && NoRepeats(names)
    ensures Same(Literal(names, values), v) <==>
            && IsObject(v, names)
            && forall i :: 0 <= i < |names| ==> Field(v, names[i]).Some? && Same(values[i], Field(v, names[i]).value)
  {
    SameAsLiteral(names, values, v);
  }

  /** Artifact material. */

  ghost predicate MaterialStands(c: Crypto, m: Material, v: Json) {
    && Same(MaterialObject(m), v)
    && c.fromBase64(m.claim) != [] && c.toBase64(c.fromBase64(m.claim)) == m.claim
    && c.fromBase64(m.proof) != [] && c.toBase64(c.fromBase64(m.proof)) == m.proof
    && c.fromBase64(m.shinigami) != [] && c.toBase64(c.fromBase64(m.shinigami)) == m.shinigami
  }

  lemma MaterialPassesFor(c: Crypto, v: Json, m: Material)
    ensures MaterialStands(c, m, v) <==>
            && MaterialPasses(c, v) && Field(v, CLAIM_BASE64) == Some(Str(m.claim))
            && Field(v, PROOF_BASE64) == Some(Str(m.proof)) && Field(v, SHINIGAMI_BASE64) == Some(Str(m.shinigami))
  {
    var values := [Str(MATERIAL_KIND), Str(m.claim), Str(m.proof), Str(m.shinigami)];
    NamesDiffer();
    assert MaterialObject(m) == Literal(MATERIAL_NAMES, values);
    hide Object, T, Field, IsObject, NoRepeats, Literal, MaterialObject;
    FieldsAreExact(MATERIAL_NAMES, values, v);
    FourAtoms(MATERIAL_NAMES, values, v);
  }

  lemma MaterialPassesExactly(c: Crypto, v: Json)
    ensures MaterialPasses(c, v) <==> exists m :: MaterialStands(c, m, v)
    ensures forall m :: MaterialStands(c, m, v) ==> MaterialPasses(c, v) && AuditedBundle(c, v) == Digests(c, m)
  {
    forall m
      ensures MaterialStands(c, m, v) <==>
              && MaterialPasses(c, v) && Field(v, CLAIM_BASE64) == Some(Str(m.claim))
              && Field(v, PROOF_BASE64) == Some(Str(m.proof)) && Field(v, SHINIGAMI_BASE64) == Some(Str(m.shinigami))
    {
      MaterialPassesFor(c, v, m);
    }
    hide MaterialStands, Field, IsObject, T;
    if MaterialPasses(c, v) {
      var claim, proof := Field(v, CLAIM_BASE64).value.s, Field(v, PROOF_BASE64).value.s;
      var m := Material(claim, proof, Field(v, SHINIGAMI_BASE64).value.s);
      assert MaterialStands(c, m, v);
    }
  }

  /** Facts that are all true. */

  lemma AllTrueExactly(v: Json)
    requires DistinctKeys(v)
    ensures IsObject(v, FACT_NAMES) && AllValuesTrue(v.fields) <==> Same(FactsObject(true, true, true), v)
  {
    var f, values := Facts(true, true, true), [Bool(true), Bool(true), Bool(true)];
    NamesDiffer();
    assert FactsObject(true, true, true) == Literal(FACT_NAMES, values) == FactsJson(f);
    hide Object, T, NoRepeats, FactsObject;
    SameAsLiteral(FACT_NAMES, values, v);
    if Same(Literal(FACT_NAMES, values), v) {
      FactsExactly(v, f);
      FactsKept(v);
    }
    if IsObject(v, FACT_NAMES) && AllValuesTrue(v.fields) {
      ExactMembers(v.fields, FACT_NAMES);
      forall i | 0 <= i < 3 ensures Has(v.fields, FACT_NAMES[i]) && Get(v.fields, FACT_NAMES[i]) == values[i] {
        AllTrueAt(v.fields, FACT_NAMES[i]);
      }
    }
  }

  /** The attestation. */

  // The audited attestation, over whatever network and nonce the evidence names.
  function AuditedItems(
    policyHash: Json, network: Json, nonce: Json, keyId: Json, bundleSha: text, claimSha: text, signature: Json)
    : seq<Json>
  {
    [Str(T("bark_bitvm_independent_verifier_attestation_v1")), Num(1), keyId, policyHash, network,
     Str(T("honest_true")), nonce, Str(bundleSha), Str(claimSha), FactsObject(true, true, true), signature]
  }

  predicate Atom(v: Json) {
    !v.Obj? && !v.Arr?
  }

  ghost predicate AttestationStands(c: Crypto, e: Evidence, b: Bundle, network: Json, keyId: Json, signature: Json) {
    && Same(Literal(PAYLOAD_KEYS + [T("signature")],
                    AuditedItems(e.policyHash, network, e.receiptNonce, keyId, BundleSha(c, b), b.claimSha, signature)),
            e.attestation)
    && Atom(e.policyHash) && Atom(network) && Atom(e.receiptNonce)
    && Field(e.policyCore, T("network")) == Some(network)
    && e.receiptAttestationSha
       == Str(TaggedHash(c.sha, T("bark-bitvm-showcase/verifier-attestation/v1"), e.attestation))
  }

  // What the audit fixes of an attestation, field by field.
  ghost predicate AttestationParts(a: Json, policyHash: Json, nonce: Json, bundleSha: text, claimSha: text) {
    && IsObject(a, ATTESTATION_NAMES)
    && Field(a, KIND) == Some(Str(ATTESTATION_KIND)) && Field(a, VERSION) == Some(Num(1))
    && Field(a, POLICY_HASH) == Some(policyHash) && Field(a, CASE_ID) == Some(Str(HONEST_TRUE))
    && Field(a, REQUEST_NONCE) == Some(nonce)
    && Field(a, BUNDLE_SHA) == Some(Str(bundleSha)) && Field(a, CLAIM_SHA) == Some(Str(claimSha))
    && Field(a, FACTS).Some? && Same(FactsObject(true, true, true), Field(a, FACTS).value)
  }

  lemma AttestationPassesSplit(c: Crypto, e: Evidence, b: Bundle)
    requires DistinctKeys(e.attestation)
    ensures var a := e.attestation;
            AttestationPasses(c, e, b) <==>
            && AttestationParts(a, e.policyHash, e.receiptNonce, BundleSha(c, b), b.claimSha)
            && Atom(e.policyHash) && Atom(e.receiptNonce)
            && Field(a, NETWORK_NAME) == Field(e.policyCore, T("network"))
            && (Field(a, NETWORK_NAME).Some? ==> Atom(Field(a, NETWORK_NAME).value))
            && e.receiptAttestationSha == Str(TaggedHash(c.sha, VERIFIER_ATTESTATION_TAG, a))
  {
    var a := e.attestation;
    BundleShaIsDigest(c, b);
    if Field(a, FACTS).Some? {
      FieldDistinct(a, FACTS);
      AllTrueExactly(Field(a, FACTS).value);
    }
    hide T, Field, IsObject, BundleSha, BundleDigest, FactsObject, TaggedHash, AllValuesTrue, DistinctKeys, Same;
  }

  lemma StandsSplit(c: Crypto, e: Evidence, b: Bundle, network: Json, keyId: Json, signature: Json)
    requires Atom(e.policyHash) && Atom(network) && Atom(e.receiptNonce) && Atom(keyId) && Atom(signature)
    ensures var a := e.attestation;
            Same(Literal(PAYLOAD_KEYS + [T("signature")],
                         AuditedItems(e.policyHash, network, e.receiptNonce, keyId, BundleSha(c, b), b.claimSha,
                                      signature)), a)
            <==>
            && AttestationParts(a, e.policyHash, e.receiptNonce, BundleSha(c, b), b.claimSha)
            && Field(a, VERIFIER_KEY_ID) == Some(keyId) && Field(a, NETWORK_NAME) == Some(network)
            && Field(a, SIGNATURE) == Some(signature)
  {
    var a := e.attestation;
    var values := AuditedItems(e.policyHash, network, e.receiptNonce, keyId, BundleSha(c, b), b.claimSha, signature);
    NamesDiffer();
    assert PAYLOAD_KEYS + [T("signature")] == ATTESTATION_NAMES;
    hide Object, T, Field, IsObject, NoRepeats, Literal, BundleSha, FactsObject, Has, Get;
    FieldsAreExact(ATTESTATION_NAMES, values, a);
    forall i | 0 <= i < 11 && i != 9
      ensures (Field(a, ATTESTATION_NAMES[i]).Some? && Same(values[i], Field(a, ATTESTATION_NAMES[i]).value))
         <==> Field(a, ATTESTATION_NAMES[i]) == Some(values[i])
    {
      AtomIsItself(values[i], Field(a, ATTESTATION_NAMES[i]));
    }
    hide Same;
    ElevenFields(values, a, FactsObject(true, true, true));
  }

  // The audit's own checks say which values the fields have.
  lemma AttestationPassesFields(c: Crypto, e: Evidence, b: Bundle, network: Json, keyId: Json, signature: Json)
    requires DistinctKeys(e.attestation) && Atom(keyId) && Atom(signature)
    ensures (&& AttestationPasses(c, e, b) && Field(e.policyCore, T("network")) == Some(network)
             && Field(e.attestation, VERIFIER_KEY_ID) == Some(keyId)
             && Field(e.attestation, SIGNATURE) == Some(signature))
       <==> AttestationStands(c, e, b, network, keyId, signature)
  {
    AttestationPassesSplit(c, e, b);
    if Atom(e.policyHash) && Atom(network) && Atom(e.receiptNonce) {
      StandsSplit(c, e, b, network, keyId, signature);
    }
    hide T, Field, IsObject, BundleSha, FactsObject, TaggedHash, AttestationPasses, AttestationParts, DistinctKeys,
      Same, Literal, AuditedItems;
  }

  /** The state mark. */

  // The mark that goes with an attestation.
  function MarkItems(
    policyHash: Json, claimSha: text, bundleSha: text, attestationSha: Json, nonce: Json): seq<Json>
  {
    [policyHash, Str(T("honest_true")), Str(claimSha), Str(bundleSha), attestationSha, nonce,
     FactsObject(true, true, true), FactsObject(true, true, true), Bool(true), Bool(true)]
  }

  const MARK_KEYS: seq<text> := [
    T("policyHash"), T("caseId"), T("claimInputSha256"), T("artifactBundleSha256"),
    T("verifierAttestationSha256"), T("requestNonce"), T("recomputedFacts"), T("operatorDisclosures"),
    T("disclosureMatchesRecomputation"), T("trustedVerifierNotBitcoinStwo")]

  ghost predicate MarkStands(c: Crypto, e: Evidence, b: Bundle) {
    Same(Literal(MARK_KEYS,
                 MarkItems(e.policyHash, b.claimSha, BundleSha(c, b), e.receiptAttestationSha, e.receiptNonce)),
         e.stateMark)
  }

  // The mark, field by field.
  ghost predicate MarkParts(
    m: Json, policyHash: Json, claimSha: text, bundleSha: text, attestationSha: Json, nonce: Json)
  {
    && IsObject(m, STATE_MARK_NAMES)
    && Field(m, POLICY_HASH) == Some(policyHash) && Field(m, CASE_ID) == Some(Str(HONEST_TRUE))
    && Field(m, CLAIM_SHA) == Some(Str(claimSha)) && Field(m, BUNDLE_SHA) == Some(Str(bundleSha))
    && Field(m, ATTESTATION_SHA) == Some(attestationSha) && Field(m, REQUEST_NONCE) == Some(nonce)
    && Field(m, RECOMPUTED_FACTS).Some? && Same(FactsObject(true, true, true), Field(m, RECOMPUTED_FACTS).value)
    && Field(m, DISCLOSED_FACTS).Some? && Same(FactsObject(true, true, true), Field(m, DISCLOSED_FACTS).value)
    && Field(m, DISCLOSURE_MATCHES) == Some(Bool(true)) && Field(m, TRUSTED_VERIFIER) == Some(Bool(true))
  }

  lemma FactsTextExactly(facts: Json, v: Json)
    requires DistinctKeys(facts) && DistinctKeys(v) && Same(FactsObject(true, true, true), facts)
    ensures Stringify(v) == Stringify(facts) <==> Same(FactsObject(true, true, true), v)
  {
    var all := FactsObject(true, true, true);
    FactsObjectDistinct(Facts(true, true, true));
    hide FactsObject, Stringify, Same, DistinctKeys;
    CanonicalTextIdentifies(all, facts);
    CanonicalTextIdentifies(all, v);
  }

  lemma MarkFactsExactly(a: Json, m: Json, name: text)
    requires DistinctKeys(a) && DistinctKeys(m)
    requires Field(a, FACTS).Some? && Same(FactsObject(true, true, true), Field(a, FACTS).value)
    ensures Field(m, name).Some? && Stringify(Field(m, name).value) == Stringify(Field(a, FACTS).value)
       <==> Field(m, name).Some? && Same(FactsObject(true, true, true), Field(m, name).value)
  {
    FieldDistinct(a, FACTS);
    if Field(m, name).Some? {
      FieldDistinct(m, name);
      FactsTextExactly(Field(a, FACTS).value, Field(m, name).value);
    }
  }

  lemma IdenticalTo(v: Option<Json>, w: Option<Json>, value: Json)
    requires w == Some(value) && Atom(value)
    ensures Identical(v, w) <==> v == Some(value)
  {
  }

  lemma MarkPassesSplit(c: Crypto, e: Evidence, b: Bundle)
    requires DistinctKeys(e.attestation) && DistinctKeys(e.stateMark) && AttestationPasses(c, e, b)
    ensures var m := e.stateMark;
            StateMarkPasses(c, e) <==>
            MarkParts(m, e.policyHash, b.claimSha, BundleSha(c, b), e.receiptAttestationSha, e.receiptNonce)
  {
    var a, m := e.attestation, e.stateMark;
    AttestationPassesSplit(c, e, b);
    MarkFactsExactly(a, m, RECOMPUTED_FACTS);
    MarkFactsExactly(a, m, DISCLOSED_FACTS);
    hide T, Field, IsObject, BundleSha, FactsObject, TaggedHash, AttestationPasses, DistinctKeys, Same, Stringify,
      Identical;
    IdenticalTo(Field(m, POLICY_HASH), Field(a, POLICY_HASH), e.policyHash);
    IdenticalTo(Field(m, CASE_ID), Field(a, CASE_ID), Str(HONEST_TRUE));
    IdenticalTo(Field(m, CLAIM_SHA), Field(a, CLAIM_SHA), Str(b.claimSha));
    IdenticalTo(Field(m, BUNDLE_SHA), Field(a, BUNDLE_SHA), Str(BundleSha(c, b)));
    IdenticalTo(Field(m, ATTESTATION_SHA), Some(e.receiptAttestationSha), e.receiptAttestationSha);
    IdenticalTo(Field(m, REQUEST_NONCE), Field(a, REQUEST_NONCE), e.receiptNonce);
  }

  lemma TenFields(values: seq<Json>, m: Json, facts: Json)
    requires |values| == 10 && values[6] == values[7] == facts
    requires forall i :: 0 <= i < 10 && i != 6 && i != 7 ==> Atom(values[i])
    ensures (forall i :: 0 <= i < 10 ==>
               Field(m, STATE_MARK_NAMES[i]).Some? && Same(values[i], Field(m, STATE_MARK_NAMES[i]).value))
       <==> && Field(m, POLICY_HASH) == Some(values[0]) && Field(m, CASE_ID) == Some(values[1])
            && Field(m, CLAIM_SHA) == Some(values[2]) && Field(m, BUNDLE_SHA) == Some(values[3])
            && Field(m, ATTESTATION_SHA) == Some(values[4]) && Field(m, REQUEST_NONCE) == Some(values[5])
            && Field(m, RECOMPUTED_FACTS).Some? && Same(facts, Field(m, RECOMPUTED_FACTS).value)
            && Field(m, DISCLOSED_FACTS).Some? && Same(facts, Field(m, DISCLOSED_FACTS).value)
            && Field(m, DISCLOSURE_MATCHES) == Some(values[8]) && Field(m, TRUSTED_VERIFIER) == Some(values[9])
  {
    var n := STATE_MARK_NAMES;
    assert n[4] == ATTESTATION_SHA && n[6] == RECOMPUTED_FACTS && n[7] == DISCLOSED_FACTS;
    assert n[8] == DISCLOSURE_MATCHES && n[9] == TRUSTED_VERIFIER;
    hide T, Field;
    forall i | 0 <= i < 10 && i != 6 && i != 7
      ensures (Field(m, n[i]).Some? && Same(values[i], Field(m, n[i]).value)) <==> Field(m, n[i]) == Some(values[i])
    {
      AtomIsItself(values[i], Field(m, n[i]));
    }
    hide Same;
    assert n[0] == POLICY_HASH && n[1] == CASE_ID && n[2] == CLAIM_SHA && n[3] == BUNDLE_SHA && n[5] == REQUEST_NONCE;
  }

  lemma MarkItemsExactly(
    m: Json, policyHash: Json, claimSha: text, bundleSha: text, attestationSha: Json, nonce: Json)
    requires Atom(policyHash) && Atom(attestationSha) && Atom(nonce)
    ensures var values := MarkItems(policyHash, claimSha, bundleSha, attestationSha, nonce);
            IsObject(m, STATE_MARK_NAMES)
            && (forall i :: 0 <= i < 10 ==>
                  Field(m, STATE_MARK_NAMES[i]).Some? && Same(values[i], Field(m, STATE_MARK_NAMES[i]).value))
            <==> MarkParts(m, policyHash, claimSha, bundleSha, attestationSha, nonce)
  {
    var values := MarkItems(policyHash, claimSha, bundleSha, attestationSha, nonce);
    hide T, Field, IsObject, FactsObject, Same;
    assert values[0] == policyHash && values[1] == Str(HONEST_TRUE) && values[2] == Str(claimSha);
    assert values[3] == Str(bundleSha) && values[4] == attestationSha && values[5] == nonce;
    assert values[8] == Bool(true) && values[9] == Bool(true);
    TenFields(values, m, FactsObject(true, true, true));
  }

  lemma MarkStandsSplit(c: Crypto, e: Evidence, b: Bundle)
    requires Atom(e.policyHash) && Atom(e.receiptAttestationSha) && Atom(e.receiptNonce)
    ensures var m := e.stateMark;
            MarkStands(c, e, b) <==>
            MarkParts(m, e.policyHash, b.claimSha, BundleSha(c, b), e.receiptAttestationSha, e.receiptNonce)
  {
    var values := MarkItems(e.policyHash, b.claimSha, BundleSha(c, b), e.receiptAttestationSha, e.receiptNonce);
    assert |values| == 10 && |STATE_MARK_NAMES| == 10;
    MarkNamesDiffer();
    assert MARK_KEYS == STATE_MARK_NAMES;
    hide Object, T, Field, IsObject, NoRepeats, Literal, BundleSha, FactsObject, Has, Get, Same, MarkItems, MarkParts;
    FieldsAreExact(STATE_MARK_NAMES, values, e.stateMark);
    MarkItemsExactly(e.stateMark, e.policyHash, b.claimSha, BundleSha(c, b), e.receiptAttestationSha, e.receiptNonce);
  }

  lemma StateMarkExactly(c: Crypto, e: Evidence, b: Bundle)
    requires DistinctKeys(e.attestation) && DistinctKeys(e.stateMark) && AttestationPasses(c, e, b)
    ensures StateMarkPasses(c, e) <==> MarkStands(c, e, b)
  {
    hide T, Field, IsObject, BundleSha, FactsObject, TaggedHash, Same, AttestationPasses, StateMarkPasses, MarkStands,
      MarkParts, DistinctKeys;
    AttestationPassesSplit(c, e, b);
    MarkPassesSplit(c, e, b);
    MarkStandsSplit(c, e, b);
  }

  /** The audit. */

  ghost predicate PolicyStands(c: Crypto, sourceDigest: text, e: Evidence) {
    && e.policyHash == Str(TaggedHash(c.sha, T("bark-bitvm-showcase/trusted-cosigner-policy/v1"), e.policyCore))
    && Field(e.policyCore, T("utxorefCommit")) == Some(Str(T("13f43d7f7bbddf10fa507770645ef05e49189441")))
    && Field(e.policyCore, T("utxorefSourceDigest")) == Some(Str(sourceDigest))
  }

  // The digest pinned for `honest_true` in the evidence's policy.
  function HonestDigest(e: Evidence): Option<Json> {
    match Field(e.policyCore, T("claimInputs"))
    case None => None
    case Some(cases) => Inner(cases, T("honest_true"), T("sha256"))
  }

  ghost predicate BundleStands(c: Crypto, e: Evidence, b: Bundle) {
    && Same(BundleObject(b.claimSha, b.proofSha, b.shinigamiSha), e.bundle)
    && HonestDigest(e) == Some(Str(b.claimSha))
    && e.receiptClaimSha == Str(b.claimSha) && e.receiptBundleSha == Str(BundleSha(c, b))
  }

  // The signature, under the key the evidence itself brings.
  ghost predicate SignatureStands(c: Crypto, e: Evidence, pem: text, keyId: text, signature: text) {
    && Inner(e.policyCore, T("factProvider"), T("publicKeyPem")) == Some(Str(pem))
    && c.keyIdOf(pem) == Some(keyId) && e.factProviderKeyId == Str(keyId)
    && e.attestation.Obj? && c.verify(pem, Message(SignedPart(e.attestation)), signature)
  }

  ghost predicate Stands(
    c: Crypto, sourceDigest: text, e: Evidence, m: Material, network: Json, pem: text, keyId: text, signature: text)
  {
    && PolicyStands(c, sourceDigest, e)
    && MaterialStands(c, m, e.material)
    && BundleStands(c, e, Digests(c, m))
    && AttestationStands(c, e, Digests(c, m), network, Str(keyId), Str(signature))
    && SignatureStands(c, e, pem, keyId, signature)
    && MarkStands(c, e, Digests(c, m))
  }

  lemma PolicyPassesExactly(c: Crypto, sourceDigest: text, e: Evidence)
    ensures PolicyPasses(c, sourceDigest, e) <==> PolicyStands(c, sourceDigest, e)
  {
    hide Field, TaggedHash;
  }

  lemma BundlePassesExactly(c: Crypto, e: Evidence, b: Bundle)
    requires DistinctKeys(e.bundle)
    ensures BundlePasses(c, e, b) <==> BundleStands(c, e, b)
  {
    BundleShaIsDigest(c, b);
    BundleDistinct(b);
    assert BundleObject(b.claimSha, b.proofSha, b.shinigamiSha) == BundleJson(b) by {
      hide Object;
    }
    hide Field, BundleSha, BundleDigest, BundleObject, BundleJson, Stringify, Same, DistinctKeys, Inner, T;
    CanonicalTextIdentifies(BundleJson(b), e.bundle);
  }

  lemma SignaturePassesFor(c: Crypto, e: Evidence) returns (pem: text, keyId: text, signature: text)
    requires e.attestation.Obj? && SignaturePasses(c, e)
    ensures SignatureStands(c, e, pem, keyId, signature)
    ensures Field(e.attestation, VERIFIER_KEY_ID) == Some(Str(keyId))
    ensures Field(e.attestation, SIGNATURE) == Some(Str(signature))
  {
    hide Field, Inner, T, Message, SignedPart;
    pem := Inner(e.policyCore, T("factProvider"), T("publicKeyPem")).value.s;
    keyId := c.keyIdOf(pem).value;
    signature := Field(e.attestation, SIGNATURE).value.s;
  }

  lemma SignatureStandsPasses(c: Crypto, e: Evidence, pem: text, keyId: text, signature: text)
    requires SignatureStands(c, e, pem, keyId, signature)
    requires Field(e.attestation, VERIFIER_KEY_ID) == Some(Str(keyId))
    requires Field(e.attestation, SIGNATURE) == Some(Str(signature))
    ensures SignaturePasses(c, e)
  {
    hide Field, Inner, T, Message, SignedPart;
  }

  // No object repeats a key.
  predicate EvidenceKeyed(e: Evidence) {
    DistinctKeys(e.attestation) && DistinctKeys(e.stateMark) && DistinctKeys(e.bundle)
  }

  lemma NetworkIsThere(a: Json)
    requires IsObject(a, ATTESTATION_NAMES)
    ensures Field(a, NETWORK_NAME).Some?
  {
    ExactMembers(a.fields, ATTESTATION_NAMES);
    assert ATTESTATION_NAMES[4] == NETWORK_NAME;
    hide T;
  }

  lemma AuditStands(c: Crypto, sourceDigest: text, e: Evidence)
    returns (m: Material, network: Json, pem: text, keyId: text, signature: text)
    requires EvidenceKeyed(e) && Audit(c, sourceDigest, e)
    ensures Stands(c, sourceDigest, e, m, network, pem, keyId, signature)
  {
    PolicyPassesExactly(c, sourceDigest, e);
    MaterialPassesExactly(c, e.material);
    hide MaterialStands, PolicyPasses, MaterialPasses, PolicyStands, BundleStands, MarkStands, AttestationStands,
      SignatureStands, BundlePasses, StateMarkPasses, SignaturePasses, AttestationPasses, AuditedBundle, Digests,
      DistinctKeys, Same, FactsObject, TaggedHash, T, Field;
    m :| MaterialStands(c, m, e.material);
    var b := Digests(c, m);
    BundlePassesExactly(c, e, b);
    AttestationPassesSplit(c, e, b);
    pem, keyId, signature := SignaturePassesFor(c, e);
    NetworkIsThere(e.attestation);
    network := Field(e.attestation, NETWORK_NAME).value;
    AttestationPassesFields(c, e, b, network, Str(keyId), Str(signature));
    StateMarkExactly(c, e, b);
  }

  lemma StandsAudit(
    c: Crypto, sourceDigest: text, e: Evidence, m: Material, network: Json, pem: text, keyId: text, signature: text)
    requires EvidenceKeyed(e) && Stands(c, sourceDigest, e, m, network, pem, keyId, signature)
    ensures Audit(c, sourceDigest, e)
  {
    PolicyPassesExactly(c, sourceDigest, e);
    MaterialPassesExactly(c, e.material);
    hide MaterialStands, PolicyPasses, MaterialPasses, PolicyStands, BundleStands, MarkStands, AttestationStands,
      SignatureStands, BundlePasses, StateMarkPasses, SignaturePasses, AuditedBundle, AttestationPasses, Digests,
      DistinctKeys, T, Field;
    var b := Digests(c, m);
    BundlePassesExactly(c, e, b);
    AttestationPassesFields(c, e, b, network, Str(keyId), Str(signature));
    SignatureStandsPasses(c, e, pem, keyId, signature);
    StateMarkExactly(c, e, b);
  }

  /** The audit passes exactly the evidence that is, up to key order, determined by its artifact
      bytes, policy, network, nonce, key and signature. */
  lemma AuditExactly(c: Crypto, sourceDigest: text, e: Evidence)
    requires EvidenceKeyed(e)
    ensures Audit(c, sourceDigest, e) <==>
            exists m, network, pem, keyId, signature :: Stands(c, sourceDigest, e, m, network, pem, keyId, signature)
  {
    hide Audit, Stands, EvidenceKeyed;
    if Audit(c, sourceDigest, e) {
      var m, network, pem, keyId, signature := AuditStands(c, sourceDigest, e);
    }
    if m, network, pem, keyId, signature :| Stands(c, sourceDigest, e, m, network, pem, keyId, signature) {
      StandsAudit(c, sourceDigest, e, m, network, pem, keyId, signature);
    }
  }

  // The audited mark and receipt, for a statement with the audited context and digests.
  lemma AuditedParts(c: Crypto, sourceDigest: text, e: Evidence, s: Signed)
    requires EvidenceKeyed(e) && Audit(c, sourceDigest, e)
    requires e.policyHash == Str(s.context.policyHash) && e.receiptNonce == Str(s.context.requestNonce)
    requires s.context.caseId == HONEST_TRUE
    requires var b := AuditedBundle(c, e.material);
             s.bundle.claimSha == b.claimSha && BundleDigest(c, s.bundle) == BundleDigest(c, b)
    ensures var sha := TaggedHash(c.sha, T("bark-bitvm-showcase/verifier-attestation/v1"), e.attestation);
            && e.receiptAttestationSha == Str(sha)
            && Same(MarkObject(s.context, s.bundle.claimSha, BundleSha(c, s.bundle), sha, Facts(true, true, true)),
                    e.stateMark)
    ensures e.receiptClaimSha == Str(s.bundle.claimSha) && e.receiptBundleSha == Str(BundleSha(c, s.bundle))
    ensures HonestDigest(e) == Some(Str(s.bundle.claimSha))
  {
    var m, network, pem, k, signature := AuditStands(c, sourceDigest, e);
    MaterialPassesExactly(c, e.material);
    BundleShaIsDigest(c, s.bundle);
    BundleShaIsDigest(c, Digests(c, m));
    hide Audit, MaterialPasses, MaterialStands, PolicyStands, SignatureStands, AuditedBundle, BundleSha, BundleDigest,
      BundleObject, FactsObject, Same, TaggedHash, Inner, Field, Literal, EvidenceKeyed, AuditedItems, T;
  }

  /** What the state mark and the receipt of audited evidence say, in terms of the statement `s` the
      verifier vouched for: the mark is, up to key order, that of `s`, with both facts all true;
      the receipt's digests are those of `s`; and its claim is the one the policy pins for
      `honest_true`. */
  lemma AuditedMarkIsVouched(c: Crypto, sourceDigest: text, e: Evidence, log: seq<Signed>, keyId: text)
    returns (s: Signed)
    requires EvidenceKeyed(e) && Audit(c, sourceDigest, e)
    requires HonestKey(c, log, keyId) && e.factProviderKeyId == Str(keyId)
    ensures s in log && s.context.caseId == T("honest_true") && FactsFor(c, s.bundle).AllTrue()
    ensures Same(MarkObject(s.context, s.bundle.claimSha, BundleSha(c, s.bundle),
                            TaggedHash(c.sha, T("bark-bitvm-showcase/verifier-attestation/v1"), e.attestation),
                            Facts(true, true, true)),
                 e.stateMark)
    ensures e.receiptClaimSha == Str(s.bundle.claimSha) && e.receiptBundleSha == Str(BundleSha(c, s.bundle))
    ensures e.receiptAttestationSha
         == Str(TaggedHash(c.sha, T("bark-bitvm-showcase/verifier-attestation/v1"), e.attestation))
    ensures e.receiptNonce == Str(s.context.requestNonce) && HonestDigest(e) == Some(Str(s.bundle.claimSha))
  {
    s := AuditedEvidenceIsVouched(c, sourceDigest, e, log, keyId);
    hide Audit, EvidenceKeyed, AuditedBundle, HonestKey, FactsFor, TaggedHash, BundleSha, BundleDigest, Same, T,
      FactsObject, TaggedPreimage, BundleJson, MarkObject, Stands, Field, DistinctKeys;
    AuditedParts(c, sourceDigest, e, s);
  }
}
