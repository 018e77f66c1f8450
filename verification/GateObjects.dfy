/** The JSON objects of the gate with every name spelled out, and what each check of the gate
    accepts: exactly the objects that are the same, up to key order. */
module GateObjects {
  import opened Prelude
  import opened JsText
  import opened Utf8Encoding
  import opened CanonicalJson
  import opened JsTaggedHash
  import opened KeyLists
  import opened CosignerPolicy
  import opened CosignerGate
  import opened GateSafety

  /** The objects. */

  function MaterialObject(m: Material): Json {
    Literal(
      [T("kind"), T("claimInputBase64"), T("proofArtifactBase64"), T("shinigamiArtifactBase64")],
      [Str(T("bark_bitvm_verifier_artifact_bytes_v1")), Str(m.claim), Str(m.proof), Str(m.shinigami)])
  }

  function BundleObject(claim: text, proof: text, shinigami: text): Json {
    Literal(
      [T("kind"), T("claimInputSha256"), T("proofArtifactSha256"), T("shinigamiArtifactSha256")],
      [Str(T("bark_bitvm_verifier_artifacts_v1")), Str(claim), Str(proof), Str(shinigami)])
  }

  function ContextObject(x: Context): Json {
    Literal(
      [T("policyHash"), T("network"), T("caseId"), T("requestNonce")],
      [Str(x.policyHash), Str(x.network), Str(x.caseId), Str(x.requestNonce)])
  }

  function FactsObject(claim: bool, stwo: bool, shinigami: bool): Json {
    Literal(
      [T("claim_binding_matches"), T("pinned_stwo_statement_verified"), T("shinigami_engine_check_verified")],
      [Bool(claim), Bool(stwo), Bool(shinigami)])
  }

  const PAYLOAD_KEYS: seq<text> := [
    T("kind"), T("version"), T("verifierKeyId"), T("policyHash"), T("network"), T("caseId"), T("requestNonce"),
    T("artifactBundleSha256"), T("claimInputSha256"), T("facts")]

  function PayloadItems(keyId: text, x: Context, bundleSha: text, claimSha: text, facts: Json): seq<Json> {
    [Str(T("bark_bitvm_independent_verifier_attestation_v1")), Num(1), Str(keyId), Str(x.policyHash), Str(x.network),
     Str(x.caseId), Str(x.requestNonce), Str(bundleSha), Str(claimSha), facts]
  }

  function PayloadObject(keyId: text, x: Context, bundleSha: text, claimSha: text, facts: Json): Json {
    Literal(PAYLOAD_KEYS, PayloadItems(keyId, x, bundleSha, claimSha, facts))
  }

  function AttestationObject(
    keyId: text, x: Context, bundleSha: text, claimSha: text, facts: Json, signature: text): Json
  {
    Literal(PAYLOAD_KEYS + [T("signature")], PayloadItems(keyId, x, bundleSha, claimSha, facts) + [Str(signature)])
  }

  // The digest of a bundle, under its own tag.
  function BundleSha(c: Crypto, b: Bundle): hexDigest {
    TaggedHash(c.sha, T("bark-bitvm-showcase/verifier-artifact-bundle/v1"),
               BundleObject(b.claimSha, b.proofSha, b.shinigamiSha))
  }

  /** The normalisations. */

  predicate BytesInBase64(c: Crypto, m: Material) {
    && m.claim != [] && c.toBase64(c.fromBase64(m.claim)) == m.claim
    && m.proof != [] && c.toBase64(c.fromBase64(m.proof)) == m.proof
    && m.shinigami != [] && c.toBase64(c.fromBase64(m.shinigami)) == m.shinigami
  }

  // The names of an object, present and with these values, are what the join needs beside it.
  lemma FieldsAreSame(names: seq<text>, values: seq<Json>, v: Json)
    requires |names| == |values| && NoRepeats(names) && names != []
    ensures Same(Literal(names, values), v) <==>
            && v.Obj? && JoinMatches(v.fields, names)
            && forall i :: 0 <= i < |names| ==> Field(v, names[i]).Some? && Same(values[i], Field(v, names[i]).value)
  {
    SameAsLiteral(names, values, v);
    if v.Obj? {
      JoinAndPresenceAreExact(v.fields, names);
      if forall i :: 0 <= i < |names| ==> Has(v.fields, names[i]) {
        forall n | n in names ensures Has(v.fields, n) {
          var i :| 0 <= i < |names| && names[i] == n;
        }
      }
    }
  }

  lemma AtomIsItself(value: Json, field: Option<Json>)
    requires !value.Arr? && !value.Obj?
    ensures field.Some? && Same(value, field.value) <==> field == Some(value)
  {
  }

  // Four fields with atomic values, one by one.
  lemma FourAtoms(names: seq<text>, values: seq<Json>, v: Json)
    requires |names| == 4 == |values|
    requires forall i :: 0 <= i < 4 ==> !values[i].Arr? && !values[i].Obj?
    ensures (forall i :: 0 <= i < 4 ==> Field(v, names[i]).Some? && Same(values[i], Field(v, names[i]).value))
       <==> && Field(v, names[0]) == Some(values[0]) && Field(v, names[1]) == Some(values[1])
            && Field(v, names[2]) == Some(values[2]) && Field(v, names[3]) == Some(values[3])
  {
    hide Field;
    forall i | 0 <= i < 4
      ensures (Field(v, names[i]).Some? && Same(values[i], Field(v, names[i]).value)) <==>
              Field(v, names[i]) == Some(values[i])
    {
      AtomIsItself(values[i], Field(v, names[i]));
    }
  }

  lemma MaterialExactly(c: Crypto, v: Json, m: Material)
    ensures NormalizeMaterial(c, v) == Some(m) <==> Same(MaterialObject(m), v) && BytesInBase64(c, m)
  {
    var values := [Str(MATERIAL_KIND), Str(m.claim), Str(m.proof), Str(m.shinigami)];
    NamesDiffer();
    assert MaterialObject(m) == Literal(MATERIAL_NAMES, values);
    hide Object, T, Field, JoinMatches, NoRepeats, Literal, MaterialObject;
    FieldsAreSame(MATERIAL_NAMES, values, v);
    FourAtoms(MATERIAL_NAMES, values, v);
  }

  lemma BundleExactly(v: Json)
    ensures NormalBundle(v) <==>
            exists a: hexDigest, b: hexDigest, d: hexDigest :: Same(BundleObject(a, b, d), v)
  {
    NamesDiffer();
    forall a: hexDigest, b: hexDigest, d: hexDigest
      ensures Same(BundleObject(a, b, d), v) <==>
              && v.Obj? && JoinMatches(v.fields, BUNDLE_NAMES) && Field(v, KIND) == Some(Str(BUNDLE_KIND))
              && Field(v, CLAIM_SHA) == Some(Str(a)) && Field(v, PROOF_SHA) == Some(Str(b))
              && Field(v, SHINIGAMI_SHA) == Some(Str(d))
    {
      var values := [Str(BUNDLE_KIND), Str(a), Str(b), Str(d)];
      assert BundleObject(a, b, d) == Literal(BUNDLE_NAMES, values);
      FieldsAreSame(BUNDLE_NAMES, values, v);
      FourAtoms(BUNDLE_NAMES, values, v);
    }
    hide Object, T, Field, JoinMatches, NoRepeats, Literal, BundleObject, Same;
    if NormalBundle(v) {
      var a: hexDigest := Field(v, CLAIM_SHA).value.s;
      var b: hexDigest := Field(v, PROOF_SHA).value.s;
      var d: hexDigest := Field(v, SHINIGAMI_SHA).value.s;
      assert Same(BundleObject(a, b, d), v);
    }
  }

  lemma ContextExactly(v: Json, x: Context)
    ensures NormalizeContext(v) == Some(x) <==>
            && Same(ContextObject(x), v) && IsHexText(x.policyHash, 64) && IsHexText(x.requestNonce, 64)
            && x.network != [] && x.caseId != []
  {
    var values := [Str(x.policyHash), Str(x.network), Str(x.caseId), Str(x.requestNonce)];
    NamesDiffer();
    assert ContextObject(x) == Literal(CONTEXT_NAMES, values);
    hide Object, T, Field, JoinMatches, NoRepeats, Literal, ContextObject;
    FieldsAreSame(CONTEXT_NAMES, values, v);
    FourAtoms(CONTEXT_NAMES, values, v);
  }

  lemma FactsExactly(v: Json, f: Facts)
    ensures NormalizeFacts(v) == Some(f) <==>
            Same(FactsObject(f.claimBinding, f.stwoVerified, f.shinigamiVerified), v)
  {
    var values := [Bool(f.claimBinding), Bool(f.stwoVerified), Bool(f.shinigamiVerified)];
    NamesDiffer();
    assert FactsObject(f.claimBinding, f.stwoVerified, f.shinigamiVerified) == Literal(FACT_NAMES, values);
    hide Object, T, Field, JoinMatches, NoRepeats, Literal, FactsObject;
    FieldsAreSame(FACT_NAMES, values, v);
    AtomIsItself(values[0], Field(v, FACT_NAMES[0]));
    AtomIsItself(values[1], Field(v, FACT_NAMES[1]));
    AtomIsItself(values[2], Field(v, FACT_NAMES[2]));
    assert (forall i :: 0 <= i < 3 ==> Field(v, FACT_NAMES[i]).Some? && Same(values[i], Field(v, FACT_NAMES[i]).value))
      <==> && Field(v, FACT_NAMES[0]) == Some(values[0]) && Field(v, FACT_NAMES[1]) == Some(values[1])
           && Field(v, FACT_NAMES[2]) == Some(values[2]);
  }

  /** What the verifier signs, and when. */
  lemma AttestExactly(c: Crypto, material: Json, context: Json, s: Signed)
    ensures Attest(c, material, context) == Some(s) <==>
            && (exists m :: && Same(MaterialObject(m), material) && BytesInBase64(c, m)
                            && s.bundle == Bundle(c.sha(c.fromBase64(m.claim)), c.sha(c.fromBase64(m.proof)),
                                                  c.sha(c.fromBase64(m.shinigami))))
            && Same(ContextObject(s.context), context)
            && IsHexText(s.context.policyHash, 64) && IsHexText(s.context.requestNonce, 64)
            && s.context.network != [] && s.context.caseId != []
  {
    ContextExactly(context, s.context);
    forall m {
      MaterialExactly(c, material, m);
    }
    hide NormalizeMaterial, NormalizeContext, MaterialObject, ContextObject, Same, BytesInBase64, IsHexText;
    var m := NormalizeMaterial(c, material);
    if m.Some? {
      MaterialExactly(c, material, m.value);
    }
  }

  lemma PayloadIsObject(c: Crypto, keyId: text, s: Signed)
    ensures var f := FactsFor(c, s.bundle);
            Payload(c, keyId, s)
            == PayloadObject(keyId, s.context, BundleSha(c, s.bundle), s.bundle.claimSha,
                             FactsObject(f.claimBinding, f.stwoVerified, f.shinigamiVerified))
  {
    hide Object, TaggedHash, FactsFor;
  }
}
