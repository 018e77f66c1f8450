/** The objects the gate, the independent verifier and the auditor exchange. */
module CosignerPolicy {
  import opened Prelude
  import opened JsText
  import opened Utf8Encoding
  import opened CanonicalJson
  import opened JsTaggedHash
  import opened KeyLists

  /** Object literals: names and values, in order. */

  function Object(names: seq<text>, values: seq<Json>): Assoc<Json>
    requires |names| == |values|
  {
    if names == [] then Empty else Entry(names[0], values[0], Object(names[1..], values[1..]))
  }

  lemma {:induction false} ObjectMembers(names: seq<text>, values: seq<Json>)
    requires |names| == |values| && NoRepeats(names)
    ensures KeyList(Object(names, values)) == names
    ensures Distinct(Object(names, values))
    ensures forall n :: Has(Object(names, values), n) <==> n in names
    ensures forall i :: 0 <= i < |names| ==> Get(Object(names, values), names[i]) == values[i]
  {
    if names != [] {
      ObjectMembers(names[1..], values[1..]);
      assert names == [names[0]] + names[1..];
      forall i | 0 <= i < |names| ensures Get(Object(names, values), names[i]) == values[i] {
        if i > 0 {
          assert names[i] == names[1..][i - 1] && values[i] == values[1..][i - 1];
        }
      }
    }
  }

  lemma {:induction false} ObjectValuesDistinct(names: seq<text>, values: seq<Json>)
    requires |names| == |values| && forall i :: 0 <= i < |values| ==> DistinctKeys(values[i])
    ensures DistinctInValues(Object(names, values))
  {
    if names != [] {
      ObjectValuesDistinct(names[1..], values[1..]);
    }
  }

  function Literal(names: seq<text>, values: seq<Json>): Json
    requires |names| == |values|
  {
    Obj(Object(names, values))
  }

  lemma LiteralDistinct(names: seq<text>, values: seq<Json>)
    requires |names| == |values| && NoRepeats(names)
    requires forall i :: 0 <= i < |values| ==> DistinctKeys(values[i])
    ensures DistinctKeys(Literal(names, values))
  {
    ObjectMembers(names, values);
    ObjectValuesDistinct(names, values);
  }

  // What being the same as a literal says, name by name.
  lemma {:induction false} SameAsObject(names: seq<text>, values: seq<Json>, w: Assoc<Json>)
    requires |names| == |values| && SameFields(Object(names, values), w)
    ensures forall i :: 0 <= i < |names| ==> Has(w, names[i]) && Same(values[i], Get(w, names[i]))
  {
    if names != [] {
      SameAsObject(names[1..], values[1..], w);
      forall i | 0 <= i < |names| ensures Has(w, names[i]) && Same(values[i], Get(w, names[i])) {
        if i > 0 {
          assert names[i] == names[1..][i - 1] && values[i] == values[1..][i - 1];
        }
      }
    }
  }

  // Property access; `None` is `undefined`.
  function Field(v: Json, name: text): Option<Json> {
    if v.Obj? && Has(v.fields, name) then Some(Get(v.fields, name)) else None
  }

  lemma FieldOf(names: seq<text>, values: seq<Json>, i: nat)
    requires |names| == |values| && NoRepeats(names) && i < |names|
    ensures Field(Literal(names, values), names[i]) == Some(values[i])
  {
    ObjectMembers(names, values);
  }

  lemma LiteralJoins(names: seq<text>, values: seq<Json>)
    requires |names| == |values| && NoRepeats(names)
    ensures JoinMatches(Object(names, values), names)
  {
    ObjectMembers(names, values);
  }

  lemma {:induction false} ObjectSize(names: seq<text>, values: seq<Json>)
    requires |names| == |values|
    ensures Size(Object(names, values)) == |names|
  {
    if names != [] {
      ObjectSize(names[1..], values[1..]);
    }
  }

  lemma {:induction false} ObjectInto(names: seq<text>, values: seq<Json>, w: Assoc<Json>)
    requires |names| == |values|
    requires forall i :: 0 <= i < |names| ==> Has(w, names[i]) && Same(values[i], Get(w, names[i]))
    ensures SameFields(Object(names, values), w)
  {
    if names != [] {
      forall i | 0 <= i < |names| - 1
        ensures Has(w, names[1..][i]) && Same(values[1..][i], Get(w, names[1..][i])) {
        assert names[1..][i] == names[i + 1] && values[1..][i] == values[i + 1];
      }
      ObjectInto(names[1..], values[1..], w);
    }
  }

  /** An object is the same as a literal, up to key order, if and only if it has exactly the
      literal's keys, each with the same value. */
  lemma SameAsLiteral(names: seq<text>, values: seq<Json>, v: Json)
    requires |names| == |values| && NoRepeats(names)
    ensures Same(Literal(names, values), v) <==>
            && v.Obj? && ExactKeys(v.fields, names)
            && forall i :: 0 <= i < |names| ==> Has(v.fields, names[i]) && Same(values[i], Get(v.fields, names[i]))
  {
    if v.Obj? {
      ObjectSize(names, values);
      KeysAreMembers(v.fields);
      SizeOfKeyList(v.fields);
      if Same(Literal(names, values), v) {
        SameAsObject(names, values, v.fields);
        NoRoomBySize(KeyList(v.fields), names);
      }
      if && ExactKeys(v.fields, names)
         && forall i :: 0 <= i < |names| ==> Has(v.fields, names[i]) && Same(values[i], Get(v.fields, names[i])) {
        ExactMembers(v.fields, names);
        ObjectInto(names, values, v.fields);
      }
    }
  }

  const KIND: text := T("kind")
  const VERSION: text := T("version")
  const VERIFIER_KEY_ID: text := T("verifierKeyId")
  const POLICY_HASH: text := T("policyHash")
  const NETWORK_NAME: text := T("network")
  const CASE_ID: text := T("caseId")
  const REQUEST_NONCE: text := T("requestNonce")
  const BUNDLE_SHA: text := T("artifactBundleSha256")
  const CLAIM_SHA: text := T("claimInputSha256")
  const PROOF_SHA: text := T("proofArtifactSha256")
  const SHINIGAMI_SHA: text := T("shinigamiArtifactSha256")
  const FACTS: text := T("facts")
  const SIGNATURE: text := T("signature")
  const CLAIM_BASE64: text := T("claimInputBase64")
  const PROOF_BASE64: text := T("proofArtifactBase64")
  const SHINIGAMI_BASE64: text := T("shinigamiArtifactBase64")
  const CLAIM_FACT: text := T("claim_binding_matches")
  const STWO_FACT: text := T("pinned_stwo_statement_verified")
  const SHINIGAMI_FACT: text := T("shinigami_engine_check_verified")

  const MATERIAL_NAMES: seq<text> := [KIND, CLAIM_BASE64, PROOF_BASE64, SHINIGAMI_BASE64]
  const BUNDLE_NAMES: seq<text> := [KIND, CLAIM_SHA, PROOF_SHA, SHINIGAMI_SHA]
  const CONTEXT_NAMES: seq<text> := [POLICY_HASH, NETWORK_NAME, CASE_ID, REQUEST_NONCE]
  const FACT_NAMES: seq<text> := [CLAIM_FACT, STWO_FACT, SHINIGAMI_FACT]
  const PAYLOAD_NAMES: seq<text> :=
    [KIND, VERSION, VERIFIER_KEY_ID, POLICY_HASH, NETWORK_NAME, CASE_ID, REQUEST_NONCE, BUNDLE_SHA, CLAIM_SHA, FACTS]
  const ATTESTATION_NAMES: seq<text> := PAYLOAD_NAMES + [SIGNATURE]

  lemma NamesDiffer()
    ensures NoRepeats(MATERIAL_NAMES) && NoRepeats(BUNDLE_NAMES) && NoRepeats(CONTEXT_NAMES)
    ensures NoRepeats(FACT_NAMES) && NoRepeats(PAYLOAD_NAMES) && NoRepeats(ATTESTATION_NAMES)
  {
    assert VERSION[0] != NETWORK_NAME[0];
    assert |KIND| == 4;
  }

  /** None of the gate's five joins is exact by itself; with the per-field checks that follow it,
      which ask for every name, each is. */
  lemma SchemaJoins(names: seq<text>)
    requires names in {MATERIAL_NAMES, BUNDLE_NAMES, CONTEXT_NAMES, FACT_NAMES, ATTESTATION_NAMES}
    ensures JoinMatches(Joint(names), names) && !ExactKeys(Joint(names), names)
    ensures forall a: Assoc<Json> ::
              ExactKeys(a, names) <==> JoinMatches(a, names) && forall n :: n in names ==> Has(a, n)
  {
    NamesDiffer();
    hide NoRepeats, T;
    JoinAloneIsNotExact(names);
    forall a: Assoc<Json>
      ensures ExactKeys(a, names) <==> JoinMatches(a, names) && forall n :: n in names ==> Has(a, n)
    {
      JoinAndPresenceAreExact(a, names);
    }
  }

  /** Cryptography and encodings, as parameters. */
  datatype Crypto = Crypto(
    sha: Sha256Hex,
    fromBase64: text -> bytes,
    toBase64: bytes -> text,
    keyIdOf: text -> Option<text>,            // of a public key in PEM; None when it does not parse
    verify: (text, bytes, text) -> bool)      // key in PEM, message, signature in hex

  /** The policy, fixed before funding. */

  const POLICY_DOMAIN: text := T("bark-bitvm-showcase/trusted-cosigner-policy/v1")
  const POLICY_KIND: text := T("bark_bitvm_trusted_cosigner_policy")
  const NETWORK: text := T("bitcoin-regtest")
  const GENESIS_HASH: text := T("0000000000000000000000000000000000000000000000000000000000000000")
  const UTXOREF_COMMIT: text := T("13f43d7f7bbddf10fa507770645ef05e49189441")
  const CIRCUIT_ID: text := T("bark-shinigami-trusted-cosigner-gate-v1")
  const GENERIC_CLAIM_SHA: text := T("5e341808c92820f3fd78ce4ac7687658005fdd0308de9dc26d88cf9b0632be1b")
  const BARK_CLAIM_SHA: text := T("565c91be50cde7cb99c08acb9c1120ec99b3a68bd1277a723fc56663abfda273")
  const HONEST_TRUE: text := T("honest_true")
  const FALSE_STWO: text := T("false_stwo")
  const BARK_TRUE: text := T("bark_true")

  datatype Key = Key(keyId: text, publicKeyPem: text)

  datatype Policy = Policy(
    operatorXonly: text,
    challengerXonly: text,
    utxorefSourceDigest: text,
    stateSigner: Key,
    verifier: Key)

  const KEY_NAMES: seq<text> := [T("keyId"), T("publicKeyPem")]
  const CLAIM_NAMES: seq<text> := [T("fixture"), T("sha256")]
  const CASE_NAMES: seq<text> := [HONEST_TRUE, FALSE_STWO, BARK_TRUE]
  const GATE_NAMES: seq<text> := [T("type"), T("inputs"), T("output")]
  const CIRCUIT_NAMES: seq<text> := [T("id"), T("gates"), T("expectedInputs")]
  const PROVIDER_NAMES: seq<text> := [T("kind"), T("keyId"), T("publicKeyPem"), T("meaning")]
  const BOUNDARY_NAMES: seq<text> :=
    [T("bitcoinVerifiesStwo"), T("bitcoinVerifiesShinigami"), T("bitcoinRequiresTrustedCosignerForFastSettlement")]
  const CORE_NAMES: seq<text> :=
    [T("domain"), T("network"), T("genesisHash"), T("utxorefCommit"), T("utxorefSourceDigest"),
     T("operatorXonly"), T("challengerXonly"), T("stateSigner"), T("challengeCsvBlocks"),
     T("recoveryCsvBlocks"), T("circuit"), T("claimInputs"), T("factProvider"), T("securityBoundary")]

  lemma PolicyNamesDiffer()
    ensures NoRepeats(KEY_NAMES) && NoRepeats(CLAIM_NAMES) && NoRepeats(CASE_NAMES) && NoRepeats(GATE_NAMES)
    ensures NoRepeats(CIRCUIT_NAMES) && NoRepeats(PROVIDER_NAMES) && NoRepeats(BOUNDARY_NAMES)
    ensures NoRepeats(CORE_NAMES)
  {
    assert T("genesisHash")[0] != T("stateSigner")[0] && T("genesisHash")[0] != T("claimInputs")[0];
    assert T("stateSigner")[0] != T("claimInputs")[0];
    assert T("network")[0] != T("circuit")[0] && T("utxorefCommit")[0] != T("operatorXonly")[0];
    assert T("type")[0] != T("inputs")[0];
  }

  function AndGate(left: text, right: text, output: text): Json {
    Literal(GATE_NAMES, [Str(T("and")), Arr(Cons(Str(left), Cons(Str(right), Nil))), Str(output)])
  }

  const CIRCUIT: Json :=
    Literal(CIRCUIT_NAMES, [
      Str(CIRCUIT_ID),
      Arr(Cons(AndGate(CLAIM_FACT, STWO_FACT, T("proof_bound")),
          Cons(AndGate(T("proof_bound"), SHINIGAMI_FACT, T("authorization_assertion")), Nil))),
      Literal(FACT_NAMES, [Num(1), Num(1), Num(1)])])

  function PinnedClaim(fixture: text, digest: text): Json {
    Literal(CLAIM_NAMES, [Str(fixture), Str(digest)])
  }

  const CLAIM_INPUTS: Json :=
    Literal(CASE_NAMES, [
      PinnedClaim(T("generic-owner-exit"), GENERIC_CLAIM_SHA),
      PinnedClaim(T("generic-owner-exit"), GENERIC_CLAIM_SHA),
      PinnedClaim(T("bark-native-owner-exit"), BARK_CLAIM_SHA)])

  const PROVIDER_KIND: text := T("signed_artifact_bound_blue_team_test_double_v1")
  const PROVIDER_MEANING: text :=
    T("models artifact-bound pinned STWO/Shinigami recomputation outside operator control")

  function CoreValues(p: Policy): seq<Json> {
    [
      Str(POLICY_DOMAIN), Str(NETWORK), Str(GENESIS_HASH), Str(UTXOREF_COMMIT), Str(p.utxorefSourceDigest),
      Str(p.operatorXonly), Str(p.challengerXonly),
      Literal(KEY_NAMES, [Str(p.stateSigner.keyId), Str(p.stateSigner.publicKeyPem)]),
      Num(6), Num(144),
      CIRCUIT,
      CLAIM_INPUTS,
      Literal(PROVIDER_NAMES, [
        Str(PROVIDER_KIND), Str(p.verifier.keyId), Str(p.verifier.publicKeyPem), Str(PROVIDER_MEANING)]),
      Literal(BOUNDARY_NAMES, [Bool(false), Bool(false), Bool(true)])]
  }

  function CoreJson(p: Policy): Json {
    Literal(CORE_NAMES, CoreValues(p))
  }

  lemma AtomsDistinct(v: Json)
    requires !v.Arr? && !v.Obj?
    ensures DistinctKeys(v)
  {
  }

  lemma PairDistinct(a: Json, b: Json)
    requires DistinctKeys(a) && DistinctKeys(b)
    ensures DistinctKeys(Arr(Cons(a, Cons(b, Nil))))
  {
    assert DistinctInItems(Cons(b, Nil));
  }

  lemma GateDistinct(left: text, right: text, output: text)
    ensures DistinctKeys(AndGate(left, right, output))
  {
    PolicyNamesDiffer();
    PairDistinct(Str(left), Str(right));
    hide Object, NoRepeats;
    LiteralDistinct(GATE_NAMES, [Str(T("and")), Arr(Cons(Str(left), Cons(Str(right), Nil))), Str(output)]);
  }

  lemma CircuitDistinct()
    ensures DistinctKeys(CIRCUIT)
  {
    NamesDiffer();
    PolicyNamesDiffer();
    hide Object, NoRepeats;
    GateDistinct(CLAIM_FACT, STWO_FACT, T("proof_bound"));
    GateDistinct(T("proof_bound"), SHINIGAMI_FACT, T("authorization_assertion"));
    var first := AndGate(CLAIM_FACT, STWO_FACT, T("proof_bound"));
    var second := AndGate(T("proof_bound"), SHINIGAMI_FACT, T("authorization_assertion"));
    PairDistinct(first, second);
    LiteralDistinct(FACT_NAMES, [Num(1), Num(1), Num(1)]);
    LiteralDistinct(CIRCUIT_NAMES, [
      Str(CIRCUIT_ID), Arr(Cons(first, Cons(second, Nil))), Literal(FACT_NAMES, [Num(1), Num(1), Num(1)])]);
  }

  lemma ClaimInputsDistinct()
    ensures DistinctKeys(CLAIM_INPUTS)
  {
    PolicyNamesDiffer();
    hide Object, NoRepeats;
    var generic := PinnedClaim(T("generic-owner-exit"), GENERIC_CLAIM_SHA);
    var bark := PinnedClaim(T("bark-native-owner-exit"), BARK_CLAIM_SHA);
    LiteralDistinct(CLAIM_NAMES, [Str(T("generic-owner-exit")), Str(GENERIC_CLAIM_SHA)]);
    LiteralDistinct(CLAIM_NAMES, [Str(T("bark-native-owner-exit")), Str(BARK_CLAIM_SHA)]);
    LiteralDistinct(CASE_NAMES, [generic, generic, bark]);
  }

  lemma CoreDistinct(p: Policy)
    ensures DistinctKeys(CoreJson(p))
  {
    NamesDiffer();
    PolicyNamesDiffer();
    CircuitDistinct();
    ClaimInputsDistinct();
    hide Object, NoRepeats, Literal, DistinctKeys;
    forall s: text ensures DistinctKeys(Str(s)) { AtomsDistinct(Str(s)); }
    forall n: safeInt ensures DistinctKeys(Num(n)) { AtomsDistinct(Num(n)); }
    forall b: bool ensures DistinctKeys(Bool(b)) { AtomsDistinct(Bool(b)); }
    LiteralDistinct(KEY_NAMES, [Str(p.stateSigner.keyId), Str(p.stateSigner.publicKeyPem)]);
    LiteralDistinct(PROVIDER_NAMES, [
      Str(PROVIDER_KIND), Str(p.verifier.keyId), Str(p.verifier.publicKeyPem), Str(PROVIDER_MEANING)]);
    LiteralDistinct(BOUNDARY_NAMES, [Bool(false), Bool(false), Bool(true)]);
    LiteralDistinct(CORE_NAMES, CoreValues(p));
  }

  function PolicyHash(c: Crypto, p: Policy): hexDigest {
    TaggedHash(c.sha, POLICY_DOMAIN, CoreJson(p))
  }

  // `policy.core.claimInputs[caseId].sha256`; a key inherited from the object prototype has
  // no such digest and counts as missing.
  function ExpectedClaim(caseId: text): Option<text> {
    if caseId == HONEST_TRUE || caseId == FALSE_STWO then Some(GENERIC_CLAIM_SHA)
    else if caseId == BARK_TRUE then Some(BARK_CLAIM_SHA)
    else None
  }

  /** Artifacts. */

  const MATERIAL_KIND: text := T("bark_bitvm_verifier_artifact_bytes_v1")
  const BUNDLE_KIND: text := T("bark_bitvm_verifier_artifacts_v1")
  const ATTESTATION_KIND: text := T("bark_bitvm_independent_verifier_attestation_v1")
  const BUNDLE_TAG: text := T("bark-bitvm-showcase/verifier-artifact-bundle/v1")
  const VERIFIER_ATTESTATION_TAG: text := T("bark-bitvm-showcase/verifier-attestation/v1")
  const HONEST_GENERIC_PROOF: text := T("bark-bitvm-test-double/stwo-proof/honest-generic/v1")
  const HONEST_BARK_PROOF: text := T("bark-bitvm-test-double/stwo-proof/honest-bark/v1")
  const SHINIGAMI_CHECK: text := T("bark-bitvm-test-double/shinigami-check/csv-mature/v1")

  // The three artifacts, in base64.
  datatype Material = Material(claim: text, proof: text, shinigami: text)

  datatype Bundle = Bundle(claimSha: hexDigest, proofSha: hexDigest, shinigamiSha: hexDigest)

  datatype Context = Context(policyHash: text, network: text, caseId: text, requestNonce: text)

  datatype Facts = Facts(claimBinding: bool, stwoVerified: bool, shinigamiVerified: bool) {
    predicate AllTrue() {
      claimBinding && stwoVerified && shinigamiVerified
    }
  }

  // What the verifier has put its signature to.
  datatype Signed = Signed(context: Context, bundle: Bundle)

  predicate CanonicalBase64(c: Crypto, t: text) {
    t != [] && c.toBase64(c.fromBase64(t)) == t
  }

  predicate IsText(v: Option<Json>) {
    v.Some? && v.value.Str?
  }

  // `None` stands for an exception, here and below.
  function NormalizeMaterial(c: Crypto, v: Json): Option<Material> {
    if || !v.Obj? || !JoinMatches(v.fields, MATERIAL_NAMES)
       || Field(v, KIND) != Some(Str(MATERIAL_KIND))
       || !IsText(Field(v, CLAIM_BASE64)) || !CanonicalBase64(c, Field(v, CLAIM_BASE64).value.s)
       || !IsText(Field(v, PROOF_BASE64)) || !CanonicalBase64(c, Field(v, PROOF_BASE64).value.s)
       || !IsText(Field(v, SHINIGAMI_BASE64)) || !CanonicalBase64(c, Field(v, SHINIGAMI_BASE64).value.s)
    then None
    else Some(Material(Field(v, CLAIM_BASE64).value.s, Field(v, PROOF_BASE64).value.s,
                       Field(v, SHINIGAMI_BASE64).value.s))
  }

  function DeriveBundle(c: Crypto, m: Material): Bundle {
    Bundle(c.sha(c.fromBase64(m.claim)), c.sha(c.fromBase64(m.proof)), c.sha(c.fromBase64(m.shinigami)))
  }

  function BundleJson(b: Bundle): Json {
    Literal(BUNDLE_NAMES, [Str(BUNDLE_KIND), Str(b.claimSha), Str(b.proofSha), Str(b.shinigamiSha)])
  }

  predicate IsDigest(v: Option<Json>) {
    IsText(v) && IsHexText(v.value.s, 64)
  }

  predicate NormalBundle(v: Json) {
    && v.Obj? && JoinMatches(v.fields, BUNDLE_NAMES)
    && Field(v, KIND) == Some(Str(BUNDLE_KIND))
    && IsDigest(Field(v, CLAIM_SHA)) && IsDigest(Field(v, PROOF_SHA)) && IsDigest(Field(v, SHINIGAMI_SHA))
  }

  // The digest of a derived bundle; `DerivedBundleIsNormal` shows that its normalisation
  // cannot throw.
  function BundleDigest(c: Crypto, b: Bundle): hexDigest {
    TaggedHash(c.sha, BUNDLE_TAG, BundleJson(b))
  }

  function NormalizeContext(v: Json): Option<Context> {
    if || !v.Obj? || !JoinMatches(v.fields, CONTEXT_NAMES)
       || !IsDigest(Field(v, POLICY_HASH)) || !IsDigest(Field(v, REQUEST_NONCE))
       || !IsText(Field(v, NETWORK_NAME)) || Field(v, NETWORK_NAME).value.s == []
       || !IsText(Field(v, CASE_ID)) || Field(v, CASE_ID).value.s == []
    then None
    else Some(Context(Field(v, POLICY_HASH).value.s, Field(v, NETWORK_NAME).value.s,
                      Field(v, CASE_ID).value.s, Field(v, REQUEST_NONCE).value.s))
  }

  predicate IsBool(v: Option<Json>) {
    v.Some? && v.value.Bool?
  }

  function NormalizeFacts(v: Json): Option<Facts> {
    if || !v.Obj?
       || !IsBool(Field(v, CLAIM_FACT)) || !IsBool(Field(v, STWO_FACT)) || !IsBool(Field(v, SHINIGAMI_FACT))
       || !JoinMatches(v.fields, FACT_NAMES)
    then None
    else Some(Facts(Field(v, CLAIM_FACT).value.b, Field(v, STWO_FACT).value.b, Field(v, SHINIGAMI_FACT).value.b))
  }

  function FactsJson(f: Facts): Json {
    Literal(FACT_NAMES, [Bool(f.claimBinding), Bool(f.stwoVerified), Bool(f.shinigamiVerified)])
  }

  // The digest of an artifact given as text, through its base64 form.
  function ArtifactSha(c: Crypto, artifact: text): hexDigest {
    c.sha(c.fromBase64(c.toBase64(Utf8(artifact))))
  }

  function FactsFor(c: Crypto, b: Bundle): Facts {
    var claimIsGeneric := b.claimSha == GENERIC_CLAIM_SHA;
    var claimIsBark := b.claimSha == BARK_CLAIM_SHA;
    var proofMatches :=
      || (claimIsGeneric && b.proofSha == ArtifactSha(c, HONEST_GENERIC_PROOF))
      || (claimIsBark && b.proofSha == ArtifactSha(c, HONEST_BARK_PROOF));
    Facts(claimIsGeneric || claimIsBark, proofMatches, b.shinigamiSha == ArtifactSha(c, SHINIGAMI_CHECK))
  }

  /** The independent verifier. */

  function PayloadValues(c: Crypto, keyId: text, s: Signed): seq<Json> {
    [Str(ATTESTATION_KIND), Num(1), Str(keyId), Str(s.context.policyHash), Str(s.context.network),
     Str(s.context.caseId), Str(s.context.requestNonce), Str(BundleDigest(c, s.bundle)),
     Str(s.bundle.claimSha), FactsJson(FactsFor(c, s.bundle))]
  }

  function Payload(c: Crypto, keyId: text, s: Signed): Json {
    Literal(PAYLOAD_NAMES, PayloadValues(c, keyId, s))
  }

  function Message(payload: Json): bytes {
    Utf8(Stringify(payload))
  }

  // The facts are recomputed from the artifact bytes; the caller chooses only bytes and context.
  function Attest(c: Crypto, material: Json, context: Json): Option<Signed> {
    var m := NormalizeMaterial(c, material);
    var x := NormalizeContext(context);
    if m.None? || x.None? then None else Some(Signed(x.value, DeriveBundle(c, m.value)))
  }
}
