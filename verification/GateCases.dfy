/** The showcase's own cases: which artifacts the verifier finds honest, what an accepted proposal
    therefore carries, and what becomes of the honest and the false proposals. */
module GateCases {
  import opened Prelude
  import opened JsText
  import opened Utf8Encoding
  import opened CanonicalJson
  import opened JsTaggedHash
  import opened KeyLists
  import opened CosignerPolicy
  import opened CosignerGate
  import opened GateSafety
  import opened GateObjects
  import opened GateAcceptance
  import opened EvidenceAudit
  import opened HonestPath

  /** The verifier's facts. */

  // The digest of an artifact that is this text, sent as base64.
  function TextDigest(c: Crypto, artifact: string): hexDigest {
    c.sha(c.fromBase64(c.toBase64(Utf8(T(artifact)))))
  }

  ghost predicate GenericClaim(digest: text) {
    digest == T("5e341808c92820f3fd78ce4ac7687658005fdd0308de9dc26d88cf9b0632be1b")
  }

  ghost predicate BarkClaim(digest: text) {
    digest == T("565c91be50cde7cb99c08acb9c1120ec99b3a68bd1277a723fc56663abfda273")
  }

  // A proof artifact that goes with a claim.
  ghost predicate ProofGoesWith(c: Crypto, claimSha: text, proofSha: text) {
    || (GenericClaim(claimSha) && proofSha == TextDigest(c, "bark-bitvm-test-double/stwo-proof/honest-generic/v1"))
    || (BarkClaim(claimSha) && proofSha == TextDigest(c, "bark-bitvm-test-double/stwo-proof/honest-bark/v1"))
  }

  /** Each fact, from the three digests: the claim is one of the two pinned, the proof is the one
      that goes with it, the Shinigami artifact is the expected check. */
  lemma FactsComputed(c: Crypto, b: Bundle)
    ensures FactsFor(c, b).claimBinding <==> GenericClaim(b.claimSha) || BarkClaim(b.claimSha)
    ensures FactsFor(c, b).stwoVerified <==> ProofGoesWith(c, b.claimSha, b.proofSha)
    ensures FactsFor(c, b).shinigamiVerified <==>
            b.shinigamiSha == TextDigest(c, "bark-bitvm-test-double/shinigami-check/csv-mature/v1")
  {
    hide T, Utf8;
  }

  // Honest artifacts, by their digests.
  ghost predicate HonestDigests(c: Crypto, b: Bundle) {
    && ProofGoesWith(c, b.claimSha, b.proofSha)
    && b.shinigamiSha == TextDigest(c, "bark-bitvm-test-double/shinigami-check/csv-mature/v1")
  }

  // Two different bundles with one digest.
  ghost predicate BundleCollision(c: Crypto, a: Bundle, b: Bundle) {
    Collision(c.sha, TaggedPreimage(BUNDLE_TAG, BundleJson(a)), TaggedPreimage(BUNDLE_TAG, BundleJson(b)))
  }

  // The collision would be with a bundle the verifier has signed.
  ghost predicate HonestUnlessCollision(c: Crypto, log: seq<Signed>, b: Bundle) {
    HonestDigests(c, b) || exists s :: s in log && BundleCollision(c, s.bundle, b)
  }

  // The claim a case is about.
  ghost predicate ClaimOfCase(caseId: text, claimSha: text) {
    || ((caseId == T("honest_true") || caseId == T("false_stwo")) && GenericClaim(claimSha))
    || (caseId == T("bark_true") && BarkClaim(claimSha))
  }

  lemma SafeMaterial(c: Crypto, p: Policy, before: State, q: Proposal, r: Receipt) returns (m: Material)
    requires SafeAcceptance(c, p, before, q, r)
    ensures Same(MaterialObject(m), q.artifactMaterial) && r.bundle == Digests(c, m)
    ensures q.caseId.Str? && ClaimOfCase(q.caseId.s, r.bundle.claimSha)
  {
    m := NormalizeMaterial(c, q.artifactMaterial).value;
    MaterialExactly(c, q.artifactMaterial, m);
    ExpectedIsPinned(r.caseId);
    hide NormalizeMaterial, CanonicalCairoJson, Field, Same, CoreJson, ExpectedClaim, MaterialObject, Vouches, Utf8, T;
  }

  lemma VouchedIsHonest(c: Crypto, p: Policy, q: Proposal, s: Signed, k: AttestationCheck, log: seq<Signed>)
    requires s in log && Vouches(c, p, q, s, k) && k.facts.AllTrue()
    ensures HonestUnlessCollision(c, log, k.bundle)
  {
    FactsComputed(c, s.bundle);
    hide PolicyHash, ProofGoesWith, TextDigest, FactsFor, TaggedPreimage, BundleJson, T;
    if s.bundle != k.bundle {
      assert BundleCollision(c, s.bundle, k.bundle);
    }
  }

  lemma SafeVoucher(c: Crypto, p: Policy, before: State, q: Proposal, r: Receipt) returns (s: Signed)
    requires SafeAcceptance(c, p, before, q, r)
    ensures s in before.log && r.facts.AllTrue()
    ensures Vouches(c, p, q, s, AttestationCheck(r.facts, r.bundle, r.bundleSha, r.attestationSha))
  {
    hide Vouches, Same, Field, CoreJson, NormalizeMaterial, DeriveBundle, CanonicalCairoJson, ExpectedClaim, Utf8, T;
    s :| s in before.log && Vouches(c, p, q, s, AttestationCheck(r.facts, r.bundle, r.bundleSha, r.attestationSha));
  }

  lemma SafeArtifacts(c: Crypto, p: Policy, before: State, q: Proposal, r: Receipt)
    requires SafeAcceptance(c, p, before, q, r)
    ensures exists m ::
              && Same(MaterialObject(m), q.artifactMaterial)
              && (var b := Digests(c, m);
                  && q.caseId.Str? && ClaimOfCase(q.caseId.s, b.claimSha)
                  && HonestUnlessCollision(c, before.log, b))
  {
    var m := SafeMaterial(c, p, before, q, r);
    var s := SafeVoucher(c, p, before, q, r);
    var k := AttestationCheck(r.facts, r.bundle, r.bundleSha, r.attestationSha);
    hide SafeAcceptance, Vouches, HonestUnlessCollision, ClaimOfCase, Same, MaterialObject, Digests, T;
    VouchedIsHonest(c, p, q, s, k, before.log);
  }

  /** What an accepted proposal carries, in every run: bytes whose digests are those of the claim of
      its case, of the honest proof that goes with that claim and of the expected Shinigami check,
      or a SHA-256 collision is exhibited. */
  lemma AcceptedArtifactsAreHonest(c: Crypto, p: Policy, events: seq<Event>, i: nat)
    requires i < |events| && events[i].Evaluation? && WellKeyed(events[i].q)
    requires Unforgeable(c, p, events)
    requires Verdict(c, p, Run(c, p, events[..i]).consumed, events[i].q, events[i].u).Accepted?
    ensures exists m ::
              && Same(MaterialObject(m), events[i].q.artifactMaterial)
              && (var b := Digests(c, m);
                  && events[i].q.caseId.Str? && ClaimOfCase(events[i].q.caseId.s, b.claimSha)
                  && HonestUnlessCollision(c, Run(c, p, events[..i]).log, b))
  {
    var before, q, u := Run(c, p, events[..i]), events[i].q, events[i].u;
    AcceptedProposalsAreSafe(c, p, events, i);
    var r := Verdict(c, p, before.consumed, q, u).receipt;
    hide Run, Unforgeable, Verdict, SafeAcceptance, WellKeyed, T;
    SafeArtifacts(c, p, before, q, r);
  }

  /** The honest cases. */

  // Base64 of bytes that are there is there, and decodes to them.
  ghost predicate Base64RoundTrips(c: Crypto) {
    forall b: bytes {:trigger c.toBase64(b)} :: b != [] ==> c.toBase64(b) != [] && c.fromBase64(c.toBase64(b)) == b
  }

  function MaterialOf(c: Crypto, claimText: text, proof: string): Material {
    Material(c.toBase64(Utf8(claimText)), c.toBase64(Utf8(T(proof))),
             c.toBase64(Utf8(T("bark-bitvm-test-double/shinigami-check/csv-mature/v1"))))
  }

  lemma MaterialOfDigests(c: Crypto, claimText: text, proof: string)
    requires Base64RoundTrips(c) && claimText != [] && proof != ""
    ensures var m := MaterialOf(c, claimText, proof);
            && BytesInBase64(c, m)
            && DeriveBundle(c, m) == Bundle(c.sha(Utf8(claimText)), TextDigest(c, proof),
                                            TextDigest(c, "bark-bitvm-test-double/shinigami-check/csv-mature/v1"))
  {
    var check := "bark-bitvm-test-double/shinigami-check/csv-mature/v1";
    assert T(proof) != [] && T(check) != [];
    hide T;
    NonEmpty(claimText);
    NonEmpty(T(proof));
    NonEmpty(T(check));
    hide Utf8;
  }

  // The proof text the showcase sends in a case.
  function HonestProof(caseId: text): string {
    if caseId == T("bark_true") then "bark-bitvm-test-double/stwo-proof/honest-bark/v1"
    else "bark-bitvm-test-double/stwo-proof/honest-generic/v1"
  }

  lemma HonestFacts(c: Crypto, caseId: text, claimText: text)
    requires Base64RoundTrips(c) && claimText != [] && ClaimOfCase(caseId, c.sha(Utf8(claimText)))
    ensures FactsFor(c, DeriveBundle(c, MaterialOf(c, claimText, HonestProof(caseId)))) == Facts(true, true, true)
  {
    assert T("bark_true")[0] != T("honest_true")[0] && T("bark_true")[0] != T("false_stwo")[0];
    var m := MaterialOf(c, claimText, HonestProof(caseId));
    MaterialOfDigests(c, claimText, HonestProof(caseId));
    FactsComputed(c, DeriveBundle(c, m));
    hide T, Utf8, FactsFor, DeriveBundle, MaterialOf;
  }

  lemma PinnedOfCase(caseId: text, digest: text)
    requires ClaimOfCase(caseId, digest)
    ensures ExpectedClaim(caseId) == Some(digest)
  {
    assert T("bark_true")[0] != T("honest_true")[0] && T("bark_true")[0] != T("false_stwo")[0];
    hide T;
  }

  lemma ProofIsThere(caseId: text)
    ensures HonestProof(caseId) != ""
  {
  }

  /** The honest run of every case is accepted: with the claim pinned for the case, the proof text
      that goes with it and the expected check, sent as base64 and attested by the verifier. */
  lemma HonestCaseIsAccepted(
    c: Crypto, p: Policy, caseId: text, nonce: text, claim: Json, signature: text, u: Utxoref)
    requires Base64RoundTrips(c) && CanonicalCairoJson(claim).Some?
    requires ClaimOfCase(caseId, c.sha(Utf8(CanonicalCairoJson(claim).value)))
    requires c.keyIdOf(p.verifier.publicKeyPem) == Some(p.verifier.keyId)
    requires IsHexText(signature, 128) && IsHexText(nonce, 64)
    requires var m := MaterialOf(c, CanonicalCairoJson(claim).value, HonestProof(caseId));
             var s := Signed(Context(PolicyHash(c, p), NETWORK, caseId, nonce), DeriveBundle(c, m));
             c.verify(p.verifier.publicKeyPem, Message(Payload(c, p.verifier.keyId, s)), signature)
    requires u.traceBuilds && u.graph == GraphVerified(true)
    ensures var m := MaterialOf(c, CanonicalCairoJson(claim).value, HonestProof(caseId));
            var events := HonestRun(c, p, caseId, nonce, m, claim, signature, u);
            && Unforgeable(c, p, events)
            && Verdict(c, p, Run(c, p, events[..1]).consumed, events[1].q, u).Accepted?
  {
    var claimText := CanonicalCairoJson(claim).value;
    assert claimText != [];
    hide CanonicalCairoJson, T, Utf8, Run, Unforgeable, Verdict, HonestRun, Payload, Message, PolicyHash, FactsFor,
      MaterialOf, DeriveBundle, HonestProof, ExpectedClaim, IsHexText, ClaimOfCase;
    var m := MaterialOf(c, claimText, HonestProof(caseId));
    ProofIsThere(caseId);
    MaterialOfDigests(c, claimText, HonestProof(caseId));
    HonestFacts(c, caseId, claimText);
    PinnedOfCase(caseId, c.sha(Utf8(claimText)));
    HonestRunIsAccepted(c, p, caseId, nonce, m, claim, signature, u);
  }

  /** The false proof: unless its digest is that of an honest proof, an attested proposal with it is
      refused, for its facts when the operator discloses them and for its disclosures otherwise. */
  lemma FalseProofIsRefused(
    c: Crypto, p: Policy, consumed: set<text>, q: Proposal, u: Utxoref, m: Material, x: Context, d: Facts,
    signature: text)
    requires WellKeyed(q) && InOrder(c, p, consumed, q, m, x, FactsFor(c, Digests(c, m)), d, signature)
    requires u.traceBuilds && u.graph == GraphVerified(true)
    requires !ProofGoesWith(c, c.sha(c.fromBase64(m.claim)), c.sha(c.fromBase64(m.proof)))
    ensures Verdict(c, p, consumed, q, u)
         == Rejected(if d == FactsFor(c, Digests(c, m)) then FactsDoNotAuthorize else DisclosuresDiffer)
    ensures !FactsFor(c, Digests(c, m)).stwoVerified
  {
    FactsComputed(c, Digests(c, m));
    InOrderVerdict(c, p, consumed, q, u, m, x, FactsFor(c, Digests(c, m)), d, signature);
    hide Verdict, InOrder, FactsFor, ProofGoesWith, WellKeyed, T;
  }

  /** The policy core, every value spelled out. */

  lemma CoreIsLiteral(p: Policy)
    ensures CoreJson(p) == Literal(
      [T("domain"), T("network"), T("genesisHash"), T("utxorefCommit"), T("utxorefSourceDigest"),
       T("operatorXonly"), T("challengerXonly"), T("stateSigner"), T("challengeCsvBlocks"),
       T("recoveryCsvBlocks"), T("circuit"), T("claimInputs"), T("factProvider"), T("securityBoundary")],
      [Str(T("bark-bitvm-showcase/trusted-cosigner-policy/v1")), Str(T("bitcoin-regtest")),
       Str(T("0000000000000000000000000000000000000000000000000000000000000000")),
       Str(T("13f43d7f7bbddf10fa507770645ef05e49189441")), Str(p.utxorefSourceDigest),
       Str(p.operatorXonly), Str(p.challengerXonly),
       Literal([T("keyId"), T("publicKeyPem")], [Str(p.stateSigner.keyId), Str(p.stateSigner.publicKeyPem)]),
       Num(6), Num(144), CIRCUIT, CLAIM_INPUTS,
       Literal([T("kind"), T("keyId"), T("publicKeyPem"), T("meaning")],
               [Str(T("signed_artifact_bound_blue_team_test_double_v1")), Str(p.verifier.keyId),
                Str(p.verifier.publicKeyPem),
                Str(T("models artifact-bound pinned STWO/Shinigami recomputation outside operator control"))]),
       Literal([T("bitcoinVerifiesStwo"), T("bitcoinVerifiesShinigami"),
                T("bitcoinRequiresTrustedCosignerForFastSettlement")], [Bool(false), Bool(false), Bool(true)])])
  {
    hide Object, T;
  }

  function And(left: string, right: string, output: string): Json {
    Literal([T("type"), T("inputs"), T("output")],
            [Str(T("and")), Arr(Cons(Str(T(left)), Cons(Str(T(right)), Nil))), Str(T(output))])
  }

  lemma CircuitIsLiteral()
    ensures CIRCUIT == Literal(
      [T("id"), T("gates"), T("expectedInputs")],
      [Str(T("bark-shinigami-trusted-cosigner-gate-v1")),
       Arr(Cons(And("claim_binding_matches", "pinned_stwo_statement_verified", "proof_bound"),
           Cons(And("proof_bound", "shinigami_engine_check_verified", "authorization_assertion"), Nil))),
       Literal([T("claim_binding_matches"), T("pinned_stwo_statement_verified"), T("shinigami_engine_check_verified")],
               [Num(1), Num(1), Num(1)])])
  {
    hide Object, T;
  }

  // The digest under a case in the policy's claim inputs.
  function PolicyDigest(p: Policy, caseId: text): Option<Json> {
    match Field(CoreJson(p), T("claimInputs"))
    case None => None
    case Some(cases) => Inner(cases, caseId, T("sha256"))
  }

  // One case of the claim inputs.
  function Case(fixture: string, digest: string): Json {
    Literal([T("fixture"), T("sha256")], [Str(T(fixture)), Str(T(digest))])
  }

  lemma ClaimInputsAreLiteral()
    ensures var generic :=
              Case("generic-owner-exit", "5e341808c92820f3fd78ce4ac7687658005fdd0308de9dc26d88cf9b0632be1b");
            var bark :=
              Case("bark-native-owner-exit", "565c91be50cde7cb99c08acb9c1120ec99b3a68bd1277a723fc56663abfda273");
            CLAIM_INPUTS == Literal([T("honest_true"), T("false_stwo"), T("bark_true")], [generic, generic, bark])
  {
    hide Object, T;
  }

  lemma CaseDigest(fixture: text, digest: text)
    ensures Field(PinnedClaim(fixture, digest), T("sha256")) == Some(Str(digest))
  {
    PolicyNamesDiffer();
    hide NoRepeats, Object, T, Field;
    FieldOf(CLAIM_NAMES, [Str(fixture), Str(digest)], 1);
  }

  lemma CaseFields(caseId: text)
    ensures Field(CLAIM_INPUTS, caseId)
         == if caseId == HONEST_TRUE || caseId == FALSE_STWO then
              Some(PinnedClaim(T("generic-owner-exit"), GENERIC_CLAIM_SHA))
            else if caseId == BARK_TRUE then Some(PinnedClaim(T("bark-native-owner-exit"), BARK_CLAIM_SHA))
            else None
  {
    PolicyNamesDiffer();
    var generic := PinnedClaim(T("generic-owner-exit"), GENERIC_CLAIM_SHA);
    var cases := [generic, generic, PinnedClaim(T("bark-native-owner-exit"), BARK_CLAIM_SHA)];
    assert CLAIM_INPUTS == Literal(CASE_NAMES, cases);
    assert caseId in CASE_NAMES <==> caseId == HONEST_TRUE || caseId == FALSE_STWO || caseId == BARK_TRUE;
    hide NoRepeats, Object, PinnedClaim, T;
    ObjectMembers(CASE_NAMES, cases);
    FieldOf(CASE_NAMES, cases, 0);
    FieldOf(CASE_NAMES, cases, 1);
    FieldOf(CASE_NAMES, cases, 2);
  }

  /** The claim expected for a case is the one in the policy: for every case label, known or not. */
  lemma ExpectedIsInPolicy(p: Policy, caseId: text)
    ensures PolicyDigest(p, caseId)
         == match ExpectedClaim(caseId) case None => None case Some(digest) => Some(Str(digest))
  {
    CoreFields(p);
    CaseFields(caseId);
    CaseDigest(T("generic-owner-exit"), GENERIC_CLAIM_SHA);
    CaseDigest(T("bark-native-owner-exit"), BARK_CLAIM_SHA);
    hide CoreJson, Field, PinnedClaim, T;
  }
}
