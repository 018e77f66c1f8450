/** Which reason a rejected proposal gets when several of its parts are wrong, with every name and
    value spelled out. */
module GateReasons {
  import opened Prelude
  import opened JsText
  import opened Utf8Encoding
  import opened CanonicalJson
  import opened JsTaggedHash
  import opened KeyLists
  import opened CosignerPolicy
  import opened CosignerGate
  import opened GateSafety
  import opened GateObjects
  import opened GateAcceptance
  import opened EvidenceAudit

  // Behind a fresh attestation: the trace, the pinned claim, the disclosures, the facts, the graph.
  lemma AuthorizeReasons(caseId: text, u: Utxoref, k: Clearance)
    ensures Authorize(caseId, u, k) ==
      if !u.traceBuilds then Fail(Malformed)
      else if !(PinnedDigest(caseId) == Some(k.claimSha) && k.claimSha == k.check.bundle.claimSha) then
        Fail(ClaimDigestSubstitution)
      else if k.check.facts != k.disclosures then Fail(DisclosuresDiffer)
      else if k.check.facts != Facts(true, true, true) then Fail(FactsDoNotAuthorize)
      else if u.graph == GraphThrew then Fail(Malformed)
      else if u.graph == GraphRefused then Fail(GraphRejected)
      else Pass
  {
    ExpectedIsPinned(caseId);
    hide ExpectedClaim, PinnedDigest;
  }

  // A proposed policy: its kind and version, its core, its own hash, the pinned one.
  lemma PolicyReasons(c: Crypto, p: Policy, v: Json)
    requires DistinctKeys(v)
    ensures PolicyCheck(c, p, v) ==
      if !(&& Field(v, T("kind")) == Some(Str(T("bark_bitvm_trusted_cosigner_policy")))
           && Field(v, T("version")) == Some(Num(1)))
      then Fail(WrongPolicyKind)
      else if Field(v, T("core")) == None then Fail(Malformed)
      else if Field(v, T("policyHash"))
              != Some(Str(TaggedHash(c.sha, T("bark-bitvm-showcase/trusted-cosigner-policy/v1"),
                                     Field(v, T("core")).value)))
      then Fail(PolicySelfHashInvalid)
      else if !IsPinnedPolicy(c, p, v) then Fail(PolicySubstitution)
      else Pass
  {
    PolicyExactly(c, p, v);
    hide IsPinnedPolicy, TaggedHash, Stringify, CoreJson, Field, T, PolicyHash;
  }

  // An attestation: its names, its kind, the key, the request, the artifacts, the facts.
  lemma BindingReasons(c: Crypto, p: Policy, x: Context, b: Bundle, a: Json)
    ensures AttestationBinding(c, p, x, b, a) ==
      if !(a.Obj? && JoinMatches(a.fields, PAYLOAD_KEYS + [T("signature")])) then Fail(WrongSchema)
      else if !(&& Field(a, T("kind")) == Some(Str(T("bark_bitvm_independent_verifier_attestation_v1")))
                && Field(a, T("version")) == Some(Num(1)))
      then Fail(WrongKindOrVersion)
      else if Field(a, T("verifierKeyId")) != Some(Str(p.verifier.keyId)) then Fail(VerifierKeySubstitution)
      else if !(&& Field(a, T("policyHash")) == Some(Str(x.policyHash))
                && Field(a, T("network")) == Some(Str(x.network))
                && Field(a, T("caseId")) == Some(Str(x.caseId))
                && Field(a, T("requestNonce")) == Some(Str(x.requestNonce)))
      then Fail(ContextMismatch)
      else if !(&& Field(a, T("artifactBundleSha256")) == Some(Str(BundleSha(c, b)))
                && Field(a, T("claimInputSha256")) == Some(Str(b.claimSha)))
      then Fail(NotBoundToArtifacts)
      else if !(Field(a, T("facts")).Some? && NormalizeFacts(Field(a, T("facts")).value).Some?) then
        Fail(AttestationMalformed)
      else Pass
  {
    BundleShaIsDigest(c, b);
    assert PAYLOAD_KEYS + [T("signature")] == ATTESTATION_NAMES;
    hide BundleSha, BundleDigest, NormalizeFacts, Field, T;
  }

  // The context the gate asks the attestation about.
  lemma AskedContext(c: Crypto, p: Policy, caseId: Json, nonce: Json)
    ensures NormalizeContext(RequestContext(c, p, caseId, nonce)) ==
      if caseId.Str? && caseId.s != [] && nonce.Str? && IsHexText(nonce.s, 64) then
        Some(Context(PolicyHash(c, p), T("bitcoin-regtest"), caseId.s, nonce.s))
      else None
  {
    var values := [Str(PolicyHash(c, p)), Str(NETWORK), caseId, nonce];
    var n := CONTEXT_NAMES;
    assert n[0] == POLICY_HASH && n[1] == NETWORK_NAME && n[2] == CASE_ID && n[3] == REQUEST_NONCE && NETWORK != [];
    NamesDiffer();
    hide PolicyHash, Object, Literal, JoinMatches, T, Field;
    FieldOf(CONTEXT_NAMES, values, 0);
    FieldOf(CONTEXT_NAMES, values, 1);
    FieldOf(CONTEXT_NAMES, values, 2);
    FieldOf(CONTEXT_NAMES, values, 3);
    LiteralJoins(CONTEXT_NAMES, values);
    assert RequestContext(c, p, caseId, nonce) == Literal(CONTEXT_NAMES, values);
  }

  lemma BundleIsObject(b: Bundle)
    ensures BundleJson(b) == BundleObject(b.claimSha, b.proofSha, b.shinigamiSha)
  {
    hide Object, T;
  }

  /** The attestation check: the artifacts, the claimed digests, the request, then the attestation. */
  lemma AttestationReasons(c: Crypto, p: Policy, q: Proposal)
    ensures
      var r, m, a := VerifyAttestation(c, p, q), NormalizeMaterial(c, q.artifactMaterial), q.verifierAttestation;
      if m.None? || !NormalBundle(q.claimedArtifactBundle) then r == Failure(AttestationMalformed)
      else
        var b := Digests(c, m.value);
        if Stringify(q.claimedArtifactBundle) != Stringify(BundleObject(b.claimSha, b.proofSha, b.shinigamiSha)) then
          r == Failure(BundleMismatch)
        else if !(q.caseId.Str? && q.caseId.s != [] && q.requestNonce.Str? && IsHexText(q.requestNonce.s, 64)) then
          r == Failure(AttestationMalformed)
        else
          var x := Context(PolicyHash(c, p), T("bitcoin-regtest"), q.caseId.s, q.requestNonce.s);
          if AttestationBinding(c, p, x, b, a).Fail? then r == Failure(AttestationBinding(c, p, x, b, a).error)
          else if !(IsText(Field(a, T("signature"))) && IsHexText(Field(a, T("signature")).value.s, 128)) then
            r == Failure(AttestationMalformed)
          else if !(&& c.keyIdOf(p.verifier.publicKeyPem) == Some(p.verifier.keyId)
                    && c.verify(p.verifier.publicKeyPem, Message(SignedPart(a)), Field(a, T("signature")).value.s))
          then r == Failure(SignatureInvalid)
          else r.Success?
  {
    AskedContext(c, p, q.caseId, q.requestNonce);
    if NormalizeMaterial(c, q.artifactMaterial).Some? {
      var b := DeriveBundle(c, NormalizeMaterial(c, q.artifactMaterial).value);
      BundleIsObject(b);
    }
    hide NormalizeMaterial, NormalBundle, NormalizeContext, RequestContext, AttestationBinding, Stringify,
      BundleJson, BundleObject, PolicyHash, Field, IsHexText, T, Message;
  }

  /** A proposal: its policy, the three pinned keys, what it discloses and claims, its attestation;
      then its nonce, and what authorises it. */
  lemma RejectionReasons(c: Crypto, p: Policy, consumed: set<text>, q: Proposal, u: Utxoref)
    ensures
      var policy, check, v :=
        PolicyCheck(c, p, q.proposedPolicy), VerifyAttestation(c, p, q), Verdict(c, p, consumed, q, u);
      if policy.Fail? then v == Rejected(policy.error)
      else if q.operatorXonly != Str(p.operatorXonly) then v == Rejected(OperatorKeySubstitution)
      else if q.challengerXonly != Str(p.challengerXonly) then v == Rejected(ChallengerKeySubstitution)
      else if q.stateSignerKeyId != Str(p.stateSigner.keyId) then v == Rejected(StateSignerKeySubstitution)
      else if NormalizeFacts(q.operatorDisclosures).None? || CanonicalCairoJson(q.claimInput).None? then
        v == Rejected(Malformed)
      else if check.Failure? then v == Rejected(check.error)
      else if q.requestNonce.Str? && q.requestNonce.s in consumed then v == Rejected(NonceConsumed)
      else
        var k := Clearance(NormalizeFacts(q.operatorDisclosures).value,
                           c.sha(Utf8(CanonicalCairoJson(q.claimInput).value)), check.value);
        if q.caseId.Str? && Authorize(q.caseId.s, u, k).Fail? then
          v == Rejected(Authorize(q.caseId.s, u, k).error)
        else if u.graph == GraphVerified(false) then v == Rejected(Malformed)
        else v.Accepted?
  {
    if VerifyAttestation(c, p, q).Success? {
      ScreenedContext(c, p, q);
    }
    hide PolicyCheck, VerifyAttestation, NormalizeFacts, CanonicalCairoJson, Authorize, StateMark, Utf8, T;
  }
}
