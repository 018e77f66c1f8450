/** Safety of the gate over whole runs.

    A run interleaves, in any order, requests to the independent verifier and proposals to
    the gate, all with arbitrary contents.  The one assumption about signatures is that a
    signature that verifies under the pinned key is over a message the verifier has signed. */
module GateSafety {
  import opened Prelude
  import opened JsText
  import opened Utf8Encoding
  import opened CanonicalJson
  import opened JsTaggedHash
  import opened KeyLists
  import opened CosignerPolicy
  import opened CosignerGate

  datatype Event =
    | AttestRequest(material: Json, context: Json)
    | Evaluation(q: Proposal, u: Utxoref)

  datatype State = State(
    log: seq<Signed>,          // what the verifier has signed
    consumed: set<text>,       // the gate's consumed nonces
    accepted: seq<Receipt>,    // what the gate has accepted
    burned: seq<text>)         // nonces consumed by proposals that were rejected nevertheless

  const INITIAL: State := State([], {}, [], [])

  function Step(c: Crypto, p: Policy, s: State, e: Event): State {
    match e
    case AttestRequest(material, context) =>
      var signed := Attest(c, material, context);
      if signed.None? then s else s.(log := s.log + [signed.value])
    case Evaluation(q, u) =>
      var after := s.(consumed := ConsumedAfter(c, p, s.consumed, q, u));
      match Verdict(c, p, s.consumed, q, u)
      case Accepted(r) => after.(accepted := s.accepted + [r])
      case Rejected(_) =>
        if Clear(c, p, s.consumed, q, u).Success? then after.(burned := s.burned + [q.requestNonce.s]) else after
  }

  function Run(c: Crypto, p: Policy, events: seq<Event>): State {
    if events == [] then INITIAL
    else Step(c, p, Run(c, p, events[..|events| - 1]), events[|events| - 1])
  }

  // JavaScript objects never repeat a key.
  predicate WellKeyed(q: Proposal) {
    && DistinctKeys(q.proposedPolicy) && DistinctKeys(q.verifierAttestation)
    && DistinctKeys(q.artifactMaterial) && DistinctKeys(q.claimedArtifactBundle) && DistinctKeys(q.operatorDisclosures)
  }

  ghost predicate SignedBefore(c: Crypto, p: Policy, log: seq<Signed>, a: Json) {
    a.Obj? && SignatureVerifies(c, p, a) ==>
      exists s :: s in log && Message(Payload(c, p.verifier.keyId, s)) == Message(SignedPart(a))
  }

  // Every attestation that verifies when it is presented was signed before.
  ghost predicate Unforgeable(c: Crypto, p: Policy, events: seq<Event>) {
    forall i :: 0 <= i < |events| && events[i].Evaluation? ==>
      SignedBefore(c, p, Run(c, p, events[..i]).log, events[i].q.verifierAttestation)
  }

  /** What a verified signature says. */

  lemma {:induction false} RemoveKeeps<T>(a: Assoc<T>, key: text)
    ensures forall k :: Has(Remove(a, key), k) <==> Has(a, k) && k != key
    ensures forall k :: Has(Remove(a, key), k) ==> Get(Remove(a, key), k) == Get(a, k)
    ensures Distinct(a) ==> Distinct(Remove(a, key))
  {
    if a.Entry? {
      RemoveKeeps(a.tail, key);
    }
  }

  lemma {:induction false} RemoveKeepsValues(a: Assoc<Json>, key: text)
    requires DistinctInValues(a)
    ensures DistinctInValues(Remove(a, key))
  {
    if a.Entry? {
      RemoveKeepsValues(a.tail, key);
    }
  }

  lemma FactsDistinct(f: Facts)
    ensures DistinctKeys(FactsJson(f))
  {
    NamesDiffer();
    hide NoRepeats, Object;
    LiteralDistinct(FACT_NAMES, [Bool(f.claimBinding), Bool(f.stwoVerified), Bool(f.shinigamiVerified)]);
  }

  lemma PayloadDistinct(c: Crypto, keyId: text, s: Signed)
    ensures DistinctKeys(Payload(c, keyId, s))
  {
    NamesDiffer();
    FactsDistinct(FactsFor(c, s.bundle));
    hide NoRepeats, Object, BundleDigest, FactsFor, FactsJson;
    LiteralDistinct(PAYLOAD_NAMES, PayloadValues(c, keyId, s));
  }

  lemma BundleDistinct(b: Bundle)
    ensures DistinctKeys(BundleJson(b))
  {
    NamesDiffer();
    hide NoRepeats, Object;
    LiteralDistinct(BUNDLE_NAMES, [Str(BUNDLE_KIND), Str(b.claimSha), Str(b.proofSha), Str(b.shinigamiSha)]);
  }

  // Equal messages are equal payloads, up to key order.
  lemma MessageIdentifies(v: Json, w: Json)
    requires DistinctKeys(v) && DistinctKeys(w) && Message(v) == Message(w)
    ensures Same(v, w)
  {
    hide Stringify, Same, Utf8, DistinctKeys;
    StringifyWellFormed(v);
    StringifyWellFormed(w);
    Utf8Injective(Stringify(v), Stringify(w));
    CanonicalTextIdentifies(v, w);
  }

  lemma SameFacts(f: Facts, w: Json)
    requires Same(FactsJson(f), w) && NormalizeFacts(w).Some?
    ensures NormalizeFacts(w).value == f
  {
    var values := [Bool(f.claimBinding), Bool(f.stwoVerified), Bool(f.shinigamiVerified)];
    SameAsObject(FACT_NAMES, values, w.fields);
    assert Same(values[0], Get(w.fields, FACT_NAMES[0]));
    assert Same(values[1], Get(w.fields, FACT_NAMES[1]));
    assert Same(values[2], Get(w.fields, FACT_NAMES[2]));
  }

  // The attestation's fields are those of the payload the verifier signed.
  lemma SignedFields(c: Crypto, keyId: text, s: Signed, a: Json)
    requires a.Obj? && DistinctKeys(a)
    requires Message(Payload(c, keyId, s)) == Message(SignedPart(a))
    ensures Field(a, VERIFIER_KEY_ID) == Some(Str(keyId))
    ensures Field(a, POLICY_HASH) == Some(Str(s.context.policyHash))
    ensures Field(a, NETWORK_NAME) == Some(Str(s.context.network))
    ensures Field(a, CASE_ID) == Some(Str(s.context.caseId))
    ensures Field(a, REQUEST_NONCE) == Some(Str(s.context.requestNonce))
    ensures Field(a, BUNDLE_SHA) == Some(Str(BundleDigest(c, s.bundle)))
    ensures Field(a, CLAIM_SHA) == Some(Str(s.bundle.claimSha))
    ensures Field(a, FACTS).Some? && Same(FactsJson(FactsFor(c, s.bundle)), Field(a, FACTS).value)
  {
    RemoveKeeps(a.fields, SIGNATURE);
    RemoveKeepsValues(a.fields, SIGNATURE);
    PayloadDistinct(c, keyId, s);
    hide BundleDigest, FactsFor, FactsJson, Message, Distinct, DistinctInValues, Remove;
    MessageIdentifies(Payload(c, keyId, s), SignedPart(a));
    var values, removed := PayloadValues(c, keyId, s), Remove(a.fields, SIGNATURE);
    SameAsObject(PAYLOAD_NAMES, values, removed);
    forall i | 2 <= i < 10 ensures Has(a.fields, PAYLOAD_NAMES[i]) && Same(values[i], Get(a.fields, PAYLOAD_NAMES[i])) {
    }
    hide Has, Get;
    assert Same(values[2], Get(a.fields, PAYLOAD_NAMES[2]));
    assert Same(values[3], Get(a.fields, PAYLOAD_NAMES[3]));
    assert Same(values[4], Get(a.fields, PAYLOAD_NAMES[4]));
    assert Same(values[5], Get(a.fields, PAYLOAD_NAMES[5]));
    assert Same(values[6], Get(a.fields, PAYLOAD_NAMES[6]));
    assert Same(values[7], Get(a.fields, PAYLOAD_NAMES[7]));
    assert Same(values[8], Get(a.fields, PAYLOAD_NAMES[8]));
    assert Same(values[9], Get(a.fields, PAYLOAD_NAMES[9]));
  }

  // A statement the verifier signed for exactly this request and these artifact digests.
  ghost predicate Vouches(c: Crypto, p: Policy, q: Proposal, s: Signed, k: AttestationCheck) {
    && q.caseId.Str? && q.requestNonce.Str?
    && s.context == Context(PolicyHash(c, p), NETWORK, q.caseId.s, q.requestNonce.s)
    && s.bundle.claimSha == k.bundle.claimSha
    && (s.bundle == k.bundle
        || Collision(c.sha, TaggedPreimage(BUNDLE_TAG, BundleJson(s.bundle)),
                          TaggedPreimage(BUNDLE_TAG, BundleJson(k.bundle))))
    && k.facts == FactsFor(c, s.bundle)
  }

  lemma SameBundles(a: Bundle, b: Bundle)
    requires Same(BundleJson(a), BundleJson(b))
    ensures a == b
  {
    var x := [Str(BUNDLE_KIND), Str(a.claimSha), Str(a.proofSha), Str(a.shinigamiSha)];
    var y := [Str(BUNDLE_KIND), Str(b.claimSha), Str(b.proofSha), Str(b.shinigamiSha)];
    SameAsObject(BUNDLE_NAMES, x, Object(BUNDLE_NAMES, y));
    NamesDiffer();
    hide Object, NoRepeats, T;
    ObjectMembers(BUNDLE_NAMES, y);
    hide Has, Get;
    forall i | 0 <= i < 4 ensures Same(x[i], y[i]) {
      assert Get(Object(BUNDLE_NAMES, y), BUNDLE_NAMES[i]) == y[i];
    }
    assert Same(x[1], y[1]) && Same(x[2], y[2]) && Same(x[3], y[3]);
  }

  lemma SameBundleOrCollision(c: Crypto, a: Bundle, b: Bundle)
    requires BundleDigest(c, a) == BundleDigest(c, b)
    ensures || a == b
            || Collision(c.sha, TaggedPreimage(BUNDLE_TAG, BundleJson(a)), TaggedPreimage(BUNDLE_TAG, BundleJson(b)))
  {
    BundleDistinct(a);
    BundleDistinct(b);
    Literals("bark-bitvm-showcase/verifier-artifact-bundle/v1");
    hide TaggedPreimage, DistinctKeys, NulFree, WellFormed, BundleJson, Same, T;
    TaggedHashBinds(c.sha, BUNDLE_TAG, BundleJson(a), BUNDLE_TAG, BundleJson(b));
    if Same(BundleJson(a), BundleJson(b)) {
      SameBundles(a, b);
    }
  }

  // What the attestation check establishes, field by field.
  lemma BindingFields(c: Crypto, p: Policy, x: Context, b: Bundle, a: Json)
    requires AttestationBinding(c, p, x, b, a).Pass?
    ensures a.Obj? && Field(a, KIND) == Some(Str(ATTESTATION_KIND)) && Field(a, VERSION) == Some(Num(1))
    ensures Field(a, VERIFIER_KEY_ID) == Some(Str(p.verifier.keyId))
    ensures Field(a, POLICY_HASH) == Some(Str(x.policyHash)) && Field(a, NETWORK_NAME) == Some(Str(x.network))
    ensures Field(a, CASE_ID) == Some(Str(x.caseId)) && Field(a, REQUEST_NONCE) == Some(Str(x.requestNonce))
    ensures Field(a, BUNDLE_SHA) == Some(Str(BundleDigest(c, b))) && Field(a, CLAIM_SHA) == Some(Str(b.claimSha))
    ensures Field(a, FACTS).Some? && NormalizeFacts(Field(a, FACTS).value).Some?
  {
    hide Field, NormalizeFacts, BundleDigest, JoinMatches;
  }

  // An attestation that was checked against context `x`, with result `k`.
  ghost predicate Checked(c: Crypto, p: Policy, x: Context, a: Json, k: AttestationCheck) {
    && AttestationBinding(c, p, x, k.bundle, a).Pass?
    && IsText(Field(a, SIGNATURE)) && a.Obj? && SignatureVerifies(c, p, a)
    && NormalizeFacts(Field(a, FACTS).value) == Some(k.facts)
    && k.bundleSha == BundleDigest(c, k.bundle)
    && k.attestationSha == TaggedHash(c.sha, VERIFIER_ATTESTATION_TAG, a)
  }

  lemma VerifiedIsChecked(c: Crypto, p: Policy, q: Proposal)
    requires VerifyAttestation(c, p, q).Success?
    ensures q.caseId.Str? && q.requestNonce.Str?
    ensures Checked(c, p, Context(PolicyHash(c, p), NETWORK, q.caseId.s, q.requestNonce.s), q.verifierAttestation,
                    VerifyAttestation(c, p, q).value)
  {
    ScreenedContext(c, p, q);
    hide AttestationBinding, SignatureVerifies, NormalizeMaterial, NormalBundle, NormalizeContext, RequestContext,
      PolicyHash, BundleDigest, NormalizeFacts, DeriveBundle, BundleJson, Stringify, TaggedHash, IsHexText, Field, T;
  }

  // A checked attestation repeats what the verifier signed.
  lemma CheckedIsSigned(c: Crypto, p: Policy, x: Context, a: Json, k: AttestationCheck, log: seq<Signed>)
    returns (s: Signed)
    requires Checked(c, p, x, a, k) && DistinctKeys(a) && SignedBefore(c, p, log, a)
    ensures s in log && s.context == x && s.bundle.claimSha == k.bundle.claimSha
    ensures BundleDigest(c, s.bundle) == BundleDigest(c, k.bundle) && k.facts == FactsFor(c, s.bundle)
  {
    BindingFields(c, p, x, k.bundle, a);
    hide AttestationBinding, SignatureVerifies, BundleDigest, FactsFor, NormalizeFacts, FactsJson, TaggedHash,
      DistinctKeys, Message, Payload, SignedPart, Field, Same, T;
    s :| s in log && Message(Payload(c, p.verifier.keyId, s)) == Message(SignedPart(a));
    SignedFields(c, p.verifier.keyId, s, a);
    SameFacts(FactsFor(c, s.bundle), Field(a, FACTS).value);
  }

  // A check that passes was vouched for.
  lemma VerifiedIsVouched(c: Crypto, p: Policy, q: Proposal, log: seq<Signed>) returns (s: Signed)
    requires VerifyAttestation(c, p, q).Success? && DistinctKeys(q.verifierAttestation)
    requires SignedBefore(c, p, log, q.verifierAttestation)
    ensures s in log && Vouches(c, p, q, s, VerifyAttestation(c, p, q).value)
  {
    hide VerifyAttestation, Checked, SignedBefore, PolicyHash, BundleDigest, FactsFor, DistinctKeys, TaggedPreimage,
      BundleJson, T;
    var k := VerifyAttestation(c, p, q).value;
    VerifiedIsChecked(c, p, q);
    var x := Context(PolicyHash(c, p), NETWORK, q.caseId.s, q.requestNonce.s);
    s := CheckedIsSigned(c, p, x, q.verifierAttestation, k, log);
    SameBundleOrCollision(c, s.bundle, k.bundle);
  }

  ghost predicate SafeAcceptance(c: Crypto, p: Policy, before: State, q: Proposal, r: Receipt) {
    var k := AttestationCheck(r.facts, r.bundle, r.bundleSha, r.attestationSha);
    && (exists s :: s in before.log && Vouches(c, p, q, s, k))
    && r.facts.AllTrue() && r.disclosures.AllTrue()
    && NormalizeMaterial(c, q.artifactMaterial).Some?
    && r.bundle == DeriveBundle(c, NormalizeMaterial(c, q.artifactMaterial).value)
    && CanonicalCairoJson(q.claimInput).Some?
    && r.claimInputSha == c.sha(Utf8(CanonicalCairoJson(q.claimInput).value))
    && q.caseId == Str(r.caseId) && ExpectedClaim(r.caseId) == Some(r.claimInputSha)
    && r.claimInputSha == r.bundle.claimSha
    && Field(q.proposedPolicy, KIND) == Some(Str(POLICY_KIND)) && Field(q.proposedPolicy, VERSION) == Some(Num(1))
    && Field(q.proposedPolicy, POLICY_HASH) == Some(Str(PolicyHash(c, p)))
    && Field(q.proposedPolicy, CORE).Some? && Same(Field(q.proposedPolicy, CORE).value, CoreJson(p))
    && q.operatorXonly == Str(p.operatorXonly) && q.challengerXonly == Str(p.challengerXonly)
    && q.stateSignerKeyId == Str(p.stateSigner.keyId)
    && Same(q.claimedArtifactBundle, BundleJson(r.bundle))
    && q.requestNonce == Str(r.requestNonce) && r.requestNonce !in before.consumed
  }

  lemma AcceptedIsScreened(c: Crypto, p: Policy, consumed: set<text>, q: Proposal, u: Utxoref)
    requires Verdict(c, p, consumed, q, u).Accepted?
    ensures Screen(c, p, q).Success? && q.caseId.Str? && q.requestNonce.Str?
    ensures var k, r := Screen(c, p, q).value, Verdict(c, p, consumed, q, u).receipt;
            && Authorize(q.caseId.s, u, k).Pass? && q.requestNonce.s !in consumed
            && r.caseId == q.caseId.s && r.requestNonce == q.requestNonce.s
            && r.facts == k.check.facts && r.disclosures == k.disclosures && r.claimInputSha == k.claimSha
            && r.bundle == k.check.bundle && r.bundleSha == k.check.bundleSha
            && r.attestationSha == k.check.attestationSha
            && r.material == q.artifactMaterial && r.attestation == q.verifierAttestation
            && r.stateMark
               == StateMark(c, p, r.caseId, r.facts, r.disclosures, r.claimInputSha, k.check, r.requestNonce)
  {
    hide Screen, Authorize, StateMark;
  }

  lemma FieldDistinct(v: Json, name: text)
    requires DistinctKeys(v) && Field(v, name).Some?
    ensures DistinctKeys(Field(v, name).value)
  {
    GetDistinct(v.fields, name);
  }

  lemma ScreenParts(c: Crypto, p: Policy, q: Proposal)
    requires Screen(c, p, q).Success? && WellKeyed(q)
    ensures VerifyAttestation(c, p, q) == Success(Screen(c, p, q).value.check)
    ensures NormalizeFacts(q.operatorDisclosures) == Some(Screen(c, p, q).value.disclosures)
    ensures CanonicalCairoJson(q.claimInput).Some?
    ensures Screen(c, p, q).value.claimSha == c.sha(Utf8(CanonicalCairoJson(q.claimInput).value))
    ensures Field(q.proposedPolicy, KIND) == Some(Str(POLICY_KIND)) && Field(q.proposedPolicy, VERSION) == Some(Num(1))
    ensures Field(q.proposedPolicy, POLICY_HASH) == Some(Str(PolicyHash(c, p)))
    ensures Field(q.proposedPolicy, CORE).Some? && Same(Field(q.proposedPolicy, CORE).value, CoreJson(p))
    ensures q.operatorXonly == Str(p.operatorXonly) && q.challengerXonly == Str(p.challengerXonly)
    ensures q.stateSignerKeyId == Str(p.stateSigner.keyId)
  {
    hide VerifyAttestation, Stringify, CoreJson, Same, DistinctKeys, NormalizeFacts, CanonicalCairoJson, Has, Get;
    CoreDistinct(p);
    FieldDistinct(q.proposedPolicy, CORE);
    CanonicalTextIdentifies(Field(q.proposedPolicy, CORE).value, CoreJson(p));
  }

  lemma VerifiedParts(c: Crypto, p: Policy, q: Proposal)
    requires VerifyAttestation(c, p, q).Success?
    ensures NormalizeMaterial(c, q.artifactMaterial).Some?
    ensures var k := VerifyAttestation(c, p, q).value;
            && k.bundle == DeriveBundle(c, NormalizeMaterial(c, q.artifactMaterial).value)
            && k.bundleSha == BundleDigest(c, k.bundle)
            && k.attestationSha == TaggedHash(c.sha, VERIFIER_ATTESTATION_TAG, q.verifierAttestation)
            && Stringify(q.claimedArtifactBundle) == Stringify(BundleJson(k.bundle))
  {
    hide AttestationBinding, SignatureVerifies, NormalizeMaterial, NormalBundle, NormalizeContext, RequestContext,
      PolicyHash, BundleDigest, NormalizeFacts, DeriveBundle, BundleJson, Stringify, TaggedHash, IsHexText;
  }

  lemma AcceptedIsSafe(c: Crypto, p: Policy, before: State, q: Proposal, u: Utxoref)
    requires WellKeyed(q) && SignedBefore(c, p, before.log, q.verifierAttestation)
    requires Verdict(c, p, before.consumed, q, u).Accepted?
    ensures SafeAcceptance(c, p, before, q, Verdict(c, p, before.consumed, q, u).receipt)
  {
    hide Verdict, Screen, VerifyAttestation, SignedBefore, StateMark, NormalizeMaterial, DeriveBundle, NormalizeFacts,
      CanonicalCairoJson, Field, Same, CoreJson, Utf8, TaggedHash, BundleDigest, Vouches;
    AcceptedIsScreened(c, p, before.consumed, q, u);
    ScreenParts(c, p, q);
    VerifiedParts(c, p, q);
    assert DistinctKeys(q.verifierAttestation);
    var s := VerifiedIsVouched(c, p, q, before.log);
    var bundle := Screen(c, p, q).value.check.bundle;
    BundleDistinct(bundle);
    CanonicalTextIdentifies(q.claimedArtifactBundle, BundleJson(bundle));
  }

  /** Whole-run safety.  Whatever was requested and proposed before, and whatever case label
      and disclosures the operator chose, an accepted proposal
      - was vouched for by the verifier: for exactly this policy, network, case and nonce, on
        artifacts with these digests, and the facts it computed from them are all true;
      - carries artifact bytes that hash to that bundle, or exhibits a SHA-256 collision;
      - has a claim whose canonical text hashes to the digest pinned for its case, which is the
        attested one;
      - proposes the pinned policy and keys, claims the hashes its bytes have, and uses a nonce
        not used before. */
  lemma AcceptedProposalsAreSafe(c: Crypto, p: Policy, events: seq<Event>, i: nat)
    requires i < |events| && events[i].Evaluation? && WellKeyed(events[i].q)
    requires Unforgeable(c, p, events)
    requires Verdict(c, p, Run(c, p, events[..i]).consumed, events[i].q, events[i].u).Accepted?
    ensures var before, q := Run(c, p, events[..i]), events[i].q;
            var r := Verdict(c, p, before.consumed, q, events[i].u).receipt;
            SafeAcceptance(c, p, before, q, r)
  {
    var before, q, u := Run(c, p, events[..i]), events[i].q, events[i].u;
    assert SignedBefore(c, p, before.log, q.verifierAttestation);
    hide Run, SignedBefore, Verdict, SafeAcceptance;
    AcceptedIsSafe(c, p, before, q, u);
  }

  /** The verifier's log holds only what it was asked to attest and could normalise. */
  lemma {:induction false} LogIsAttested(c: Crypto, p: Policy, events: seq<Event>, s: Signed)
    requires s in Run(c, p, events).log
    ensures exists j :: 0 <= j < |events| && events[j].AttestRequest?
                     && Attest(c, events[j].material, events[j].context) == Some(s)
  {
    hide Attest, Verdict, Clear;
    var n := |events| - 1;
    if s in Run(c, p, events[..n]).log {
      LogIsAttested(c, p, events[..n], s);
      var j :| 0 <= j < n && events[..n][j].AttestRequest?
            && Attest(c, events[..n][j].material, events[..n][j].context) == Some(s);
      assert events[j] == events[..n][j];
    } else {
      assert events[n].AttestRequest? && Attest(c, events[n].material, events[n].context) == Some(s);
    }
  }

  /** Nonces. */

  function Nonces(accepted: seq<Receipt>): seq<text> {
    seq(|accepted|, i requires 0 <= i < |accepted| => accepted[i].requestNonce)
  }

  function Spent(s: State): seq<text> {
    Nonces(s.accepted) + s.burned
  }

  // A cleared proposal spends its nonce, and nothing else does.
  lemma StepSpends(c: Crypto, p: Policy, s: State, e: Event)
    ensures var t := Step(c, p, s, e);
            if e.Evaluation? && Clear(c, p, s.consumed, e.q, e.u).Success?
            then
              var nonce := e.q.requestNonce.s;
              && nonce !in s.consumed && t.consumed == s.consumed + {nonce}
              && ((Nonces(t.accepted) == Nonces(s.accepted) + [nonce] && t.burned == s.burned && e.u.graph.readable)
                  || (t.accepted == s.accepted && t.burned == s.burned + [nonce] && !e.u.graph.readable))
            else t.consumed == s.consumed && t.accepted == s.accepted && t.burned == s.burned
  {
    hide Clear, StateMark, Attest;
  }

  lemma Spending(s: State, t: State, nonce: text)
    requires forall n :: n in s.consumed <==> n in Nonces(s.accepted) || n in s.burned
    requires |s.consumed| == |s.accepted| + |s.burned| && NoRepeats(Spent(s))
    requires nonce !in s.consumed && t.consumed == s.consumed + {nonce}
    requires || (Nonces(t.accepted) == Nonces(s.accepted) + [nonce] && t.burned == s.burned)
             || (t.accepted == s.accepted && t.burned == s.burned + [nonce])
    ensures forall n :: n in t.consumed <==> n in Nonces(t.accepted) || n in t.burned
    ensures |t.consumed| == |t.accepted| + |t.burned| && NoRepeats(Spent(t))
  {
    assert |Nonces(t.accepted)| == |t.accepted| && |Nonces(s.accepted)| == |s.accepted|;
    hide Nonces;
    var a, b := Nonces(s.accepted), s.burned;
    var x, y := Nonces(t.accepted), t.burned;
    assert forall i :: 0 <= i < |a| ==> a[i] in a;
    assert forall i :: 0 <= i < |b| ==> b[i] in b;
    assert nonce !in a && nonce !in b;
    if x == a + [nonce] && y == b {
      forall i, j | 0 <= i < j < |x + y| ensures (x + y)[i] != (x + y)[j] {
        var k, l := if i <= |a| then i else i - 1, if j <= |a| then j else j - 1;
        assert i != |a| ==> (x + y)[i] == (a + b)[k];
        assert j != |a| ==> (x + y)[j] == (a + b)[l];
      }
    } else {
      forall i, j | 0 <= i < j < |x + y| ensures (x + y)[i] != (x + y)[j] {
        assert (x + y)[i] == (a + b)[i];
        assert j < |a + b| ==> (x + y)[j] == (a + b)[j];
      }
    }
  }

  /** Conservation, over every run: the consumed nonces are the accepted and the burned ones,
      each exactly once. */
  lemma {:induction false} NonceConservation(c: Crypto, p: Policy, events: seq<Event>)
    ensures var s := Run(c, p, events);
            && (forall n :: n in s.consumed <==> n in Nonces(s.accepted) || n in s.burned)
            && |s.consumed| == |s.accepted| + |s.burned|
            && NoRepeats(Spent(s))
  {
    if events != [] {
      hide Step;
      var before, e := Run(c, p, events[..|events| - 1]), events[|events| - 1];
      NonceConservation(c, p, events[..|events| - 1]);
      StepSpends(c, p, before, e);
      var after := Step(c, p, before, e);
      if e.Evaluation? && Clear(c, p, before.consumed, e.q, e.u).Success? {
        hide Clear;
        Spending(before, after, e.q.requestNonce.s);
      }
    }
  }

  ghost predicate ReceiptReadable(c: Crypto, p: Policy, consumed: set<text>, e: Event) {
    e.Evaluation? && Clear(c, p, consumed, e.q, e.u).Success? ==> e.u.graph.readable
  }

  // Every receipt that was due could be read off its graph.
  ghost predicate ReceiptsReadable(c: Crypto, p: Policy, events: seq<Event>) {
    forall i :: 0 <= i < |events| ==> ReceiptReadable(c, p, Run(c, p, events[..i]).consumed, events[i])
  }

  lemma StepBurns(c: Crypto, p: Policy, s: State, e: Event)
    ensures Step(c, p, s, e).burned == [] <==> s.burned == [] && ReceiptReadable(c, p, s.consumed, e)
  {
    hide Step, Clear;
    StepSpends(c, p, s, e);
  }

  lemma ReadableByLast(c: Crypto, p: Policy, events: seq<Event>)
    requires events != []
    ensures var n := |events| - 1;
            ReceiptsReadable(c, p, events) <==>
            ReceiptsReadable(c, p, events[..n]) && ReceiptReadable(c, p, Run(c, p, events[..n]).consumed, events[n])
  {
    hide Run, ReceiptReadable;
    var front := events[..|events| - 1];
    forall i | 0 <= i < |front| ensures front[i] == events[i] && front[..i] == events[..i] {
    }
  }

  lemma {:induction false} BurnedIffUnreadable(c: Crypto, p: Policy, events: seq<Event>)
    ensures Run(c, p, events).burned == [] <==> ReceiptsReadable(c, p, events)
  {
    if events != [] {
      var front, last := events[..|events| - 1], events[|events| - 1];
      BurnedIffUnreadable(c, p, front);
      StepBurns(c, p, Run(c, p, front), last);
      assert Run(c, p, events) == Step(c, p, Run(c, p, front), last);
      hide Run, Step, ReceiptReadable, ReceiptsReadable;
      ReadableByLast(c, p, events);
    }
  }

  /** The consumed nonces are exactly the accepted ones if and only if no receipt was
      unreadable: the gate consumes a nonce before it reads the receipt off the graph. */
  lemma ConsumedIsAcceptedExactly(c: Crypto, p: Policy, events: seq<Event>)
    ensures var s := Run(c, p, events);
            (forall n :: n in s.consumed <==> n in Nonces(s.accepted)) <==> ReceiptsReadable(c, p, events)
  {
    var s := Run(c, p, events);
    NonceConservation(c, p, events);
    BurnedIffUnreadable(c, p, events);
    hide Run, Clear, Nonces;
    if s.burned != [] {
      var a, n := Nonces(s.accepted), s.burned[0];
      var spent := a + s.burned;
      assert spent[|a|] == n && n in s.burned;
      forall i | 0 <= i < |a| ensures a[i] != n {
        assert spent[i] == a[i] && spent[i] != spent[|a|];
      }
      assert n in s.consumed && n !in a;
    }
  }

  /** A burned nonce: the same proposal would have been accepted had its receipt been
      readable, is rejected, and stays rejected. */
  lemma UnreadableReceiptBurns(c: Crypto, p: Policy, consumed: set<text>, q: Proposal, u: Utxoref, later: Utxoref)
    requires Verdict(c, p, consumed, q, u).Accepted?
    ensures var broken := u.(graph := GraphVerified(false));
            && Verdict(c, p, consumed, q, broken) == Rejected(Malformed)
            && ConsumedAfter(c, p, consumed, q, broken) == ConsumedAfter(c, p, consumed, q, u)
            && Verdict(c, p, ConsumedAfter(c, p, consumed, q, broken), q, later) == Rejected(NonceConsumed)
  {
    hide Screen, StateMark;
  }

  /** Consumption is for good, so a nonce is accepted at most once in a run. */
  lemma {:induction false} ConsumedGrows(c: Crypto, p: Policy, events: seq<Event>, i: nat)
    requires i <= |events|
    ensures Run(c, p, events[..i]).consumed <= Run(c, p, events).consumed
    decreases |events|
  {
    if i < |events| {
      hide Step;
      var n := |events| - 1;
      ConsumedGrows(c, p, events[..n], i);
      assert events[..n][..i] == events[..i];
      StepSpends(c, p, Run(c, p, events[..n]), events[n]);
    } else {
      assert events[..i] == events;
    }
  }

  lemma NoReplay(c: Crypto, p: Policy, events: seq<Event>, i: nat, j: nat)
    requires i < j < |events| && events[i].Evaluation? && events[j].Evaluation?
    requires Verdict(c, p, Run(c, p, events[..i]).consumed, events[i].q, events[i].u).Accepted?
    requires events[j].q.requestNonce == events[i].q.requestNonce
    ensures Verdict(c, p, Run(c, p, events[..j]).consumed, events[j].q, events[j].u).Rejected?
  {
    hide Screen, Authorize, StateMark;
    var front := events[..i + 1];
    assert front[..i] == events[..i];
    StepSpends(c, p, Run(c, p, events[..i]), events[i]);
    ConsumedGrows(c, p, events[..j], i + 1);
    assert events[..j][..i + 1] == front;
  }
}
