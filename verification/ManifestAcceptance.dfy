/** Which parameters, receipts and artifacts make a claim manifest, in literal conditions, and
    what the manifest then says. */
module ManifestAcceptance {
  import opened Prelude
  import opened LittleEndian
  import opened BigEndian
  import opened BoundlessReceipt
  import opened ReleaseUrl
  import opened TaggedSha256
  import opened ClaimManifest

  ghost predicate NonZero(b: bytes) {
    exists i :: 0 <= i < |b| && b[i] != 0
  }

  // A file-name-like piece of a URL.
  ghost predicate PlainName(s: string) {
    && s !in {"", ".", ".."}
    && forall c :: c in s ==>
         'a' <= c <= 'z' || 'A' <= c <= 'Z' || '0' <= c <= '9' || c == '-' || c == '_' || c == '.'
  }

  ghost predicate CommitHash(s: string) {
    |s| == 40 && forall c :: c in s ==> '0' <= c <= '9' || 'a' <= c <= 'f'
  }

  ghost predicate CanonicalRepository(repository: string) {
    exists owner, name ::
      && repository == "https://github.com/" + owner + "/" + name
      && PlainName(owner) && PlainName(name)
      && !(|name| >= 4 && name[|name| - 4..] == ".git")
  }

  lemma PlainNameExactly(s: string)
    ensures IsSafeReleaseComponent(s) <==> PlainName(s)
  {
    assert forall i :: 0 <= i < |s| ==> s[i] in s;
  }

  lemma RepositoryExactly(repository: string)
    ensures ValidateGithubRepository(repository).Pass? <==> CanonicalRepository(repository)
  {
    hide ValidateGithubRepository, IsSafeReleaseComponent, PlainName;
    if ValidateGithubRepository(repository).Pass? {
      var owner, name := OwnerAndName(repository);
      PlainNameExactly(owner);
      PlainNameExactly(name);
    }
    if CanonicalRepository(repository) {
      var owner, name :|
        && repository == "https://github.com/" + owner + "/" + name
        && PlainName(owner) && PlainName(name) && !(|name| >= 4 && name[|name| - 4..] == ".git");
      PlainNameExactly(owner);
      PlainNameExactly(name);
      OwnerAndNameSuffice(owner, name);
    }
  }

  lemma NonZeroExactly(b: bytes)
    ensures IsZero(b) <==> !NonZero(b)
  {
  }

  lemma CommitExactly(s: string)
    ensures IsLowerHex(s, 40) <==> CommitHash(s)
  {
    assert forall i :: 0 <= i < |s| ==> s[i] in s;
  }

  lemma RepositoryReason(repository: string)
    ensures ValidateGithubRepository(repository)
         == if CanonicalRepository(repository) then Pass
            else if "https://github.com/" <= repository then Fail(NonCanonicalGithubRepository)
            else Fail(NotGithubRepository)
  {
    hide CanonicalRepository;
    RepositoryExactly(repository);
  }

  // A release file at its canonical GitHub location.
  ghost predicate Downloadable(a: Artifact) {
    && CanonicalRepository(a.githubRepository) && CommitHash(a.gitCommit)
    && PlainName(a.releaseTag) && PlainName(a.fileName)
    && a.downloadUrl == a.githubRepository + "/releases/download/" + a.releaseTag + "/" + a.fileName
    && a.byteLen >= 1 && NonZero(a.sha256)
  }

  /** An artifact is valid exactly when it is such a release file, and otherwise the first
      condition that fails is reported. */
  lemma ArtifactExactly(a: Artifact)
    ensures ValidateArtifact(a).Pass? <==> Downloadable(a)
    ensures ValidateArtifact(a).Fail? ==>
      ValidateArtifact(a).error ==
      if !("https://github.com/" <= a.githubRepository) then RepositoryRejected(NotGithubRepository)
      else if !CanonicalRepository(a.githubRepository) then RepositoryRejected(NonCanonicalGithubRepository)
      else if !CommitHash(a.gitCommit) then NonCanonicalGitCommit(a.kind)
      else if !PlainName(a.releaseTag) || !PlainName(a.fileName) then UnsafeReleasePath(a.kind)
      else if a.downloadUrl != a.githubRepository + "/releases/download/" + a.releaseTag + "/" + a.fileName then
        ReleaseUrlMismatch(a.kind)
      else if a.byteLen == 0 then EmptyArtifact(a.kind)
      else ZeroArtifactHash(a.kind)
  {
    assert CanonicalRepository(a.githubRepository) ==> "https://github.com/" <= a.githubRepository;
    hide ValidateGithubRepository, IsSafeReleaseComponent, PlainName, CanonicalRepository, CommitHash, IsLowerHex,
      NonZero, IsZero;
    RepositoryReason(a.githubRepository);
    CommitExactly(a.gitCommit);
    PlainNameExactly(a.releaseTag);
    PlainNameExactly(a.fileName);
    NonZeroExactly(a.sha256);
  }

  // A fulfilled Boundless request on Sepolia or Base Sepolia.
  ghost predicate TestnetRequest(r: RequestProvenance) {
    && r.chainId in {11155111, 84532}
    && NonZero(r.marketContract) && NonZero(r.requestId) && CommitHash(r.boundlessGitCommit)
  }

  lemma RequestExactly(r: RequestProvenance)
    ensures ValidateRequest(r).Pass? <==> TestnetRequest(r)
    ensures ValidateRequest(r).Fail? ==>
      ValidateRequest(r).error ==
      if r.chainId != 11155111 && r.chainId != 84532 then UnsupportedBoundlessChain(r.chainId)
      else if !NonZero(r.marketContract) then ZeroMarketContract
      else if !NonZero(r.requestId) then ZeroRequestId
      else NonCanonicalBoundlessCommit
  {
    hide CommitHash, IsLowerHex, NonZero, IsZero;
    CommitExactly(r.boundlessGitCommit);
    NonZeroExactly(r.marketContract);
    NonZeroExactly(r.requestId);
  }

  // Parameters that name the receipt's statement, claim and scalar.
  ghost predicate NamesReceipt(p: Params, receipt: Receipt) {
    && NonZero(p.contractNonce) && NonZero(p.statementDigest) && NonZero(p.risc0ImageId)
    && NonZero(p.expectedClaimDigest) && NonZero(p.verifyingKeySha256) && NonZero(p.graphSha256)
    && receipt.journal == p.statementDigest && receipt.claimDigest == p.expectedClaimDigest
    && p.publicInputCount == 1
    && FromBE(p.expectedPublicScalar) < 0x30644e72e131a029b85045b68181585d2833e84879b9709143e1f593f0000001
    && p.expectedPublicScalar == receipt.publicScalar
    && TestnetRequest(p.request)
  }

  lemma NonZeroParameters(p: Params)
    ensures IsZero(p.contractNonce) <==> !NonZero(p.contractNonce)
    ensures IsZero(p.statementDigest) <==> !NonZero(p.statementDigest)
    ensures IsZero(p.risc0ImageId) <==> !NonZero(p.risc0ImageId)
    ensures IsZero(p.expectedClaimDigest) <==> !NonZero(p.expectedClaimDigest)
    ensures IsZero(p.verifyingKeySha256) <==> !NonZero(p.verifyingKeySha256)
    ensures IsZero(p.graphSha256) <==> !NonZero(p.graphSha256)
  {
    hide NonZero, IsZero;
    NonZeroExactly(p.contractNonce);
    NonZeroExactly(p.statementDigest);
    NonZeroExactly(p.risc0ImageId);
    NonZeroExactly(p.expectedClaimDigest);
    NonZeroExactly(p.verifyingKeySha256);
    NonZeroExactly(p.graphSha256);
  }

  lemma BindingsExactly(p: Params, receipt: Receipt)
    ensures CheckBindings(p, receipt).Pass? <==> NamesReceipt(p, receipt)
  {
    hide ParseScalar, NonZero, IsZero, ValidateRequest, TestnetRequest;
    ScalarOutcome(p.expectedPublicScalar);
    NonZeroParameters(p);
    RequestExactly(p.request);
  }

  /** Which error is reported when several bindings are broken. */
  lemma BindingsReason(p: Params, receipt: Receipt)
    requires !NamesReceipt(p, receipt)
    ensures CheckBindings(p, receipt).Fail?
    ensures CheckBindings(p, receipt).error ==
      if !NonZero(p.contractNonce) then ZeroContractNonce
      else if !NonZero(p.statementDigest) then ZeroCriticalDigest(StatementDigestField)
      else if !NonZero(p.risc0ImageId) then ZeroCriticalDigest(ImageIdField)
      else if !NonZero(p.expectedClaimDigest) then ZeroCriticalDigest(ClaimDigestField)
      else if !NonZero(p.verifyingKeySha256) then ZeroCriticalDigest(VerifyingKeyField)
      else if !NonZero(p.graphSha256) then ZeroCriticalDigest(GraphField)
      else if receipt.journal != p.statementDigest then JournalStatementMismatch
      else if receipt.claimDigest != p.expectedClaimDigest then ClaimDigestMismatch
      else if p.publicInputCount != 1 then VerifierPublicInputCount(p.publicInputCount)
      else if FromBE(p.expectedPublicScalar) >= 0x30644e72e131a029b85045b68181585d2833e84879b9709143e1f593f0000001
      then NonCanonicalBitvm2PublicScalar
      else if p.expectedPublicScalar != receipt.publicScalar then Bitvm2PublicScalarMismatch
      else if p.request.chainId != 11155111 && p.request.chainId != 84532 then
        UnsupportedBoundlessChain(p.request.chainId)
      else if !NonZero(p.request.marketContract) then ZeroMarketContract
      else if !NonZero(p.request.requestId) then ZeroRequestId
      else NonCanonicalBoundlessCommit
  {
    hide ParseScalar, NonZero, IsZero, ValidateRequest;
    ScalarOutcome(p.expectedPublicScalar);
    NonZeroParameters(p);
    RequestExactly(p.request);
  }

  ghost predicate AllDownloadable(artifacts: seq<Artifact>) {
    forall a :: a in artifacts ==> Downloadable(a)
  }

  lemma ArtifactListExactly(artifacts: seq<Artifact>)
    ensures AllDownloadable(artifacts) <==> AllValid(artifacts)
  {
    hide ValidateArtifact, Downloadable;
    forall a: Artifact ensures Downloadable(a) <==> ValidateArtifact(a).Pass? {
      ArtifactExactly(a);
    }
  }

  function SealHash(sha: Sha256, receipt: Receipt): bytes32 {
    sha([0x62, 0xf0, 0x49, 0xf6] + receipt.rawProof)
  }

  // The published seal is the receipt's, the published graph is the verifier's.
  ghost predicate Published(sha: Sha256, p: Params, receipt: Receipt) {
    && (forall a :: a in p.artifacts && a.kind == BoundlessSeal ==>
          a.byteLen == 260 && a.sha256 == SealHash(sha, receipt))
    && (forall a :: a in p.artifacts && a.kind == Bitvm2Graph ==> a.sha256 == p.graphSha256)
  }

  /** What happens to eight release files of all kinds under sound bindings. */
  lemma PublishedVerdict(sha: Sha256, p: Params, receipt: Receipt, seal: Artifact, graph: Artifact)
    requires NamesReceipt(p, receipt) && Complete(p.artifacts) && AllDownloadable(p.artifacts)
    requires seal in p.artifacts && seal.kind == BoundlessSeal && graph in p.artifacts && graph.kind == Bitvm2Graph
    ensures if seal.byteLen != 260 then New(sha, p, receipt) == Refused(BoundlessSealLength(seal.byteLen))
            else if seal.sha256 != SealHash(sha, receipt) then
              New(sha, p, receipt) == Refused(BoundlessSealHashMismatch)
            else if graph.sha256 != p.graphSha256 then New(sha, p, receipt) == Refused(Bitvm2GraphHashMismatch)
            else New(sha, p, receipt).Built?
  {
    hide CheckBindings, Scan, FirstMissing, ValidateArtifact, Find, SortByKind, NamesReceipt, Complete,
      AllDownloadable, DistinctKinds;
    BindingsExactly(p, receipt);
    ArtifactListExactly(p.artifacts);
    ArtifactsAccepted(p.artifacts);
    CompleteIffDistinctAndCovering(p.artifacts);
    FindInComplete(p.artifacts, BoundlessSeal);
    FindInComplete(p.artifacts, Bitvm2Graph);
  }

  lemma OnlyOne(artifacts: seq<Artifact>, a: Artifact)
    requires Complete(artifacts) && a in artifacts
    ensures forall b :: b in artifacts && b.kind == a.kind ==> b == a
  {
    hide AllDownloadable, AllValid, DistinctKinds;
    ArtifactListExactly(artifacts);
    CompleteIffDistinctAndCovering(artifacts);
    FindInComplete(artifacts, a.kind);
  }

  /** A manifest is built exactly from parameters that name the receipt, and eight release files,
      one of each kind, of which the seal is the receipt's and the graph is the verifier's. */
  lemma BuiltExactly(sha: Sha256, p: Params, receipt: Receipt)
    ensures New(sha, p, receipt).Built? <==>
            && NamesReceipt(p, receipt) && Complete(p.artifacts) && AllDownloadable(p.artifacts)
            && Published(sha, p, receipt)
  {
    hide NamesReceipt, AllDownloadable, CheckBindings, Scan, FirstMissing, Find, AllValid, SortByKind;
    BindingsExactly(p, receipt);
    ArtifactListExactly(p.artifacts);
    ArtifactsAccepted(p.artifacts);
    if NamesReceipt(p, receipt) && Complete(p.artifacts) && AllDownloadable(p.artifacts) {
      assert Covers(p.artifacts, BoundlessSeal) && Covers(p.artifacts, Bitvm2Graph);
      var seal :| seal in p.artifacts && seal.kind == BoundlessSeal;
      var graph :| graph in p.artifacts && graph.kind == Bitvm2Graph;
      OnlyOne(p.artifacts, seal);
      OnlyOne(p.artifacts, graph);
      hide New, Complete;
      PublishedVerdict(sha, p, receipt, seal, graph);
    }
  }

  /** What a manifest says: every field is the parameter of its name, the scalar is the receipt's,
      and the artifacts are the given ones, in the order of their kinds. */
  lemma ManifestFields(sha: Sha256, p: Params, receipt: Receipt)
    requires New(sha, p, receipt).Built?
    ensures var m := New(sha, p, receipt).manifest;
            && m.network == p.network && m.contractNonce == p.contractNonce
            && m.statementDigest == p.statementDigest == receipt.journal
            && m.risc0ImageId == p.risc0ImageId
            && m.claimDigest == p.expectedClaimDigest == receipt.claimDigest
            && m.publicScalar == p.expectedPublicScalar == receipt.publicScalar
            && m.request == p.request
            && m.verifyingKeySha256 == p.verifyingKeySha256 && m.graphSha256 == p.graphSha256
            && multiset(m.artifacts) == multiset(p.artifacts)
  {
    ManifestBindings(sha, p, receipt);
    ManifestHasEveryKindOnce(sha, p, receipt);
    hide CheckBindings, Scan, FirstMissing, Find, SortByKind, ValidateArtifact;
  }

  /** Each place of the manifest's list has its kind; the seal is at the seventh and the graph at
      the eighth. */
  lemma ManifestArtifacts(sha: Sha256, p: Params, receipt: Receipt)
    requires New(sha, p, receipt).Built?
    ensures var m := New(sha, p, receipt).manifest;
            && |m.artifacts| == 8
            && m.artifacts[0].kind == StatementEnvelope && m.artifacts[1].kind == StwoProgram
            && m.artifacts[2].kind == StwoProof && m.artifacts[3].kind == StwoPolicy
            && m.artifacts[4].kind == Risc0GuestElf && m.artifacts[5].kind == Risc0GuestInput
            && m.artifacts[6].kind == BoundlessSeal && m.artifacts[7].kind == Bitvm2Graph
            && m.artifacts[6].byteLen == 260
            && m.artifacts[6].sha256 == SealHash(sha, receipt)
            && m.artifacts[7].sha256 == m.graphSha256
            && forall i :: 0 <= i < 8 ==> Downloadable(m.artifacts[i])
  {
    hide New, NamesReceipt, Complete, Downloadable, AllValid;
    ManifestHasEveryKindOnce(sha, p, receipt);
    ManifestFields(sha, p, receipt);
    BuiltExactly(sha, p, receipt);
    var m := New(sha, p, receipt).manifest;
    forall i | 0 <= i < 8 ensures m.artifacts[i] in p.artifacts {
      assert m.artifacts[i] in multiset(m.artifacts);
    }
  }

  lemma ScanStep(first: Artifact, rest: seq<Artifact>, seen: set<ArtifactKind>)
    requires ValidateArtifact(first).Pass? && first.kind !in seen
    ensures Scan([first] + rest, seen) == Scan(rest, seen + {first.kind})
    ensures seen + {first.kind} + Kinds(rest) == seen + Kinds([first] + rest)
  {
    hide ValidateArtifact;
    assert ([first] + rest)[1..] == rest;
    FirstAndRest([first] + rest);
  }

  /** Which artifact stops the scan, and why: all before it are valid and of different kinds, and it
      is invalid, or valid and of a kind met before. */
  lemma {:induction false} ScanReason(artifacts: seq<Artifact>, seen: set<ArtifactKind>) returns (i: nat)
    requires Scan(artifacts, seen).Failure?
    ensures i < |artifacts| && Scan(artifacts[..i], seen) == Success(seen + Kinds(artifacts[..i]))
    ensures var v := ValidateArtifact(artifacts[i]);
            Scan(artifacts, seen) == Failure(if v.Fail? then v.error else DuplicateArtifact(artifacts[i].kind))
    ensures ValidateArtifact(artifacts[i]).Pass? ==> artifacts[i].kind in seen + Kinds(artifacts[..i])
  {
    hide ValidateArtifact;
    var first, rest := artifacts[0], artifacts[1..];
    assert artifacts == [first] + rest;
    if ValidateArtifact(first).Fail? || first.kind in seen {
      i := 0;
      assert artifacts[..0] == [] && seen + Kinds([]) == seen;
    } else {
      hide Scan, Kinds;
      ScanStep(first, rest, seen);
      var k := ScanReason(rest, seen + {first.kind});
      i := k + 1;
      ScanStep(first, rest[..k], seen);
      assert artifacts[..i] == [first] + rest[..k];
    }
  }

  lemma {:induction false} FirstMissingReason(required: seq<ArtifactKind>, kinds: set<ArtifactKind>) returns (i: nat)
    requires FirstMissing(required, kinds).Fail?
    ensures i < |required| && required[i] !in kinds && forall j :: 0 <= j < i ==> required[j] in kinds
    ensures FirstMissing(required, kinds) == Fail(MissingArtifact(required[i]))
  {
    if required[0] !in kinds {
      i := 0;
    } else {
      i := FirstMissingReason(required[1..], kinds);
      i := i + 1;
    }
  }

  lemma KindIsCovered(artifacts: seq<Artifact>, kind: ArtifactKind)
    ensures kind in Kinds(artifacts) <==> Covers(artifacts, kind)
  {
  }

  /** The order of the refusals: the bindings, then the first bad artifact, then the first missing kind. */
  lemma RefusalOrder(sha: Sha256, p: Params, receipt: Receipt) returns (i: nat)
    requires !(NamesReceipt(p, receipt) && AllDownloadable(p.artifacts) && Complete(p.artifacts))
    ensures var bindings, scan := CheckBindings(p, receipt), Scan(p.artifacts, {});
            var order := [StatementEnvelope, StwoProgram, StwoProof, StwoPolicy,
                          Risc0GuestElf, Risc0GuestInput, BoundlessSeal, Bitvm2Graph];
            if !NamesReceipt(p, receipt) then bindings.Fail? && New(sha, p, receipt) == Refused(bindings.error)
            else if scan.Failure? then New(sha, p, receipt) == Refused(scan.error)
            else
              && i < 8 && !Covers(p.artifacts, order[i]) && (forall j :: 0 <= j < i ==> Covers(p.artifacts, order[j]))
              && New(sha, p, receipt) == Refused(MissingArtifact(order[i]))
  {
    hide NamesReceipt, AllDownloadable, CheckBindings, Scan, FirstMissing, Find, AllValid, SortByKind, Complete,
      DistinctKinds, Covers, Kinds;
    BindingsExactly(p, receipt);
    ArtifactListExactly(p.artifacts);
    ArtifactsAccepted(p.artifacts);
    i := 0;
    if NamesReceipt(p, receipt) && Scan(p.artifacts, {}).Success? {
      i := FirstMissingReason(REQUIRED, Scan(p.artifacts, {}).value);
      ScanOutcome(p.artifacts, {});
      assert {} + Kinds(p.artifacts) == Kinds(p.artifacts);
      forall kind ensures kind in Kinds(p.artifacts) <==> Covers(p.artifacts, kind) {
        KindIsCovered(p.artifacts, kind);
      }
    }
  }
}
