/** The claim-specific manifest: construction from a list of artifacts in any order. */
module ClaimManifest {
  import opened Prelude
  import opened BoundlessReceipt
  import opened ReleaseUrl
  import opened TaggedSha256

  datatype BitcoinNetwork = Regtest | Signet

  datatype ArtifactKind =
    | StatementEnvelope | StwoProgram | StwoProof | StwoPolicy
    | Risc0GuestElf | Risc0GuestInput | BoundlessSeal | Bitvm2Graph

  const REQUIRED: seq<ArtifactKind> :=
    [StatementEnvelope, StwoProgram, StwoProof, StwoPolicy,
     Risc0GuestElf, Risc0GuestInput, BoundlessSeal, Bitvm2Graph]

  // The derived order of the kinds.
  function Rank(kind: ArtifactKind): (r: nat)
    ensures r < 8 && REQUIRED[r] == kind
  {
    match kind
    case StatementEnvelope => 0
    case StwoProgram => 1
    case StwoProof => 2
    case StwoPolicy => 3
    case Risc0GuestElf => 4
    case Risc0GuestInput => 5
    case BoundlessSeal => 6
    case Bitvm2Graph => 7
  }

  type bytes20 = b: bytes | |b| == 20 witness seq(20, _ => 0)

  datatype Artifact = Artifact(
    kind: ArtifactKind,
    githubRepository: string,
    gitCommit: string,
    releaseTag: string,
    fileName: string,
    downloadUrl: string,
    sha256: bytes32,
    byteLen: u64)

  datatype RequestProvenance = RequestProvenance(
    chainId: u64,
    marketContract: bytes20,
    requestId: bytes32,
    boundlessGitCommit: string)

  datatype Params = Params(
    network: BitcoinNetwork,
    contractNonce: bytes32,
    statementDigest: bytes32,
    risc0ImageId: bytes32,
    expectedClaimDigest: bytes32,
    request: RequestProvenance,
    verifyingKeySha256: bytes32,
    graphSha256: bytes32,
    publicInputCount: nat,
    expectedPublicScalar: bytes32,
    artifacts: seq<Artifact>)

  datatype CriticalDigest =
    | StatementDigestField | ImageIdField | ClaimDigestField | VerifyingKeyField | GraphField

  datatype ManifestError =
    | ZeroContractNonce
    | ZeroCriticalDigest(field: CriticalDigest)
    | JournalStatementMismatch
    | ClaimDigestMismatch
    | VerifierPublicInputCount(actual: nat)
    | NonCanonicalBitvm2PublicScalar
    | Bitvm2PublicScalarMismatch
    | UnsupportedBoundlessChain(chain: u64)
    | ZeroMarketContract
    | ZeroRequestId
    | NonCanonicalBoundlessCommit
    | RepositoryRejected(reason: RepositoryError)
    | NonCanonicalGitCommit(kind: ArtifactKind)
    | UnsafeReleasePath(kind: ArtifactKind)
    | ReleaseUrlMismatch(kind: ArtifactKind)
    | EmptyArtifact(kind: ArtifactKind)
    | ZeroArtifactHash(kind: ArtifactKind)
    | DuplicateArtifact(kind: ArtifactKind)
    | MissingArtifact(kind: ArtifactKind)
    | BoundlessSealLength(length: u64)
    | BoundlessSealHashMismatch
    | Bitvm2GraphHashMismatch

  datatype Manifest = Manifest(
    network: BitcoinNetwork,
    contractNonce: bytes32,
    statementDigest: bytes32,
    risc0ImageId: bytes32,
    claimDigest: bytes32,
    publicScalar: bytes32,
    request: RequestProvenance,
    verifyingKeySha256: bytes32,
    graphSha256: bytes32,
    artifacts: seq<Artifact>)

  function ValidateArtifact(a: Artifact): Outcome<ManifestError> {
    var repository := ValidateGithubRepository(a.githubRepository);
    if repository.Fail? then Fail(RepositoryRejected(repository.error))
    else if !IsLowerHex(a.gitCommit, 40) then Fail(NonCanonicalGitCommit(a.kind))
    else if !IsSafeReleaseComponent(a.releaseTag) || !IsSafeReleaseComponent(a.fileName) then
      Fail(UnsafeReleasePath(a.kind))
    else if a.downloadUrl != DownloadUrl(a.githubRepository, a.releaseTag, a.fileName) then
      Fail(ReleaseUrlMismatch(a.kind))
    else if a.byteLen == 0 then Fail(EmptyArtifact(a.kind))
    else if IsZero(a.sha256) then Fail(ZeroArtifactHash(a.kind))
    else Pass
  }

  // Two validated artifacts at one URL are the same release file.
  lemma SharedUrl(a: Artifact, b: Artifact)
    requires ValidateArtifact(a).Pass? && ValidateArtifact(b).Pass? && a.downloadUrl == b.downloadUrl
    ensures a.githubRepository == b.githubRepository && a.releaseTag == b.releaseTag && a.fileName == b.fileName
  {
    hide ValidateGithubRepository, IsSafeReleaseComponent, DownloadUrl;
    UrlParsesUniquely(a.githubRepository, a.releaseTag, a.fileName, b.githubRepository, b.releaseTag, b.fileName);
  }

  function ValidateRequest(r: RequestProvenance): Outcome<ManifestError> {
    if r.chainId != 11_155_111 && r.chainId != 84_532 then Fail(UnsupportedBoundlessChain(r.chainId))
    else if IsZero(r.marketContract) then Fail(ZeroMarketContract)
    else if IsZero(r.requestId) then Fail(ZeroRequestId)
    else if !IsLowerHex(r.boundlessGitCommit, 40) then Fail(NonCanonicalBoundlessCommit)
    else Pass
  }

  // Everything `new` checks before it looks at the artifacts.
  function CheckBindings(p: Params, receipt: Receipt): Outcome<ManifestError> {
    if IsZero(p.contractNonce) then Fail(ZeroContractNonce)
    else if IsZero(p.statementDigest) then Fail(ZeroCriticalDigest(StatementDigestField))
    else if IsZero(p.risc0ImageId) then Fail(ZeroCriticalDigest(ImageIdField))
    else if IsZero(p.expectedClaimDigest) then Fail(ZeroCriticalDigest(ClaimDigestField))
    else if IsZero(p.verifyingKeySha256) then Fail(ZeroCriticalDigest(VerifyingKeyField))
    else if IsZero(p.graphSha256) then Fail(ZeroCriticalDigest(GraphField))
    else if receipt.journal != p.statementDigest then Fail(JournalStatementMismatch)
    else if receipt.claimDigest != p.expectedClaimDigest then Fail(ClaimDigestMismatch)
    else if p.publicInputCount != 1 then Fail(VerifierPublicInputCount(p.publicInputCount))
    else if ParseScalar(p.expectedPublicScalar).Failure? then Fail(NonCanonicalBitvm2PublicScalar)
    else if ParseScalar(p.expectedPublicScalar).value != receipt.publicScalar then Fail(Bitvm2PublicScalarMismatch)
    else ValidateRequest(p.request)
  }

  /** The artifact loop: validate, then insert the kind into the seen set. */
  function Scan(artifacts: seq<Artifact>, seen: set<ArtifactKind>): Result<set<ArtifactKind>, ManifestError> {
    if artifacts == [] then Success(seen)
    else
      var valid := ValidateArtifact(artifacts[0]);
      if valid.Fail? then Failure(valid.error)
      else if artifacts[0].kind in seen then Failure(DuplicateArtifact(artifacts[0].kind))
      else Scan(artifacts[1..], seen + {artifacts[0].kind})
  }

  method ScanArtifacts(artifacts: seq<Artifact>) returns (r: Result<set<ArtifactKind>, ManifestError>)
    ensures r == Scan(artifacts, {})
  {
    var kinds: set<ArtifactKind> := {};
    var i := 0;
    while i < |artifacts|
      invariant i <= |artifacts| && Scan(artifacts[i..], kinds) == Scan(artifacts, {})
    {
      var valid := ValidateArtifact(artifacts[i]);
      if valid.Fail? {
        return Failure(valid.error);
      }
      if artifacts[i].kind in kinds {
        return Failure(DuplicateArtifact(artifacts[i].kind));
      }
      kinds := kinds + {artifacts[i].kind};
      i := i + 1;
    }
    return Success(kinds);
  }

  function FirstMissing(required: seq<ArtifactKind>, kinds: set<ArtifactKind>): Outcome<ManifestError> {
    if required == [] then Pass
    else if required[0] !in kinds then Fail(MissingArtifact(required[0]))
    else FirstMissing(required[1..], kinds)
  }

  function Find(artifacts: seq<Artifact>, kind: ArtifactKind): Option<Artifact> {
    if artifacts == [] then None
    else if artifacts[0].kind == kind then Some(artifacts[0])
    else Find(artifacts[1..], kind)
  }

  // A stable sort by kind.
  function InsertByKind(a: Artifact, sorted: seq<Artifact>): seq<Artifact> {
    if sorted == [] || Rank(a.kind) <= Rank(sorted[0].kind) then [a] + sorted
    else [sorted[0]] + InsertByKind(a, sorted[1..])
  }

  function SortByKind(artifacts: seq<Artifact>): seq<Artifact> {
    if artifacts == [] then [] else InsertByKind(artifacts[0], SortByKind(artifacts[1..]))
  }

  datatype Construction = Built(manifest: Manifest) | Refused(error: ManifestError) | Panicked

  // `Panicked` is a failed `expect`.
  function New(sha: Sha256, p: Params, receipt: Receipt): Construction {
    var bindings := CheckBindings(p, receipt);
    if bindings.Fail? then Refused(bindings.error)
    else
      var kinds := Scan(p.artifacts, {});
      if kinds.Failure? then Refused(kinds.error)
      else
        var missing := FirstMissing(REQUIRED, kinds.value);
        if missing.Fail? then Refused(missing.error)
        else
          match Find(p.artifacts, BoundlessSeal)
          case None => Panicked
          case Some(seal) =>
            if seal.byteLen != SEAL_LEN then Refused(BoundlessSealLength(seal.byteLen))
            else if seal.sha256 != sha(SELECTOR + receipt.rawProof) then Refused(BoundlessSealHashMismatch)
            else
              match Find(p.artifacts, Bitvm2Graph)
              case None => Panicked
              case Some(graph) =>
                if graph.sha256 != p.graphSha256 then Refused(Bitvm2GraphHashMismatch)
                else Built(Manifest(
                  p.network, p.contractNonce, p.statementDigest, p.risc0ImageId, p.expectedClaimDigest,
                  receipt.publicScalar, p.request, p.verifyingKeySha256, p.graphSha256,
                  SortByKind(p.artifacts)))
  }

  method CheckRequired(kinds: set<ArtifactKind>) returns (r: Outcome<ManifestError>)
    ensures r == FirstMissing(REQUIRED, kinds)
  {
    var i := 0;
    while i < |REQUIRED|
      invariant i <= |REQUIRED| && FirstMissing(REQUIRED[i..], kinds) == FirstMissing(REQUIRED, kinds)
    {
      if REQUIRED[i] !in kinds {
        return Fail(MissingArtifact(REQUIRED[i]));
      }
      i := i + 1;
    }
    return Pass;
  }

  /** Pigeonhole: eight valid artifacts that cover eight kinds, in any order. */

  ghost predicate AllValid(artifacts: seq<Artifact>) {
    forall a :: a in artifacts ==> ValidateArtifact(a).Pass?
  }

  ghost predicate Covers(artifacts: seq<Artifact>, kind: ArtifactKind) {
    exists a :: a in artifacts && a.kind == kind
  }

  ghost predicate Complete(artifacts: seq<Artifact>) {
    |artifacts| == 8 && forall kind :: Covers(artifacts, kind)
  }

  ghost function Kinds(artifacts: seq<Artifact>): set<ArtifactKind> {
    set a | a in artifacts :: a.kind
  }

  ghost predicate DistinctKinds(artifacts: seq<Artifact>) {
    forall i, j :: 0 <= i < j < |artifacts| ==> artifacts[i].kind != artifacts[j].kind
  }

  lemma FirstAndRest(artifacts: seq<Artifact>)
    requires artifacts != []
    ensures Kinds(artifacts) == {artifacts[0].kind} + Kinds(artifacts[1..])
    ensures DistinctKinds(artifacts) <==>
            artifacts[0].kind !in Kinds(artifacts[1..]) && DistinctKinds(artifacts[1..])
  {
    var first, rest := artifacts[0], artifacts[1..];
    assert artifacts == [first] + rest;
    assert forall j :: 0 <= j < |rest| ==> rest[j] == artifacts[j + 1];
    assert first.kind in Kinds(rest) <==> exists j :: 0 <= j < |rest| && rest[j].kind == first.kind;
  }

  lemma {:induction false} KindCount(artifacts: seq<Artifact>)
    ensures |Kinds(artifacts)| <= |artifacts|
    ensures |Kinds(artifacts)| == |artifacts| <==> DistinctKinds(artifacts)
  {
    if artifacts != [] {
      hide Kinds, DistinctKinds;
      FirstAndRest(artifacts);
      KindCount(artifacts[1..]);
    }
  }

  lemma AllEightKinds(kinds: set<ArtifactKind>)
    requires forall kind: ArtifactKind :: kind in kinds
    ensures |kinds| == 8
  {
    var every := {StatementEnvelope, StwoProgram, StwoProof, StwoPolicy,
                  Risc0GuestElf, Risc0GuestInput, BoundlessSeal, Bitvm2Graph};
    forall kind: ArtifactKind ensures kind in every {
      assert kind == REQUIRED[Rank(kind)];
    }
    assert kinds == every;
  }

  lemma CompleteIffDistinctAndCovering(artifacts: seq<Artifact>)
    ensures Complete(artifacts) <==> DistinctKinds(artifacts) && forall kind :: Covers(artifacts, kind)
  {
    hide DistinctKinds;
    KindCount(artifacts);
    if forall kind :: Covers(artifacts, kind) {
      forall kind: ArtifactKind ensures kind in Kinds(artifacts) {
        assert Covers(artifacts, kind);
      }
      AllEightKinds(Kinds(artifacts));
    }
  }

  lemma {:induction false} ScanOutcome(artifacts: seq<Artifact>, seen: set<ArtifactKind>)
    ensures Scan(artifacts, seen).Success? <==>
            AllValid(artifacts) && DistinctKinds(artifacts) && Kinds(artifacts) !! seen
    ensures Scan(artifacts, seen).Success? ==> Scan(artifacts, seen).value == seen + Kinds(artifacts)
  {
    if artifacts != [] {
      hide ValidateArtifact, Kinds, DistinctKinds;
      var first, rest := artifacts[0], artifacts[1..];
      assert artifacts == [first] + rest;
      FirstAndRest(artifacts);
      ScanOutcome(rest, seen + {first.kind});
    }
  }

  lemma {:induction false} NothingMissing(required: seq<ArtifactKind>, kinds: set<ArtifactKind>)
    ensures FirstMissing(required, kinds).Pass? <==> forall kind :: kind in required ==> kind in kinds
  {
    if required != [] {
      NothingMissing(required[1..], kinds);
      assert required == [required[0]] + required[1..];
    }
  }

  // The loop and the coverage check together accept exactly the complete, valid lists.
  lemma ArtifactsAccepted(artifacts: seq<Artifact>)
    ensures (var kinds := Scan(artifacts, {}); kinds.Success? && FirstMissing(REQUIRED, kinds.value).Pass?)
       <==> AllValid(artifacts) && Complete(artifacts)
  {
    ScanOutcome(artifacts, {});
    CompleteIffDistinctAndCovering(artifacts);
    NothingMissing(REQUIRED, Kinds(artifacts));
    forall kind ensures kind in Kinds(artifacts) <==> Covers(artifacts, kind) {
    }
    assert forall kind: ArtifactKind :: kind == REQUIRED[Rank(kind)];
    assert {} + Kinds(artifacts) == Kinds(artifacts);
  }

  // In a complete list every kind names one artifact.
  lemma {:induction false} FindInComplete(artifacts: seq<Artifact>, kind: ArtifactKind)
    requires DistinctKinds(artifacts) && Covers(artifacts, kind)
    ensures Find(artifacts, kind).Some?
    ensures Find(artifacts, kind).value in artifacts && Find(artifacts, kind).value.kind == kind
    ensures forall a :: a in artifacts && a.kind == kind ==> a == Find(artifacts, kind).value
  {
    var first, rest := artifacts[0], artifacts[1..];
    assert artifacts == [first] + rest;
    if first.kind == kind {
      assert forall j :: 0 <= j < |rest| ==> rest[j] == artifacts[j + 1];
    } else {
      var a :| a in artifacts && a.kind == kind;
      assert a in rest;
      FindInComplete(rest, kind);
    }
  }

  /** Neither `expect` can fail. */
  lemma NeverPanics(sha: Sha256, p: Params, receipt: Receipt)
    ensures !New(sha, p, receipt).Panicked?
  {
    hide CheckBindings, Scan, FirstMissing, ValidateArtifact, Find;
    ArtifactsAccepted(p.artifacts);
    if AllValid(p.artifacts) && Complete(p.artifacts) {
      CompleteIffDistinctAndCovering(p.artifacts);
      FindInComplete(p.artifacts, BoundlessSeal);
      FindInComplete(p.artifacts, Bitvm2Graph);
    }
  }

  method NewManifest(sha: Sha256, p: Params, receipt: Receipt) returns (r: Result<Manifest, ManifestError>)
    ensures New(sha, p, receipt) == if r.Success? then Built(r.value) else Refused(r.error)
  {
    hide Scan, FirstMissing, Find, ValidateArtifact;
    NeverPanics(sha, p, receipt);
    var bindings := CheckBindings(p, receipt);
    if bindings.Fail? {
      return Failure(bindings.error);
    }
    var kinds :- ScanArtifacts(p.artifacts);
    var missing := CheckRequired(kinds);
    if missing.Fail? {
      return Failure(missing.error);
    }
    var seal := Find(p.artifacts, BoundlessSeal).value;
    if seal.byteLen != SEAL_LEN {
      return Failure(BoundlessSealLength(seal.byteLen));
    }
    var sealBytes := Seal(receipt);
    if seal.sha256 != sha(sealBytes[..]) {
      return Failure(BoundlessSealHashMismatch);
    }
    var graph := Find(p.artifacts, Bitvm2Graph).value;
    if graph.sha256 != p.graphSha256 {
      return Failure(Bitvm2GraphHashMismatch);
    }
    return Success(Manifest(
      p.network, p.contractNonce, p.statementDigest, p.risc0ImageId, p.expectedClaimDigest,
      receipt.publicScalar, p.request, p.verifyingKeySha256, p.graphSha256, SortByKind(p.artifacts)));
  }

  /** Sorting. */

  predicate Sorted(artifacts: seq<Artifact>) {
    forall i, j :: 0 <= i < j < |artifacts| ==> Rank(artifacts[i].kind) <= Rank(artifacts[j].kind)
  }

  lemma {:induction false} InsertSorts(a: Artifact, sorted: seq<Artifact>)
    requires Sorted(sorted)
    ensures Sorted(InsertByKind(a, sorted))
    ensures multiset(InsertByKind(a, sorted)) == multiset{a} + multiset(sorted)
  {
    hide Rank;
    if sorted != [] && !(Rank(a.kind) <= Rank(sorted[0].kind)) {
      var first, rest := sorted[0], sorted[1..];
      assert sorted == [first] + rest;
      InsertSorts(a, rest);
      var inserted := InsertByKind(a, rest);
      forall x | x in inserted ensures Rank(first.kind) <= Rank(x.kind) {
        assert x in multiset(inserted);
        assert x == a || x in rest;
      }
    }
  }

  lemma {:induction false} SortSorts(artifacts: seq<Artifact>)
    ensures Sorted(SortByKind(artifacts))
    ensures multiset(SortByKind(artifacts)) == multiset(artifacts)
  {
    if artifacts != [] {
      SortSorts(artifacts[1..]);
      InsertSorts(artifacts[0], SortByKind(artifacts[1..]));
      assert artifacts == [artifacts[0]] + artifacts[1..];
    }
  }

  lemma SameMembers(a: seq<Artifact>, b: seq<Artifact>)
    requires multiset(a) == multiset(b)
    ensures |a| == |b|
    ensures forall x :: x in a <==> x in b
    ensures Complete(a) <==> Complete(b)
    ensures AllValid(a) <==> AllValid(b)
  {
    assert |multiset(a)| == |multiset(b)|;
    forall x: Artifact ensures x in a <==> x in b {
      assert x in a <==> x in multiset(a);
      assert x in b <==> x in multiset(b);
    }
    assert forall kind :: Covers(a, kind) <==> Covers(b, kind);
  }

  // A sorted complete list holds, at each place, the artifact of the kind required there.
  lemma SortedCompleteIsRequired(artifacts: seq<Artifact>)
    requires Complete(artifacts) && Sorted(artifacts)
    ensures forall i :: 0 <= i < 8 ==> artifacts[i].kind == REQUIRED[i]
  {
    hide ValidateArtifact;
    CompleteIffDistinctAndCovering(artifacts);
    forall i, j | 0 <= i < j < 8 ensures Rank(artifacts[i].kind) < Rank(artifacts[j].kind) {
      assert REQUIRED[Rank(artifacts[i].kind)] == artifacts[i].kind;
    }
    var r := seq(8, i requires 0 <= i < 8 => Rank(artifacts[i].kind));
    assert r[0] < r[1] < r[2] < r[3] < r[4] < r[5] < r[6] < r[7] < 8;
    forall i | 0 <= i < 8 ensures r[i] == i {
    }
  }

  /** The manifest's artifact list is the eight required kinds, once each and in the required
      order, and each entry is one of the given artifacts. */
  lemma ManifestHasEveryKindOnce(sha: Sha256, p: Params, receipt: Receipt)
    requires New(sha, p, receipt).Built?
    ensures var m := New(sha, p, receipt).manifest;
            && |m.artifacts| == 8
            && (forall i :: 0 <= i < 8 ==> m.artifacts[i].kind == REQUIRED[i])
            && multiset(m.artifacts) == multiset(p.artifacts)
            && AllValid(p.artifacts)
  {
    hide CheckBindings, Scan, FirstMissing, ValidateArtifact, Find, SortByKind;
    ArtifactsAccepted(p.artifacts);
    SortSorts(p.artifacts);
    SameMembers(SortByKind(p.artifacts), p.artifacts);
    SortedCompleteIsRequired(SortByKind(p.artifacts));
  }

  lemma SortedPermutations(a: seq<Artifact>, b: seq<Artifact>)
    requires Complete(a) && multiset(a) == multiset(b)
    ensures SortByKind(a) == SortByKind(b)
  {
    hide SortByKind, ValidateArtifact;
    var s, t := SortByKind(a), SortByKind(b);
    SortSorts(a);
    SortSorts(b);
    SameMembers(s, a);
    SameMembers(t, a);
    SameMembers(s, t);
    SortedCompleteIsRequired(s);
    SortedCompleteIsRequired(t);
    CompleteIffDistinctAndCovering(s);
    forall i | 0 <= i < 8 ensures s[i] == t[i] {
      FindInComplete(s, REQUIRED[i]);
      assert t[i] in s;
    }
  }

  /** Order of the given artifacts does not matter: a permutation is accepted exactly when the
      original is, and yields the same manifest. */
  lemma OrderDoesNotMatter(sha: Sha256, p: Params, permuted: seq<Artifact>, receipt: Receipt)
    requires multiset(permuted) == multiset(p.artifacts)
    ensures New(sha, p, receipt).Built? <==> New(sha, p.(artifacts := permuted), receipt).Built?
    ensures New(sha, p, receipt).Built? ==> New(sha, p, receipt) == New(sha, p.(artifacts := permuted), receipt)
  {
    hide Scan, FirstMissing, ValidateArtifact, Find, SortByKind, ValidateRequest, ParseScalar;
    ArtifactsAccepted(p.artifacts);
    ArtifactsAccepted(permuted);
    SameMembers(permuted, p.artifacts);
    if AllValid(permuted) && Complete(permuted) {
      CompleteIffDistinctAndCovering(permuted);
      CompleteIffDistinctAndCovering(p.artifacts);
      FindInComplete(permuted, BoundlessSeal);
      FindInComplete(permuted, Bitvm2Graph);
      FindInComplete(p.artifacts, BoundlessSeal);
      FindInComplete(p.artifacts, Bitvm2Graph);
      SortedPermutations(permuted, p.artifacts);
    }
  }

  // The seal artifact of a manifest is the seal of its receipt.
  lemma SealArtifact(sha: Sha256, p: Params, receipt: Receipt)
    requires New(sha, p, receipt).Built?
    ensures exists a :: a in New(sha, p, receipt).manifest.artifacts && a.kind == BoundlessSeal
                     && a.byteLen == 260 && a.sha256 == sha(SELECTOR + receipt.rawProof)
  {
    hide CheckBindings, Scan, FirstMissing, ValidateArtifact, SortByKind, Find;
    ArtifactsAccepted(p.artifacts);
    CompleteIffDistinctAndCovering(p.artifacts);
    FindInComplete(p.artifacts, BoundlessSeal);
    SortSorts(p.artifacts);
    SameMembers(SortByKind(p.artifacts), p.artifacts);
    assert Find(p.artifacts, BoundlessSeal).value in SortByKind(p.artifacts);
  }

  lemma ManifestBindings(sha: Sha256, p: Params, receipt: Receipt)
    requires New(sha, p, receipt).Built?
    ensures var m := New(sha, p, receipt).manifest;
            && m.publicScalar == receipt.publicScalar == p.expectedPublicScalar
            && m.claimDigest == receipt.claimDigest && m.statementDigest == receipt.journal
  {
    hide Scan, FirstMissing, ValidateArtifact, SortByKind, ValidateRequest, Find, IsZero;
  }

  /** The binding chain: in a manifest built from a parsed receipt, the public scalar, the claim
      digest and the graph's expected scalar are one value below the field order, and the
      statement digest is the journal. */
  lemma BindingChain(
    sha: Sha256, p: Params, seal: bytes, journal: bytes, claimDigest: bytes, inputs: seq<bytes>)
    requires ParseSeal(seal, journal, claimDigest, inputs).Success?
    requires New(sha, p, ParseSeal(seal, journal, claimDigest, inputs).value).Built?
    ensures var m := New(sha, p, ParseSeal(seal, journal, claimDigest, inputs).value).manifest;
            && m.publicScalar == m.claimDigest == p.expectedPublicScalar == claimDigest
            && m.statementDigest == journal
            && inputs == [m.publicScalar]
            && (exists a :: a in m.artifacts && a.kind == BoundlessSeal && a.byteLen == 260 && a.sha256 == sha(seal))
  {
    hide New, ParseSeal;
    var receipt := ParseSeal(seal, journal, claimDigest, inputs).value;
    OneScalar(seal, journal, claimDigest, inputs);
    SealRoundTrip(seal, journal, claimDigest, inputs);
    ManifestBindings(sha, p, receipt);
    SealArtifact(sha, p, receipt);
  }
}
