# Bark / Shinigami / ZK-BitVM showcase: a Dafny model

A model of the showcase's decision logic, with proofs about it. `dafny verify dfyconfig.toml`
checks the whole project.

The showcase turns a Bark spend into one canonical binary statement, binds that statement to an
oracle, to a Boundless receipt and to a claim manifest, and lets a trusted cosigner decide, from an
independent verifier's attestation, whether an operator's proposal gets its fast-settlement
signature. A second program audits what the cosigner emitted. The model follows these parts.

- **Statements** (`Prelude`, `LittleEndian`, `EnvelopeGrammar`, `EnvelopeLaws`, `EnvelopeLimits`,
  `EnvelopeStatements`, `EnvelopeCodec`, `EnvelopeLayout`, `TaggedSha256`). `EnvelopeGrammar` gives the wire format
  twice, once as printers and once as parsers, and `EnvelopeLaws` proves that they describe one
  language: round trip, soundness and stability under extension, field by field. `EnvelopeCodec`
  has the reader with its moving offset and the growing output buffer, proved against that grammar.
  `EnvelopeStatements` has the theorems: one statement, one byte string; no statement is a prefix of
  another; and, for every error, exactly which inputs get it. `EnvelopeLayout` draws the encoding
  byte by byte, without printers.
- **Oracle messages** (`OraclePreimage`): the bytes signed are the bytes the statement commits to.
- **Host preflight** (`HostValidation`, `HostVerdicts`): checked arithmetic decides exactly what the
  integers decide, and one oracle attestation settles one way.
- **Legacy claim binding** (`LinearBinding`, `ClaimVerification`, `JsBinding`): which claims verify,
  in plain arithmetic, the complete kernel of the affine binding
  over the Cairo field, and the agreement of its Cairo version and its two JavaScript versions.
- **Receipts and manifests** (`BigEndian`, `BoundlessReceipt`, `ReleaseUrl`, `ClaimManifest`,
  `ManifestAcceptance`): what a receipt and a manifest are built from, exactly, and what they say.
- **Timing and bond policy** (`Enforcement`): the policy check is a guarantee about every dispute.
- **Cosigner gate** (`JsText`, `Utf8Encoding`, `CanonicalJson`, `JsonReader`, `JsTaggedHash`,
  `KeyLists`, `CosignerPolicy`, `CosignerGate`, `GateSafety`, `HonestPath`, `ClaimDigest`,
  `ClaimText`, `GateObjects`, `GateAcceptance`, `GateReasons`, `GateCases`). JSON text, UTF-8 and
  tagged hashing are real functions, proved injective and read back by independent decoders. `CosignerGate.Verdict` is the decision on one
  proposal, class `TrustedGate` keeps the consumed nonces, and `GateSafety` reasons about runs that
  interleave attestation requests and proposals of arbitrary content in any order. `GateAcceptance`
  says which proposals are accepted, with every name and value of the exchanged objects spelled out,
  and `GateCases` which artifacts that means in the showcase's own cases.
- **Evidence audit** (`EvidenceAudit`, `AuditAcceptance`): what the gate accepts, the auditor accepts,
  which evidence passes, and for whom a passing audit speaks.
- **Cairo byte arrays** (`CairoByteArray`).

## Assumptions

SHA-256 is a function parameter of which nothing is assumed: every theorem that rests on it concludes
that two inputs are equal or names two different inputs with one digest. Ed25519 verification is a
parameter too. The safety theorem over runs assumes of it only that a signature which verifies under
the pinned key, on an attestation put to the gate, is over a message the verifier had signed before.
The theorem about audited evidence assumes that whatever verifies under a key with the verifier's id
was signed by the verifier. The theorems about accepted proposals and audited evidence require that
no JSON object repeats a key, as JavaScript guarantees.

## Where a plain property needs a condition

- The gate consumes a nonce before it reads the receipt off the signed graph (lines 902 and 918-925
  of `trusted-cosigner-gate.js`); an exception in between is a rejection that spends the nonce. For
  proposals of plain data the only source of such an exception is UTXORef, which is not part of this
  model: a graph that passes its verification and yet lacks a field read there. Whether it can return
  one is not known here. So "consumed means accepted" holds of a run exactly when every receipt that
  was due could be read (`GateSafety.ConsumedIsAcceptedExactly`); what a failure would do is
  `GateSafety.UnreadableReceiptBurns`, and what holds of every run is `GateSafety.NonceConservation`.
- The gate's test that an object has the expected keys, joining the sorted keys with `|`, is exact
  together with the presence of every expected key and not without it
  (`KeyLists.JoinAndPresenceAreExact`, `KeyLists.JoinAloneIsNotExact`,
  `CosignerPolicy.SchemaJoins`). The per-field checks ask for every key, so whatever the gate
  normalises has exactly the right keys (`EvidenceAudit.MaterialAgrees` and the lemmas after it).
- The oracle digests cast lengths to `u32` unchecked (lines 523-533 of `src/demo.rs`). Taken by
  themselves, preimages are unambiguous exactly as long as the payout rows stay under 2^32 bytes
  (`OraclePreimage.UnambiguousExactly`). Every statement that reaches the host's oracle check is
  within that bound, by its weight limit (`HostValidation.AskedSettlementsAreShort`), so one
  attestation digest serves one settlement (`HostValidation.OneDigestOneSettlement`).
- The auditor takes the verifier's public key from the evidence it audits and compares it only with
  other fields of the same file (lines 113-116 and 159-175 of `verify-blue-evidence.js`). Evidence
  from a verifier and a policy of one's own therefore passes
  (`HonestPath.SelfIssuedEvidencePasses`). A passing audit speaks for a given verifier exactly when
  the key id the evidence reports is that verifier's (`EvidenceAudit.AuditedSignerExactly`), which a
  policy hash known from elsewhere settles (`EvidenceAudit.PinnedPolicyPinsTheKey`).
- The linear binding has collisions by construction; `LinearBinding.BindingKernel` and
  `LinearBinding.VerifiedClaimsKernel` say exactly which, and `ClaimDigest.KernelForgeryIsCaught`
  that the gate's full digest admits none of them.

## Model

| member | source | states |
|---|---|---|
| EnvelopeStatements.CodecIsABijection | src/envelope.rs:100-218 | Encoding a statement yields a byte string exactly when decoding that string yields the statement, for both roles and all list lengths: the codec is a bijection between encodable statements and decodable strings. |
| EnvelopeStatements.StatementsAreUnique | src/envelope.rs:132-218 | No two byte strings decode to one statement. |
| EnvelopeStatements.EncodingsAreDistinct | src/envelope.rs:100-130 | No two statements encode to one byte string. |
| EnvelopeStatements.PrefixFree | src/envelope.rs:132-218 | A decodable string is never a prefix of another one. |
| EnvelopeStatements.StrictPrefixIsTruncated | src/envelope.rs:378-389 | Every strict prefix of a decodable string is rejected as truncated, and as nothing else. |
| EnvelopeStatements.StrictExtensionIsTrailing | src/envelope.rs:198-200 | Every strict extension within 16 MiB is rejected for its trailing bytes, and for nothing else. |
| EnvelopeStatements.TrailingBytesExactly | src/envelope.rs:198-200 | Trailing bytes are reported if and only if some strict prefix is a decodable string. |
| EnvelopeStatements.ErrorsAreFinal | src/envelope.rs:132-218 | Apart from truncation, no error changes when more bytes arrive. |
| EnvelopeStatements.HeaderErrorsExactly | src/envelope.rs:136-144 | Within 16 MiB, bad magic, a wrong version and an unknown claim kind are reported if and only if the first seven bytes say so, with the offending value; nothing behind the header, and nothing longer, raises them. |
| EnvelopeStatements.TruncatedExactly | src/envelope.rs:378-389 | Truncation is reported if and only if the input is within 16 MiB and its verdict is still open: some continuation reads differently. |
| EnvelopeStatements.OversizedExactly | src/envelope.rs:413-417 | A field is reported oversized if and only if the input is within 16 MiB, begins the printed form of a statement whose first exceeded limit is that field's, and no continuation can change the verdict. |
| EnvelopeStatements.TopLevelErrorsExactly | src/envelope.rs:132-135 | The whole input is reported oversized exactly beyond 16 MiB, and no length overflow is ever reported. Together with the exact results on the other errors this characterises everything the decoder reports. |
| EnvelopeStatements.DecoderEnforcesLimits | src/envelope.rs:413-422 | The decoder enforces the encoder's limits: whatever statement is printed, its lengths fitting 32 bits, is read back or refused for the very field, first in the same order, that the encoder refuses it for. |
| EnvelopeStatements.EncodeSuccessCondition | src/envelope.rs:100-130 | Encoding succeeds if and only if every field is within its limit and the closed-form length is at most 16 MiB, and then has that length; every failure is an oversize, never a length overflow. |
| EnvelopeStatements.LimitCheckIsFits | src/envelope.rs:224-261 | The ordered limit checks pass exactly for the statements the format can carry. |
| EnvelopeStatements.FinalLimitCheckNeverFails | src/envelope.rs:216 | The decoder's closing limit check passes on everything the parser takes. |
| EnvelopeLaws.EnvelopeRoundTrip | src/envelope.rs:132-197 | Parsing a printed statement, whatever bytes follow, gives back the statement and exactly those bytes. |
| EnvelopeLaws.EnvelopeSound | src/envelope.rs:132-197 | Whatever the parser takes is the printed form of its result, and the result is within every limit. |
| EnvelopeLaws.EnvelopeStable | src/envelope.rs:378-389 | Unless the parser ran out of input, more input changes nothing but what is left over. |
| EnvelopeLaws.EnvelopeSize | src/envelope.rs:100-130 | The closed-form length of a printed statement, sums over prevouts and payouts included. |
| EnvelopeLaws.BodyErrors | src/envelope.rs:145-197 | Behind the header only truncation and oversized fields are reported, never the whole-message limit. |
| EnvelopeLimits.EnoughIsDecided | src/envelope.rs:378-389 | No input is so long that it is still reported truncated: the limits bound what the parser can ask for. |
| EnvelopeLimits.EnvelopeCompletes | src/envelope.rs:145-197 | Whatever stands behind a good header begins the printed form of some statement whose lengths fit 32 bits. |
| EnvelopeLaws.RowsRoundTrip | src/envelope.rs:152-159 | A counted list of coins of any length is read back as printed. |
| EnvelopeLaws.RowsSound | src/envelope.rs:152-159 | A list read has the count asked for, fits its limits and is what was printed. |
| EnvelopeLaws.EvidenceRoundTrip | src/envelope.rs:263-293 | Role evidence of either kind is read back as printed. |
| EnvelopeLaws.EvidenceSound | src/envelope.rs:163-191 | Evidence read is of the announced kind, within its limits, and what was printed. |
| EnvelopeCodec.Reader.constructor | src/envelope.rs:370-372 | A new reader has the whole input ahead of it. |
| EnvelopeCodec.Reader.IsFinished | src/envelope.rs:374-376 | Finished exactly when nothing remains. |
| EnvelopeCodec.Reader.Take | src/envelope.rs:378-389 | Takes exactly the next bytes and leaves the rest, or fails as truncated with the offset unmoved; the offset never goes back or out of bounds. |
| EnvelopeCodec.Reader.U8 | src/envelope.rs:397-399 | Reads one byte, or fails as truncated. |
| EnvelopeCodec.Reader.U16 | src/envelope.rs:401-403 | Reads a little-endian 16-bit word, as the grammar does. |
| EnvelopeCodec.Reader.U32 | src/envelope.rs:405-407 | Reads a little-endian 32-bit word, as the grammar does. |
| EnvelopeCodec.Reader.U64 | src/envelope.rs:409-411 | Reads a little-endian 64-bit word, as the grammar does. |
| EnvelopeCodec.Reader.Count | src/envelope.rs:413-417 | Reads a count and rejects one above its limit, before anything counted is read. |
| EnvelopeCodec.Reader.Bytes | src/envelope.rs:419-422 | Reads a length-prefixed field within its limit. |
| EnvelopeCodec.Reader.Row | src/envelope.rs:155-158 | Reads an amount and a script. |
| EnvelopeCodec.Reader.Coins | src/envelope.rs:152-159 | The counted loop returns exactly the list the grammar's recursive parser returns, or its error. |
| EnvelopeCodec.DecodeHeader | src/envelope.rs:136-144 | Magic, version and kind, with the grammar's error for each. |
| EnvelopeCodec.DecodeContext | src/envelope.rs:160-162 | The three context words. |
| EnvelopeCodec.DecodeEvidence | src/envelope.rs:163-191 | The evidence of the announced kind, as the grammar parses it. |
| EnvelopeCodec.DecodePins | src/envelope.rs:192-197 | The four artifact pins. |
| EnvelopeCodec.DecodeBody | src/envelope.rs:145-217 | Everything behind the header, as the grammar parses it. |
| EnvelopeCodec.Decode | src/envelope.rs:132-218 | The cursor-based decoder computes the specified decoding on every input, errors included. |
| EnvelopeCodec.CheckScripts | src/envelope.rs:237-243 | The loop over scripts fails exactly when some script is too long. |
| EnvelopeCodec.ValidateLimits | src/envelope.rs:224-261 | The imperative limit checks report the first violated limit in the specified order. |
| EnvelopeCodec.Buffer.constructor | src/envelope.rs:102 | A new output buffer is empty. |
| EnvelopeCodec.Buffer.Extend | src/envelope.rs:103 | Appends the bytes. |
| EnvelopeCodec.Buffer.PutInt | src/envelope.rs:346-356 | Appends a little-endian word. |
| EnvelopeCodec.Buffer.PutLength | src/envelope.rs:342-344 | Appends a 32-bit length, or reports an overflow and appends nothing, exactly at 2^32. |
| EnvelopeCodec.Buffer.PutBytes | src/envelope.rs:358-362 | Appends a length-prefixed field, or reports an overflow and appends nothing. |
| EnvelopeCodec.Buffer.PutCoin | src/envelope.rs:115-116 | Appends an amount and a script; within the limits it cannot fail. |
| EnvelopeCodec.Buffer.PutCoins | src/envelope.rs:113-117 | The loop appends exactly the counted table the grammar prints. |
| EnvelopeCodec.EncodeHead | src/envelope.rs:103-108 | Appends magic, version, kind and the three identities. |
| EnvelopeCodec.EncodeInputs | src/envelope.rs:109-117 | Appends the three blobs, the input index and the prevout table. |
| EnvelopeCodec.EncodeContext | src/envelope.rs:118-120 | Appends the three context words. |
| EnvelopeCodec.EncodeEvidence | src/envelope.rs:263-293 | Appends the evidence of either kind; within the limits it cannot fail. |
| EnvelopeCodec.EncodePins | src/envelope.rs:122-125 | Appends the four pins. |
| EnvelopeCodec.Encode | src/envelope.rs:100-130 | The buffer-based encoder computes the specified encoding on every statement, errors included. |
| EnvelopeLayout.EncodedLayout | src/envelope.rs:100-130 | Encoding yields a string if and only if every field is within its literal limit, the string is at most 16 MiB, and it is, piece by piece, the header bytes, the identities, the counted fields, the little-endian words, the prevout table, the evidence and the pins. |
| EnvelopeLayout.FixedOffsets | src/envelope.rs:103-125 | A decodable string begins with `BZBV`, the bytes 1 and 0 and the kind, has the genesis hash, the nonce and the VTXO id at offsets 7, 39 and 71, and ends with the four pins in its last 128 bytes. |
| EnvelopeLayout.FourBytes | src/envelope.rs:346-356 | The first four bytes of a little-endian word are the four low bytes of the number, lowest first. |
| EnvelopeLayout.TableIsPut | src/envelope.rs:113-117 | A printed table is its count in four bytes and, for each row, the amount in eight, the script length in four and the script. |
| TaggedSha256.TaggedDigestBinds | src/envelope.rs:296-303 | Equal tagged digests mean equal tags and messages, or a SHA-256 collision. |
| TaggedSha256.StatementDigestBinds | src/envelope.rs:220-222 | A statement digest names one statement, or exhibits a collision. |
| HostVerdicts.StatementDigestIsTagged | src/envelope.rs:220-222 | The digest of an encodable statement is SHA-256 of twice the hash of `BarkZkBitvm/StatementV1` and its wire bytes. |
| OraclePreimage.EncodePayouts | src/demo.rs:529-536 | The builder's loop, with its unchecked casts, appends exactly the payout table of the statement format, whose length words keep the low 32 bits. |
| OraclePreimage.OracleAnnouncementDigest | src/demo.rs:513-518 | The announcement digest is the tagged digest of the event and its payout table. |
| OraclePreimage.OracleAttestationDigest | src/demo.rs:520-527 | The attestation digest is the tagged digest of the event, the outcome and the payout table. |
| OraclePreimage.SignsTheCommittedBytes | src/envelope.rs:280-289 | The attestation preimage is the encoded evidence without its 160 key and signature bytes: the event, then the tail that starts at the outcome. |
| OraclePreimage.LimitsMakeCastsExact | src/envelope.rs:248-255 | Under the statement's limits no cast of the digest builders loses a bit. |
| OraclePreimage.AttestationPreimageInjective | src/demo.rs:520-527 | Where the payout rows stay under 2^32 bytes, a preimage names one event, one outcome and one payout table, however long the outcomes. |
| OraclePreimage.UnambiguousExactly | src/demo.rs:520-536 | The exact bound: no two settlements with payout rows of fewer than n bytes share a preimage if and only if n is at most 2^32, for outcomes of any length. |
| OraclePreimage.AttestationDigestBinds | src/demo.rs:520-527 | Under the same bound the digest binds event, outcome and payouts, or exhibits a collision. |
| OraclePreimage.LongOutcomeCollides | src/demo.rs:523-533 | The bound is sharp for the builder taken by itself: at 2^32 bytes of rows, an outcome of 2^32 bytes without payouts has the preimage of an empty outcome with one payout. No caller passes such inputs. |
| OraclePreimage.TagsSeparate | src/demo.rs:513-527 | A digest is never both an announcement's and an attestation's, unless a collision is exhibited. |
| HostVerdicts.OracleMessages | src/demo.rs:513-536 | Within the limits, the announcement is the tagged hash of event and payout table and the attestation that of event, counted outcome and payout table, under their literal tags and in the wire layout. |
| HostVerdicts.EventIsTagged | src/demo.rs:297 | The pinned event is the tagged hash of the literal event name. |
| HostValidation.SumOutputs | src/demo.rs:262-265 | The loop computes the checked fold. |
| HostValidation.OutputSumIsExact | src/demo.rs:262-265 | The checked fold is the integer sum when that fits 64 bits, and fails only when it does not. |
| HostValidation.PayoutsMatch | src/demo.rs:311-320 | The element-by-element comparison succeeds exactly for equal tables. |
| HostValidation.SequenceIsBip68 | src/demo.rs:249-255 | The three bit tests accept exactly the sequence numbers that encode a block-based relative lock of at least the exit delay, as the Specification section of BIP 68 defines it. |
| HostValidation.OwnerPathIsOwnerSigned | src/demo.rs:471-511 | The owner path authorises exactly a witness of signature, delayed-sign script and its control block, whose signature by the owner's key is over the sighash of this spend and prevout. |
| HostValidation.HostAcceptanceIsExact | src/demo.rs:185-357 | The host accepts if and only if the statement is well formed, the owner's key signed the spend on its delayed leaf, the evidence matches and, for a virtual CET, the pinned oracle signed the announcement and attestation digests; the relative lock suffices, the height is at least confirmation plus exit delay and the outputs sum to at most the VTXO amount, all in unbounded integers. |
| HostVerdicts.WholeVerdict | src/demo.rs:185-357 | All four parts of a verdict: the VTXO is reported valid exactly when it decodes and matches its anchor, the spend exactly when the statement is sound, oracle evidence as valid exactly for accepted virtual CETs and otherwise not at all, and the reason is success exactly for sound statements. |
| HostVerdicts.ReasonIsFirstObjection | src/demo.rs:185-357 | The reason of a rejection is the first objection in a fixed order, stated over unbounded integers: to decoding, to what the statement says, to its spend, to the evidence of its role. |
| HostValidation.AcceptedCetConservesValue | src/demo.rs:305-320 | An accepted virtual CET pays out the spend's outputs, element by element, and in total no more than its only prevout. |
| HostValidation.AcceptedCetIsAttested | src/demo.rs:341-354 | An accepted virtual CET carries the pinned oracle's signatures over the digests of exactly its event, its outcome and the spend's outputs. |
| HostValidation.AskedSettlementsAreShort | src/demo.rs:237-242 | The weight limit keeps the payout rows of every statement that reaches the oracle check within 400,000 bytes, far inside the bound of unambiguous preimages. |
| HostValidation.OneDigestOneSettlement | src/demo.rs:305-354 | One attestation digest serves one settlement: statements checked against one digest have one outcome and one list of spend outputs, or a collision is exhibited. |
| HostValidation.OneAttestationOneSettlement | src/demo.rs:185-357 | If the pinned oracle signed one announcement and one attestation, all accepted virtual CETs settle alike, in outcome and in outputs, or a collision is exhibited. |
| LinearBinding.ComputeTaprootPathFold | cairo/src/lib.cairo:73-88 | The unrolled fold is the recursive fold over the first `depth` siblings, error included; `ClaimVerification.PathFoldExactly` says what that fold computes. |
| LinearBinding.UnusedSlotsAreInvisible | cairo/src/lib.cairo:115-129 | Claim verification gives the same result for any contents of sibling slots at or beyond the depth. |
| LinearBinding.MixResidues | cairo/src/lib.cairo:46-48 | Mixing commutes with reduction modulo the prime. |
| LinearBinding.TreeIsAffine | cairo/src/lib.cairo:104-112 | The tree of mixes is one weighted sum of the fields plus a constant, modulo the prime. |
| LinearBinding.BindingIsAffine | cairo/src/lib.cairo:90-113 | The binding of a claim is that weighted sum of its fields. |
| LinearBinding.BindingKernel | cairo/src/lib.cairo:90-113 | Claims with one path fold and supported roles have equal bindings if and only if their weighted sums are equal integers, whatever the limbs, amount and delay: the modulus never helps. |
| LinearBinding.AmountDelayKernel | cairo/src/lib.cairo:109-112 | Changing only amount and delay is invisible if and only if the delay changes by -31 times the change in amount. |
| LinearBinding.SettlementLimbKernel | cairo/src/lib.cairo:102 | Changing only the settlement limbs is invisible if and only if the change is an integer multiple of (17, -31). |
| LinearBinding.VerifiedForgeries | cairo/src/lib.cairo:115-129 | Exactly which other amounts and delays a verified claim admits. |
| LinearBinding.SettlementForgeries | cairo/src/lib.cairo:115-129 | Exactly which other settlement limbs a verified claim admits. |
| LinearBinding.VerifiedClaimsKernel | cairo/src/lib.cairo:115-129 | Any two verified claims, whatever their folds, carry one binding if and only if their weighted sums differ by a multiple of the prime, at most 277729 of them. |
| LinearBinding.MixInjectiveLeft | cairo/src/lib.cairo:46-48 | Mixing is injective in its left argument, by the inverse of 31. |
| LinearBinding.MixInjectiveRight | cairo/src/lib.cairo:46-48 | Mixing is injective in its right argument, by the inverse of 17. |
| LinearBinding.SingleFieldChange | cairo/src/lib.cairo:90-113 | Changing one of the 25 fields, to any integer, leaves the binding unchanged if and only if the field is not bound or the change is a multiple of the prime. |
| ClaimVerification.BranchIsAffine | cairo/src/lib.cairo:64-71 | One branch weighs a left sibling 31 and the running value 17, a right sibling 17 and the running value 31, over the integers modulo the prime; it fails exactly for a side that is neither 0 nor 1. |
| ClaimVerification.FoldIsAffine | cairo/src/lib.cairo:73-88 | Folding any path is one affine function of the starting value, with the product of the running weights and the weighted sum of the siblings, and fails exactly when some side is not a bit. |
| ClaimVerification.PathFoldExactly | cairo/src/lib.cairo:73-88 | The path fold of a claim is that affine value of its leaf and used siblings, or the bad-side error exactly when some used side is not a bit. |
| ClaimVerification.FoldOfThree | cairo/src/lib.cairo:73-88 | That value written out over the fields of a claim of full depth. |
| ClaimVerification.BindingWeights | cairo/src/lib.cairo:90-113 | The weights of the binding tree, as literal numbers, over the fields of a claim. |
| ClaimVerification.VerifyClaimExactly | cairo/src/lib.cairo:115-129 | A claim verifies if and only if its role is 1 to 5, its amount and delay are positive, its depth is at most 3, its used sides are bits, and its fold and its binding are the affine values of its fields modulo the literal prime; it then returns 1, its role and its binding. |
| ClaimVerification.VerifyClaimReasons | cairo/src/lib.cairo:115-129 | Which error a claim gets that fails several of these conditions. |
| ClaimVerification.ShippedClaimsVerify | fixtures/owner_csv_exit.input.json:1-27 | The three claims the repository ships verify, two of them at depth 3 with siblings on both sides. |
| JsBinding.ModPrimeIsResidue | red-team-attacks.js:70-73 | A remainder that rounds toward zero, corrected once, is the residue for every integer. |
| JsBinding.JsMixIsMix | red-team-attacks.js:75-77 | The JavaScript mix of any integers is the field mix of their residues. |
| JsBinding.JsBindingsAgree | trusted-cosigner-gate.js:159-177 | Both JavaScript bindings equal the field computation on every list of 25 integers. |
| JsBinding.JsBindingsMatchCairo | red-team-attacks.js:83-97 | Both equal the Cairo binding of every claim. |
| JsBinding.ChangedIndexes | red-team-attacks.js:103-109 | Lists the indexes that differ, all of them, in increasing order. |
| JsBinding.Substitute | red-team-attacks.js:136 | The copied claim differs from the original in the two replaced slots only. |
| JsBinding.ReproduceAmountDelayCollision | red-team-attacks.js:135-170 | The probe on 25 strings returns the claim with one satoshi more and 31 blocks less in hexadecimal, if both are in range, the original satisfies its binding, and the collision's digest is the pinned one and differs from the original's, and fails otherwise; its binding and changed-field checks never fail. |
| JsBinding.ReproduceSettlementLimbCollision | red-team-attacks.js:172-207 | The same for the settlement limbs. |
| JsBinding.AmountDelayInvisible | red-team-attacks.js:139-150 | One satoshi more and 31 blocks less never change the JavaScript binding. |
| JsBinding.SettlementLimbsInvisible | red-team-attacks.js:176-187 | Adding (17, -31) to the settlement limbs never changes it. |
| ClaimText.CairoHexReadsBack | red-team-attacks.js:99-101 | The hexadecimal form of a number is `0x` and lowercase digits without leading zeros, which read back as the number. |
| ClaimText.SomeParserReadsHex | red-team-attacks.js:99-101 | So the premise of the probes about number parsing can be met. |
| BigEndian.LexicographicIsNumeric | src/boundless.rs:100 | Array order of equally long byte strings is the order of the numbers they write big-endian. |
| BoundlessReceipt.ModulusValue | src/boundless.rs:20-23 | The modulus bytes write the order of the BN254 scalar field. |
| BoundlessReceipt.CanonicalIffBelowModulus | src/boundless.rs:93-104 | A 32-byte scalar is accepted if and only if its value is below the modulus. |
| BoundlessReceipt.EveryResidueHasAScalar | src/boundless.rs:93-104 | Every residue has an accepted string. |
| BoundlessReceipt.CongruentScalarsAreEqual | src/boundless.rs:93-104 | Accepted strings that are congruent modulo the field order are identical. |
| BoundlessReceipt.Seal | src/boundless.rs:219-224 | The buffer filled in place is the selector followed by the proof. |
| BoundlessReceipt.SealRoundTrip | src/boundless.rs:124-224 | Sealing a parsed receipt gives back the original 260 bytes, and parsing those gives back the receipt. |
| BoundlessReceipt.OneScalar | src/boundless.rs:144-197 | In a parsed receipt the claim digest, the public scalar and the only public input are one value below the field order. |
| BoundlessReceipt.ParseSealExactly | src/boundless.rs:124-197 | A seal parses if and only if it has 260 bytes of which the first four are the literal selector, journal and claim digest have 32, and the claim digest, as a number below the field order, is the only public input; the receipt repeats journal, claim digest, scalar and proof. |
| BoundlessReceipt.ParsePartsReason | src/boundless.rs:144-197 | Which error is reported when several parts are wrong. |
| BoundlessReceipt.EncodeHex | src/boundless.rs:227-235 | The loop writes the lowercase hexadecimal form. |
| BoundlessReceipt.HexInjective | src/boundless.rs:227-235 | Different bytes have different hexadecimal forms. |
| BoundlessReceipt.HexDigits | src/boundless.rs:227-235 | Every byte is written as two digits, high nibble first, from `0` to `9` and `a` to `f`. |
| ReleaseUrl.OwnerAndName | src/bitvm2_manifest.rs:426-445 | A validated repository is the GitHub prefix, a safe owner, a slash and a safe name that does not end in `.git`. |
| ReleaseUrl.OwnerAndNameSuffice | src/bitvm2_manifest.rs:426-445 | Every such owner and name make a validated repository. |
| ReleaseUrl.UrlParsesUniquely | src/bitvm2_manifest.rs:81-97 | Validated locations with equal download URLs have equal repository, tag and file name. |
| ReleaseUrl.PlainPathsAreFixed | src/bitvm2_manifest.rs:451-458 | A path of segments that hold no slash and are not dot segments is a fixed point of dot-segment removal, as section 5.2.4 of RFC 3986 defines it. |
| ReleaseUrl.UrlPathIsNormal | src/bitvm2_manifest.rs:81-97 | So is the path of every validated download URL. |
| ClaimManifest.SharedUrl | src/bitvm2_manifest.rs:81-97 | Validated artifacts at one URL name the same repository, tag and file. |
| ClaimManifest.ScanArtifacts | src/bitvm2_manifest.rs:334-342 | The loop over artifacts with its growing set of kinds computes the recursive scan, including which error comes first. |
| ClaimManifest.CheckRequired | src/bitvm2_manifest.rs:343-347 | Reports the first required kind that is missing, in the required order. |
| ClaimManifest.NewManifest | src/bitvm2_manifest.rs:292-388 | Construction returns the specified manifest or error, and never panics; `ManifestAcceptance.BuiltExactly`, `ManifestFields` and `RefusalOrder` say which. |
| ClaimManifest.ScanOutcome | src/bitvm2_manifest.rs:334-342 | The scan succeeds if and only if all artifacts are valid and no kind occurs twice or was seen before, and returns exactly the kinds seen. |
| ClaimManifest.ArtifactsAccepted | src/bitvm2_manifest.rs:334-347 | Scan and coverage check together accept exactly the lists of eight valid artifacts that cover all kinds. |
| ClaimManifest.FindInComplete | src/bitvm2_manifest.rs:349-353 | In such a list the search for a kind finds its only artifact. |
| ClaimManifest.NeverPanics | src/bitvm2_manifest.rs:349-368 | Neither `expect` can fail, for any parameters. |
| ClaimManifest.SortSorts | src/bitvm2_manifest.rs:373-374 | Sorting by kind orders the list and keeps its multiset. |
| ClaimManifest.SortedPermutations | src/bitvm2_manifest.rs:373-374 | All permutations of a complete list sort to one list. |
| ClaimManifest.ManifestHasEveryKindOnce | src/bitvm2_manifest.rs:334-387 | A manifest holds the eight required kinds once each, in the required order, and exactly the given artifacts. |
| ClaimManifest.OrderDoesNotMatter | src/bitvm2_manifest.rs:292-388 | A permutation of the artifacts is accepted if and only if the original is, and yields the same manifest. |
| ClaimManifest.SealArtifact | src/bitvm2_manifest.rs:349-362 | A manifest holds a seal artifact of 260 bytes whose hash is that of the receipt's seal. |
| ClaimManifest.ManifestBindings | src/bitvm2_manifest.rs:316-387 | A manifest's scalar, claim digest and statement digest are the receipt's, and the scalar is the one the graph expects. |
| ClaimManifest.BindingChain | src/bitvm2_manifest.rs:316-387 | For a parsed receipt, the manifest's public scalar, its claim digest and the graph's expected scalar are one value, its statement digest is the journal, and its seal artifact hashes the original seal. |
| ManifestAcceptance.RepositoryExactly | src/bitvm2_manifest.rs:426-445 | A repository is accepted if and only if it is the literal GitHub prefix, a plain owner name, a slash and a plain name that does not end in `.git`. |
| ManifestAcceptance.ArtifactExactly | src/bitvm2_manifest.rs:81-105 | An artifact is valid if and only if it is a non-empty release file with a nonzero hash and a 40-digit commit at its canonical URL; otherwise the first failing condition is reported. |
| ManifestAcceptance.RequestExactly | src/bitvm2_manifest.rs:130-148 | A request is accepted if and only if its chain is one of the two literal testnets, its contract and id are nonzero and its commit has 40 hexadecimal digits; otherwise the first failing condition is reported. |
| ManifestAcceptance.BindingsExactly | src/bitvm2_manifest.rs:296-332 | The checks before the artifacts pass if and only if nonce and critical digests are nonzero, journal and claim digest are the parameters, there is one public input, the expected scalar is below the literal field order and is the receipt scalar, and the request is accepted. |
| ManifestAcceptance.BindingsReason | src/bitvm2_manifest.rs:296-332 | Which error is reported when several bindings are broken. |
| ManifestAcceptance.BuiltExactly | src/bitvm2_manifest.rs:292-388 | A manifest is built if and only if the bindings hold, the artifacts are eight valid release files, one of each kind, the seal artifact has 260 bytes and the hash of selector and proof, and the graph artifact has the graph hash. |
| ManifestAcceptance.PublishedVerdict | src/bitvm2_manifest.rs:349-372 | With all that precedes in order, seal length, seal hash and graph hash are checked in this order, each with its own error. |
| ManifestAcceptance.RefusalOrder | src/bitvm2_manifest.rs:292-347 | Otherwise the refusal is the one of the bindings, else the one of the first bad artifact, else the first missing kind in the literal order. |
| ManifestAcceptance.ScanReason | src/bitvm2_manifest.rs:334-342 | The artifact that stops the scan is the first that is invalid or repeats a kind, and its own error is reported. |
| ManifestAcceptance.ManifestFields | src/bitvm2_manifest.rs:376-387 | Every field of a manifest is the parameter of its name; statement digest, claim digest and scalar are also the receipt values, and the artifacts are the given ones. |
| ManifestAcceptance.ManifestArtifacts | src/bitvm2_manifest.rs:349-387 | The eight places of the artifact list have their literal kinds; the seventh is the receipt seal, of 260 bytes and with its hash, the eighth has the hash the manifest reports as graph hash, and all are valid release files. |
| Enforcement.ValidateIsExact | src/enforcement.rs:36-44 | The checked arithmetic validates a policy if and only if the inequalities hold over unbounded integers. |
| Enforcement.DisputeEndsBy | src/enforcement.rs:36-44 | A dispute whose moves are all in time ends by the challenge period plus one window a round. |
| Enforcement.SlowestDispute | src/enforcement.rs:36-44 | That bound is reached, for every number of rounds allowed. |
| Enforcement.ValidateIsTheTimingGuarantee | src/enforcement.rs:36-44 | A policy validates if and only if every in-time dispute ends at least the reorg margin before operator take, and that is before emergency recovery. |
| Enforcement.BondIsExact | src/enforcement.rs:56-61 | The bond is the exact sum when it fits 64 bits, and missing only when it does not. |
| Enforcement.BondIsMonotone | src/enforcement.rs:56-61 | A policy that asks no more of anything has a bond whenever the other has, and no larger one. |
| CairoByteArray.ToCairoByteArrayFields | bitvm-assertion.js:251-262 | The loop packs the text into 31-byte words and a pending word, as the recursive packing does. |
| CairoByteArray.PackIsLossless | bitvm-assertion.js:251-262 | Unpacking gives back every byte. |
| CairoByteArray.PendingLength | bitvm-assertion.js:255-261 | The loop leaves 1 to 31 bytes pending for non-empty text, all 31 exactly at positive multiples of 31; every word fits its bytes. |
| JsText.BodyIsPrefixCode | trusted-cosigner-gate.js:128 | JSON string quoting is injective whatever follows; `JsonReader.ReadsString` says what it means. |
| JsText.StringIsPrefixCode | trusted-cosigner-gate.js:128 | A quoted string followed by anything determines the string and what follows. |
| JsText.NumberIsPrefixCode | trusted-cosigner-gate.js:128 | A decimal integer followed by a non-digit determines both. |
| JsonReader.UnitIsShortest | trusted-cosigner-gate.js:128 | Which code units are escaped, and in how many characters: the seven short escapes, six lowercase characters for other controls and lone surrogates, and one character for the rest. |
| JsonReader.NumberIsShortest | trusted-cosigner-gate.js:128 | A number is written without leading zeros. |
| JsonReader.PairIsWrittenRaw | trusted-cosigner-gate.js:128 | A surrogate pair is written as it is. |
| JsonReader.ReadsString | trusted-cosigner-gate.js:128 | A reader with the escape table of section 7 of RFC 8259 reads a quoted string back, whatever follows. |
| Utf8Encoding.ScalarIsPrefixCode | trusted-cosigner-gate.js:199-200 | The UTF-8 bytes of a code point, followed by anything, determine both. |
| Utf8Encoding.Utf8Injective | trusted-cosigner-gate.js:199-200 | UTF-8 is injective on well-formed UTF-16. |
| Utf8Encoding.Utf8Decodes | trusted-cosigner-gate.js:199-200 | A decoder after section 3 of RFC 3629 reads the UTF-8 form of any well-formed text back. |
| CanonicalJson.RenderInjective | trusted-cosigner-gate.js:125-136 | JSON text without sorting, followed by a delimiter or nothing, determines the value and what follows. |
| CanonicalJson.SortAscends | trusted-cosigner-gate.js:132 | Sorting keys gives an ascending list with the same members; `JsonReader.LessIsLexicographic` says in which order. |
| JsonReader.LessIsLexicographic | trusted-cosigner-gate.js:132 | One key comes before another if and only if they agree up to some position where the first ends and the second does not, or has the smaller code unit. |
| CanonicalJson.AscendingIsUnique | trusted-cosigner-gate.js:132 | Ascending lists with the same members are equal. |
| CanonicalJson.SortedEqualIffSameMap | trusted-cosigner-gate.js:132 | Sorting forgets insertion order and nothing else. |
| CanonicalJson.CanonIsSame | trusted-cosigner-gate.js:125-136 | Sorting keys at every depth identifies two values if and only if they are the same up to insertion order. |
| CanonicalJson.StringifyIsRender | trusted-cosigner-gate.js:125-136 | The join-based text is the rendering of the sorted value; `JsonReader.CanonicalTextReadsBack` says which text that is. |
| CanonicalJson.CanonicalTextIdentifies | trusted-cosigner-gate.js:125-136 | Two JSON values have one canonical text if and only if they are the same up to the insertion order of object keys. |
| JsonReader.CanonicalTextReadsBack | trusted-cosigner-gate.js:125-136 | An independent reader of RFC 8259 reads canonical text back as the same value up to key order, meeting the keys of every object in ascending order. |
| CanonicalJson.StringifyWellFormed | trusted-cosigner-gate.js:125-136 | Canonical text is well-formed UTF-16 even where strings hold lone surrogates. |
| JsTaggedHash.PreimageIdentifies | trusted-cosigner-gate.js:197-202 | For NUL-free tags, two tagged preimages are equal if and only if the tags are equal and the values are the same up to key order: differently tagged domains never share a preimage. |
| ClaimText.TaggedHashOfText | trusted-cosigner-gate.js:197-202 | Under an ASCII tag, what is hashed is the characters of the tag, a zero byte and the canonical text in UTF-8. |
| JsTaggedHash.TaggedHashBinds | verify-blue-evidence.js:48-53 | Equal tagged hashes bind tag and value, or exhibit a collision. |
| KeyLists.JoinAndPresenceAreExact | trusted-cosigner-gate.js:231 | An object has exactly the key set the auditor demands if and only if it passes the gate's join and has every expected key. |
| KeyLists.JoinAloneIsNotExact | trusted-cosigner-gate.js:231 | For every list of at least two names the join alone is not enough: an object whose one key spells their join passes it. |
| KeyLists.NoRoomForMore | verify-blue-evidence.js:72-75 | A list of keys that contains every name and costs no more characters is a permutation of the names. |
| CosignerPolicy.NamesDiffer | trusted-cosigner-gate.js:387-391 | The schema key lists repeat no name. |
| CosignerPolicy.SchemaJoins | trusted-cosigner-gate.js:387-394 | Both facts for each of the gate's five key lists: its join alone is not exact, and with the per-field checks, which ask for every name, it is. |
| CosignerPolicy.CoreDistinct | trusted-cosigner-gate.js:762-803 | The pinned policy core repeats no key at any depth. |
| GateCases.CoreIsLiteral | trusted-cosigner-gate.js:762-803 | The policy core with every name and value spelled out, from the domain to the security boundary. |
| GateCases.CircuitIsLiteral | trusted-cosigner-gate.js:86-103 | The authorization circuit spelled out: two AND gates over the three facts. |
| GateCases.ClaimInputsAreLiteral | trusted-cosigner-gate.js:778-791 | The claim digests pinned for the three cases, spelled out. |
| GateCases.ExpectedIsInPolicy | trusted-cosigner-gate.js:851-864 | For every case id, the digest the gate expects is the one under that case in the claim inputs of the policy core. |
| GateObjects.MaterialExactly | trusted-cosigner-gate.js:223-244 | Normalisation accepts exactly the objects that are, up to key order, artifact material with these three texts, each non-empty canonical base64. |
| GateObjects.BundleExactly | trusted-cosigner-gate.js:279-299 | Normalisation accepts exactly the artifact bundles of three digests, up to key order. |
| GateObjects.ContextExactly | trusted-cosigner-gate.js:258-277 | Normalisation accepts exactly the request contexts with two digests and two non-empty names, up to key order. |
| GateObjects.FactsExactly | trusted-cosigner-gate.js:497-510 | Normalisation accepts exactly the objects of three booleans under the three fact names, up to key order. |
| GateObjects.AttestExactly | trusted-cosigner-gate.js:337-362 | The verifier attests exactly well-formed material under a well-formed context, and signs that context with the digests of the bytes. |
| GateObjects.PayloadIsObject | trusted-cosigner-gate.js:341-352 | The signed payload, with every name and value spelled out. |
| GateCases.FactsComputed | trusted-cosigner-gate.js:318-335 | The facts from the three digests: the claim is one of the two pinned, the proof is the literal text that goes with that claim, the Shinigami artifact is the literal check text. |
| CosignerGate.ScreenedContext | trusted-cosigner-gate.js:831-836 | A verified attestation was checked against exactly the pinned policy and network and the proposal's case and nonce, both of them strings. |
| CosignerGate.TrustedGate.constructor | trusted-cosigner-gate.js:753-803 | A new gate has consumed no nonce. |
| CosignerGate.TrustedGate.Evaluate | trusted-cosigner-gate.js:818-938 | The gate returns the specified verdict and leaves the specified set of consumed nonces, on the path where the receipt throws too. |
| GateAcceptance.PolicyExactly | trusted-cosigner-gate.js:545-556 | A proposed policy passes if and only if it has the literal kind and version 1, the pinned hash, and the pinned core up to key order. |
| GateAcceptance.BoundExactly | trusted-cosigner-gate.js:386-419 | An attestation passes the field checks if and only if it is, up to key order, the attestation object of this context, key, bundle digest, claim digest and facts with some signature. |
| GateAcceptance.SignedBytes | trusted-cosigner-gate.js:353-357 | What is verified is then the canonical text of the payload object in UTF-8. |
| GateAcceptance.PresentedVerifies | trusted-cosigner-gate.js:367-443 | A proposal that presents artifacts, their digests and a signed attestation of them verifies. |
| GateAcceptance.VerifiedPresents | trusted-cosigner-gate.js:367-443 | Conversely, whatever verifies presents them. |
| GateAcceptance.AcceptedExactly | trusted-cosigner-gate.js:818-930 | The gate accepts a proposal if and only if it proposes the pinned policy and keys, presents artifacts with a signed attestation of three true facts, discloses the same, its claim text and its claim artifact have the digest pinned for its case, its nonce is fresh, and trace and graph succeed. |
| GateAcceptance.InOrderVerdict | trusted-cosigner-gate.js:872-891 | A proposal that is otherwise in order is rejected for its disclosures if they differ from the attested facts, else for its facts if they are not all true, and else accepted. |
| GateAcceptance.AcceptedReceipt | trusted-cosigner-gate.js:901-930 | The receipt of an accepted proposal, field by field, and its state mark with every name and value spelled out. |
| GateReasons.PolicyReasons | trusted-cosigner-gate.js:545-556 | Which reason a proposed policy is refused for: kind or version, its own hash, or substitution. |
| GateReasons.BindingReasons | trusted-cosigner-gate.js:386-419 | Which reason an attestation is refused for, over the literal field names. |
| GateReasons.AskedContext | trusted-cosigner-gate.js:831-836 | The context asked about is the pinned policy and network with the case and nonce of the proposal, and is well formed exactly for a non-empty case and a nonce of 64 hexadecimal digits. |
| GateReasons.AttestationReasons | trusted-cosigner-gate.js:367-443 | The attestation check refuses first for artifacts or digests that are malformed or differ, then for the request, then for the attestation and its signature. |
| GateReasons.AuthorizeReasons | trusted-cosigner-gate.js:851-900 | Behind a fresh attestation the reasons come in the order trace, claim digest, disclosures, facts, graph. |
| GateReasons.RejectionReasons | trusted-cosigner-gate.js:818-930 | Which reason a proposal is rejected for as a whole: policy, three keys, disclosures and claim, attestation, nonce, authorization, receipt; and if none applies it is accepted. |
| GateSafety.MessageIdentifies | trusted-cosigner-gate.js:353-357 | Two signed messages are equal only for payloads that are the same up to key order. |
| GateSafety.SameBundleOrCollision | trusted-cosigner-gate.js:301-306 | Equal bundle digests mean equal bundles or a collision. |
| GateSafety.VerifiedIsChecked | trusted-cosigner-gate.js:386-439 | A verified attestation passed every field check against exactly the pinned policy and network and the proposal's case and nonce, and its signature verifies under the pinned key. |
| GateSafety.CheckedIsSigned | trusted-cosigner-gate.js:386-429 | A checked attestation repeats a context, a claim digest, a bundle digest and facts that the verifier signed. |
| GateSafety.VerifiedIsVouched | trusted-cosigner-gate.js:367-443 | A verified attestation repeats something the verifier signed, for exactly this policy, network, case and nonce and these artifact digests, with the facts the verifier computed (`GateCases.FactsComputed` says which they are). |
| GateSafety.AcceptedIsSafe | trusted-cosigner-gate.js:818-930 | One accepted proposal has all the safety conditions, given what the verifier has signed so far. |
| GateSafety.AcceptedProposalsAreSafe | trusted-cosigner-gate.js:818-930 | In every interleaving of attestation requests and proposals of any content, an accepted proposal was vouched for by the pinned verifier for exactly its policy, network, case, nonce and bundle (the bundle of the supplied bytes, or a SHA-256 collision is exhibited); the facts the verifier computed are all true; its canonical claim hashes to the digest pinned for its case, which is the attested one; it proposes the pinned policy, of the literal kind, version and hash, and the pinned keys; and its nonce is fresh. `GateCases.AcceptedArtifactsAreHonest` says which artifacts that means. |
| GateCases.AcceptedArtifactsAreHonest | trusted-cosigner-gate.js:318-335 | In every run, the bytes of an accepted proposal have the claim digest pinned for its case, the digest of the literal proof text that goes with that claim and the digest of the literal check text, or a collision with a bundle the verifier signed is exhibited. |
| GateSafety.LogIsAttested | trusted-cosigner-gate.js:337-362 | The verifier has signed only what it was asked to attest, with facts recomputed from the bytes, as `GateCases.FactsComputed` says. |
| GateSafety.StepSpends | trusted-cosigner-gate.js:901-938 | A cleared proposal spends its nonce, once, on acceptance or on an unreadable receipt; every other event changes no nonce. |
| GateSafety.NonceConservation | trusted-cosigner-gate.js:845-938 | Over every run the consumed nonces are the accepted and the burned ones, each exactly once, and their number is the number of acceptances and burns. |
| GateSafety.ConsumedIsAcceptedExactly | trusted-cosigner-gate.js:902 | Consumed means accepted if and only if every receipt that was due could be read. |
| GateSafety.BurnedIffUnreadable | trusted-cosigner-gate.js:901-938 | A run burns a nonce if and only if some receipt that was due could not be read. |
| GateSafety.UnreadableReceiptBurns | trusted-cosigner-gate.js:901-938 | The failing case: if UTXORef verifies a graph that lacks a field the receipt copies, a proposal that would be accepted is rejected, spends its nonce all the same, and is rejected when it is sent again, whatever the graph then says. |
| GateSafety.ConsumedGrows | trusted-cosigner-gate.js:760 | No run forgets a consumed nonce. |
| GateSafety.NoReplay | trusted-cosigner-gate.js:845-847 | Within a run no nonce is accepted twice, whatever else the later proposal says. |
| HonestPath.DerivedBundleIsNormal | trusted-cosigner-gate.js:279-306 | Normalising a derived bundle cannot throw. |
| HonestPath.PolicyPassesOwnCheck | trusted-cosigner-gate.js:545-556 | The pinned policy passes its own validation. |
| HonestPath.AttestationBinds | trusted-cosigner-gate.js:386-419 | The verifier's own attestation passes every field check, yields the facts it computed, and gives back the signed payload when its signature is taken off. |
| HonestPath.HonestAttestationVerifies | trusted-cosigner-gate.js:367-443 | An honest attestation of canonical artifacts verifies, with the verifier's facts and bundle. |
| HonestPath.HonestProposalIsAccepted | trusted-cosigner-gate.js:950-983 | A proposal of artifacts whose computed facts are all true, with the pinned claim, a fresh nonce and a graph that verifies, is accepted. |
| HonestPath.HonestRequestIsAttested | trusted-cosigner-gate.js:337-362 | The verifier attests the honest request, to exactly its context and the bundle of its bytes. |
| HonestPath.HonestRunIsAccepted | trusted-cosigner-gate.js:950-983 | The run of such a proposal, an attestation request and then the proposal, meets every premise of the safety theorem and is accepted: safety is not vacuous. |
| GateCases.HonestCaseIsAccepted | trusted-cosigner-gate.js:943-983 | The honest run of each case is accepted: with a claim of the digest pinned for the case, the literal proof text that goes with it and the literal check text, sent as base64. |
| GateCases.FalseProofIsRefused | trusted-cosigner-gate.js:318-335 | A proposal that is otherwise in order, with a proof whose digest is not that of the proof text that goes with its claim, is refused: for its facts if it discloses them, for its disclosures otherwise. |
| ClaimDigest.ClaimTextIdentifies | trusted-cosigner-gate.js:142-148 | The canonical text of a claim determines its 25 fields. |
| ClaimText.ClaimTextIsPage | trusted-cosigner-gate.js:142-148 | The canonical text exists exactly for an array of 25 strings, and is an opening bracket, each quoted string on its own line behind two spaces, commas between lines, and a closing bracket and line feed. |
| ClaimDigest.PinnedClaimIsOneClaim | trusted-cosigner-gate.js:862-871 | Two accepted proposals for cases with one pinned digest carry the same claim in every field, or exhibit a collision. |
| ClaimDigest.DifferentFieldsCollide | trusted-cosigner-gate.js:829-871 | Two proposals accepted under one pinned digest have claims that read as the same 25 numbers, or exhibit a collision. |
| ClaimDigest.KernelChangeIsInvisible | trusted-cosigner-gate.js:159-195 | All multiples of both probes' shifts leave both JavaScript bindings unchanged. |
| ClaimDigest.KernelForgeryIsCaught | trusted-cosigner-gate.js:862-871 | A claim that differs from an accepted one by a change the linear binding cannot see, in amount and delay or in the settlement limbs, has the same binding and is not accepted for the same digest unless a collision is exhibited. |
| EvidenceAudit.MaterialAgrees | verify-blue-evidence.js:118-131 | Artifact material the gate normalises passes the auditor's exact-key and base64 checks and yields the same bundle. |
| EvidenceAudit.AttestationKeysAgree | verify-blue-evidence.js:140-144 | An attestation that passes the gate's checks has exactly the keys the auditor demands. |
| EvidenceAudit.FactKeysAgree | verify-blue-evidence.js:147-150 | So have normalised facts. |
| EvidenceAudit.BundleKeysAgree | trusted-cosigner-gate.js:279-299 | A bundle that passes normalisation has exactly its keys. |
| EvidenceAudit.ContextKeysAgree | trusted-cosigner-gate.js:258-277 | So has a request context. |
| EvidenceAudit.FactsKept | verify-blue-evidence.js:190-191 | Normalised facts have the canonical text of the facts they came from. |
| EvidenceAudit.CoreFields | verify-blue-evidence.js:113-116 | The fields of the policy core that the auditor reads. |
| EvidenceAudit.AttestationAgrees | verify-blue-evidence.js:140-176 | The attestation of an accepted `honest_true` proposal passes the auditor's attestation and signature checks. |
| EvidenceAudit.StateMarkAgrees | verify-blue-evidence.js:177-193 | The state mark the gate builds passes the auditor's checks against the attestation; `AuditAcceptance.StateMarkExactly` says which marks do. |
| EvidenceAudit.AcceptedEvidencePassesAudit | verify-blue-evidence.js:113-193 | The evidence of every accepted `honest_true` proposal passes all policy, artifact, attestation and state-mark checks. |
| EvidenceAudit.AuditedSignerExactly | verify-blue-evidence.js:159-175 | Evidence that passes the audit carries an attestation of the verifier's if and only if the key id it reports is the verifier's, since the audit takes the key from the evidence itself. |
| EvidenceAudit.AuditedEvidenceIsVouched | verify-blue-evidence.js:113-193 | A passing audit of evidence that reports the verifier's key id establishes, provided that whatever verifies under a key with that id was signed by the verifier, that the verifier vouched for this policy, network, nonce and the case `honest_true`, with all facts true, for the audited claim digest and bundle digest, for the audited bytes or a collision, and that the attestation names that key id. |
| AuditAcceptance.StateMarkExactly | verify-blue-evidence.js:177-193 | With an attestation that passes, a state mark passes if and only if it is, up to key order, the mark with this policy hash, case `honest_true`, these claim, bundle and attestation digests, this nonce, both facts all true and both flags true. |
| AuditAcceptance.AttestationPassesFields | verify-blue-evidence.js:140-157 | The attestation checks pass if and only if the attestation is, up to key order, the object of all these values for the network of the policy, and the receipt has its tagged hash. |
| AuditAcceptance.AuditExactly | verify-blue-evidence.js:113-193 | The audit passes if and only if policy, material, bundle, receipt, attestation and state mark are, up to key order, those determined by some artifact texts, network, key and signature. |
| AuditAcceptance.AuditedMarkIsVouched | verify-blue-evidence.js:113-193 | A passing audit of evidence that reports the verifier key establishes that the state mark is, up to key order, the mark of a statement the verifier vouched for, with its policy hash, nonce, claim and bundle digests and all facts true, that the receipt digests are those of that statement and of the attestation, and that its claim digest is the one the policy pins for `honest_true`. |
| HonestPath.SelfIssuedEvidencePasses | verify-blue-evidence.js:113-175 | The failing case of an unpinned key: evidence from a verifier and a policy of one's own passes the audit, and a verifier with another key id vouched for none of it. |
| EvidenceAudit.PinnedPolicyPinsTheKey | verify-blue-evidence.js:113-116 | If the evidence's policy hash is a pinned policy's, the key id it reports is that of the policy's verifier key, or a collision is exhibited. |

## Left out

- SHA-256, Ed25519, BIP340, Taproot and sighash internals: parameters, with the assumptions above.
- The Bark and Bitcoin libraries: what they decode and the functions they provide (Taproot scripts and control blocks, sighashes, key and signature parsing, Schnorr verification) are the `Host` argument of host preflight. Of a transaction's weight it is assumed only that it counts every output byte four times, as BIP 141 says.
- UTXORef: whether its calls throw, refuse or succeed, and whether the graph it builds has the fields the receipt copies, is an argument of each proposal. That a signed checkpoint keeps the marks it was given is part of `EvidenceAudit.EvidenceOf`.
- Base64 and key identifiers: function parameters; the audit agreement assumes only that no bytes encode to the empty text.
- Git, file-system, graph and source-closure checks of the auditor (lines 94-111 and 195-209 of `verify-blue-evidence.js`), argument parsing, process spawning, the PowerShell runners, evidence JSON and display text.
- `decide` in `src/enforcement.rs`, `src/stwo_policy.rs`, `src/bitvmx_outer_feasibility.rs` and `cairo-shinigami/src/lib.cairo`: a finite table, straight-line code, independent gates and calls to unseen code.
- The rest of `bitvm-assertion.js`, and the red-team graph construction of `red-team-attacks.js`.
- JavaScript values beyond JSON: proposals are plain data with integer numbers in the safe range, without getters, proxies, fractions or NaN; a missing property of a proposal is `null`. A case label inherited from the object prototype counts as missing, as its digest does in the source.
- The JSON form of a manifest (`to_json_value`) and of its artifacts.
- The parts of a rejection other than its reason, and the error texts themselves: reasons are constructors, and all exceptions are one reason.
- EnvelopeCodec.Reader.Take: offsets are unbounded; the source's `checked_add` overflow reports the same truncation as a read past the end.
- EnvelopeCodec.Reader.Count: does not model a `usize` narrower than 32 bits, where the source would report a length overflow.
- EnvelopeCodec.DecodeBody: header, context, evidence and pins are methods of their own, as are the parts of the encoder; the source has them in one body.
- ClaimManifest.NewManifest: the library's stable sort is a function on values, so that it works in place is not captured.
- HostValidation.HostAcceptanceIsExact: the fold and the comparison loop are methods proved equal to the expressions the decision uses; the decision itself is a function.
- HostValidation.OneAttestationOneSettlement: signatures are symbolic; that the oracle's key verifies nothing but what it signed is a premise.
- JsBinding.ReproduceAmountDelayCollision: number parsing, digests and the pinned digest values of the fixtures are parameters; of the parser it is assumed that it reads back hexadecimal. The report fields of a successful probe are left out.
- JsBinding.ReproduceSettlementLimbCollision: the same.
- GateSafety.AcceptedProposalsAreSafe: signatures are symbolic; what an adversary can compute is not modelled.
