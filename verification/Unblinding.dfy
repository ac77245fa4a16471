/**
Unblinding preserves the hash-tree root: the proposer's signature over the blinded block covers the full block the
relay builds from it and the stored payload, exactly when the header and the payload have the same root.
 */
module Unblinding {
  import opened Options
  import opened Types
  import opened Storage
  import opened Merkle
  import opened MerkleLoops
  import opened Ssz
  import opened RootTrees
  import opened Decode
  import opened Binding
  import opened Proposer
  import opened SerialSubmission
  import opened SerialAuction
  import opened Verdicts

  /** The leaves of two blocks that share everything but the payload's root, at the level where they first differ. */
  function RootCollision(ssz: Ssz, block: BlindedBlock, payload: ExecutionPayload): Collision<B256> {
    var full := NewBeaconBlock(payload, block);
    var blinded := BlindedBodyRoot(ssz, block.body);
    var unblinded := BodyRoot(ssz, full.body);
    if blinded != unblinded then
      FindCollision(Sha(ssz.hash),
                    BlockLeaves(block.slot, block.proposerIndex, block.parentRoot, block.stateRoot, unblinded),
                    BlockLeaves(block.slot, block.proposerIndex, block.parentRoot, block.stateRoot, blinded), Depth(5))
    else
      FindCollision(Sha(ssz.hash), BodyLeaves(ssz, block.body.fields, PayloadRoot(ssz.hash, payload)),
                    BodyLeaves(ssz, block.body.fields, HeaderRoot(ssz.hash, block.body.executionPayloadHeader)),
                    Depth(12))
  }

  /** Containers of the same fields but one have different roots, unless the hash collides. */
  lemma ContainersDiffer(hash: Hash2, xs: seq<B256>, ys: seq<B256>, i: nat)
    requires i < |xs| == |ys| && |xs| > 1 && xs[i] != ys[i]
    ensures ContainerRoot(hash, xs) != ContainerRoot(hash, ys)
            || Collides(Sha(hash), FindCollision(Sha(hash), xs, ys, Depth(|xs|)))
  {
    if ContainerRoot(hash, xs) == ContainerRoot(hash, ys) {
      EqualRootsCollide(Sha(hash), xs, ys, Depth(|xs|));
    }
  }

  lemma BodyRootsDiffer(ssz: Ssz, fields: BodyFields, payloadRoot: B256, headerRoot: B256)
    requires payloadRoot != headerRoot
    ensures var xs, ys := BodyLeaves(ssz, fields, payloadRoot), BodyLeaves(ssz, fields, headerRoot);
            ContainerRoot(ssz.hash, xs) != ContainerRoot(ssz.hash, ys)
            || Collides(Sha(ssz.hash), FindCollision(Sha(ssz.hash), xs, ys, Depth(12)))
  {
    ContainersDiffer(ssz.hash, BodyLeaves(ssz, fields, payloadRoot), BodyLeaves(ssz, fields, headerRoot), 9);
  }

  lemma BlockRootsDiffer(hash: Hash2, block: BlindedBlock, bodyRoot: B256, blindedRoot: B256)
    requires bodyRoot != blindedRoot
    ensures var xs := BlockLeaves(block.slot, block.proposerIndex, block.parentRoot, block.stateRoot, bodyRoot);
            var ys := BlockLeaves(block.slot, block.proposerIndex, block.parentRoot, block.stateRoot, blindedRoot);
            ContainerRoot(hash, xs) != ContainerRoot(hash, ys)
              || Collides(Sha(hash), FindCollision(Sha(hash), xs, ys, Depth(5)))
  {
    ContainersDiffer(hash, BlockLeaves(block.slot, block.proposerIndex, block.parentRoot, block.stateRoot, bodyRoot),
                     BlockLeaves(block.slot, block.proposerIndex, block.parentRoot, block.stateRoot, blindedRoot), 4);
  }

  /**
  The full block built from a blinded block and a payload has the blinded block's root exactly when the blinded block's
  header has the payload's root -- or the hash collides at a node this names.
   */
  lemma UnblindingKeepsRootExactly(ssz: Ssz, block: BlindedBlock, payload: ExecutionPayload)
    ensures var sameRoot := BlockRoot(ssz, NewBeaconBlock(payload, block)) == BlindedBlockRoot(ssz, block);
            var sameHeader := HeaderRoot(ssz.hash, block.body.executionPayloadHeader) == PayloadRoot(ssz.hash, payload);
            && (sameHeader ==> sameRoot)
            && (sameRoot ==> sameHeader || Collides(Sha(ssz.hash), RootCollision(ssz, block, payload)))
  {
    var payloadRoot := PayloadRoot(ssz.hash, payload);
    var headerRoot := HeaderRoot(ssz.hash, block.body.executionPayloadHeader);
    var blinded, unblinded := BlindedBodyRoot(ssz, block.body), BodyRoot(ssz, NewBeaconBlock(payload, block).body);
    if payloadRoot != headerRoot {
      if blinded == unblinded {
        BodyRootsDiffer(ssz, block.body.fields, payloadRoot, headerRoot);
      } else {
        BlockRootsDiffer(ssz.hash, block, unblinded, blinded);
      }
    }
  }

  predicate ServedBy(ssz: Ssz, submission: BidSubmission, served: Header) {
    && served.header == HeaderOf(ssz.hash, submission.executionPayload)
    && HeaderRoot(ssz.hash, served.header) == PayloadRoot(ssz.hash, submission.executionPayload)
    && served.blobKzgCommitments == submission.blobsBundle.commitments
    && served.value == submission.message.value
  }

  /** Without a winner no header is served. */
  lemma HeaderNeedsWinner(crypto: Crypto, init: Store, ops: seq<Op>, key: SlotHashKey)
    requires Fresh(init)
    requires GetHeader(crypto, Run(crypto, init, ops), key.slot, key.hash, key.validator).Some?
    ensures exists w :: Wins(crypto, init, ops, key, w)
  {
    WinnerIsStored(crypto, init, ops, key);
  }

  /**
  In every serialised run, with `w` the earliest eligible submission of greatest value for a key: its header is served
  exactly to a registered key, for the slot after the head, if its commitments fit their list; and what is served has
  the root of its payload, its commitments and its value.
   */
  lemma HeaderServesWinner(ssz: Ssz, verify: (PublicKey, B256, Signature) -> bool, init: Store, ops: seq<Op>,
                           key: SlotHashKey, w: int)
    requires Fresh(init) && Wins(SszCrypto(ssz, verify), init, ops, key, w)
    ensures ops[w].Bid?
    ensures var crypto := SszCrypto(ssz, verify);
            var store := Run(crypto, init, ops);
            var served := GetHeader(crypto, store, key.slot, key.hash, key.validator);
            && (served.Some? <==> && key.validator in store.validatorRegistrations
                                  && key.slot == (if store.slot == 0xffff_ffff_ffff_ffff then 0 else store.slot + 1)
                                  && |ops[w].submission.blobsBundle.commitments| <= 4096)
            && (served.Some? ==> ServedBy(ssz, ops[w].submission, served.value))
  {
    var crypto := SszCrypto(ssz, verify);
    WinnerIsStored(crypto, init, ops, key);
    StoredBidIsServed(ssz, verify, Run(crypto, init, ops), key, ops[w].submission);
  }

  lemma StoredBidIsServed(ssz: Ssz, verify: (PublicKey, B256, Signature) -> bool, store: Store, key: SlotHashKey,
                          submission: BidSubmission)
    requires Lookup(store.bestBidPerSlot, key) == Some(submission)
    ensures var served := GetHeader(SszCrypto(ssz, verify), store, key.slot, key.hash, key.validator);
            && (served.Some? <==> && key.validator in store.validatorRegistrations
                                  && key.slot == (if store.slot == 0xffff_ffff_ffff_ffff then 0 else store.slot + 1)
                                  && |submission.blobsBundle.commitments| <= 4096)
            && (served.Some? ==> ServedBy(ssz, submission, served.value))
  {
    HeaderKeepsRoot(ssz.hash, submission.executionPayload);
    StoredBidServed(SszCrypto(ssz, verify), store, key, submission);
  }

  lemma StoredBidServed(crypto: Crypto, store: Store, key: SlotHashKey, submission: BidSubmission)
    requires Lookup(store.bestBidPerSlot, key) == Some(submission)
    ensures var served := GetHeader(crypto, store, key.slot, key.hash, key.validator);
            && (served.Some? <==> && key.validator in store.validatorRegistrations
                                  && key.slot == (if store.slot == 0xffff_ffff_ffff_ffff then 0 else store.slot + 1)
                                  && |submission.blobsBundle.commitments| <= 4096)
            && (served.Some? ==> served == Some(Header(crypto.headerOf(submission.executionPayload),
                                                       submission.blobsBundle.commitments, submission.message.value)))
  {
    assert key == SlotHashKey(key.slot, key.hash, key.validator);
  }

  /** A signature that verifies for the blinded block verifies for the full block built with the header's payload. */
  lemma SignatureCarriesOver(ssz: Ssz, verify: (PublicKey, B256, Signature) -> bool, key: PublicKey,
                             signed: SignedBlindedBlock, payload: ExecutionPayload, domain: B256)
    requires signed.message.body.executionPayloadHeader == HeaderOf(ssz.hash, payload)
    requires SszCrypto(ssz, verify).VerifyBlindedBlock(key, signed, domain)
    ensures verify(key, ssz.hash(BlockRoot(ssz, NewBeaconBlock(payload, signed.message)), domain), signed.signature)
  {
    SigningRootIsHash(ssz.hash, BlindedBlockRoot(ssz, signed.message), domain);
    HeaderKeepsRoot(ssz.hash, payload);
    UnblindingKeepsRootExactly(ssz, signed.message, payload);
  }

  /** The signature covers the block published exactly when the header's payload has the published payload's root. */
  ghost predicate CoveredExactly(ssz: Ssz, verify: (PublicKey, B256, Signature) -> bool, proposer: PublicKey,
                                 domain: B256, signed: SignedBlindedBlock, built: ExecutionPayload, result: Unblinded) {
    var payload := result.response.executionPayload;
    var root := BlockRoot(ssz, result.published.signedBlock.message);
    && (PayloadRoot(ssz.hash, built) == PayloadRoot(ssz.hash, payload) ==>
          && root == BlindedBlockRoot(ssz, signed.message)
          && verify(proposer, ssz.hash(root, domain), signed.signature))
    && (root == BlindedBlockRoot(ssz, signed.message) ==>
          || PayloadRoot(ssz.hash, built) == PayloadRoot(ssz.hash, payload)
          || Collides(Sha(ssz.hash), RootCollision(ssz, signed.message, payload)))
  }

  lemma PublishedExactly(ssz: Ssz, verify: (PublicKey, B256, Signature) -> bool, proposer: PublicKey, domain: B256,
                         signed: SignedBlindedBlock, built: ExecutionPayload, response: BlindedBlockResponse)
    requires signed.message.body.executionPayloadHeader == HeaderOf(ssz.hash, built)
    requires verify(proposer, SigningRoot(ssz.hash, BlindedBlockRoot(ssz, signed.message), domain), signed.signature)
    ensures CoveredExactly(ssz, verify, proposer, domain, signed, built, UnblindedBy(response, signed))
  {
    SigningRootIsHash(ssz.hash, BlindedBlockRoot(ssz, signed.message), domain);
    HeaderKeepsRoot(ssz.hash, built);
    UnblindingKeepsRootExactly(ssz, signed.message, response.executionPayload);
  }

  function DutyKeyOf(store: Store, signed: SignedBlindedBlock): PublicKey
    requires FindDuty(store.proposerDuties, signed.message.slot).Some?
  {
    FindDuty(store.proposerDuties, signed.message.slot).value.entry.message.pubkey
  }

  /** What an unblinding delivers, and that the signature was checked. */
  lemma DeliveredIsStored(crypto: Crypto, store: Store, signed: SignedBlindedBlock)
    requires Unblind(crypto, store, signed).Delivered?
    ensures var key := DutyKeyOf(store, signed);
            && key in store.blindedBlockResp
            && Unblind(crypto, store, signed).result == UnblindedBy(store.blindedBlockResp[key], signed)
            && crypto.VerifyBlindedBlock(key, signed, store.forkData.proposerDomain)
  {
  }

  /** A served header is that of the bid stored for its key. */
  lemma ServedIsStored(crypto: Crypto, store: Store, key: SlotHashKey)
    requires GetHeader(crypto, store, key.slot, key.hash, key.validator).Some?
    ensures key in store.bestBidPerSlot
    ensures GetHeader(crypto, store, key.slot, key.hash, key.validator).value.header
         == crypto.headerOf(store.bestBidPerSlot[key].executionPayload)
  {
  }

  /**
  From header to published block, exactly.  Let a header be served for any key after `n` ops, and a signed block that
  carries it be unblinded at the end of the run.  What is published is the payload of the latest commit for the duty's
  proposer; and the signed root, and with it the proposer's signature, covers the published block exactly when that
  payload has the root of the payload the header was built from -- or the hash collides at a node this names.
   */
  lemma ServedHeaderUnblindsExactly(ssz: Ssz, verify: (PublicKey, B256, Signature) -> bool, init: Store, ops: seq<Op>,
                                    n: nat, key: SlotHashKey, signed: SignedBlindedBlock)
    requires Fresh(init) && n <= |ops|
    requires var crypto := SszCrypto(ssz, verify);
             var served := GetHeader(crypto, Run(crypto, init, ops[..n]), key.slot, key.hash, key.validator);
             served.Some? && signed.message.body.executionPayloadHeader == served.value.header
    requires Unblind(SszCrypto(ssz, verify), Run(SszCrypto(ssz, verify), init, ops), signed).Delivered?
    ensures var crypto := SszCrypto(ssz, verify);
            var before, store := Run(crypto, init, ops[..n]), Run(crypto, init, ops);
            var result := Unblind(crypto, store, signed).result;
            var proposer := DutyKeyOf(store, signed);
            var latest := LatestCommit(crypto, init, ops, proposer);
            && key in before.bestBidPerSlot
            && latest.Some? && result.response == ops[latest.value].submission.ToBlindedBlockResponse()
            && CoveredExactly(ssz, verify, proposer, store.forkData.proposerDomain, signed,
                              before.bestBidPerSlot[key].executionPayload, result)
  {
    var crypto := SszCrypto(ssz, verify);
    var store := Run(crypto, init, ops);
    var before := Run(crypto, init, ops[..n]);
    var proposer := DutyKeyOf(store, signed);
    ServedIsStored(crypto, before, key);
    DeliveredIsStored(crypto, store, signed);
    PayloadIsLatestCommit(crypto, init, ops, proposer);
    PublishedExactly(ssz, verify, proposer, store.forkData.proposerDomain, signed,
                     before.bestBidPerSlot[key].executionPayload, store.blindedBlockResp[proposer]);
  }

  /** The block signed and the one published with `payload` have the same root only if `payload` is `built`. */
  ghost predicate CoversOnly(ssz: Ssz, signed: SignedBlindedBlock, built: ExecutionPayload, payload: ExecutionPayload,
                             root: B256)
    requires WellTyped(built) && WellTyped(payload)
  {
    && (payload == built ==> root == BlindedBlockRoot(ssz, signed.message))
    && (root == BlindedBlockRoot(ssz, signed.message) ==>
          || payload == built
          || Collides(Sha(ssz.hash), RootCollision(ssz, signed.message, payload))
          || Collides(Sha(ssz.hash), PayloadCollision(ssz.hash, built, payload)))
  }

  lemma CoveredIsOnly(ssz: Ssz, verify: (PublicKey, B256, Signature) -> bool, proposer: PublicKey, domain: B256,
                      signed: SignedBlindedBlock, built: ExecutionPayload, result: Unblinded)
    requires WellTyped(built) && WellTyped(result.response.executionPayload)
    requires CoveredExactly(ssz, verify, proposer, domain, signed, built, result)
    ensures CoversOnly(ssz, signed, built, result.response.executionPayload,
                       BlockRoot(ssz, result.published.signedBlock.message))
  {
    if PayloadRoot(ssz.hash, built) == PayloadRoot(ssz.hash, result.response.executionPayload) {
      PayloadRootBinds(ssz.hash, built, result.response.executionPayload);
    }
  }

  predicate PayloadsFit(ops: seq<Op>) {
    forall i :: 0 <= i < |ops| && ops[i].Bid? ==> WellTyped(ops[i].submission.executionPayload)
  }

  lemma StoredPayload(crypto: Crypto, init: Store, ops: seq<Op>, n: nat, key: SlotHashKey)
    returns (built: ExecutionPayload)
    requires Fresh(init) && n <= |ops| && PayloadsFit(ops)
    requires GetHeader(crypto, Run(crypto, init, ops[..n]), key.slot, key.hash, key.validator).Some?
    ensures key in Run(crypto, init, ops[..n]).bestBidPerSlot
    ensures built == Run(crypto, init, ops[..n]).bestBidPerSlot[key].executionPayload && WellTyped(built)
  {
    ServedIsStored(crypto, Run(crypto, init, ops[..n]), key);
    WinnerIsStored(crypto, init, ops[..n], key);
    var w :| Wins(crypto, init, ops[..n], key, w);
    assert ops[..n][w] == ops[w];
    built := ops[w].submission.executionPayload;
  }

  lemma DeliveredPayloadFits(crypto: Crypto, init: Store, ops: seq<Op>, signed: SignedBlindedBlock)
    returns (result: Unblinded)
    requires Fresh(init) && PayloadsFit(ops) && Unblind(crypto, Run(crypto, init, ops), signed).Delivered?
    ensures result == Unblind(crypto, Run(crypto, init, ops), signed).result
    ensures WellTyped(result.response.executionPayload)
  {
    result := Unblind(crypto, Run(crypto, init, ops), signed).result;
    DeliveredIsStored(crypto, Run(crypto, init, ops), signed);
    PayloadIsLatestCommit(crypto, init, ops, DutyKeyOf(Run(crypto, init, ops), signed));
  }

  /**
  ... so exactly when that payload is the one the header was built from, to the last byte of its transactions, or the
  hash collides at a node this names.
   */
  lemma ServedHeaderCoversOnlyItsPayload(ssz: Ssz, verify: (PublicKey, B256, Signature) -> bool, init: Store,
                                         ops: seq<Op>, n: nat, key: SlotHashKey, signed: SignedBlindedBlock)
    requires Fresh(init) && n <= |ops|
    requires var crypto := SszCrypto(ssz, verify);
             var served := GetHeader(crypto, Run(crypto, init, ops[..n]), key.slot, key.hash, key.validator);
             served.Some? && signed.message.body.executionPayloadHeader == served.value.header
    requires Unblind(SszCrypto(ssz, verify), Run(SszCrypto(ssz, verify), init, ops), signed).Delivered?
    requires PayloadsFit(ops)
    ensures var crypto := SszCrypto(ssz, verify);
            var before, store := Run(crypto, init, ops[..n]), Run(crypto, init, ops);
            var result := Unblind(crypto, store, signed).result;
            && key in before.bestBidPerSlot && WellTyped(before.bestBidPerSlot[key].executionPayload)
            && WellTyped(result.response.executionPayload)
            && CoversOnly(ssz, signed, before.bestBidPerSlot[key].executionPayload, result.response.executionPayload,
                          BlockRoot(ssz, result.published.signedBlock.message))
  {
    var crypto := SszCrypto(ssz, verify);
    var built := StoredPayload(crypto, init, ops, n, key);
    var result := DeliveredPayloadFits(crypto, init, ops, signed);
    ServedHeaderUnblindsExactly(ssz, verify, init, ops, n, key, signed);
    var store := Run(crypto, init, ops);
    CoveredIsOnly(ssz, verify, DutyKeyOf(store, signed), store.forkData.proposerDomain, signed, built, result);
  }

  /**
  From header to published block.  In a run where every accepted bid names its duty's key, let a header be served after
  `n` ops for the key of the proposer's latest commit, let no commit for the proposer follow, and let the proposer hand
  in a signed block carrying that header at the end.  If the block is unblinded, the published block carries the payload
  the header was built from, and the proposer's signature verifies for it.
   */
  lemma ServedHeaderUnblindsSigned(ssz: Ssz, verify: (PublicKey, B256, Signature) -> bool, init: Store, ops: seq<Op>,
                                   n: nat, proposer: PublicKey, signed: SignedBlindedBlock)
    requires Fresh(init) && n <= |ops|
    requires var crypto := SszCrypto(ssz, verify);
             && BidsNameDuties(crypto, init, ops[..n])
             && LatestCommit(crypto, init, ops[..n], proposer).Some?
             && LatestCommit(crypto, init, ops, proposer) == LatestCommit(crypto, init, ops[..n], proposer)
    requires var crypto := SszCrypto(ssz, verify);
             var commit := ops[LatestCommit(crypto, init, ops, proposer).value].submission.message;
             var served := GetHeader(crypto, Run(crypto, init, ops[..n]), commit.slot, commit.parentHash, proposer);
             served.Some? && signed.message.body.executionPayloadHeader == served.value.header
    requires var crypto := SszCrypto(ssz, verify);
             var store := Run(crypto, init, ops);
             && Unblind(crypto, store, signed).Delivered?
             && FindDuty(store.proposerDuties, signed.message.slot).value.entry.message.pubkey == proposer
    ensures var crypto := SszCrypto(ssz, verify);
            var store := Run(crypto, init, ops);
            var result := Unblind(crypto, store, signed).result;
            var block := result.published.signedBlock;
            && signed.message.body.executionPayloadHeader == HeaderOf(ssz.hash, result.response.executionPayload)
            && block.message.body.executionPayload == result.response.executionPayload
            && verify(proposer, ssz.hash(BlockRoot(ssz, block.message), store.forkData.proposerDomain), block.signature)
  {
    var crypto := SszCrypto(ssz, verify);
    HeaderThenUnblind(crypto, init, ops, n, proposer);
    var commit := ops[LatestCommit(crypto, init, ops, proposer).value].submission.message;
    var served := BestFor(Run(crypto, init, ops[..n]), commit).value;
    var result := Unblind(crypto, Run(crypto, init, ops), signed).result;
    assert result.response == served.ToBlindedBlockResponse();
    SignatureCarriesOver(ssz, verify, proposer, signed, served.executionPayload,
                         Run(crypto, init, ops).forkData.proposerDomain);
  }

  /**
  ... and it is unblinded, whenever the first duty for its slot is the proposer's, under the block's proposer index, and
  the proposer is registered and has signed the block.
   */
  lemma ServedHeaderIsDelivered(ssz: Ssz, verify: (PublicKey, B256, Signature) -> bool, init: Store, ops: seq<Op>,
                                n: nat, proposer: PublicKey, signed: SignedBlindedBlock, i: int)
    requires Fresh(init) && n <= |ops|
    requires var crypto := SszCrypto(ssz, verify);
             && BidsNameDuties(crypto, init, ops[..n])
             && LatestCommit(crypto, init, ops[..n], proposer).Some?
             && LatestCommit(crypto, init, ops, proposer) == LatestCommit(crypto, init, ops[..n], proposer)
    requires var crypto := SszCrypto(ssz, verify);
             var commit := ops[LatestCommit(crypto, init, ops, proposer).value].submission.message;
             var served := GetHeader(crypto, Run(crypto, init, ops[..n]), commit.slot, commit.parentHash, proposer);
             served.Some? && signed.message.body.executionPayloadHeader == served.value.header
    requires var crypto := SszCrypto(ssz, verify);
             var store := Run(crypto, init, ops);
             && FirstFor(store.proposerDuties, signed.message.slot, i)
             && store.proposerDuties[i].entry.message.pubkey == proposer
             && Authorised(crypto, store, signed, store.proposerDuties[i])
    ensures var crypto := SszCrypto(ssz, verify);
            var outcome := Unblind(crypto, Run(crypto, init, ops), signed);
            outcome.Delivered? && signed.message.body.executionPayloadHeader
                                  == HeaderOf(ssz.hash, outcome.result.response.executionPayload)
  {
    var crypto := SszCrypto(ssz, verify);
    var store := Run(crypto, init, ops);
    LatestCommitCommits(crypto, init, ops, proposer);
    DeliveredExactly(crypto, init, ops, signed, i);
    FirstDutyIsFound(store.proposerDuties, signed.message.slot);
    ServedHeaderUnblindsSigned(ssz, verify, init, ops, n, proposer, signed);
  }
}
