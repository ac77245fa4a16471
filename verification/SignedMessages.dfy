/**
What has been signed in a run: by the builders of the bids committed, by the validators registered and by the proposers
of the blocks delivered; and that no signed word stands for two messages.
 */
module SignedMessages {
  import opened Types
  import opened Storage
  import opened Merkle
  import opened MerkleLoops
  import opened Ssz
  import opened RootTrees
  import opened Binding
  import opened Proposer
  import opened Registration
  import opened System
  import opened InterleavedAuction
  import opened InterleavedDelivery
  import opened InterleavedDuties

  /** In every run a committed bid carries its builder's signature over the bid's root, and then the builder domain. */
  lemma CommittedBidIsSigned(ssz: Ssz, verify: (PublicKey, B256, Signature) -> bool, init: Store,
                             starts: map<nat, Process>, log: seq<Entry>, j: nat)
    requires IsRun(SszCrypto(ssz, verify), init, starts, log) && j < |log| && log[j].call.SetBestBid?
    ensures var (bid, signature) := (log[j].call.bid.message, log[j].call.bid.signature);
            verify(bid.builderPubkey, ssz.hash(BidRoot(ssz.hash, bid), init.forkData.builderDomain), signature)
  {
    CommitsAreChecked(SszCrypto(ssz, verify), init, starts, log, j);
    SigningRootIsHash(ssz.hash, BidRoot(ssz.hash, log[j].call.bid.message), init.forkData.builderDomain);
  }

  /** In every run in which a batch has written, a registration carries its validator's signature. */
  lemma RegistrationIsSigned(ssz: Ssz, verify: (PublicKey, B256, Signature) -> bool, init: Store,
                             starts: map<nat, Process>, log: seq<Entry>, j: nat, key: PublicKey)
    requires IsRun(SszCrypto(ssz, verify), init, starts, log)
    requires j < |log| && log[j].call.SetValidatorRegistrations?
    requires forall i :: j < i < |log| ==> !log[i].call.SetValidatorRegistrations?
    requires key in StoreAfter(init, log).validatorRegistrations
    ensures var registration := StoreAfter(init, log).validatorRegistrations[key];
            verify(key, ssz.hash(RegistrationRoot(ssz.hash, registration.message), init.forkData.builderDomain),
                   registration.signature)
  {
    var crypto, registrations := SszCrypto(ssz, verify), StoreAfter(init, log).validatorRegistrations;
    RegistrationsAreOfLastBatch(crypto, init, starts, log, j);
    assert KeyRegistered(crypto, init.forkData.builderDomain, starts[log[j].tid].register.batch, registrations, key);
    SigningRootIsHash(ssz.hash, RegistrationRoot(ssz.hash, registrations[key].message), init.forkData.builderDomain);
  }

  /** In every run a delivered block carries, over its root and the proposer domain, the signature of the duty's key. */
  lemma DeliveredBlockIsSigned(ssz: Ssz, verify: (PublicKey, B256, Signature) -> bool, init: Store,
                               starts: map<nat, Process>, log: seq<Entry>, tid: nat, result: Unblinded)
    requires IsRun(SszCrypto(ssz, verify), init, starts, log)
    requires tid in starts && starts[tid].UnblindBlock?
    requires After(SszCrypto(ssz, verify), starts[tid], Own(log, tid))
             == UnblindBlock(UnblindHandler(starts[tid].unblind.block, UnblindReturned(result)))
    ensures exists d, key :: 0 <= d < |log| && log[d].tid == tid
              && DutyAt(init, log, d, starts[tid].unblind.block, key)
              && SignedBlock(ssz, verify, starts[tid].unblind.block, init.forkData.proposerDomain, key)
  {
    var block := starts[tid].unblind.block;
    var d, r, p, q := DeliveryEntries(SszCrypto(ssz, verify), init, starts, log, tid, result);
    var key := log[p].call.proposer;
    SigningRootIsHash(ssz.hash, BlindedBlockRoot(ssz, block.message), init.forkData.proposerDomain);
    assert DutyAt(init, log, d, block, key) && SignedBlock(ssz, verify, block, init.forkData.proposerDomain, key);
  }

  predicate SignedBlock(ssz: Ssz, verify: (PublicKey, B256, Signature) -> bool, block: SignedBlindedBlock,
                        domain: B256, key: PublicKey) {
    verify(key, ssz.hash(BlindedBlockRoot(ssz, block.message), domain), block.signature)
  }

  /** The word a builder signs for a bid stands for no other bid and no other domain, unless the hash collides. */
  lemma SignedBidIsUnique(hash: Hash2, a: BidTrace, d: B256, b: BidTrace, d': B256)
    requires ProperBid(a) && ProperBid(b)
    requires SigningRoot(hash, BidRoot(hash, a), d) == SigningRoot(hash, BidRoot(hash, b), d')
    ensures || (a == b && d == d')
            || Collides(Sha(hash), Collision(Pair(BidRoot(hash, a), d), Pair(BidRoot(hash, b), d')))
            || Collides(Sha(hash), BidCollision(hash, a, b))
  {
    SigningRootBinds(hash, BidRoot(hash, a), d, BidRoot(hash, b), d');
    if BidRoot(hash, a) == BidRoot(hash, b) {
      BidRootBinds(hash, a, b);
    }
  }

  /** Under different domains a bid and a block are never signed by the same word, unless the hash collides. */
  lemma BidsAreNotBlocks(ssz: Ssz, bid: BidTrace, block: BlindedBlock, forkData: ForkDatas)
    requires forkData.builderDomain != forkData.proposerDomain
    ensures var (r, r') := (BidRoot(ssz.hash, bid), BlindedBlockRoot(ssz, block));
            || SigningRoot(ssz.hash, r, forkData.builderDomain) != SigningRoot(ssz.hash, r', forkData.proposerDomain)
            || Collides(Sha(ssz.hash), Collision(Pair(r, forkData.builderDomain), Pair(r', forkData.proposerDomain)))
  {
    var r, r' := BidRoot(ssz.hash, bid), BlindedBlockRoot(ssz, block);
    if SigningRoot(ssz.hash, r, forkData.builderDomain) == SigningRoot(ssz.hash, r', forkData.proposerDomain) {
      SigningRootBinds(ssz.hash, r, forkData.builderDomain, r', forkData.proposerDomain);
    }
  }
}
