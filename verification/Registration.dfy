/** The registration batch handler: a loop that keeps the last acceptable registration per key and replaces the map. */
module Registration {
  import opened Options
  import opened Types
  import opened Storage

  /** The beacon node's answer about a validator. */
  datatype KnownValidator = Active | Inactive | Unknown

  /** One registration of a batch with the answer the beacon node gives for it. */
  datatype Candidate = Candidate(registration: ValidatorRegistration, known: KnownValidator)
  {
    function Key(): PublicKey { registration.message.pubkey }
  }

  predicate Keeps(crypto: Crypto, domain: B256, candidate: Candidate) {
    candidate.known == Active && crypto.VerifyRegistration(candidate.registration, domain)
  }

  /** The registrations that are kept, in batch order. */
  function Kept(crypto: Crypto, domain: B256, batch: seq<Candidate>): seq<ValidatorRegistration> {
    if batch == [] then []
    else
      var last := batch[|batch| - 1];
      Kept(crypto, domain, batch[..|batch| - 1]) + if Keeps(crypto, domain, last) then [last.registration] else []
  }

  /** Inserting registrations one after the other, each under its message's key. */
  function Inserted(kept: seq<ValidatorRegistration>): map<PublicKey, ValidatorRegistration> {
    if kept == [] then map[]
    else
      var last := kept[|kept| - 1];
      Inserted(kept[..|kept| - 1])[last.message.pubkey := last]
  }

  function RegistrationMap(crypto: Crypto, domain: B256, batch: seq<Candidate>): map<PublicKey, ValidatorRegistration> {
    Inserted(Kept(crypto, domain, batch))
  }

  ghost predicate LastFor(kept: seq<ValidatorRegistration>, key: PublicKey, i: int) {
    && 0 <= i < |kept|
    && kept[i].message.pubkey == key
    && forall j :: i < j < |kept| ==> kept[j].message.pubkey != key
  }

  /** The map holds exactly the keys that were kept, each with the last registration kept for it. */
  lemma {:induction false} LastRegistrationWins(kept: seq<ValidatorRegistration>, key: PublicKey)
    ensures key in Inserted(kept) ==> exists i :: LastFor(kept, key, i) && Inserted(kept)[key] == kept[i]
    ensures key !in Inserted(kept) ==> forall i :: 0 <= i < |kept| ==> kept[i].message.pubkey != key
  {
    if kept != [] {
      var n := |kept| - 1;
      var front := kept[..n];
      LastRegistrationWins(front, key);
      if kept[n].message.pubkey == key {
        assert LastFor(kept, key, n);
      } else if key in Inserted(front) {
        var i :| LastFor(front, key, i) && Inserted(front)[key] == front[i];
        assert kept[i] == front[i] && LastFor(kept, key, i);
      } else {
        forall i | 0 <= i < |kept|
          ensures kept[i].message.pubkey != key
        {
          assert i < n ==> kept[i] == front[i];
        }
      }
    }
  }

  /** Every registration in the map stands under its own message's key. */
  predicate OwnKeys(registrations: map<PublicKey, ValidatorRegistration>) {
    forall key :: key in registrations ==> registrations[key].message.pubkey == key
  }

  lemma RegistrationMapHasOwnKeys(crypto: Crypto, domain: B256, batch: seq<Candidate>)
    ensures OwnKeys(RegistrationMap(crypto, domain, batch))
  {
    var kept := Kept(crypto, domain, batch);
    forall key | key in Inserted(kept)
      ensures Inserted(kept)[key].message.pubkey == key
    {
      LastRegistrationWins(kept, key);
    }
  }

  predicate DistinctKeys(kept: seq<ValidatorRegistration>) {
    forall i, j :: 0 <= i < j < |kept| ==> kept[i].message.pubkey != kept[j].message.pubkey
  }

  /** The map is as large as the number of kept registrations exactly when no key repeats among them. */
  lemma {:induction false} MapSize(kept: seq<ValidatorRegistration>)
    ensures |Inserted(kept)| <= |kept|
    ensures |Inserted(kept)| == |kept| <==> DistinctKeys(kept)
  {
    if kept != [] {
      var front := kept[..|kept| - 1];
      MapSize(front);
      LastRegistrationWins(front, kept[|kept| - 1].message.pubkey);
      if kept[|kept| - 1].message.pubkey in Inserted(front) {
        RepeatedKey(kept);
      } else {
        NewKey(kept);
        NewKeyIsDistinct(front, kept[|kept| - 1]);
        assert kept == front + [kept[|kept| - 1]];
      }
    }
  }

  /** A key that repeats leaves the size of the map alone, and keys distinct no longer. */
  lemma RepeatedKey(kept: seq<ValidatorRegistration>)
    requires kept != []
    requires var n := |kept| - 1; kept[n].message.pubkey in Inserted(kept[..n])
    ensures |Inserted(kept)| == |Inserted(kept[..|kept| - 1])| && !DistinctKeys(kept)
  {
    var n := |kept| - 1;
    var key := kept[n].message.pubkey;
    LastRegistrationWins(kept[..n], key);
    var i :| LastFor(kept[..n], key, i);
    assert kept[i] == kept[..n][i];
    assert Inserted(kept).Keys == Inserted(kept[..n]).Keys;
  }

  /** A new key makes the map one larger ... */
  lemma NewKey(kept: seq<ValidatorRegistration>)
    requires kept != []
    requires var n := |kept| - 1; kept[n].message.pubkey !in Inserted(kept[..n])
    ensures |Inserted(kept)| == |Inserted(kept[..|kept| - 1])| + 1
  {
    var front := kept[..|kept| - 1];
    assert Inserted(kept).Keys == Inserted(front).Keys + {kept[|kept| - 1].message.pubkey};
  }

  /** ... and keys as distinct as they were. */
  lemma NewKeyIsDistinct(front: seq<ValidatorRegistration>, last: ValidatorRegistration)
    requires forall i :: 0 <= i < |front| ==> front[i].message.pubkey != last.message.pubkey
    ensures DistinctKeys(front + [last]) <==> DistinctKeys(front)
  {
    var kept := front + [last];
    assert forall i :: 0 <= i < |front| ==> kept[i] == front[i];
    if DistinctKeys(front) {
      forall i, j | 0 <= i < j < |kept|
        ensures kept[i].message.pubkey != kept[j].message.pubkey
      {
        assert kept[i] == front[i];
      }
    }
    if DistinctKeys(kept) {
      forall i, j | 0 <= i < j < |front|
        ensures front[i].message.pubkey != front[j].message.pubkey
      {
        assert kept[i] == front[i] && kept[j] == front[j];
      }
    }
  }

  lemma {:induction false} KeptIsShorter(crypto: Crypto, domain: B256, batch: seq<Candidate>)
    ensures |Kept(crypto, domain, batch)| <= |batch|
  {
    if batch != [] {
      KeptIsShorter(crypto, domain, batch[..|batch| - 1]);
    }
  }

  lemma KeptExtend(crypto: Crypto, domain: B256, batch: seq<Candidate>, n: nat)
    requires n < |batch|
    ensures Kept(crypto, domain, batch[..n + 1])
         == if Keeps(crypto, domain, batch[n]) then Kept(crypto, domain, batch[..n]) + [batch[n].registration]
            else Kept(crypto, domain, batch[..n])
  {
    assert batch[..n + 1][..n] == batch[..n];
    assert Kept(crypto, domain, batch[..n]) + [] == Kept(crypto, domain, batch[..n]);
  }

  lemma InsertedExtend(kept: seq<ValidatorRegistration>, last: ValidatorRegistration)
    ensures Inserted(kept + [last]) == Inserted(kept)[last.message.pubkey := last]
  {
    assert (kept + [last])[..|kept|] == kept;
  }

  // ----- What a batch registers

  /** Candidate `i` is active, and its signature verifies under its own key over its root in the domain. */
  ghost predicate Registers(crypto: Crypto, domain: B256, batch: seq<Candidate>, i: int) {
    && 0 <= i < |batch|
    && batch[i].known == Active
    && var (message, signature) := (batch[i].registration.message, batch[i].registration.signature);
       crypto.verify(message.pubkey, crypto.signingRoot(crypto.registrationRoot(message), domain), signature)
  }

  ghost function Registering(crypto: Crypto, domain: B256, batch: seq<Candidate>): set<int> {
    set i | 0 <= i < |batch| && Registers(crypto, domain, batch, i)
  }

  /** Candidate `i` is the last with its key that registers. */
  ghost predicate LastToRegister(crypto: Crypto, domain: B256, batch: seq<Candidate>, key: PublicKey, i: int) {
    && Registers(crypto, domain, batch, i) && batch[i].registration.message.pubkey == key
    && forall j :: i < j < |batch| && Registers(crypto, domain, batch, j) ==>
         batch[j].registration.message.pubkey != key
  }

  /** A key is in the map exactly when some candidate of that key registers, with the last such candidate. */
  ghost predicate KeyRegistered(crypto: Crypto, domain: B256, batch: seq<Candidate>,
                                registrations: map<PublicKey, ValidatorRegistration>, key: PublicKey) {
    if key in registrations
    then exists i :: LastToRegister(crypto, domain, batch, key, i) && registrations[key] == batch[i].registration
    else forall i :: Registers(crypto, domain, batch, i) ==> batch[i].registration.message.pubkey != key
  }

  ghost predicate RegistersExactly(crypto: Crypto, domain: B256, batch: seq<Candidate>,
                                   registrations: map<PublicKey, ValidatorRegistration>) {
    forall key :: KeyRegistered(crypto, domain, batch, registrations, key)
  }

  lemma RegistersPrefix(crypto: Crypto, domain: B256, batch: seq<Candidate>, n: nat)
    requires n <= |batch|
    ensures forall i :: i < n ==> (Registers(crypto, domain, batch[..n], i) <==> Registers(crypto, domain, batch, i))
  {
  }

  /** The map of a batch holds, for each key, the last candidate that registers. */
  lemma {:induction false} BatchRegisters(crypto: Crypto, domain: B256, batch: seq<Candidate>, key: PublicKey)
    ensures KeyRegistered(crypto, domain, batch, RegistrationMap(crypto, domain, batch), key)
  {
    if batch != [] {
      var n := |batch| - 1;
      BatchRegisters(crypto, domain, batch[..n], key);
      RegistersPrefix(crypto, domain, batch, n);
      MapExtends(crypto, domain, batch);
      if Registers(crypto, domain, batch, n) && batch[n].registration.message.pubkey == key {
        assert LastToRegister(crypto, domain, batch, key, n);
      } else if key in RegistrationMap(crypto, domain, batch[..n]) {
        var i :| LastToRegister(crypto, domain, batch[..n], key, i)
                 && RegistrationMap(crypto, domain, batch[..n])[key] == batch[..n][i].registration;
        assert LastToRegister(crypto, domain, batch, key, i);
      }
    }
  }

  lemma MapExtends(crypto: Crypto, domain: B256, batch: seq<Candidate>)
    requires batch != []
    ensures var (n, front) := (|batch| - 1, RegistrationMap(crypto, domain, batch[..|batch| - 1]));
            RegistrationMap(crypto, domain, batch)
            == if Registers(crypto, domain, batch, n)
               then front[batch[n].registration.message.pubkey := batch[n].registration] else front
  {
    var n := |batch| - 1;
    KeptExtend(crypto, domain, batch, n);
    assert batch[..n + 1] == batch;
    InsertedExtend(Kept(crypto, domain, batch[..n]), batch[n].registration);
  }

  /** As many registrations are kept as candidates register. */
  lemma {:induction false} KeptCount(crypto: Crypto, domain: B256, batch: seq<Candidate>)
    ensures |Kept(crypto, domain, batch)| == |Registering(crypto, domain, batch)|
  {
    if batch == [] {
      assert Registering(crypto, domain, batch) == {};
    } else {
      var n := |batch| - 1;
      KeptCount(crypto, domain, batch[..n]);
      RegistersPrefix(crypto, domain, batch, n);
      assert Registering(crypto, domain, batch)
          == Registering(crypto, domain, batch[..n]) + if Registers(crypto, domain, batch, n) then {n} else {};
    }
  }

  /** The loop over the batch: skip the inactive, the unknown and the badly signed, insert the rest. */
  method Collect(crypto: Crypto, domain: B256, batch: seq<Candidate>)
    returns (toRegister: map<PublicKey, ValidatorRegistration>, registered: nat)
    ensures toRegister == RegistrationMap(crypto, domain, batch)
    ensures registered == |Kept(crypto, domain, batch)|
    ensures RegistersExactly(crypto, domain, batch, toRegister)
    ensures registered == |Registering(crypto, domain, batch)|
  {
    toRegister := map[];
    registered := 0;
    for i := 0 to |batch|
      invariant toRegister == RegistrationMap(crypto, domain, batch[..i])
      invariant registered == |Kept(crypto, domain, batch[..i])|
    {
      KeptExtend(crypto, domain, batch, i);
      var candidate := batch[i];
      if candidate.known != Active {
        continue;
      }
      if !crypto.VerifyRegistration(candidate.registration, domain) {
        continue;
      }
      InsertedExtend(Kept(crypto, domain, batch[..i]), candidate.registration);
      toRegister := toRegister[candidate.Key() := candidate.registration];
      registered := registered + 1;
    }
    assert batch[..|batch|] == batch;
    KeptCount(crypto, domain, batch);
    forall key
      ensures KeyRegistered(crypto, domain, batch, toRegister, key)
    {
      BatchRegisters(crypto, domain, batch, key);
    }
  }

  /**
  The handler.  Whatever the batch and the beacon node's answers, the old map is replaced by one that holds exactly the
  keys of active candidates whose signatures verify, each with the last such candidate; the answer counts those
  candidates; and the map is no larger than that count, and smaller exactly when a key repeats among them.
   */
  method PostValidators(crypto: Crypto, storage: InMemoryStorage, batch: seq<Candidate>) returns (registered: nat)
    modifies storage
    ensures var kept := Kept(crypto, storage.forkData.builderDomain, batch);
            && storage.View() == Exec(old(storage.View()), SetValidatorRegistrations(Inserted(kept)))
            && registered == |kept| <= |batch|
            && |Inserted(kept)| <= registered
            && (|Inserted(kept)| == registered <==> DistinctKeys(kept))
    ensures RegistersExactly(crypto, storage.forkData.builderDomain, batch, storage.validatorRegistrations)
    ensures registered == |Registering(crypto, storage.forkData.builderDomain, batch)|
  {
    var domain := storage.forkData.builderDomain;
    var toRegister;
    toRegister, registered := Collect(crypto, domain, batch);
    KeptIsShorter(crypto, domain, batch);
    MapSize(Kept(crypto, domain, batch));
    storage.SetValidatorRegistrations(toRegister);
  }

  // ----- The handler as a machine: one read, the loop, one write

  datatype RegisterPc =
    | RegisterAtForkData
    | RegisterAtWrite(registrations: map<PublicKey, ValidatorRegistration>)
    | RegisterReturned

  datatype RegisterHandler = RegisterHandler(batch: seq<Candidate>, pc: RegisterPc)

  function RegisterCall(handler: RegisterHandler): Option<Call> {
    match handler.pc
    case RegisterAtForkData => Some(ReadForkData)
    case RegisterAtWrite(registrations) => Some(SetValidatorRegistrations(registrations))
    case RegisterReturned => None
  }

  function RegisterResume(crypto: Crypto, handler: RegisterHandler, reply: Reply): RegisterHandler {
    match (handler.pc, reply)
    case (RegisterAtForkData, ForkReply(forkData)) =>
      handler.(pc := RegisterAtWrite(RegistrationMap(crypto, forkData.builderDomain, handler.batch)))
    case (RegisterAtWrite(_), Ack) => handler.(pc := RegisterReturned)
    case _ => handler
  }
}
