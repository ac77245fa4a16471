/**
The epoch refresh: joining two epochs of beacon duties with the registrations, and which slots a lookup then finds.
 */
module Duties {
  import opened Options
  import opened Types
  import opened Storage

  // ----- The join

  function Epoch(slot: u64, slotsPerEpoch: nat): nat
    requires slotsPerEpoch > 0
  {
    slot / slotsPerEpoch
  }

  function MergeWith(data: seq<ProposerDutiesData>, other: seq<ProposerDutiesData>): seq<ProposerDutiesData> {
    data + other
  }

  /** The duties whose key is registered, each with the registration read for it. */
  function IntoDuties(registrations: map<PublicKey, ValidatorRegistration>,
                      duties: seq<ProposerDutiesData>): seq<Validator> {
    if duties == [] then []
    else
      var last := duties[|duties| - 1];
      IntoDuties(registrations, duties[..|duties| - 1])
      + if last.pubkey in registrations
        then [Validator(last.slot, last.validatorIndex, registrations[last.pubkey])] else []
  }

  /** The refresh without interruption: an empty join keeps the duties already stored. */
  function Refresh(store: Store, current: seq<ProposerDutiesData>, next: seq<ProposerDutiesData>): Store {
    var duties := IntoDuties(store.validatorRegistrations, MergeWith(current, next));
    if duties != [] then Exec(store, SetProposerDuties(duties)) else store
  }

  /** The filtering loop of `into_duties`, with its early return when nothing is registered. */
  method CollectDuties(storage: InMemoryStorage, duties: seq<ProposerDutiesData>) returns (joined: seq<Validator>)
    ensures joined == IntoDuties(storage.validatorRegistrations, duties)
  {
    joined := [];
    if storage.validatorRegistrations == map[] {
      NothingRegistered(duties);
      return;
    }
    for i := 0 to |duties|
      invariant joined == IntoDuties(storage.validatorRegistrations, duties[..i])
    {
      assert duties[..i + 1][..i] == duties[..i];
      var registrations := storage.validatorRegistrations;
      if duties[i].pubkey in registrations {
        joined := joined + [Validator(duties[i].slot, duties[i].validatorIndex, registrations[duties[i].pubkey])];
      }
    }
    assert duties[..|duties|] == duties;
  }

  lemma {:induction false} NothingRegistered(duties: seq<ProposerDutiesData>)
    ensures IntoDuties(map[], duties) == []
  {
    if duties != [] {
      NothingRegistered(duties[..|duties| - 1]);
    }
  }

  /** The refresh task, once both replies of the beacon node have arrived. */
  method RefreshDuties(storage: InMemoryStorage, current: seq<ProposerDutiesData>, next: seq<ProposerDutiesData>)
    modifies storage
    ensures storage.View() == Refresh(old(storage.View()), current, next)
  {
    var duties := CollectDuties(storage, MergeWith(current, next));
    if duties != [] {
      storage.SetProposerDuties(duties);
    }
  }

  // ----- What a lookup finds after a refresh

  /** A reply of the beacon node for an epoch: each of its slots once, and no other slot. */
  ghost predicate ListsEpoch(duties: seq<ProposerDutiesData>, epoch: nat, slotsPerEpoch: nat) {
    && (forall i :: 0 <= i < |duties| ==> epoch * slotsPerEpoch <= duties[i].slot < (epoch + 1) * slotsPerEpoch)
    && (forall slot :: epoch * slotsPerEpoch <= slot < (epoch + 1) * slotsPerEpoch ==> HasSlot(duties, slot))
    && UniqueSlots(duties)
  }

  ghost predicate HasSlot(duties: seq<ProposerDutiesData>, slot: int) {
    exists i :: 0 <= i < |duties| && duties[i].slot == slot
  }

  ghost predicate UniqueSlots(duties: seq<ProposerDutiesData>) {
    forall i, j :: 0 <= i < j < |duties| ==> duties[i].slot != duties[j].slot
  }

  /** A joined duty is exactly a listed one whose key is registered. */
  lemma {:induction false} JoinedMembers(registrations: map<PublicKey, ValidatorRegistration>,
                                         duties: seq<ProposerDutiesData>, v: Validator)
    ensures v in IntoDuties(registrations, duties) <==>
            exists i :: 0 <= i < |duties| && duties[i].pubkey in registrations
                        && v == Validator(duties[i].slot, duties[i].validatorIndex, registrations[duties[i].pubkey])
  {
    if duties != [] {
      var n := |duties| - 1;
      JoinedMembers(registrations, duties[..n], v);
    }
  }

  /** In a list with unique slots, the lookup of a slot finds the one duty listed for it if its key is registered. */
  lemma LookupAfterJoin(registrations: map<PublicKey, ValidatorRegistration>, duties: seq<ProposerDutiesData>, i: nat)
    requires UniqueSlots(duties) && i < |duties|
    ensures FindDuty(IntoDuties(registrations, duties), duties[i].slot)
         == if duties[i].pubkey in registrations
            then Some(Validator(duties[i].slot, duties[i].validatorIndex, registrations[duties[i].pubkey]))
            else None
  {
    var joined := IntoDuties(registrations, duties);
    var found := FindDuty(joined, duties[i].slot);
    if found.Some? {
      JoinedMembers(registrations, duties, found.value);
    } else if duties[i].pubkey in registrations {
      JoinedMembers(registrations, duties,
                    Validator(duties[i].slot, duties[i].validatorIndex, registrations[duties[i].pubkey]));
    }
  }

  lemma LookupOutside(registrations: map<PublicKey, ValidatorRegistration>, duties: seq<ProposerDutiesData>, slot: u64)
    requires !HasSlot(duties, slot)
    ensures FindDuty(IntoDuties(registrations, duties), slot) == None
  {
    var found := FindDuty(IntoDuties(registrations, duties), slot);
    if found.Some? {
      JoinedMembers(registrations, duties, found.value);
    }
  }

  lemma {:induction false} FoundInConcat(a: seq<Validator>, b: seq<Validator>, slot: u64)
    ensures FindDuty(a + b, slot) == if FindDuty(a, slot).Some? then FindDuty(a, slot) else FindDuty(b, slot)
  {
    if a == [] {
      assert a + b == b;
    } else {
      assert (a + b)[1..] == a[1..] + b;
      FoundInConcat(a[1..], b, slot);
    }
  }

  lemma {:induction false} JoinConcat(registrations: map<PublicKey, ValidatorRegistration>,
                                      a: seq<ProposerDutiesData>, b: seq<ProposerDutiesData>)
    ensures IntoDuties(registrations, a + b) == IntoDuties(registrations, a) + IntoDuties(registrations, b)
  {
    if b == [] {
      assert a + b == a;
    } else {
      var n := |b| - 1;
      assert (a + b)[..|a + b| - 1] == a + b[..n];
      JoinConcat(registrations, a, b[..n]);
    }
  }

  lemma RefreshStores(store: Store, current: seq<ProposerDutiesData>, next: seq<ProposerDutiesData>,
                      joined: seq<Validator>)
    requires joined == IntoDuties(store.validatorRegistrations, current + next)
    ensures Refresh(store, current, next).proposerDuties == if joined == [] then store.proposerDuties else joined
  {
  }

  /** Where both replies have a registered duty for a slot, whatever they list, that of the current epoch is found. */
  lemma CurrentEpochFirst(store: Store, current: seq<ProposerDutiesData>, next: seq<ProposerDutiesData>, slot: u64)
    ensures var registrations := store.validatorRegistrations;
            var (ours, theirs) := (IntoDuties(registrations, current), IntoDuties(registrations, next));
            FindDuty(Refresh(store, current, next).proposerDuties, slot)
            == if ours == [] && theirs == [] then FindDuty(store.proposerDuties, slot)
               else if FindDuty(ours, slot).Some? then FindDuty(ours, slot) else FindDuty(theirs, slot)
  {
    var ours, theirs :=
      IntoDuties(store.validatorRegistrations, current), IntoDuties(store.validatorRegistrations, next);
    JoinConcat(store.validatorRegistrations, current, next);
    FoundInConcat(ours, theirs, slot);
    RefreshStores(store, current, next, ours + theirs);
  }

  /** What the beacon replies and the registrations say about a slot. */
  ghost predicate ExactFor(found: Option<Validator>, registrations: map<PublicKey, ValidatorRegistration>,
                           duties: seq<ProposerDutiesData>, slot: u64) {
    if HasSlot(duties, slot) then
      exists i :: 0 <= i < |duties| && duties[i].slot == slot
        && found == if duties[i].pubkey in registrations
                    then Some(Validator(slot, duties[i].validatorIndex, registrations[duties[i].pubkey])) else None
    else found == None
  }

  /** The slots a refresh at head `h` covers: the epoch of `h` and the next one. */
  predicate InWindow(head: u64, slotsPerEpoch: nat, slot: int)
    requires slotsPerEpoch > 0
  {
    Epoch(head, slotsPerEpoch) * slotsPerEpoch <= slot < (Epoch(head, slotsPerEpoch) + 2) * slotsPerEpoch
  }

  lemma MergedReplies(current: seq<ProposerDutiesData>, next: seq<ProposerDutiesData>, epoch: nat, slotsPerEpoch: nat)
    requires ListsEpoch(current, epoch, slotsPerEpoch) && ListsEpoch(next, epoch + 1, slotsPerEpoch)
    ensures UniqueSlots(MergeWith(current, next))
    ensures forall slot :: HasSlot(MergeWith(current, next), slot) <==>
              epoch * slotsPerEpoch <= slot < (epoch + 2) * slotsPerEpoch
  {
    var merged := MergeWith(current, next);
    assert epoch * slotsPerEpoch + slotsPerEpoch == (epoch + 1) * slotsPerEpoch;
    assert (epoch + 1) * slotsPerEpoch + slotsPerEpoch == (epoch + 2) * slotsPerEpoch;
    forall slot | epoch * slotsPerEpoch <= slot < (epoch + 2) * slotsPerEpoch
      ensures HasSlot(merged, slot)
    {
      if slot < (epoch + 1) * slotsPerEpoch {
        assert HasSlot(current, slot);
        var i :| 0 <= i < |current| && current[i].slot == slot;
        assert merged[i].slot == slot;
      } else {
        assert HasSlot(next, slot);
        var i :| 0 <= i < |next| && next[i].slot == slot;
        assert merged[|current| + i].slot == slot;
      }
    }
  }

  /**
  After a refresh at head `h` whose join is not empty, a lookup finds for every slot of the two epochs exactly the
  beacon's proposer if its key is registered, and for every other slot nothing.
   */
  lemma RefreshCoversWindow(store: Store, head: u64, slotsPerEpoch: nat, current: seq<ProposerDutiesData>,
                            next: seq<ProposerDutiesData>, slot: u64)
    requires slotsPerEpoch > 0
    requires ListsEpoch(current, Epoch(head, slotsPerEpoch), slotsPerEpoch)
    requires ListsEpoch(next, Epoch(head, slotsPerEpoch) + 1, slotsPerEpoch)
    requires IntoDuties(store.validatorRegistrations, MergeWith(current, next)) != []
    ensures HasSlot(MergeWith(current, next), slot) <==> InWindow(head, slotsPerEpoch, slot)
    ensures ExactFor(FindDuty(Refresh(store, current, next).proposerDuties, slot), store.validatorRegistrations,
                     MergeWith(current, next), slot)
  {
    var merged := MergeWith(current, next);
    MergedReplies(current, next, Epoch(head, slotsPerEpoch), slotsPerEpoch);
    if HasSlot(merged, slot) {
      var i :| 0 <= i < |merged| && merged[i].slot == slot;
      LookupAfterJoin(store.validatorRegistrations, merged, i);
    } else {
      LookupOutside(store.validatorRegistrations, merged, slot);
    }
  }

  // ----- The refresh is triggered every 32 slots, whatever the epoch length

  const REFRESH_INTERVAL := 32

  predicate TriggersRefresh(head: u64) {
    head % REFRESH_INTERVAL == 0
  }

  /** Every next slot, for all heads from the refresh at `h` up to the head `last`, lies in the window. */
  ghost predicate NextSlotsCovered(head: u64, slotsPerEpoch: nat, last: nat)
    requires slotsPerEpoch > 0
  {
    forall next :: head + 1 <= next <= last + 1 ==> InWindow(head, slotsPerEpoch, next)
  }

  /** How far a refresh reaches, for any epoch length: up to two slots before the end of the second epoch. */
  lemma RefreshReach(head: u64, slotsPerEpoch: nat, last: nat)
    requires slotsPerEpoch > 0 && head <= last
    ensures NextSlotsCovered(head, slotsPerEpoch, last) <==> last - head + 1 < 2 * slotsPerEpoch - head % slotsPerEpoch
  {
    var start := Epoch(head, slotsPerEpoch) * slotsPerEpoch;
    assert start == head - head % slotsPerEpoch;
    assert (Epoch(head, slotsPerEpoch) + 2) * slotsPerEpoch == start + 2 * slotsPerEpoch;
    if NextSlotsCovered(head, slotsPerEpoch, last) {
      assert InWindow(head, slotsPerEpoch, last + 1);
    }
  }

  /** Epochs of 32 slots: a refresh at an epoch boundary covers every next slot up to head h + 62 and no further. */
  lemma OneMissedBoundaryIsCovered(head: u64)
    requires head % 32 == 0
    ensures NextSlotsCovered(head, 32, head + 62)
    ensures !NextSlotsCovered(head, 32, head + 63)
  {
    RefreshReach(head, 32, head + 62);
    RefreshReach(head, 32, head + 63);
  }

  /**
  With another epoch length, a refresh may fall inside an epoch; the heads up to the next trigger, 32 slots later, are
  covered exactly when more than 32 slots separate this one from the end of the next epoch's duties.
   */
  lemma CoveredUntilNextTrigger(head: u64, slotsPerEpoch: nat)
    requires slotsPerEpoch > 0
    ensures NextSlotsCovered(head, slotsPerEpoch, head + 31) <==> 32 + head % slotsPerEpoch < 2 * slotsPerEpoch
  {
    RefreshReach(head, slotsPerEpoch, head + 31);
  }

  // ----- The refresh as a machine

  datatype RefreshPc =
    | RefreshAtEmpty
    | RefreshAtRead(joined: seq<Validator>, index: nat)
    | RefreshAtWrite(joined: seq<Validator>)
    | RefreshReturned

  /** The task after the beacon node has answered: `duties` are the merged replies. */
  datatype RefreshHandler = RefreshHandler(duties: seq<ProposerDutiesData>, pc: RefreshPc)

  function RefreshCall(handler: RefreshHandler): Option<Call> {
    match handler.pc
    case RefreshAtEmpty => Some(EmptyValidatorRegs)
    case RefreshAtRead(_, i) =>
      if i < |handler.duties| then Some(ReadValidatorRegistration(handler.duties[i].pubkey)) else None
    case RefreshAtWrite(joined) => Some(SetProposerDuties(joined))
    case RefreshReturned => None
  }

  /** Where the task goes once `i` duties have been looked up. */
  function RefreshNext(duties: seq<ProposerDutiesData>, joined: seq<Validator>, i: nat): RefreshPc {
    if i < |duties| then RefreshAtRead(joined, i)
    else if joined != [] then RefreshAtWrite(joined)
    else RefreshReturned
  }

  function RefreshResume(handler: RefreshHandler, reply: Reply): RefreshHandler {
    match (handler.pc, reply)
    case (RefreshAtEmpty, BoolReply(empty)) =>
      handler.(pc := if empty then RefreshReturned else RefreshNext(handler.duties, [], 0))
    case (RefreshAtRead(joined, i), RegistrationReply(registration)) =>
      if i < |handler.duties| then
        var duty := handler.duties[i];
        var joined' :=
          if registration.Some? then joined + [Validator(duty.slot, duty.validatorIndex, registration.value)]
          else joined;
        handler.(pc := RefreshNext(handler.duties, joined', i + 1))
      else handler
    case (RefreshAtWrite(_), Ack) => handler.(pc := RefreshReturned)
    case _ => handler
  }
}
