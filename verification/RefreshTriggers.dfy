/** Which heads spawn a refresh of the duties, and how long the last one spawned serves the heads that follow it. */
module RefreshTriggers {
  import opened Types
  import opened Storage
  import opened Duties
  import opened EventStream
  import opened RelayLoop

  // ----- Exactly the heads divisible by 32

  predicate IsBoundary(heads: seq<u64>, i: nat) {
    i < |heads| && heads[i] % 32 == 0
  }

  predicate Increasing(at: seq<nat>) {
    forall k, m :: 0 <= k < m < |at| ==> at[k] < at[m]
  }

  /** `spawned` are exactly the heads divisible by 32, in order: each stands at its own place among the heads. */
  ghost predicate SpawnedBy(heads: seq<u64>, spawned: seq<u64>, at: seq<nat>) {
    && |at| == |spawned| && Increasing(at)
    && (forall k :: 0 <= k < |at| ==> IsBoundary(heads, at[k]) && spawned[k] == heads[at[k]])
    && forall i {:trigger Listed(at, i)} :: IsBoundary(heads, i) ==> Listed(at, i)
  }

  predicate Listed(at: seq<nat>, i: nat) {
    i in at
  }

  ghost predicate SpawnedExactly(heads: seq<u64>, spawned: seq<u64>) {
    exists at :: SpawnedBy(heads, spawned, at)
  }

  lemma BoundariesKept(heads: seq<u64>, head: u64)
    ensures forall i :: IsBoundary(heads + [head], i) <==> IsBoundary(heads, i) || (i == |heads| && head % 32 == 0)
  {
  }

  /** One more head. */
  lemma SpawnedExtends(heads: seq<u64>, spawned: seq<u64>, head: u64)
    requires SpawnedExactly(heads, spawned)
    ensures SpawnedExactly(heads + [head], if head % 32 == 0 then spawned + [head] else spawned)
  {
    var at: seq<nat> :| SpawnedBy(heads, spawned, at);
    BoundariesKept(heads, head);
    if head % 32 == 0 {
      SpawnedHere(heads, spawned, at, head);
    } else {
      assert SpawnedBy(heads + [head], spawned, at);
    }
  }

  lemma SpawnedHere(heads: seq<u64>, spawned: seq<u64>, at: seq<nat>, head: u64)
    requires SpawnedBy(heads, spawned, at) && head % 32 == 0
    ensures SpawnedBy(heads + [head], spawned + [head], at + [|heads|])
  {
    var at' := at + [|heads|];
    BoundariesKept(heads, head);
    assert Increasing(at');
    forall i: nat
      ensures Listed(at', i) <==> Listed(at, i) || i == |heads|
    {
    }
  }

  /** Each head is the slot after the one before it. */
  predicate EverySlot(heads: seq<u64>) {
    forall i :: 0 < i < |heads| ==> OneSlotOn(heads, i)
  }

  predicate OneSlotOn(heads: seq<u64>, i: nat)
    requires 0 < i < |heads|
  {
    heads[i] as int == heads[i - 1] as int + 1
  }

  lemma {:induction false} BoundariesAreExact(heads: seq<u64>)
    ensures SpawnedExactly(heads, Boundaries(heads))
  {
    if heads == [] {
      NothingSpawned();
    } else {
      var n := |heads| - 1;
      BoundariesAreExact(heads[..n]);
      SpawnedExtends(heads[..n], Boundaries(heads[..n]), heads[n]);
      BoundariesUnfold(heads[..n], heads[n]);
      assert heads == heads[..n] + [heads[n]];
    }
  }

  lemma NothingSpawned()
    ensures SpawnedExactly([], [])
  {
    assert SpawnedBy([], [], []);
  }

  lemma BoundariesUnfold(heads: seq<u64>, head: u64)
    ensures Boundaries(heads + [head]) == if head % 32 == 0 then Boundaries(heads) + [head] else Boundaries(heads)
  {
    assert (heads + [head])[..|heads|] == heads;
    assert Boundaries(heads) + [] == Boundaries(heads);
  }

  /**
  Whatever the schedule and whatever other handlers do in between, the refreshes spawned are exactly the heads taken
  that are divisible by 32, each at its own place among them and in order.
   */
  lemma RefreshesAreSpawnedExactly(start: Service, schedule: seq<Turn>)
    requires UndisturbedBy(schedule) && start.refreshes == []
    ensures var run := Drive(start, schedule); SpawnedExactly(HeadsOf(run.taken), run.service.refreshes)
  {
    EventsAreApplied(start, schedule);
    var heads := HeadsOf(Drive(start, schedule).taken);
    BoundariesAreExact(heads);
    assert [] + Boundaries(heads) == Boundaries(heads);
  }

  // ----- The last refresh covers the next slot

  /** The last head divisible by 32, for heads that visit every slot from such a one on. */
  lemma {:induction false} LastBoundary(heads: seq<u64>)
    requires heads != [] && heads[0] % 32 == 0 && EverySlot(heads)
    ensures var (head, spawned) := (heads[|heads| - 1], Boundaries(heads));
            spawned != [] && spawned[|spawned| - 1] == head - head % 32
  {
    var n := |heads| - 1;
    if n > 0 {
      forall i | 0 < i < n
        ensures OneSlotOn(heads[..n], i)
      {
        assert OneSlotOn(heads, i);
      }
      LastBoundary(heads[..n]);
      BoundariesUnfold(heads[..n], heads[n]);
      assert heads == heads[..n] + [heads[n]];
      assert OneSlotOn(heads, n);
    }
  }

  /** Which slots after `last` are in the window of a refresh at `last`. */
  lemma WindowHoldsNext(last: u64, slotsPerEpoch: nat, next: int)
    requires slotsPerEpoch > 0 && last < next
    ensures InWindow(last, slotsPerEpoch, next) <==> next - last + last % slotsPerEpoch < 2 * slotsPerEpoch
  {
    var start := Epoch(last, slotsPerEpoch) * slotsPerEpoch;
    assert start == last - last % slotsPerEpoch;
    assert (Epoch(last, slotsPerEpoch) + 2) * slotsPerEpoch == start + 2 * slotsPerEpoch;
  }

  /** The refresh at `last` was spawned at most 31 slots before `head`; when its window holds the next slot. */
  predicate Serves(last: u64, head: u64, slotsPerEpoch: nat)
    requires slotsPerEpoch > 0
  {
    var next: int := head + 1;
    && last % 32 == 0 && last <= head && head - last < 32
    && (InWindow(last, slotsPerEpoch, next) <==> next - last + last % slotsPerEpoch < 2 * slotsPerEpoch)
    && InWindow(last, 32, next)
  }

  lemma BoundaryServes(head: u64, slotsPerEpoch: nat)
    requires slotsPerEpoch > 0
    ensures Serves(head - head % 32, head, slotsPerEpoch)
  {
    var last := head - head % 32;
    assert last == head / 32 * 32;
    WindowHoldsNext(last, slotsPerEpoch, head + 1);
    WindowHoldsNext(last, 32, head + 1);
  }

  /**
  Over every run in which the heads taken visit every slot from a multiple of 32 on, a refresh has been spawned at the
  last multiple of 32, at most 31 slots ago.  The slot after the last head is in the two epochs it asked for exactly if
  it comes fewer than two epochs after the start of the first; so always, if epochs have 32 slots.
   */
  lemma HeadsStayCovered(start: Service, schedule: seq<Turn>, slotsPerEpoch: nat)
    requires UndisturbedBy(schedule) && start.refreshes == [] && slotsPerEpoch > 0
    requires var heads := HeadsOf(Drive(start, schedule).taken);
             heads != [] && heads[0] % 32 == 0 && EverySlot(heads)
    ensures var refreshes := Drive(start, schedule).service.refreshes;
            refreshes != []
              && Serves(refreshes[|refreshes| - 1], Drive(start, schedule).service.store.slot, slotsPerEpoch)
  {
    EventsAreApplied(start, schedule);
    var heads := HeadsOf(Drive(start, schedule).taken);
    LastBoundary(heads);
    assert [] + Boundaries(heads) == Boundaries(heads);
    BoundaryServes(heads[|heads| - 1], slotsPerEpoch);
  }
}
