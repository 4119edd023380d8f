/** The request registry itself: a slot table with generations, a free list, and
    a completion queue with wrapping 32-bit counters. Every method refines one
    step of the ledger (crates/io-uring/src/request.rs). */
module RequestRegistries {
  import opened Wrappers
  import opened Bits
  import opened RequestLedgers
  import opened RequestRuns

  const IORING_MAX_ENTRIES: nat := 32_768

  datatype IoError =
    | RequestCapacityExceeded | InvalidQueueGeometry | CompletionQueueFull | GenerationExhausted
    | InvalidRequestState | UnknownRequest | TerminalAlreadyClaimed | RequestUncancellable
    | CancellationTargetNotFound | CompletionNotPending | PublicationInFlight | CorruptCompletionHead
    | InvalidLifecycleTransition | Busy | RingClosing | RingDraining | RingClosed

  datatype Slot = Slot(generation: Option<nat>, entry: Option<Entry>)

  datatype Permit = Permit(id: RequestId, descriptor: Descriptor, cause: Cause)

  datatype Publication = Publication(id: RequestId, completion: Completion, slot: nat, newTail: nat)

  datatype Selector = ByUserData(userData: nat) | ById(id: RequestId)

  // ---------- How the table represents the ledger ----------

  predicate Holds(ring: nat, slots: seq<Slot>, id: RequestId) {
    && id.ring == ring
    && id.slot < |slots|
    && slots[id.slot].generation == Some(id.generation)
    && slots[id.slot].entry.Some?
  }

  ghost predicate TableMatches(ring: nat, slots: seq<Slot>, l: Ledger) {
    && (forall id | id in l.live :: Holds(ring, slots, id) && slots[id.slot].entry.value == l.live[id].entry)
    && (forall k | 0 <= k < |slots| && slots[k].entry.Some? ::
          slots[k].generation.Some? && RequestId(ring, k, slots[k].generation.value) in l.live)
    && (forall k | 0 <= k < |slots| && slots[k].generation.Some? :: slots[k].generation.value <= U64_MAX)
    // A slot's generation is past every request that ended there.
    && (forall id | id in l.ended ::
          && id.ring == ring && id.slot < |slots|
          && (slots[id.slot].generation.Some? ==> id.generation < slots[id.slot].generation.value))
  }

  ghost predicate FreeMatches(slots: seq<Slot>, free: seq<nat>) {
    && Distinct(free)
    && (forall i | 0 <= i < |free| :: free[i] < |slots| && slots[free[i]].entry.None? && slots[free[i]].generation.Some?)
    && (forall k | 0 <= k < |slots| && slots[k].entry.None? && slots[k].generation.Some? :: k in free)
  }

  /** The wrapping counters, the credit account and the shared ring against the unbounded queue. */
  ghost predicate QueueMatches(cqEntries: nat, head: nat, tail: nat, credits: nat, memory: map<nat, Cqe>, l: Ledger) {
    && cqEntries == l.cqEntries && 0 < cqEntries <= IORING_MAX_CQ_ENTRIES
    && head == l.consumed % U32_MODULUS
    && tail == |l.published| % U32_MODULUS
    && credits == |l.live| + |l.Unread()|
    && forall i | l.consumed <= i < |l.published| :: i % cqEntries in memory && memory[i % cqEntries] == l.published[i]
  }

  lemma MoveMatches(ring: nat, slots: seq<Slot>, free: seq<nat>, l: Ledger, id: RequestId, request: Request)
    requires TableMatches(ring, slots, l) && FreeMatches(slots, free) && id in l.live
    ensures
      var after := slots[id.slot := slots[id.slot].(entry := Some(request.entry))];
      TableMatches(ring, after, l.With(id, request)) && FreeMatches(after, free)
  {
  }

  function Successor(generation: nat): Option<nat> {
    if generation == U64_MAX then None else Some(generation + 1)
  }

  function Cleared(slots: seq<Slot>, id: RequestId): seq<Slot>
    requires id.slot < |slots|
  {
    slots[id.slot := Slot(Successor(id.generation), None)]
  }

  /** Clearing a slot moves it to the next generation. */
  lemma ClearMatches(ring: nat, slots: seq<Slot>, l: Ledger, id: RequestId, fate: Fate)
    requires TableMatches(ring, slots, l) && id in l.live
    ensures TableMatches(ring, Cleared(slots, id), l.Retired(id, fate))
  {
  }

  /** The free list always has room for a cleared slot. */
  lemma ClearFrees(ring: nat, slots: seq<Slot>, free: seq<nat>, id: RequestId)
    requires Holds(ring, slots, id) && FreeMatches(slots, free)
    ensures |free| < |slots|
    ensures FreeMatches(Cleared(slots, id), if id.generation == U64_MAX then free else free + [id.slot])
  {
    assert id.slot !in free;
    Pigeonhole(free + [id.slot], |slots|);
  }

  /** A new id has never been used in this ring. */
  lemma ReserveMatches(ring: nat, slots: seq<Slot>, free: seq<nat>, l: Ledger, entry: Entry)
    requires TableMatches(ring, slots, l) && FreeMatches(slots, free) && free != []
    ensures free[|free| - 1] < |slots| && slots[free[|free| - 1]].generation.Some?
    ensures
      var k := free[|free| - 1];
      var id := RequestId(ring, k, slots[k].generation.value);
      var after := slots[k := slots[k].(entry := Some(entry))];
      && !l.Known(id)
      && TableMatches(ring, after, l.With(id, Request(entry, false, None)))
      && FreeMatches(after, free[..|free| - 1])
  {
  }

  lemma NothingFree(ring: nat, slots: seq<Slot>, l: Ledger)
    requires TableMatches(ring, slots, l) && FreeMatches(slots, [])
    ensures forall k | 0 <= k < |slots| :: slots[k].entry.Some? || slots[k] == Slot(None, None)
    ensures (exists k | 0 <= k < |slots| :: slots[k].entry.Some?) <==> l.live != map[]
  {
  }

  lemma FindIsLive(ring: nat, slots: seq<Slot>, l: Ledger, id: RequestId)
    requires TableMatches(ring, slots, l)
    ensures Holds(ring, slots, id) <==> id in l.live
    ensures id in l.live ==> slots[id.slot].entry == Some(l.live[id].entry)
  {
  }

  lemma LiveIsCoherent(l: Ledger, id: RequestId)
    requires Inv(l) && id in l.live
    ensures Coherent(l.live[id])
  {
  }

  /** A request that a cancellation may still claim. */
  predicate CanCancel(l: Ledger, id: RequestId) {
    l.InState(id, Prepared) || l.InState(id, Issued(Cancellable))
  }

  /** Before execution every request can be cancelled; after it only a poll. */
  lemma CanCancelMeans(l: Ledger, id: RequestId)
    requires Inv(l)
    ensures CanCancel(l, id) <==>
      && id in l.live && l.live[id].claim == None && l.live[id].State() != Reserved
      && (l.live[id].wasIssued ==> l.live[id].entry.descriptor.operation == PollAdd)
  {
    if id in l.live {
      LiveIsCoherent(l, id);
    }
  }

  predicate Matches(l: Ledger, userData: nat, exclude: Option<RequestId>, id: RequestId) {
    CanCancel(l, id) && exclude != Some(id) && l.live[id].entry.descriptor.userData == userData
  }

  /** The matching request that was admitted first. */
  ghost predicate IsOldest(l: Ledger, userData: nat, exclude: Option<RequestId>, id: RequestId) {
    && Matches(l, userData, exclude, id)
    && forall k | k in l.live && Matches(l, userData, exclude, k) :: l.live[id].entry.sequence <= l.live[k].entry.sequence
  }

  // ---------- How the queue follows the ledger ----------

  lemma QueueAdmits(cqEntries: nat, head: nat, tail: nat, credits: nat, memory: map<nat, Cqe>, l: Ledger,
                    id: RequestId, request: Request)
    requires QueueMatches(cqEntries, head, tail, credits, memory, l)
    ensures QueueMatches(cqEntries, head, tail, if id in l.live then credits else credits + 1, memory, l.With(id, request))
  {
  }

  lemma QueueRetires(cqEntries: nat, head: nat, tail: nat, credits: nat, memory: map<nat, Cqe>, l: Ledger,
                     id: RequestId, fate: Fate)
    requires QueueMatches(cqEntries, head, tail, credits, memory, l) && id in l.live
    ensures credits > 0 && QueueMatches(cqEntries, head, tail, credits - 1, memory, l.Retired(id, fate))
  {
  }

  function Wrapped(n: nat): nat {
    n % U32_MODULUS
  }

  function WrappingSub(a: nat, b: nat): nat {
    (a - b) % U32_MODULUS
  }

  /** The published count read off the wrapping counters is the true one. */
  lemma WrapDifference(p: nat, c: nat)
    requires c <= p < c + U32_MODULUS
    ensures WrappingSub(Wrapped(p), Wrapped(c)) == p - c
  {
  }

  /** The table and the queue do not look at the publication in flight. */
  lemma SameView(ring: nat, slots: seq<Slot>, l: Ledger, flight: Option<RequestId>,
                 cqEntries: nat, head: nat, tail: nat, credits: nat, memory: map<nat, Cqe>)
    requires TableMatches(ring, slots, l) && QueueMatches(cqEntries, head, tail, credits, memory, l)
    ensures TableMatches(ring, slots, l.(inFlight := flight))
    ensures QueueMatches(cqEntries, head, tail, credits, memory, l.(inFlight := flight))
  {
  }

  lemma SameTable(ring: nat, slots: seq<Slot>, l: Ledger, t: Ledger)
    requires TableMatches(ring, slots, l) && t.live == l.live && t.ended == l.ended
    ensures TableMatches(ring, slots, t)
  {
  }

  lemma SameQueue(cqEntries: nat, head: nat, tail: nat, credits: nat, memory: map<nat, Cqe>, l: Ledger, t: Ledger)
    requires QueueMatches(cqEntries, head, tail, credits, memory, l)
    requires t.live == l.live && t.published == l.published && t.consumed == l.consumed && t.cqEntries == l.cqEntries
    ensures QueueMatches(cqEntries, head, tail, credits, memory, t)
  {
  }

  /** The plan for a request that is being published: its own CQE, at the ring slot of the next position. */
  function PlanOf(l: Ledger, id: RequestId): Publication {
    Publication(id,
                if id in l.live && l.live[id].State().Publishing? then l.live[id].State().completion else Completion(0, 0, 0),
                if l.cqEntries == 0 then 0 else |l.published| % l.cqEntries,
                Wrapped(|l.published| + 1))
  }

  lemma FlightIsPublishing(l: Ledger, id: RequestId)
    requires Inv(l) && l.inFlight == Some(id)
    ensures id in l.live && l.live[id].State().Publishing?
    ensures Enabled(l, CommitPublication(id))
  {
  }

  /** What a rollback or a discard means for the queue. */
  lemma EndMatches(cqEntries: nat, head: nat, tail: nat, credits: nat, memory: map<nat, Cqe>, l: Ledger,
                   id: RequestId, fate: Fate, e: Step)
    requires Inv(l) && QueueMatches(cqEntries, head, tail, credits, memory, l)
    requires (e == Rollback(id) && fate == Withdrawn) || (e == DiscardCompletion(id) && fate == Discarded)
    requires Enabled(l, e)
    ensures id in l.live && Apply(l, e) == l.Retired(id, fate) && Inv(Apply(l, e))
    ensures credits > 0 && QueueMatches(cqEntries, head, tail, credits - 1, memory, l.Retired(id, fate))
  {
    StepInv(l, e);
    QueueRetires(cqEntries, head, tail, credits, memory, l, id, fate);
  }

  /** What committing a publication means for the table and the queue. */
  lemma CommitMatches(ring: nat, slots: seq<Slot>, cqEntries: nat, head: nat, tail: nat, credits: nat,
                      memory: map<nat, Cqe>, l: Ledger, id: RequestId)
    requires Inv(l) && Enabled(l, CommitPublication(id))
    requires TableMatches(ring, slots, l.Retired(id, Published(|l.published|)))
    requires QueueMatches(cqEntries, head, tail, credits, memory, l)
    ensures
      var t, plan := Apply(l, CommitPublication(id)), PlanOf(l, id);
      && Inv(t) && t.lifecycle == l.lifecycle && t.inFlight == None
      && (forall k | k in t.live :: k in l.live && t.live[k] == l.live[k])
      && TableMatches(ring, slots, t)
      && QueueMatches(cqEntries, head, plan.newTail, credits, memory[plan.slot := Cqe(id, plan.completion)], t)
  {
    hide TableMatches, QueueMatches, Inv;
    QueueAppends(cqEntries, head, tail, credits, memory, l, id);
    StepInv(l, CommitPublication(id));
    SameTable(ring, slots, l.Retired(id, Published(|l.published|)), Apply(l, CommitPublication(id)));
  }

  /** While the queue has room, the slot of the next position is not the slot of an unread one. */
  lemma TailSlotIsFree(l: Ledger)
    requires l.consumed <= |l.published| < l.consumed + l.cqEntries
    ensures forall i | l.consumed <= i < |l.published| :: i % l.cqEntries != |l.published| % l.cqEntries
  {
    forall i | l.consumed <= i < |l.published|
      ensures i % l.cqEntries != |l.published| % l.cqEntries
    {
      SlotsDiffer(i, |l.published|, l.cqEntries);
    }
  }

  /** Consumed CQEs refund their credits. */
  lemma QueueConsumes(cqEntries: nat, head: nat, tail: nat, credits: nat, memory: map<nat, Cqe>, l: Ledger, count: nat)
    requires QueueMatches(cqEntries, head, tail, credits, memory, l) && count <= |l.Unread()|
    ensures credits >= count
    ensures QueueMatches(cqEntries, Wrapped(l.consumed + count), tail, credits - count, memory, l.(consumed := l.consumed + count))
  {
  }

  /** A published CQE goes into the ring without touching an unread one. */
  lemma QueueAppends(cqEntries: nat, head: nat, tail: nat, credits: nat, memory: map<nat, Cqe>, l: Ledger, id: RequestId)
    requires QueueMatches(cqEntries, head, tail, credits, memory, l) && Inv(l) && Enabled(l, CommitPublication(id))
    ensures
      var plan := PlanOf(l, id);
      QueueMatches(cqEntries, head, plan.newTail, credits, memory[plan.slot := Cqe(id, plan.completion)],
                   Apply(l, CommitPublication(id)))
  {
    FewerLive(l.live, id);
    PublishNeverFindsFullQueue(l, id);
    TailSlotIsFree(l);
    assert |Apply(l, CommitPublication(id)).Unread()| == |l.Unread()| + 1;
  }

  /** The masked tail is the ring slot of the next position, across every wrap of the counter. */
  lemma MaskedTail(cqEntries: nat, published: nat)
    requires IsPowerOfTwo(cqEntries) && cqEntries <= IORING_MAX_CQ_ENTRIES
    ensures And(Wrapped(published), cqEntries - 1) == published % cqEntries
    ensures Wrapped(Wrapped(published) + 1) == Wrapped(published + 1)
  {
    Pow2Of32();
    if Log2(cqEntries) > 32 {
      Pow2Grows(32, Log2(cqEntries));
    }
    WrapKeepsSlot(published, Log2(cqEntries));
  }

  /** The head userspace shows after it consumed `k` more CQEs. */
  function HeadAfter(consumed: nat, k: nat): nat {
    Wrapped(consumed + k)
  }

  lemma HeadMoves(consumed: nat, userHead: nat)
    requires userHead < U32_MODULUS
    ensures HeadAfter(consumed, WrappingSub(userHead, Wrapped(consumed))) == userHead
  {
  }

  /** A head further on than every unread CQE is the head after no prefix of them. */
  lemma HeadConsumes(consumed: nat, userHead: nat, unread: nat)
    requires userHead < U32_MODULUS && unread < WrappingSub(userHead, Wrapped(consumed))
    ensures forall j | 0 <= j <= unread :: HeadAfter(consumed, j) != userHead
  {
  }

  lemma DrainingIsQuiet(l: Ledger)
    requires Inv(l) && l.lifecycle == Draining
    ensures l.inFlight == None
  {
  }

  lemma DrainingIsPending(l: Ledger, id: RequestId)
    requires Inv(l) && l.lifecycle == Draining && id in l.live
    ensures l.live[id].State().CompletionPending? && l.inFlight == None
    ensures Enabled(l, DiscardCompletion(id))
  {
  }

  function Stopped(lifecycle: Lifecycle): IoError {
    match lifecycle
    case Draining => RingDraining
    case Closed => RingClosed
    case _ => RingClosing
  }

  ghost predicate SequencesBelow(l: Ledger, next: Option<nat>) {
    next.Some? ==> forall id | id in l.live :: l.live[id].entry.sequence < next.value
  }

  lemma SequencesStay(l: Ledger, next: Option<nat>, id: RequestId, fate: Fate)
    requires SequencesBelow(l, next) && id in l.live
    ensures SequencesBelow(l.Retired(id, fate), next)
  {
  }

  class RequestRegistry {
    const ring: nat
    const capacity: nat
    const cqEntries: nat
    var slots: seq<Slot>
    var freeSlots: seq<nat>
    var nextSequence: Option<nat>
    var lifecycle: Lifecycle
    var cqHead: nat
    var cqTail: nat
    var terminalCredits: nat
    var inFlight: Option<RequestId>

    /** The history this registry represents. */
    ghost var ledger: Ledger
    /** The shared CQ array: what the adapter wrote into each ring slot. */
    ghost var memory: map<nat, Cqe>

    ghost predicate Valid()
      reads this
    {
      && |slots| == capacity && 0 < capacity <= IORING_MAX_ENTRIES
      && IsPowerOfTwo(cqEntries)
      && TableMatches(ring, slots, ledger)
      && FreeMatches(slots, freeSlots)
      && QueueMatches(cqEntries, cqHead, cqTail, terminalCredits, memory, ledger)
      && lifecycle == ledger.lifecycle && inFlight == ledger.inFlight
      && Inv(ledger)
      && SequencesBelow(ledger, nextSequence)
    }

    constructor (ring: nat, capacity: nat, cqEntries: nat)
      requires 0 < capacity <= IORING_MAX_ENTRIES
      requires cqEntries <= IORING_MAX_CQ_ENTRIES && IsPowerOfTwo(cqEntries)
      ensures Valid() && ledger == Initial(cqEntries)
      ensures this.ring == ring && this.capacity == capacity && this.cqEntries == cqEntries
    {
      this.ring, this.capacity, this.cqEntries := ring, capacity, cqEntries;
      slots := seq(capacity, _ => Slot(Some(1), None));
      freeSlots := seq(capacity, i requires 0 <= i < capacity => capacity - 1 - i);
      nextSequence, lifecycle := Some(1), Open;
      cqHead, cqTail, terminalCredits, inFlight := 0, 0, 0, None;
      ledger, memory := Initial(cqEntries), map[];
      new;
      InitialInv(cqEntries);
      forall k | 0 <= k < capacity
        ensures k in freeSlots
      {
        assert freeSlots[capacity - 1 - k] == k;
      }
    }

    static method TryNew(ring: nat, capacity: nat, cqEntries: nat) returns (r: Result<RequestRegistry, IoError>)
      ensures r.Ok? <==> 0 < capacity <= IORING_MAX_ENTRIES && IsPowerOfTwo(cqEntries) && cqEntries <= IORING_MAX_CQ_ENTRIES
      ensures r.Err? ==> r.error == if 0 < capacity <= IORING_MAX_ENTRIES then InvalidQueueGeometry else RequestCapacityExceeded
      ensures r.Ok? ==> fresh(r.value) && r.value.Valid() && r.value.ledger == Initial(cqEntries)
    {
      if capacity == 0 || capacity > IORING_MAX_ENTRIES {
        return Err(RequestCapacityExceeded);
      }
      if !IsPowerOfTwo(cqEntries) || cqEntries > IORING_MAX_CQ_ENTRIES {
        return Err(InvalidQueueGeometry);
      }
      var registry := new RequestRegistry(ring, capacity, cqEntries);
      return Ok(registry);
    }

    lemma CreditsAreLive()
      requires Valid()
      ensures terminalCredits == |ledger.live| + |ledger.Unread()| <= cqEntries == ledger.cqEntries <= IORING_MAX_CQ_ENTRIES
      ensures cqEntries > 0
      ensures cqHead == Wrapped(ledger.consumed) && cqTail == Wrapped(|ledger.published|)
      ensures |ledger.Unread()| == |ledger.published| - ledger.consumed
    {
    }

    /** Admits one request under an id never used before, or says which limit it met. */
    method Reserve(descriptor: Descriptor) returns (r: Result<RequestId, IoError>)
      requires Valid()
      modifies this
      ensures Valid()
      ensures r.Ok? <==>
        && old(lifecycle) == Open && old(|ledger.live| + |ledger.Unread()|) < cqEntries && old(nextSequence).Some?
        && exists k | 0 <= k < |old(slots)| :: old(slots)[k].entry.None? && old(slots)[k].generation.Some?
      ensures r.Err? ==>
        && unchanged(this)
        && r.error == if lifecycle == Closing then RingClosing
                      else if lifecycle == Draining then RingDraining
                      else if lifecycle == Closed then RingClosed
                      else if |ledger.live| + |ledger.Unread()| >= cqEntries then CompletionQueueFull
                      else if nextSequence.Some? && ledger.live != map[] then RequestCapacityExceeded
                      else GenerationExhausted
      ensures r.Ok? ==> IsStep(old(ledger), Step.Reserve(r.value, descriptor, old(nextSequence).value), ledger)
      // Sequences grow with admission.
      ensures r.Ok? ==> forall k | k in old(ledger).live :: old(ledger).live[k].entry.sequence < old(nextSequence).value
    {
      hide TableMatches, QueueMatches, Inv;
      CreditsAreLive();
      if lifecycle != Open {
        return Err(Stopped(lifecycle));
      }
      if terminalCredits >= cqEntries {
        return Err(CompletionQueueFull);
      }
      if nextSequence.None? {
        return Err(GenerationExhausted);
      }
      if freeSlots == [] {
        NothingFree(ring, slots, ledger);
        if exists k | 0 <= k < |slots| :: slots[k].entry.Some? {
          return Err(RequestCapacityExceeded);
        }
        return Err(GenerationExhausted);
      }
      assert slots[freeSlots[0]].entry.None? && slots[freeSlots[0]].generation.Some?;
      var id := Admit(descriptor);
      return Ok(id);
    }

    /** Takes a free slot and a credit for an admitted request. */
    method Admit(descriptor: Descriptor) returns (id: RequestId)
      requires Valid() && lifecycle == Open && terminalCredits < cqEntries && nextSequence.Some? && freeSlots != []
      modifies this
      ensures Valid() && IsStep(old(ledger), Step.Reserve(id, descriptor, old(nextSequence).value), ledger)
    {
      hide TableMatches, FreeMatches, QueueMatches, Inv;
      CreditsAreLive();
      var entry := Entry(descriptor, nextSequence.value, Reserved);
      ReserveMatches(ring, slots, freeSlots, ledger, entry);
      var index := freeSlots[|freeSlots| - 1];
      id := RequestId(ring, index, slots[index].generation.value);
      ghost var e := Step.Reserve(id, descriptor, nextSequence.value);
      QueueAdmits(cqEntries, cqHead, cqTail, terminalCredits, memory, ledger, id, Request(entry, false, None));
      StepInv(ledger, e);
      terminalCredits := terminalCredits + 1;
      nextSequence := Successor(nextSequence.value);
      freeSlots := freeSlots[..|freeSlots| - 1];
      slots := slots[index := slots[index].(entry := Some(entry))];
      ledger := Apply(ledger, e);
    }

    /** Moves one request to another state; `e` is the step this is. */
    method Move(id: RequestId, state: State, flight: Option<RequestId>, ghost request: Request, ghost e: Step)
      requires Valid() && id in ledger.live && request.entry == ledger.live[id].entry.(state := state)
      requires Enabled(ledger, e) && Apply(ledger, e) == ledger.With(id, request).(inFlight := flight)
      modifies this`slots, this`inFlight, this`ledger
      ensures Valid() && ledger == old(Apply(ledger, e))
    {
      hide TableMatches, FreeMatches, QueueMatches, Inv, Enabled, Apply;
      FindIsLive(ring, slots, ledger, id);
      MoveMatches(ring, slots, freeSlots, ledger, id, request);
      QueueAdmits(cqEntries, cqHead, cqTail, terminalCredits, memory, ledger, id, request);
      StepInv(ledger, e);
      SameView(ring, slots[id.slot := slots[id.slot].(entry := Some(request.entry))], ledger.With(id, request), flight,
               cqEntries, cqHead, cqTail, terminalCredits, memory);
      slots := slots[id.slot := slots[id.slot].(entry := Some(slots[id.slot].entry.value.(state := state)))];
      inFlight := flight;
      ledger := Apply(ledger, e);
    }

    /** Ends the occupation of a slot and frees it for its next generation. */
    method ClearSlot(id: RequestId, ghost fate: Fate)
      requires TableMatches(ring, slots, ledger) && FreeMatches(slots, freeSlots) && id in ledger.live
      modifies this`slots, this`freeSlots
      ensures |slots| == old(|slots|)
      ensures TableMatches(ring, slots, ledger.Retired(id, fate)) && FreeMatches(slots, freeSlots)
    {
      hide TableMatches, FreeMatches;
      FindIsLive(ring, slots, ledger, id);
      ClearMatches(ring, slots, ledger, id, fate);
      ClearFrees(ring, slots, freeSlots, id);
      slots := Cleared(slots, id);
      if id.generation != U64_MAX {
        if |freeSlots| >= |slots| {
          assert false;
        }
        freeSlots := freeSlots + [id.slot];
      }
    }

    /** Clears the slot of a request that ends without a CQE and refunds its credit. */
    method Withdraw(id: RequestId, ghost fate: Fate, ghost e: Step)
      requires Valid() && Enabled(ledger, e)
      requires (e == Step.Rollback(id) && fate == Withdrawn) || (e == Step.DiscardCompletion(id) && fate == Discarded)
      modifies this
      ensures Valid() && ledger == old(Apply(ledger, e))
    {
      hide TableMatches, FreeMatches, QueueMatches, Inv, Enabled, Apply, SequencesBelow;
      EndMatches(cqEntries, cqHead, cqTail, terminalCredits, memory, ledger, id, fate, e);
      SequencesStay(ledger, nextSequence, id, fate);
      ClearSlot(id, fate);
      terminalCredits := terminalCredits - 1;
      ledger := Apply(ledger, e);
    }

    method Rollback(id: RequestId) returns (r: Result<(), IoError>)
      requires Valid()
      modifies this
      ensures Valid()
      ensures r == if id !in old(ledger).live then Err(UnknownRequest)
                   else if old(ledger).live[id].State() != Reserved then Err(InvalidRequestState)
                   else Ok(())
      ensures if r.Ok? then IsStep(old(ledger), Step.Rollback(id), ledger) else unchanged(this)
    {
      hide TableMatches, FreeMatches, QueueMatches, Inv;
      FindIsLive(ring, slots, ledger, id);
      if !Holds(ring, slots, id) {
        return Err(UnknownRequest);
      }
      if slots[id.slot].entry.value.state != Reserved {
        return Err(InvalidRequestState);
      }
      assert Enabled(ledger, Step.Rollback(id));
      Withdraw(id, Withdrawn, Step.Rollback(id));
      return Ok(());
    }

    method Commit(id: RequestId) returns (r: Result<Descriptor, IoError>)
      requires Valid()
      modifies this
      ensures Valid()
      ensures r == if id !in old(ledger).live then Err(UnknownRequest)
                   else if old(ledger).live[id].State() != Reserved then Err(InvalidRequestState)
                   else Ok(old(ledger).live[id].entry.descriptor)
      ensures if r.Ok? then IsStep(old(ledger), Step.Commit(id), ledger) else unchanged(this)
    {
      hide TableMatches, FreeMatches, QueueMatches, Inv;
      FindIsLive(ring, slots, ledger, id);
      if !Holds(ring, slots, id) {
        return Err(UnknownRequest);
      }
      var entry := slots[id.slot].entry.value;
      if entry.state != Reserved {
        return Err(InvalidRequestState);
      }
      Move(id, Prepared, inFlight, ledger.live[id].Moved(Prepared), Step.Commit(id));
      return Ok(entry.descriptor);
    }

    method Issue(id: RequestId) returns (r: Result<CancellationMode, IoError>)
      requires Valid()
      modifies this
      ensures Valid()
      ensures r == if id !in old(ledger).live then Err(UnknownRequest)
                   else if old(ledger).live[id].State() == Prepared then Ok(ModeOf(old(ledger).live[id].entry.descriptor.operation))
                   else if old(ledger).live[id].claim.Some? then Err(TerminalAlreadyClaimed)
                   else Err(InvalidRequestState)
      ensures if r.Ok? then IsStep(old(ledger), Step.Issue(id), ledger) else unchanged(this)
      ensures r.Ok? ==> (r.value == Cancellable <==> old(ledger).live[id].entry.descriptor.operation == PollAdd)
    {
      hide TableMatches, FreeMatches, QueueMatches, Inv;
      FindIsLive(ring, slots, ledger, id);
      if !Holds(ring, slots, id) {
        return Err(UnknownRequest);
      }
      LiveIsCoherent(ledger, id);
      var entry := slots[id.slot].entry.value;
      if entry.state != Prepared {
        return Err(if entry.state.TerminalClaimed? || entry.state.CompletionPending? || entry.state.Publishing?
                   then TerminalAlreadyClaimed else InvalidRequestState);
      }
      var mode := ModeOf(entry.descriptor.operation);
      Move(id, Issued(mode), inFlight, ledger.live[id].Moved(Issued(mode)).(wasIssued := true), Step.Issue(id));
      return Ok(mode);
    }

    /** Wins the sole terminal transition of prepared or issued work. */
    method ClaimTerminal(id: RequestId, cause: Cause) returns (r: Result<Permit, IoError>)
      requires Valid()
      modifies this
      ensures Valid()
      ensures r == if id !in old(ledger).live then Err(UnknownRequest)
                   else if old(ledger).live[id].claim.Some? then Err(TerminalAlreadyClaimed)
                   else if old(ledger).live[id].State() == Reserved then Err(InvalidRequestState)
                   else if old(ledger).live[id].State() == Issued(Uncancellable) && cause != Completed then Err(RequestUncancellable)
                   else Ok(Permit(id, old(ledger).live[id].entry.descriptor, cause))
      ensures if r.Ok? then IsStep(old(ledger), Step.Claim(id, cause), ledger) else unchanged(this)
    {
      hide TableMatches, FreeMatches, QueueMatches, Inv;
      FindIsLive(ring, slots, ledger, id);
      if !Holds(ring, slots, id) {
        return Err(UnknownRequest);
      }
      LiveIsCoherent(ledger, id);
      var entry := slots[id.slot].entry.value;
      match entry.state {
        case TerminalClaimed(_) => return Err(TerminalAlreadyClaimed);
        case CompletionPending(_) => return Err(TerminalAlreadyClaimed);
        case Publishing(_) => return Err(TerminalAlreadyClaimed);
        case Reserved => return Err(InvalidRequestState);
        case Issued(mode) =>
          if mode == Uncancellable && cause != Completed {
            return Err(RequestUncancellable);
          }
        case Prepared =>
      }
      Move(id, TerminalClaimed(cause), inFlight,
           ledger.live[id].Moved(TerminalClaimed(cause)).(claim := Some(cause)), Step.Claim(id, cause));
      return Ok(Permit(id, entry.descriptor, cause));
    }

    /** Claims the oldest request with the given user data that can still be cancelled, or one exact request. */
    method ClaimCancel(selector: Selector, exclude: Option<RequestId>) returns (r: Result<Permit, IoError>)
      requires Valid()
      modifies this
      ensures Valid()
      ensures r.Ok? ==>
                && CanCancel(old(ledger), r.value.id) && exclude != Some(r.value.id)
                && IsStep(old(ledger), Step.Claim(r.value.id, Cancelled), ledger)
                && r.value == Permit(r.value.id, old(ledger).live[r.value.id].entry.descriptor, Cancelled)
                && match selector {
                  case ById(id) => r.value.id == id
                  case ByUserData(u) =>
                    && old(ledger).live[r.value.id].entry.descriptor.userData == u
                    && forall k | k in old(ledger).live && CanCancel(old(ledger), k) && exclude != Some(k)
                                  && old(ledger).live[k].entry.descriptor.userData == u ::
                         old(ledger).live[r.value.id].entry.sequence <= old(ledger).live[k].entry.sequence
                }
      ensures r.Err? ==>
                && unchanged(this)
                && r.error == (if selector.ById? && exclude != Some(selector.id) && ledger.InState(selector.id, Reserved)
                               then InvalidRequestState else CancellationTargetNotFound)
                && match selector {
                  case ById(id) => !CanCancel(ledger, id) || exclude == Some(id)
                  case ByUserData(u) =>
                    forall k | k in ledger.live && ledger.live[k].entry.descriptor.userData == u && exclude != Some(k) :: !CanCancel(ledger, k)
                }
    {
      hide TableMatches, FreeMatches, QueueMatches, Inv;
      if selector.ById? {
        if exclude == Some(selector.id) {
          return Err(CancellationTargetNotFound);
        }
        if selector.id in ledger.live {
          LiveIsCoherent(ledger, selector.id);
        }
        r := ClaimTerminal(selector.id, Cancelled);
        if r.Err? && r.error in {UnknownRequest, TerminalAlreadyClaimed, RequestUncancellable} {
          return Err(CancellationTargetNotFound);
        }
        return;
      }
      var candidate := Oldest(selector.userData, exclude);
      if candidate.None? {
        return Err(CancellationTargetNotFound);
      }
      LiveIsCoherent(ledger, candidate.value);
      r := ClaimTerminal(candidate.value, Cancelled);
    }

    /** Scans the slots for the lowest admission sequence among the matching requests. */
    method Oldest(userData: nat, exclude: Option<RequestId>) returns (candidate: Option<RequestId>)
      requires Valid()
      ensures candidate.Some? ==> IsOldest(ledger, userData, exclude, candidate.value)
      ensures candidate.None? ==> forall id | id in ledger.live :: !Matches(ledger, userData, exclude, id)
    {
      hide FreeMatches, QueueMatches, Inv;
      candidate := None;
      var sequence := 0;
      for k := 0 to |slots|
        invariant candidate.Some? ==>
                    && Matches(ledger, userData, exclude, candidate.value)
                    && ledger.live[candidate.value].entry.sequence == sequence
        invariant forall id | id in ledger.live && id.slot < k && Matches(ledger, userData, exclude, id) ::
                    candidate.Some? && sequence <= ledger.live[id].entry.sequence
      {
        if slots[k].entry.Some? {
          var entry := slots[k].entry.value;
          var id := RequestId(ring, k, slots[k].generation.value);
          if exclude != Some(id) && entry.descriptor.userData == userData
             && (entry.state == Prepared || entry.state == Issued(Cancellable))
             && (candidate.None? || entry.sequence < sequence) {
            candidate, sequence := Some(id), entry.sequence;
          }
        }
      }
    }

    method FinishTerminal(permit: Permit, result: int, flags: nat) returns (r: Result<RequestId, IoError>)
      requires Valid()
      modifies this
      ensures Valid()
      ensures r == if permit.id !in old(ledger).live then Err(UnknownRequest)
                   else if old(ledger).live[permit.id].State() != TerminalClaimed(permit.cause) then Err(InvalidRequestState)
                   else Ok(permit.id)
      ensures if r.Ok? then IsStep(old(ledger), Step.Finish(permit.id, permit.cause, result, flags), ledger) else unchanged(this)
      ensures r.Ok? ==>
        ledger.InState(permit.id, CompletionPending(Completion(old(ledger).live[permit.id].entry.descriptor.userData, result, flags)))
    {
      hide TableMatches, FreeMatches, QueueMatches, Inv;
      var id := permit.id;
      FindIsLive(ring, slots, ledger, id);
      if !Holds(ring, slots, id) {
        return Err(UnknownRequest);
      }
      var entry := slots[id.slot].entry.value;
      if entry.state != TerminalClaimed(permit.cause) {
        return Err(InvalidRequestState);
      }
      var state := CompletionPending(Completion(entry.descriptor.userData, result, flags));
      Move(id, state, inFlight, ledger.live[id].Moved(state), Step.Finish(id, permit.cause, result, flags));
      return Ok(id);
    }

    /** Completions between the wrapping head and tail; the geometry error cannot happen. */
    method PublishedCount() returns (count: nat)
      requires Valid()
      ensures count == |ledger.Unread()| <= cqEntries
    {
      CreditsAreLive();
      WrapDifference(|ledger.published|, ledger.consumed);
      count := WrappingSub(cqTail, cqHead);
      if count > cqEntries {
        assert false;
      }
    }

    /** Plans the write of one pending CQE. The ring slot it names holds no unread CQE. */
    method Publish(id: RequestId) returns (r: Result<Publication, IoError>)
      requires Valid()
      modifies this
      ensures Valid() && cqTail == old(cqTail) && memory == old(memory)
      ensures r.Err? ==>
                r.error == if old(lifecycle) == Draining then RingDraining
                           else if old(lifecycle) == Closed then RingClosed
                           else if old(inFlight).Some? then PublicationInFlight
                           else if id !in old(ledger).live then UnknownRequest
                           else CompletionNotPending
      ensures r.Ok? <==> old(Enabled(ledger, Step.Publish(id)))
      ensures if r.Ok? then IsStep(old(ledger), Step.Publish(id), ledger) else unchanged(this)
      ensures r.Ok? ==>
                && r.value == PlanOf(ledger, id)
                && forall i | ledger.consumed <= i < |ledger.published| :: i % cqEntries != r.value.slot
    {
      hide TableMatches, FreeMatches, QueueMatches, Inv, And, Wrapped, IsPowerOfTwo;
      if lifecycle == Draining {
        return Err(RingDraining);
      }
      if lifecycle == Closed {
        return Err(RingClosed);
      }
      if inFlight.Some? {
        return Err(PublicationInFlight);
      }
      FindIsLive(ring, slots, ledger, id);
      if !Holds(ring, slots, id) {
        return Err(UnknownRequest);
      }
      var entry := slots[id.slot].entry.value;
      if !entry.state.CompletionPending? {
        return Err(CompletionNotPending);
      }
      PublishNeverFindsFullQueue(ledger, id);
      CreditsAreLive();
      var count := PublishedCount();
      if count >= cqEntries {
        assert false;
      }
      TailSlotIsFree(ledger);
      MaskedTail(cqEntries, |ledger.published|);
      var slot := And(cqTail, cqEntries - 1);
      var newTail := Wrapped(cqTail + 1);
      var completion := entry.state.completion;
      Move(id, Publishing(completion), Some(id), ledger.live[id].Moved(Publishing(completion)), Step.Publish(id));
      return Ok(Publication(id, completion, slot, newTail));
    }

    /** Accounts for a CQE after the adapter wrote it and stored the new tail. */
    method CommitPublication(p: Publication) returns (r: Result<(), IoError>)
      requires Valid()
      modifies this
      ensures Valid()
      ensures r.Ok? <==> old(inFlight) == Some(p.id) && p == PlanOf(old(ledger), p.id)
      ensures r.Err? ==>
                r.error == if inFlight != Some(p.id) then PublicationInFlight
                           else if p.slot != PlanOf(ledger, p.id).slot || p.newTail != PlanOf(ledger, p.id).newTail then InvalidQueueGeometry
                           else InvalidRequestState
      ensures if r.Ok? then IsStep(old(ledger), Step.CommitPublication(p.id), ledger) else unchanged(this)
      ensures r.Ok? ==> memory == old(memory)[p.slot := Cqe(p.id, p.completion)]
    {
      hide TableMatches, FreeMatches, QueueMatches, Inv, Enabled, Apply, And, Wrapped, IsPowerOfTwo;
      if inFlight != Some(p.id) {
        return Err(PublicationInFlight);
      }
      CreditsAreLive();
      MaskedTail(cqEntries, |ledger.published|);
      var expectedSlot := And(cqTail, cqEntries - 1);
      var expectedTail := Wrapped(cqTail + 1);
      FlightIsPublishing(ledger, p.id);
      if p.slot != expectedSlot || p.newTail != expectedTail {
        return Err(InvalidQueueGeometry);
      }
      FindIsLive(ring, slots, ledger, p.id);
      if slots[p.id.slot].entry.value.state != Publishing(p.completion) {
        return Err(InvalidRequestState);
      }
      ClearSlot(p.id, Published(|ledger.published|));
      CommitMatches(ring, slots, cqEntries, cqHead, cqTail, terminalCredits, memory, ledger, p.id);
      cqTail := p.newTail;
      inFlight := None;
      memory := memory[p.slot := Cqe(p.id, p.completion)];
      ledger := Apply(ledger, Step.CommitPublication(p.id));
      return Ok(());
    }

    /** Takes a plan back before its tail was stored. */
    method RollbackPublication(p: Publication) returns (r: Result<RequestId, IoError>)
      requires Valid()
      modifies this
      ensures Valid()
      ensures r == if old(inFlight) != Some(p.id) then Err(PublicationInFlight)
                   else if p.completion != PlanOf(old(ledger), p.id).completion then Err(InvalidRequestState)
                   else Ok(p.id)
      ensures if r.Ok? then IsStep(old(ledger), Step.RollbackPublication(p.id), ledger) else unchanged(this)
    {
      hide TableMatches, FreeMatches, QueueMatches, Inv;
      if inFlight != Some(p.id) {
        return Err(PublicationInFlight);
      }
      FlightIsPublishing(ledger, p.id);
      FindIsLive(ring, slots, ledger, p.id);
      if slots[p.id.slot].entry.value.state != Publishing(p.completion) {
        return Err(InvalidRequestState);
      }
      Move(p.id, CompletionPending(p.completion), None, ledger.live[p.id].Moved(CompletionPending(p.completion)),
           Step.RollbackPublication(p.id));
      return Ok(p.id);
    }

    /** Accepts exactly the heads that consume a prefix of the unread CQEs, and refunds that many credits. */
    method ObserveCompletionHead(userHead: nat) returns (r: Result<nat, IoError>)
      requires Valid() && userHead < U32_MODULUS
      modifies this
      ensures Valid() && memory == old(memory)
      ensures r == Err(PublicationInFlight) <==> old(inFlight).Some?
      ensures r == Err(CorruptCompletionHead) <==>
                && old(inFlight).None?
                && forall k | 0 <= k <= old(|ledger.Unread()|) :: HeadAfter(old(ledger).consumed, k) != userHead
      ensures r.Ok? ==>
                && IsStep(old(ledger), Consume(r.value), ledger)
                && Wrapped(ledger.consumed) == userHead
                && terminalCredits == old(terminalCredits) - r.value
      ensures r.Err? ==> unchanged(this) && r.error in {PublicationInFlight, CorruptCompletionHead}
    {
      hide TableMatches, FreeMatches, QueueMatches, Inv, Wrapped, WrappingSub;
      if inFlight.Some? {
        return Err(PublicationInFlight);
      }
      CreditsAreLive();
      var count := PublishedCount();
      var consumed := WrappingSub(userHead, cqHead);
      HeadMoves(ledger.consumed, userHead);
      if consumed > count {
        HeadConsumes(ledger.consumed, userHead, count);
        return Err(CorruptCompletionHead);
      }
      StepInv(ledger, Consume(consumed));
      QueueConsumes(cqEntries, cqHead, cqTail, terminalCredits, memory, ledger, consumed);
      SameTable(ring, slots, ledger, Apply(ledger, Consume(consumed)));
      cqHead := userHead;
      terminalCredits := terminalCredits - consumed;
      ledger := Apply(ledger, Consume(consumed));
      return Ok(consumed);
    }

    method BeginClose()
      requires Valid()
      modifies this
      ensures Valid() && IsStep(old(ledger), Step.BeginClose, ledger)
      ensures lifecycle == if old(lifecycle) == Open then Closing else old(lifecycle)
    {
      hide TableMatches, FreeMatches, QueueMatches, Inv;
      StepInv(ledger, Step.BeginClose);
      SameTable(ring, slots, ledger, Apply(ledger, Step.BeginClose));
      SameQueue(cqEntries, cqHead, cqTail, terminalCredits, memory, ledger, Apply(ledger, Step.BeginClose));
      if lifecycle == Open {
        lifecycle := Closing;
      }
      ledger := Apply(ledger, Step.BeginClose);
    }

    method BeginDraining() returns (r: Result<(), IoError>)
      requires Valid()
      modifies this
      ensures Valid()
      ensures r == if old(lifecycle) == Draining then Ok(())
                   else if old(lifecycle) != Closing then Err(InvalidLifecycleTransition)
                   else if forall id | id in old(ledger).live :: old(ledger).live[id].State().CompletionPending? then Ok(())
                   else Err(Busy)
      ensures if r.Ok? then IsStep(old(ledger), Step.BeginDraining, ledger) else unchanged(this)
    {
      hide FreeMatches, QueueMatches, Inv;
      if lifecycle == Draining {
        return Ok(());
      }
      if lifecycle != Closing {
        return Err(InvalidLifecycleTransition);
      }
      if exists k | 0 <= k < |slots| :: slots[k].entry.Some? && !slots[k].entry.value.state.CompletionPending? {
        return Err(Busy);
      }
      StepInv(ledger, Step.BeginDraining);
      SameQueue(cqEntries, cqHead, cqTail, terminalCredits, memory, ledger, Apply(ledger, Step.BeginDraining));
      lifecycle := Draining;
      ledger := Apply(ledger, Step.BeginDraining);
      return Ok(());
    }

    method DiscardCompletion(id: RequestId) returns (r: Result<(), IoError>)
      requires Valid()
      modifies this
      ensures Valid()
      ensures r == if old(lifecycle) != Draining then Err(InvalidLifecycleTransition)
                   else if id !in old(ledger).live then Err(UnknownRequest)
                   else Ok(())
      ensures if r.Ok? then IsStep(old(ledger), Step.DiscardCompletion(id), ledger) else unchanged(this)
    {
      hide TableMatches, FreeMatches, QueueMatches, Inv, Enabled, Apply;
      if lifecycle != Draining {
        return Err(InvalidLifecycleTransition);
      }
      FindIsLive(ring, slots, ledger, id);
      if !Holds(ring, slots, id) {
        return Err(UnknownRequest);
      }
      DrainingIsPending(ledger, id);
      if !slots[id.slot].entry.value.state.CompletionPending? {
        assert false;
      }
      Withdraw(id, Discarded, Step.DiscardCompletion(id));
      return Ok(());
    }

    method DiscardPublished() returns (r: Result<nat, IoError>)
      requires Valid()
      modifies this
      ensures Valid()
      ensures r == if old(lifecycle) != Draining then Err(InvalidLifecycleTransition) else Ok(old(|ledger.Unread()|))
      ensures if r.Ok? then IsStep(old(ledger), Step.DiscardPublished, ledger) && ledger.Unread() == [] else unchanged(this)
    {
      hide TableMatches, FreeMatches, QueueMatches, Inv;
      if lifecycle != Draining {
        return Err(InvalidLifecycleTransition);
      }
      DrainingIsQuiet(ledger);
      if inFlight.Some? {
        assert false;
      }
      CreditsAreLive();
      var count := PublishedCount();
      StepInv(ledger, Step.DiscardPublished);
      QueueConsumes(cqEntries, cqHead, cqTail, terminalCredits, memory, ledger, count);
      SameTable(ring, slots, ledger, Apply(ledger, Step.DiscardPublished));
      cqHead := cqTail;
      terminalCredits := terminalCredits - count;
      ledger := Apply(ledger, Step.DiscardPublished);
      return Ok(count);
    }

    method FinishClose() returns (r: Result<(), IoError>)
      requires Valid()
      modifies this
      ensures Valid()
      ensures r == if old(lifecycle) == Closed then Ok(())
                   else if old(lifecycle) == Open then Err(InvalidLifecycleTransition)
                   else if old(inFlight).None? && old(ledger).live == map[] && old(ledger).Unread() == [] then Ok(())
                   else Err(Busy)
      ensures if r.Ok? then IsStep(old(ledger), Step.FinishClose, ledger) else unchanged(this)
    {
      hide FreeMatches, QueueMatches, Inv;
      if lifecycle == Open {
        return Err(InvalidLifecycleTransition);
      }
      if lifecycle == Closed {
        return Ok(());
      }
      CreditsAreLive();
      if inFlight.Some? || (exists k | 0 <= k < |slots| :: slots[k].entry.Some?) || terminalCredits != 0 {
        return Err(Busy);
      }
      StepInv(ledger, Step.FinishClose);
      SameQueue(cqEntries, cqHead, cqTail, terminalCredits, memory, ledger, Apply(ledger, Step.FinishClose));
      lifecycle := Closed;
      ledger := Apply(ledger, Step.FinishClose);
      return Ok(());
    }
  }
}
