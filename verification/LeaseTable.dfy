/** Registered files and registered buffers: slots that own a resource, leases
    held by accepted requests, and the retirement pass that hands every owner
    back (crates/io-uring/src/resource.rs, crates/io-uring/src/buffer.rs).

    The two tables run the same protocol. A file table leases the whole file; a
    buffer table leases a byte range of what was registered. */
module LeaseTables {
  import opened Wrappers

  const IORING_MAX_FIXED_FILES: nat := 0x10_0000
  const IORING_MAX_REGISTERED_BUFFERS: nat := 0x4000

  datatype Kind = Files | Buffers

  /** The identity of a retained file description or buffer pin. */
  datatype Owner = Owner(id: nat)

  datatype Extent = Whole | Bytes(address: nat, length: nat)

  datatype Token = Token(ring: nat, table: nat, slot: nat, generation: nat)

  datatype Lease = Lease(token: Token, extent: Extent, owner: Owner)

  datatype Retired = Retired(token: Token, owner: Owner)

  datatype Release = Active | Last(retired: Retired)

  datatype Slot = Slot(generation: Option<nat>, extent: Extent, owner: Option<Owner>, leases: nat)

  datatype Lifecycle = Building | Published | Retiring | Closed

  datatype TableError =
    | InvalidTableCapacity | InvalidLeaseCapacity | InvalidSlot | SlotOccupied | SlotEmpty
    | GenerationExhausted | InvalidRange | NotPublished | UnknownLease | LeaseCapacityExceeded
    | InvalidLifecycleTransition | Busy | TableClosing | TableClosed

  // ---------- Ranges ----------

  /** The range does not run past the 64-bit address space. */
  predicate Addressable(e: Extent) {
    e.Bytes? ==> e.address + e.length <= U64_MAX
  }

  predicate Fits(want: Extent, have: Extent) {
    match have
    case Whole => want.Whole?
    case Bytes(address, length) => want.Bytes? && address <= want.address && want.address + want.length <= address + length
  }

  predicate OfKind(e: Extent, kind: Kind) {
    e.Whole? <==> kind.Files?
  }

  // ---------- Which refusal a call reports ----------

  function Stopped(lifecycle: Lifecycle): TableError {
    match lifecycle
    case Building => NotPublished
    case Published => Busy
    case Retiring => TableClosing
    case Closed => TableClosed
  }

  function InstallError(lifecycle: Lifecycle, slots: seq<Slot>, slot: nat, extent: Extent): Option<TableError> {
    if extent.Bytes? && (extent.address + extent.length > U64_MAX || extent.length == 0) then Some(InvalidRange)
    else if lifecycle == Published then Some(Busy)
    else if lifecycle == Retiring then Some(TableClosing)
    else if lifecycle == Closed then Some(TableClosed)
    else if slot >= |slots| then Some(InvalidSlot)
    else if slots[slot].owner.Some? then Some(SlotOccupied)
    else if slots[slot].generation.None? then Some(GenerationExhausted)
    else None
  }

  function TokenError(ring: nat, id: nat, slots: seq<Slot>, t: Token): Option<TableError> {
    if t.ring != ring || t.table != id then Some(UnknownLease)
    else if t.slot >= |slots| then Some(InvalidSlot)
    else if slots[t.slot].generation != Some(t.generation) || slots[t.slot].owner.None? then Some(UnknownLease)
    else None
  }

  // ---------- One slot and its outstanding leases ----------

  ghost predicate SlotOk(ring: nat, id: nat, i: nat, s: Slot, held: multiset<Lease>) {
    && |held| == s.leases
    && (s.owner.None? ==> s.leases == 0)
    && (s.generation.Some? ==> s.generation.value <= U64_MAX)
    && (s.owner.Some? ==>
          && s.generation.Some?
          && Addressable(s.extent)
          && forall l | l in held ::
               && l.token == Token(ring, id, i, s.generation.value)
               && l.owner == s.owner.value
               && Fits(l.extent, s.extent))
  }

  ghost predicate SlotsOk(ring: nat, id: nat, slots: seq<Slot>, held: seq<multiset<Lease>>) {
    && |held| == |slots|
    && forall i | 0 <= i < |slots| :: SlotOk(ring, id, i, slots[i], held[i])
  }

  lemma SlotAt(ring: nat, id: nat, slots: seq<Slot>, held: seq<multiset<Lease>>, i: nat)
    requires SlotsOk(ring, id, slots, held) && i < |slots|
    ensures |held| == |slots| && SlotOk(ring, id, i, slots[i], held[i])
  {
    hide SlotOk;
  }

  lemma SlotLeased(ring: nat, id: nat, i: nat, s: Slot, held: multiset<Lease>, lease: Lease)
    requires SlotOk(ring, id, i, s, held) && s.owner == Some(lease.owner) && Fits(lease.extent, s.extent)
    requires s.generation.Some? && lease.token == Token(ring, id, i, s.generation.value)
    ensures SlotOk(ring, id, i, s.(leases := s.leases + 1), held + multiset{lease})
  {
  }

  lemma SlotReleased(ring: nat, id: nat, i: nat, s: Slot, held: multiset<Lease>, lease: Lease)
    requires SlotOk(ring, id, i, s, held) && lease in held && s.leases > 0
    ensures SlotOk(ring, id, i, s.(leases := s.leases - 1), held - multiset{lease})
  {
  }

  lemma SlotsOkUpdate(ring: nat, id: nat, slots: seq<Slot>, held: seq<multiset<Lease>>, i: nat, s: Slot, h: multiset<Lease>)
    requires SlotsOk(ring, id, slots, held) && i < |slots|
    requires SlotOk(ring, id, i, s, h)
    ensures SlotsOk(ring, id, slots[i := s], held[i := h])
  {
  }

  function Total(slots: seq<Slot>): nat {
    if slots == [] then 0 else slots[0].leases + Total(slots[1..])
  }

  lemma {:induction false} TotalUpdate(slots: seq<Slot>, i: nat, s: Slot)
    requires i < |slots|
    ensures Total(slots[i := s]) == Total(slots) - slots[i].leases + s.leases
    ensures slots[i].leases <= Total(slots)
  {
    if i == 0 {
      assert slots[i := s][1..] == slots[1..];
    } else {
      assert slots[i := s][1..] == slots[1..][i - 1 := s];
      TotalUpdate(slots[1..], i - 1, s);
    }
  }

  lemma {:induction false} TotalOfNone(slots: seq<Slot>)
    requires forall i | 0 <= i < |slots| :: slots[i].leases == 0
    ensures Total(slots) == 0
  {
    if slots != [] {
      TotalOfNone(slots[1..]);
    }
  }

  function Installed(slots: seq<Slot>): nat {
    if slots == [] then 0 else (if slots[|slots| - 1].owner.Some? then 1 else 0) + Installed(slots[..|slots| - 1])
  }

  predicate Vacated(slots: seq<Slot>) {
    forall i | 0 <= i < |slots| :: slots[i].owner.None?
  }

  lemma {:induction false} NoneInstalled(slots: seq<Slot>)
    ensures Installed(slots) == 0 <==> Vacated(slots)
  {
    if slots != [] {
      var front := slots[..|slots| - 1];
      NoneInstalled(front);
      assert forall i | 0 <= i < |front| :: front[i] == slots[i];
      assert Vacated(slots) <==> Vacated(front) && slots[|slots| - 1].owner.None?;
    }
  }

  // ---------- Every owner handed back once ----------

  predicate Past(g: Option<nat>, n: nat) {
    g.None? || n < g.value
  }

  /** An installed token has either been handed back, or its slot still holds the owner. */
  ghost predicate Settled(slots: seq<Slot>, t: Token, owner: Owner, handed: map<Token, Owner>) {
    && t.slot < |slots|
    && (if t in handed
        then handed[t] == owner && Past(slots[t.slot].generation, t.generation)
        else slots[t.slot].owner == Some(owner) && slots[t.slot].generation == Some(t.generation))
  }

  ghost predicate Accounted(ring: nat, id: nat, slots: seq<Slot>, installed: map<Token, Owner>, handed: map<Token, Owner>) {
    && handed.Keys <= installed.Keys
    && (forall t | t in installed :: t.ring == ring && t.table == id && Settled(slots, t, installed[t], handed))
    && (forall i | 0 <= i < |slots| && slots[i].owner.Some? && slots[i].generation.Some? ::
          Token(ring, id, i, slots[i].generation.value) in installed)
  }

  /** Once every slot is empty, everything installed was handed back to the caller. */
  lemma VacatedReturnsAll(ring: nat, id: nat, slots: seq<Slot>, installed: map<Token, Owner>, handed: map<Token, Owner>)
    requires Accounted(ring, id, slots, installed, handed) && Vacated(slots)
    ensures handed == installed
  {
  }

  lemma InstallAccounted(ring: nat, id: nat, slots: seq<Slot>, installed: map<Token, Owner>, handed: map<Token, Owner>, i: nat, s: Slot)
    requires Accounted(ring, id, slots, installed, handed) && i < |slots|
    requires slots[i].owner.None? && slots[i].generation.Some?
    requires s.owner.Some? && s.generation == slots[i].generation
    ensures var t := Token(ring, id, i, s.generation.value);
            t !in installed && Accounted(ring, id, slots[i := s], installed[t := s.owner.value], handed)
  {
  }

  /** Changing only a lease count leaves every token where it was. */
  lemma LeasingAccounted(ring: nat, id: nat, slots: seq<Slot>, installed: map<Token, Owner>, handed: map<Token, Owner>, i: nat, n: nat)
    requires Accounted(ring, id, slots, installed, handed) && i < |slots|
    ensures Accounted(ring, id, slots[i := slots[i].(leases := n)], installed, handed)
  {
  }

  function Advanced(g: nat): (r: Option<nat>)
    ensures r.Some? ==> g < r.value
    ensures Past(r, g)
  {
    if g + 1 <= U64_MAX then Some(g + 1) else None
  }

  function Emptied(s: Slot): Slot
    requires s.generation.Some?
  {
    s.(generation := Advanced(s.generation.value), owner := None, leases := 0)
  }

  lemma RetireAccounted(ring: nat, id: nat, slots: seq<Slot>, installed: map<Token, Owner>, handed: map<Token, Owner>, i: nat)
    requires Accounted(ring, id, slots, installed, handed) && i < |slots|
    requires slots[i].owner.Some? && slots[i].generation.Some?
    ensures var t := Token(ring, id, i, slots[i].generation.value);
            && t in installed && t !in handed && installed[t] == slots[i].owner.value
            && Accounted(ring, id, slots[i := Emptied(slots[i])], installed, handed[t := slots[i].owner.value])
  {
  }

  // ---------- The retirement pass ----------

  /** Behind the cursor, an owner still in place is leased or has been offered to the caller. */
  ghost predicate PassOk(lifecycle: Lifecycle, slots: seq<Slot>, cursor: nat, offered: set<nat>) {
    && cursor <= |slots|
    && (!lifecycle.Retiring? ==> offered == {})
    && (forall i | i in offered :: i < cursor && slots[i].owner.Some? && slots[i].leases == 0)
    && (lifecycle.Retiring? ==>
          forall i | 0 <= i < cursor && slots[i].owner.Some? :: slots[i].leases > 0 || i in offered)
  }

  ghost predicate PhaseOk(lifecycle: Lifecycle, slots: seq<Slot>, leases: nat) {
    && (lifecycle.Building? ==> leases == 0)
    && (lifecycle.Closed? ==> Vacated(slots))
  }

  /** A lease count may change unless that would strand an owner behind the cursor. */
  lemma PassIgnoresLeases(lifecycle: Lifecycle, slots: seq<Slot>, cursor: nat, offered: set<nat>, i: nat, n: nat)
    requires PassOk(lifecycle, slots, cursor, offered) && i < |slots|
    requires lifecycle.Retiring? ==> 0 < n && 0 < slots[i].leases
    ensures PassOk(lifecycle, slots[i := slots[i].(leases := n)], cursor, offered)
  {
  }

  lemma PassEmptied(slots: seq<Slot>, cursor: nat, offered: set<nat>, i: nat)
    requires PassOk(Retiring, slots, cursor, offered) && i < |slots| && slots[i].generation.Some?
    ensures PassOk(Retiring, slots[i := Emptied(slots[i])], cursor, offered - {i})
    ensures slots[i].leases > 0 ==> offered - {i} == offered
  {
  }

  /** The cursor passes one slot; an unleased owner there is offered. */
  lemma PassAdvances(slots: seq<Slot>, index: nat, offered: set<nat>)
    requires PassOk(Retiring, slots, index, offered) && index < |slots|
    ensures PassOk(Retiring, slots, index + 1,
                   if slots[index].owner.Some? && slots[index].leases == 0 then offered + {index} else offered)
  {
  }

  /** When the pass is over, the table is empty exactly when no lease and no offer is outstanding. */
  lemma {:induction false} PassMissesNothing(slots: seq<Slot>, offered: set<nat>)
    requires PassOk(Retiring, slots, |slots|, offered)
    requires forall i | 0 <= i < |slots| :: slots[i].owner.None? ==> slots[i].leases == 0
    ensures Vacated(slots) <==> Total(slots) == 0 && offered == {}
  {
    if Vacated(slots) {
      TotalOfNone(slots);
      assert offered == {};
    } else if Total(slots) == 0 {
      var i :| 0 <= i < |slots| && slots[i].owner.Some?;
      TotalUpdate(slots, i, slots[i]);
      assert i in offered;
    }
  }

  class LeaseTable {
    const ring: nat
    const id: nat
    const kind: Kind
    const leaseCapacity: nat
    var lifecycle: Lifecycle
    var slots: seq<Slot>
    var retireCursor: nat
    var leases: nat
    /** The leases in the hands of requests, slot by slot. */
    ghost var held: seq<multiset<Lease>>
    /** Every owner ever installed, and every owner handed back. */
    ghost var installed: map<Token, Owner>
    ghost var handed: map<Token, Owner>
    /** Slots named by `NextRetirable` and not yet retired. */
    ghost var offered: set<nat>

    ghost predicate Valid()
      reads this
    {
      && SlotsOk(ring, id, slots, held)
      && leases == Total(slots) <= leaseCapacity <= IORING_MAX_CQ_ENTRIES
      && Accounted(ring, id, slots, installed, handed)
      && PassOk(lifecycle, slots, retireCursor, offered)
      && PhaseOk(lifecycle, slots, leases)
    }

    /** The token names the owner now in its slot. */
    predicate Current(t: Token)
      reads this
    {
      && t.ring == ring && t.table == id && t.slot < |slots|
      && slots[t.slot].generation == Some(t.generation) && slots[t.slot].owner.Some?
    }

    static predicate Refused(kind: Kind, capacity: nat, leaseCapacity: nat) {
      || capacity == 0 || leaseCapacity == 0 || leaseCapacity > IORING_MAX_CQ_ENTRIES
      || capacity > (if kind.Files? then IORING_MAX_FIXED_FILES else IORING_MAX_REGISTERED_BUFFERS)
    }

    constructor (ring: nat, id: nat, kind: Kind, capacity: nat, leaseCapacity: nat)
      requires !Refused(kind, capacity, leaseCapacity)
      ensures Valid()
      ensures lifecycle == Building && |slots| == capacity && Vacated(slots) && leases == 0
      ensures this.ring == ring && this.id == id && this.kind == kind && this.leaseCapacity == leaseCapacity
      ensures installed == map[] && handed == map[]
    {
      this.ring, this.id, this.kind, this.leaseCapacity := ring, id, kind, leaseCapacity;
      lifecycle := Building;
      var empty := seq(capacity, i => Slot(Some(1), Whole, None, 0));
      slots := empty;
      retireCursor, leases := 0, 0;
      held := seq(capacity, i => multiset{});
      installed, handed, offered := map[], map[], {};
      TotalOfNone(empty);
    }

    /** The refusals of `new`, in the order it checks. */
    static method TryNew(ring: nat, id: nat, kind: Kind, capacity: nat, leaseCapacity: nat) returns (r: Result<LeaseTable, TableError>)
      ensures r.Ok? <==> !Refused(kind, capacity, leaseCapacity)
      ensures r.Ok? ==> fresh(r.value) && r.value.Valid() && r.value.lifecycle == Building && |r.value.slots| == capacity
      ensures r.Err? ==>
        r.error == if Refused(kind, capacity, 1) then InvalidTableCapacity else InvalidLeaseCapacity
    {
      if capacity == 0 || capacity > (if kind.Files? then IORING_MAX_FIXED_FILES else IORING_MAX_REGISTERED_BUFFERS) {
        return Err(InvalidTableCapacity);
      }
      if leaseCapacity == 0 || leaseCapacity > IORING_MAX_CQ_ENTRIES {
        return Err(InvalidLeaseCapacity);
      }
      var t := new LeaseTable(ring, id, kind, capacity, leaseCapacity);
      return Ok(t);
    }

    /** Takes ownership before publication; a refused owner stays with the caller. */
    method Install(slot: nat, owner: Owner, extent: Extent) returns (r: Result<Token, TableError>)
      requires Valid() && OfKind(extent, kind)
      modifies this
      ensures Valid()
      ensures r.Ok? <==>
        && (extent.Bytes? ==> 0 < extent.length && extent.address + extent.length <= U64_MAX)
        && old(lifecycle) == Building && slot < old(|slots|)
        && old(slots)[slot].owner.None? && old(slots)[slot].generation.Some?
      ensures r.Ok? ==>
        && r.value == Token(ring, id, slot, old(slots)[slot].generation.value)
        && slots == old(slots)[slot := old(slots)[slot].(owner := Some(owner), extent := extent)]
        && r.value !in old(installed) && installed == old(installed)[r.value := owner]
      ensures r.Err? ==> slots == old(slots) && installed == old(installed)
      ensures r.Err? ==> InstallError(lifecycle, slots, slot, extent) == Some(r.error)
      ensures unchanged(`lifecycle, `retireCursor, `leases, `held, `handed, `offered)
    {
      if !Addressable(extent) || (extent.Bytes? && extent.length == 0) {
        return Err(InvalidRange);
      }
      if lifecycle != Building {
        return Err(Stopped(lifecycle));
      }
      if slot >= |slots| {
        return Err(InvalidSlot);
      }
      var s := slots[slot];
      if s.owner.Some? {
        return Err(SlotOccupied);
      }
      if s.generation.None? {
        return Err(GenerationExhausted);
      }
      var now := s.(owner := Some(owner), extent := extent);
      var token := Token(ring, id, slot, s.generation.value);
      InstallAccounted(ring, id, slots, installed, handed, slot, now);
      TotalUpdate(slots, slot, now);
      assert held[slot] == multiset{};
      SlotsOkUpdate(ring, id, slots, held, slot, now, multiset{});
      assert held == held[slot := multiset{}];
      slots := slots[slot := now];
      installed := installed[token := owner];
      return Ok(token);
    }

    method Publish() returns (r: Result<(), TableError>)
      requires Valid()
      modifies this`lifecycle
      ensures Valid()
      ensures r == match old(lifecycle) case Retiring => Err(TableClosing) case Closed => Err(TableClosed) case _ => Ok(())
      ensures lifecycle == if r.Ok? then Published else old(lifecycle)
    {
      match lifecycle
      case Building =>
        lifecycle := Published;
        return Ok(());
      case Published => return Ok(());
      case Retiring => return Err(TableClosing);
      case Closed => return Err(TableClosed);
    }

    predicate TokenNames(t: Token, slot: nat)
      reads this
    {
      Current(t) && t.slot == slot
    }

    /** The current token of a visible slot. */
    method TokenOf(slot: nat) returns (r: Result<Token, TableError>)
      requires Valid()
      ensures r.Ok? <==> lifecycle == Published && slot < |slots| && slots[slot].owner.Some?
      ensures r.Ok? ==> TokenNames(r.value, slot)
      ensures r.Err? ==>
        r.error == if lifecycle != Published then (match lifecycle case Building => NotPublished case Retiring => TableClosing case _ => TableClosed) else if slot >= |slots| then InvalidSlot else SlotEmpty
    {
      if lifecycle != Published {
        return Err(Stopped(lifecycle));
      }
      if slot >= |slots| {
        return Err(InvalidSlot);
      }
      if slots[slot].owner.None? {
        return Err(SlotEmpty);
      }
      assert SlotOk(ring, id, slot, slots[slot], held[slot]);
      return Ok(Token(ring, id, slot, slots[slot].generation.value));
    }

    /** Leases exactly the current owner, inside what was registered, while the account has room. */
    method AcquireToken(t: Token, want: Extent) returns (r: Result<Lease, TableError>)
      requires Valid() && OfKind(want, kind)
      modifies this`slots, this`leases, this`held
      ensures Valid()
      ensures r.Ok? <==>
        && old(lifecycle) == Published && old(Current(t))
        && (want.Bytes? ==> want.address + want.length <= U64_MAX) && old(leases) < leaseCapacity
        && (match old(slots)[t.slot].extent case Whole => want.Whole?
            case Bytes(address, length) => want.Bytes? && address <= want.address && want.address + want.length <= address + length)
      ensures r.Ok? ==>
        && r.value == Lease(t, want, old(slots)[t.slot].owner.value)
        && held == old(held)[t.slot := old(held)[t.slot] + multiset{r.value}]
        && leases == old(leases) + 1
        && slots == old(slots)[t.slot := old(slots)[t.slot].(leases := old(slots)[t.slot].leases + 1)]
      ensures r.Err? ==> slots == old(slots) && leases == old(leases) && held == old(held)
      ensures r.Err? ==>
        r.error == if lifecycle != Published then (match lifecycle case Building => NotPublished case Retiring => TableClosing case _ => TableClosed)
                   else if TokenError(ring, id, slots, t).Some? then TokenError(ring, id, slots, t).value
                   else if (want.Bytes? ==> want.address + want.length <= U64_MAX) && leases == leaseCapacity then LeaseCapacityExceeded
                   else InvalidRange
    {
      hide SlotsOk, Accounted, PassOk;
      if lifecycle != Published {
        return Err(Stopped(lifecycle));
      }
      if t.ring != ring || t.table != id {
        return Err(UnknownLease);
      }
      if t.slot >= |slots| {
        return Err(InvalidSlot);
      }
      var s := slots[t.slot];
      if s.generation != Some(t.generation) || s.owner.None? {
        return Err(UnknownLease);
      }
      if !Addressable(want) {
        return Err(InvalidRange);
      }
      if leases >= leaseCapacity {
        return Err(LeaseCapacityExceeded);
      }
      if !Fits(want, s.extent) {
        return Err(InvalidRange);
      }
      var lease := Lease(t, want, s.owner.value);
      AcquireKeeps(t.slot, lease);
      held := held[t.slot := held[t.slot] + multiset{lease}];
      slots := slots[t.slot := s.(leases := s.leases + 1)];
      leases := leases + 1;
      return Ok(lease);
    }

    lemma AcquireKeeps(i: nat, lease: Lease)
      requires Valid() && lifecycle == Published && Current(lease.token) && i == lease.token.slot
      requires Some(lease.owner) == slots[i].owner && Fits(lease.extent, slots[i].extent)
      ensures |held| == |slots|
      ensures var after := slots[i := slots[i].(leases := slots[i].leases + 1)];
              && SlotsOk(ring, id, after, held[i := held[i] + multiset{lease}])
              && Total(after) == Total(slots) + 1
              && Accounted(ring, id, after, installed, handed)
              && PassOk(Published, after, retireCursor, offered)
    {
      hide SlotsOk, SlotOk, Accounted, PassOk;
      var s := slots[i].(leases := slots[i].leases + 1);
      SlotAt(ring, id, slots, held, i);
      SlotLeased(ring, id, i, slots[i], held[i], lease);
      SlotsOkUpdate(ring, id, slots, held, i, s, held[i] + multiset{lease});
      TotalUpdate(slots, i, s);
      LeasingAccounted(ring, id, slots, installed, handed, i, s.leases);
      PassIgnoresLeases(Published, slots, retireCursor, offered, i, s.leases);
    }

    /** Lease by slot number, as `acquire` does. */
    method Acquire(slot: nat, want: Extent) returns (r: Result<Lease, TableError>)
      requires Valid() && OfKind(want, kind)
      modifies this`slots, this`leases, this`held
      ensures Valid()
      ensures r.Ok? <==>
        && old(lifecycle) == Published && slot < old(|slots|) && old(slots)[slot].owner.Some?
        && (want.Bytes? ==> want.address + want.length <= U64_MAX) && old(leases) < leaseCapacity
        && (match old(slots)[slot].extent case Whole => want.Whole?
            case Bytes(address, length) => want.Bytes? && address <= want.address && want.address + want.length <= address + length)
      ensures r.Err? ==>
        r.error == if lifecycle != Published then (match lifecycle case Building => NotPublished case Retiring => TableClosing case _ => TableClosed)
                   else if slot >= |slots| then InvalidSlot
                   else if slots[slot].owner.None? then SlotEmpty
                   else if (want.Bytes? ==> want.address + want.length <= U64_MAX) && leases == leaseCapacity then LeaseCapacityExceeded
                   else InvalidRange
      ensures r.Ok? ==>
        && old(TokenNames(r.value.token, slot)) && old(slots)[slot].owner == Some(r.value.owner)
        && r.value.extent == want
        && held == old(held)[slot := old(held)[slot] + multiset{r.value}]
      ensures r.Err? ==> slots == old(slots) && leases == old(leases) && held == old(held)
    {
      var token := TokenOf(slot);
      if token.Err? {
        return Err(token.error);
      }
      r := AcquireToken(token.value, want);
    }

    method BeginRetire()
      requires Valid()
      modifies this`lifecycle, this`retireCursor
      ensures Valid()
      ensures lifecycle == if old(lifecycle) == Closed then Closed else Retiring
      ensures retireCursor == if old(lifecycle) == Building || old(lifecycle) == Published then 0 else old(retireCursor)
    {
      if lifecycle == Building || lifecycle == Published {
        lifecycle := Retiring;
        retireCursor := 0;
      }
    }

    /** What emptying a slot keeps, whether by `Retire` or by the last release. */
    lemma EmptyingKeeps(i: nat)
      requires Valid() && lifecycle == Retiring && i < |slots| && slots[i].owner.Some? && slots[i].leases <= 1
      ensures |held| == |slots| && slots[i].generation.Some?
      ensures var t := Token(ring, id, i, slots[i].generation.value);
              var after := slots[i := Emptied(slots[i])];
              && SlotsOk(ring, id, after, held[i := multiset{}])
              && Total(after) == Total(slots) - slots[i].leases
              && t !in handed && t in installed && installed[t] == slots[i].owner.value
              && Accounted(ring, id, after, installed, handed[t := slots[i].owner.value])
              && PassOk(Retiring, after, retireCursor, offered - {i})
              && (slots[i].leases > 0 ==> offered - {i} == offered)
    {
      hide SlotsOk, Accounted, PassOk;
      SlotAt(ring, id, slots, held, i);
      var s := Emptied(slots[i]);
      SlotsOkUpdate(ring, id, slots, held, i, s, multiset{});
      TotalUpdate(slots, i, s);
      RetireAccounted(ring, id, slots, installed, handed, i);
      PassEmptied(slots, retireCursor, offered, i);
    }

    /** Hands back one unleased owner during retirement. */
    method Retire(t: Token) returns (r: Result<Retired, TableError>)
      requires Valid()
      modifies this`slots, this`handed, this`offered
      ensures Valid()
      ensures r.Ok? <==> lifecycle == Retiring && old(Current(t)) && old(slots)[t.slot].leases == 0
      ensures r.Ok? ==>
        && t !in old(handed) && t in installed && r.value == Retired(t, installed[t])
        && handed == old(handed)[t := installed[t]]
        && slots == old(slots)[t.slot := Emptied(old(slots)[t.slot])]
        && offered == old(offered) - {t.slot}
      ensures r.Err? ==> slots == old(slots) && handed == old(handed) && offered == old(offered)
      ensures r.Err? ==>
        r.error == if lifecycle != Retiring then InvalidLifecycleTransition
                   else if TokenError(ring, id, slots, t).Some? then TokenError(ring, id, slots, t).value
                   else Busy
    {
      hide SlotsOk, Accounted, PassOk;
      if lifecycle != Retiring {
        return Err(InvalidLifecycleTransition);
      }
      if t.ring != ring || t.table != id {
        return Err(UnknownLease);
      }
      if t.slot >= |slots| {
        return Err(InvalidSlot);
      }
      var s := slots[t.slot];
      if s.generation != Some(t.generation) || s.owner.None? {
        return Err(UnknownLease);
      }
      if s.leases != 0 {
        return Err(Busy);
      }
      EmptyingKeeps(t.slot);
      NoneHeld(t.slot);
      slots := slots[t.slot := Emptied(s)];
      handed := handed[t := s.owner.value];
      offered := offered - {t.slot};
      return Ok(Retired(t, s.owner.value));
    }

    lemma NoneHeld(i: nat)
      requires SlotsOk(ring, id, slots, held) && i < |slots| && slots[i].leases == 0
      ensures held == held[i := multiset{}]
    {
    }

    lemma InstalledHasGeneration(index: nat)
      requires SlotsOk(ring, id, slots, held) && index < |slots| && slots[index].owner.Some?
      ensures slots[index].generation.Some?
    {
      assert SlotOk(ring, id, index, slots[index], held[index]);
    }

    lemma CursorBounded()
      requires Valid()
      ensures retireCursor <= |slots|
    {
    }

    /** The cursor only moves forward and stops at the next owner that no lease holds. */
    method NextRetirable() returns (r: Result<Option<Token>, TableError>)
      requires Valid()
      modifies this`retireCursor, this`offered
      ensures Valid()
      ensures r.Ok? <==> lifecycle == Retiring
      ensures r.Ok? && r.value.Some? ==>
        && Current(r.value.value) && slots[r.value.value.slot].leases == 0
        && old(retireCursor) <= r.value.value.slot < retireCursor
        && offered == old(offered) + {r.value.value.slot}
      ensures r.Ok? && r.value.None? ==> retireCursor == |slots| && offered == old(offered)
      ensures r.Err? ==> r.error == InvalidLifecycleTransition && retireCursor == old(retireCursor) && offered == old(offered)
    {
      hide SlotsOk, Accounted, PassOk;
      if lifecycle != Retiring {
        return Err(InvalidLifecycleTransition);
      }
      while retireCursor < |slots|
        invariant Valid() && offered == old(offered)
        invariant old(retireCursor) <= retireCursor
      {
        var index := retireCursor;
        PassAdvances(slots, index, offered);
        retireCursor := retireCursor + 1;
        var s := slots[index];
        if s.owner.Some? && s.leases == 0 {
          InstalledHasGeneration(index);
          offered := offered + {index};
          return Ok(Some(Token(ring, id, index, s.generation.value)));
        }
      }
      CursorBounded();
      return Ok(None);
    }

    lemma OnlyOne(h: multiset<Lease>, lease: Lease)
      requires lease in h && |h| == 1
      ensures h == multiset{lease} && h - multiset{lease} == multiset{}
    {
      assert |h - multiset{lease}| == 0;
      assert h == (h - multiset{lease}) + multiset{lease};
    }

    /** A slot with a lease outstanding keeps the leased owner and generation. */
    lemma LeasedSlotIsPinned(i: nat, lease: Lease)
      requires Valid() && i < |held| && lease in held[i]
      ensures i < |slots| && lease.token.slot == i && Current(lease.token)
      ensures slots[i].owner == Some(lease.owner)
      ensures lease.extent.Whole? <==> slots[i].extent.Whole?
      ensures lease.extent.Bytes? && slots[i].extent.Bytes? ==>
        && slots[i].extent.address <= lease.extent.address
        && lease.extent.address + lease.extent.length <= slots[i].extent.address + slots[i].extent.length
      ensures |held| == |slots| && 0 < slots[i].leases <= leases
      ensures slots[i].leases == 1 <==> held[i] == multiset{lease}
      ensures lease.token in installed && installed[lease.token] == lease.owner && lease.token !in handed
    {
      TotalUpdate(slots, i, slots[i]);
      assert SlotOk(ring, id, i, slots[i], held[i]);
      assert lease.token in installed && Settled(slots, lease.token, installed[lease.token], handed);
      if slots[i].leases == 1 {
        OnlyOne(held[i], lease);
      }
    }

    /** Every byte a request may touch through its lease lies in what was registered in that slot. */
    lemma LeasedByteIsRegistered(i: nat, lease: Lease, b: nat)
      requires Valid() && i < |held| && lease in held[i] && lease.extent.Bytes?
      requires lease.extent.address <= b < lease.extent.address + lease.extent.length
      ensures i < |slots| && slots[i].extent.Bytes?
      ensures slots[i].extent.address <= b < slots[i].extent.address + slots[i].extent.length <= U64_MAX
    {
      LeasedSlotIsPinned(i, lease);
      assert SlotOk(ring, id, i, slots[i], held[i]);
    }

    lemma ReleasingKeeps(i: nat, lease: Lease)
      requires Valid() && i < |slots| && slots[i].leases > 0
      requires i < |held| && lease in held[i]
      requires !(lifecycle == Retiring && slots[i].leases == 1)
      ensures var after := slots[i := slots[i].(leases := slots[i].leases - 1)];
              && SlotsOk(ring, id, after, held[i := held[i] - multiset{lease}])
              && Total(after) == Total(slots) - 1
              && Accounted(ring, id, after, installed, handed)
              && PassOk(lifecycle, after, retireCursor, offered)
    {
      hide SlotsOk, SlotOk, Accounted, PassOk;
      var s := slots[i].(leases := slots[i].leases - 1);
      SlotAt(ring, id, slots, held, i);
      SlotReleased(ring, id, i, slots[i], held[i], lease);
      SlotsOkUpdate(ring, id, slots, held, i, s, held[i] - multiset{lease});
      TotalUpdate(slots, i, s);
      LeasingAccounted(ring, id, slots, installed, handed, i, s.leases);
      PassIgnoresLeases(lifecycle, slots, retireCursor, offered, i, s.leases);
    }

    /** A lease returns to the table it came from; the last one of a retiring slot brings the owner out. */
    method ReleaseLease(lease: Lease) returns (r: Result<Release, TableError>)
      requires Valid()
      // A lease value exists only between its acquisition and its release.
      requires lease.token.ring == ring && lease.token.table == id ==> lease.token.slot < |held| && lease in held[lease.token.slot]
      modifies this`slots, this`leases, this`held, this`handed
      ensures Valid()
      ensures r.Ok? <==> lease.token.ring == ring && lease.token.table == id
      ensures r.Ok? ==>
        var i := lease.token.slot;
        && i < old(|held|) == old(|slots|)
        && held == old(held)[i := old(held)[i] - multiset{lease}]
        && leases == old(leases) - 1
        && (if lifecycle == Retiring && old(held)[i] == multiset{lease}
            then && r.value == Last(Retired(lease.token, lease.owner))
                 && lease.token !in old(handed) && lease.token in installed && installed[lease.token] == lease.owner
                 && handed == old(handed)[lease.token := lease.owner]
                 && !Current(lease.token)
            else && r.value == Active && handed == old(handed)
                 && Current(lease.token) && slots[i].owner == Some(lease.owner))
      ensures r.Err? ==>
        r.error == UnknownLease && slots == old(slots) && leases == old(leases) && held == old(held) && handed == old(handed)
    {
      hide SlotsOk, Accounted, PassOk;
      var t := lease.token;
      if t.ring != ring || t.table != id {
        return Err(UnknownLease);
      }
      LeasedSlotIsPinned(t.slot, lease);
      var s := slots[t.slot];
      TotalUpdate(slots, t.slot, s);
      if lifecycle == Retiring && s.leases == 1 {
        EmptyingKeeps(t.slot);
        OnlyOne(held[t.slot], lease);
        held := held[t.slot := held[t.slot] - multiset{lease}];
        slots := slots[t.slot := Emptied(s)];
        handed := handed[t := s.owner.value];
        leases := leases - 1;
        return Ok(Last(Retired(t, s.owner.value)));
      }
      ReleasingKeeps(t.slot, lease);
      held := held[t.slot := held[t.slot] - multiset{lease}];
      slots := slots[t.slot := s.(leases := s.leases - 1)];
      leases := leases - 1;
      return Ok(Active);
    }

    /** Counts the owners still in place. */
    method Progress() returns (installedNow: nat, empty: bool)
      requires Valid()
      ensures installedNow == Installed(slots)
      ensures empty <==> Vacated(slots)
    {
      installedNow := 0;
      for k := 0 to |slots|
        invariant installedNow == Installed(slots[..k])
      {
        assert slots[..k + 1][..k] == slots[..k];
        if slots[k].owner.Some? {
          installedNow := installedNow + 1;
        }
      }
      assert slots[..|slots|] == slots;
      NoneInstalled(slots);
      empty := installedNow == 0 && leases == 0;
      if Vacated(slots) {
        VacatedMeansUnleased();
      }
    }

    lemma VacatedMeansUnleased()
      requires SlotsOk(ring, id, slots, held) && Vacated(slots)
      ensures Total(slots) == 0
    {
      assert forall i | 0 <= i < |slots| :: SlotOk(ring, id, i, slots[i], held[i]);
      TotalOfNone(slots);
    }

    /** Unregistration completes exactly when every owner is out, and then each was handed back once. */
    method FinishRetire() returns (r: Result<(), TableError>)
      requires Valid()
      modifies this`lifecycle
      ensures Valid()
      ensures r.Ok? <==> old(lifecycle) == Closed || (old(lifecycle) == Retiring && Vacated(slots))
      ensures old(lifecycle) == Retiring && retireCursor == |slots| ==> (r.Ok? <==> leases == 0 && old(offered) == {})
      ensures r.Ok? ==> lifecycle == Closed && handed == installed && leases == 0
      ensures r.Err? ==> lifecycle == old(lifecycle)
      ensures r.Err? ==> r.error == if lifecycle == Retiring then Busy else InvalidLifecycleTransition
    {
      VacatedFacts();
      if lifecycle == Closed {
        return Ok(());
      }
      if lifecycle != Retiring {
        return Err(InvalidLifecycleTransition);
      }
      var _, empty := Progress();
      if !empty {
        return Err(Busy);
      }
      lifecycle := Closed;
      return Ok(());
    }

    lemma VacatedFacts()
      requires Valid()
      ensures Vacated(slots) ==> handed == installed && leases == 0 && offered == {}
      ensures lifecycle == Retiring && retireCursor == |slots| ==> (Vacated(slots) <==> leases == 0 && offered == {})
    {
      if Vacated(slots) {
        VacatedReturnsAll(ring, id, slots, installed, handed);
        VacatedMeansUnleased();
        assert offered == {};
      }
      if lifecycle == Retiring && retireCursor == |slots| {
        assert forall i | 0 <= i < |slots| :: SlotOk(ring, id, i, slots[i], held[i]);
        PassMissesNothing(slots, offered);
      }
    }
  }
}
