/** The epoll interest and readiness core: publication, notification, delivery
    across lock-free copyout, and removal (crates/fd/src/epoll.rs). */
module EpollCores {
  import opened Wrappers
  import opened ReadyQueues
  import opened Wakeups

  datatype Key = Key(ofd: nat, fd: nat)

  datatype Mode = Mode(edge: bool, oneShot: bool, exclusive: bool)

  datatype Interest = Interest(key: Key, mask: Mask, mode: Mode, userData: nat, subscription: nat)

  datatype Entry = Entry(
    generation: nat,
    interest: Interest,
    enabled: bool,
    queued: bool,
    inDelivery: Option<nat>,
    ready: Mask,
    during: Mask)

  /** The ready snapshot an adapter holds while it copies out. */
  datatype Delivery = Delivery(interest: EpollToken, serial: nat, events: Mask)

  datatype Outcome = Copied(stillReady: Mask) | Suppressed | Fault

  datatype NotifyOutcome = Enqueued | Coalesced | Ignored

  datatype EpollError = Capacity | Duplicate | StaleToken | UnsupportedMode | GenerationExhausted

  type Entries = seq<Option<Entry>>

  function FreshEntry(generation: nat, interest: Interest): Entry {
    Entry(generation, interest, true, false, None, {}, {})
  }

  predicate Live(id: nat, entries: Entries, t: EpollToken) {
    && t.epoll == id
    && t.slot < |entries|
    && entries[t.slot].Some?
    && entries[t.slot].value.generation == t.generation
  }

  // ---------- What the core keeps ----------

  /** Readiness the core or an adapter still holds for an interest. */
  function Held(e: Entry, flights: map<nat, Delivery>): Mask {
    e.ready + e.during +
    if e.inDelivery.Some? && e.inDelivery.value in flights then flights[e.inDelivery.value].events else {}
  }

  ghost predicate EntryOk(t: EpollToken, e: Entry, q: seq<EpollToken>, log: seq<Event>, flights: map<nat, Delivery>) {
    // Ready and idle means queued, and only then.
    && (e.queued <==> t in q)
    && (e.queued <==> e.enabled && e.ready != {} && e.inDelivery == None)
    && (e.inDelivery.None? ==> e.during == {})
    && (e.inDelivery.Some? ==>
          && e.enabled && e.ready == {}
          && e.inDelivery.value in flights && flights[e.inDelivery.value].interest == t
          && Since(log, t, e.inDelivery.value, e.interest.mask) == e.during)
    // Only a delivery copied out disarms, and only a one-shot interest.
    && (e.enabled <==> !(e.interest.mode.oneShot && CopiedIn(log, t)))
    // No lost wakeup and no invented one.
    && (e.enabled ==> Owed(log, t, e.interest.mask) == Held(e, flights))
  }

  ghost predicate EntriesOk(id: nat, entries: Entries, q: seq<EpollToken>, log: seq<Event>, flights: map<nat, Delivery>) {
    forall k | 0 <= k < |entries| && entries[k].Some? ::
      EntryOk(EpollToken(id, k, entries[k].value.generation), entries[k].value, q, log, flights)
  }

  ghost predicate QueueOk(id: nat, entries: Entries, q: seq<EpollToken>) {
    Distinct(q) && forall i | 0 <= i < |q| :: Live(id, entries, q[i])
  }

  ghost predicate KeysDiffer(entries: Entries) {
    forall i, j | 0 <= i < j < |entries| && entries[i].Some? && entries[j].Some? ::
      entries[i].value.interest.key != entries[j].value.interest.key
  }

  /** Generations and serials handed out so far are all below the next ones. */
  ghost predicate Counted(entries: Entries, log: seq<Event>, flights: map<nat, Delivery>, nextGeneration: nat, nextDelivery: nat) {
    && (forall k | 0 <= k < |entries| && entries[k].Some? :: entries[k].value.generation < nextGeneration)
    && (forall i | 0 <= i < |log| :: log[i].token.generation < nextGeneration)
    && (forall i | 0 <= i < |log| && log[i].Began? :: log[i].serial < nextDelivery)
    && (forall s | s in flights :: s < nextDelivery && flights[s].serial == s)
  }

  /** A token waiting to be queued always finds room. */
  lemma QueueHasRoom(id: nat, entries: Entries, q: seq<EpollToken>, t: EpollToken)
    requires QueueOk(id, entries, q) && Live(id, entries, t) && t !in q
    ensures |q| < |entries|
  {
    var all := q + [t];
    var slots: seq<nat> := seq(|all|, i requires 0 <= i < |all| => all[i].slot);
    Pigeonhole(slots, |entries|);
  }

  /** Steps about `t` leave every other interest's account alone. */
  lemma OthersKeep(t: EpollToken, u: EpollToken, e: Entry, q: seq<EpollToken>, q': seq<EpollToken>,
                   log: seq<Event>, ev: Event, flights: map<nat, Delivery>, flights': map<nat, Delivery>)
    requires u != t && ev.token == t && (u in q <==> u in q')
    requires EntryOk(u, e, q, log, flights)
    requires forall s | s in flights :: s in flights' && flights'[s] == flights[s]
    ensures EntryOk(u, e, q', log + [ev], flights')
  {
    CopiedAfter(log, ev, u);
  }

  /** One event about one interest keeps every interest's account. */
  lemma EventKeeps(id: nat, entries: Entries, q: seq<EpollToken>, q': seq<EpollToken>, log: seq<Event>, ev: Event,
                   flights: map<nat, Delivery>, flights': map<nat, Delivery>, t: EpollToken, e: Entry)
    requires EntriesOk(id, entries, q, log, flights) && QueueOk(id, entries, q)
    requires Live(id, entries, t) && ev.token == t && e.generation == t.generation
    requires e.interest.key == entries[t.slot].value.interest.key
    requires Distinct(q') && forall u | u != t :: u in q <==> u in q'
    requires forall s | s in flights :: s in flights' && flights'[s] == flights[s]
    requires EntryOk(t, e, q', log + [ev], flights')
    ensures EntriesOk(id, entries[t.slot := Some(e)], q', log + [ev], flights')
    ensures QueueOk(id, entries[t.slot := Some(e)], q')
  {
    var after := entries[t.slot := Some(e)];
    forall k | 0 <= k < |after| && after[k].Some?
      ensures EntryOk(EpollToken(id, k, after[k].value.generation), after[k].value, q', log + [ev], flights')
    {
      if k != t.slot {
        OthersKeep(t, EpollToken(id, k, entries[k].value.generation), entries[k].value, q, q', log, ev, flights, flights');
      }
    }
    forall i | 0 <= i < |q'|
      ensures Live(id, after, q'[i])
    {
      assert q'[i] != t ==> q'[i] in q;
    }
  }

  // ---------- One interest, step by step ----------

  /** An interest after a source reported `mask`. */
  function AfterNotify(e: Entry, mask: Mask): Entry {
    var d := Deliverable(mask, e.interest.mask);
    if !e.enabled || d == {} then e
    else if e.inDelivery.Some? then e.(during := e.during + d)
    else e.(ready := e.ready + d, queued := true)
  }

  lemma NotifyOk(t: EpollToken, e: Entry, mask: Mask, q: seq<EpollToken>, log: seq<Event>, flights: map<nat, Delivery>)
    requires EntryOk(t, e, q, log, flights)
    ensures !e.queued ==> t !in q
    ensures
      var after := AfterNotify(e, mask);
      EntryOk(t, after, if after.queued && !e.queued then q + [t] else q, log + [Notified(t, mask)], flights)
  {
    CopiedAfter(log, Notified(t, mask), t);
  }

  lemma BeginOk(t: EpollToken, e: Entry, q: seq<EpollToken>, log: seq<Event>, flights: map<nat, Delivery>, serial: nat)
    requires EntryOk(t, e, q, log, flights) && Distinct(q) && q != [] && q[0] == t && serial !in flights
    ensures EntryOk(t, e.(queued := false, inDelivery := Some(serial), ready := {}), q[1..], log + [Began(t, serial)],
                    flights[serial := Delivery(t, serial, e.ready)])
  {
    CopiedAfter(log, Began(t, serial), t);
  }

  /** An interest after its copyout ended. */
  function AfterFinish(e: Entry, events: Mask, outcome: Outcome): Entry {
    var ready :=
      match outcome
      case Fault => e.ready + events + e.during
      case Suppressed => e.ready + e.during
      case Copied(stillReady) =>
        if e.interest.mode.edge then e.ready + e.during
        else e.ready + e.during + Deliverable(stillReady, e.interest.mask);
    var enabled := e.enabled && !(outcome.Copied? && e.interest.mode.oneShot);
    e.(inDelivery := None, during := {}, ready := ready, enabled := enabled, queued := enabled && ready != {})
  }

  /** The readiness a level-triggered interest adopts from the check after a copyout. */
  function Recheck(e: Entry, outcome: Outcome): Mask {
    if outcome.Copied? && !e.interest.mode.edge then outcome.stillReady else {}
  }

  function FinishEvent(d: Delivery, e: Entry, outcome: Outcome): Event {
    Finished(d.interest, d.serial, !outcome.Fault?, outcome.Copied?, Recheck(e, outcome))
  }

  lemma FinishOk(t: EpollToken, e: Entry, d: Delivery, outcome: Outcome, q: seq<EpollToken>, log: seq<Event>, flights: map<nat, Delivery>)
    requires EntryOk(t, e, q, log, flights) && e.inDelivery == Some(d.serial)
    requires d.serial in flights && flights[d.serial] == d && d.interest == t
    ensures !e.queued && t !in q
    ensures
      var after := AfterFinish(e, d.events, outcome);
      EntryOk(t, after, if after.queued then q + [t] else q, log + [FinishEvent(d, e, outcome)], flights)
  {
    CopiedAfter(log, FinishEvent(d, e, outcome), t);
  }

  /** Filling, replacing or emptying a slot: the new tenant starts with no account, and the old one's queue record is gone. */
  lemma ReplaceKeeps(id: nat, entries: Entries, q: seq<EpollToken>, q': seq<EpollToken>, log: seq<Event>,
                     flights: map<nat, Delivery>, slot: nat, tenant: Option<Entry>)
    requires EntriesOk(id, entries, q, log, flights) && QueueOk(id, entries, q) && slot < |entries|
    requires Distinct(q') && forall u :: u in q' <==> u in q && u.slot != slot
    requires tenant.Some? ==>
               && tenant.value == FreshEntry(tenant.value.generation, tenant.value.interest)
               && forall i | 0 <= i < |log| :: log[i].token.generation < tenant.value.generation
    ensures EntriesOk(id, entries[slot := tenant], q', log, flights) && QueueOk(id, entries[slot := tenant], q')
  {
    var after := entries[slot := tenant];
    forall k | 0 <= k < |after| && after[k].Some?
      ensures EntryOk(EpollToken(id, k, after[k].value.generation), after[k].value, q', log, flights)
    {
      if k == slot {
        SilentOwesNothing(log, EpollToken(id, k, after[k].value.generation), after[k].value.interest.mask);
      } else {
        assert EntryOk(EpollToken(id, k, entries[k].value.generation), entries[k].value, q, log, flights);
      }
    }
    forall i | 0 <= i < |q'|
      ensures Live(id, after, q'[i])
    {
      assert q'[i] in q';
    }
  }

  /** In a sound queue, a token is the only one for its slot. */
  lemma OneTokenPerSlot(id: nat, entries: Entries, q: seq<EpollToken>, t: EpollToken)
    requires QueueOk(id, entries, q) && Live(id, entries, t)
    ensures Distinct(Without(q, t)) && forall u :: u in Without(q, t) <==> u in q && u.slot != t.slot
  {
  }

  // ---------- Each step keeps every account ----------

  lemma CountedStill(entries: Entries, log: seq<Event>, flights: map<nat, Delivery>, nextGeneration: nat, nextDelivery: nat,
                     slot: nat, tenant: Option<Entry>)
    requires Counted(entries, log, flights, nextGeneration, nextDelivery) && slot < |entries|
    requires tenant.Some? ==> tenant.value.generation < nextGeneration
    ensures Counted(entries[slot := tenant], log, flights, nextGeneration, nextDelivery)
  {
  }

  lemma QueuedIsReady(id: nat, entries: Entries, q: seq<EpollToken>, log: seq<Event>, flights: map<nat, Delivery>, t: EpollToken)
    requires EntriesOk(id, entries, q, log, flights) && QueueOk(id, entries, q) && t in q
    ensures Live(id, entries, t) && entries[t.slot].value.queued && entries[t.slot].value.ready != {}
  {
  }

  lemma LiveOk(id: nat, entries: Entries, q: seq<EpollToken>, log: seq<Event>, flights: map<nat, Delivery>, t: EpollToken)
    requires EntriesOk(id, entries, q, log, flights) && QueueOk(id, entries, q) && Live(id, entries, t)
    ensures EntryOk(t, entries[t.slot].value, q, log, flights) && Distinct(q)
  {
    hide EntryOk;
  }

  /** An event about a known interest that begins no delivery uses up no number. */
  lemma EventCounted(entries: Entries, log: seq<Event>, ev: Event, flights: map<nat, Delivery>, nextGeneration: nat, nextDelivery: nat,
                     slot: nat, e: Entry)
    requires Counted(entries, log, flights, nextGeneration, nextDelivery) && !ev.Began?
    requires slot < |entries| && entries[slot].Some?
    requires e.generation == entries[slot].value.generation == ev.token.generation
    ensures Counted(entries[slot := Some(e)], log + [ev], flights, nextGeneration, nextDelivery)
  {
  }

  lemma BeganCounted(entries: Entries, log: seq<Event>, flights: map<nat, Delivery>, nextGeneration: nat, nextDelivery: nat,
                     t: EpollToken, e: Entry, events: Mask)
    requires Counted(entries, log, flights, nextGeneration, nextDelivery)
    requires t.slot < |entries| && entries[t.slot].Some?
    requires e.generation == entries[t.slot].value.generation == t.generation
    ensures nextDelivery !in flights
    ensures Counted(entries[t.slot := Some(e)], log + [Began(t, nextDelivery)],
                    flights[nextDelivery := Delivery(t, nextDelivery, events)], nextGeneration, nextDelivery + 1)
  {
  }

  lemma NotifyKeeps(id: nat, entries: Entries, q: seq<EpollToken>, log: seq<Event>, flights: map<nat, Delivery>,
                    nextGeneration: nat, nextDelivery: nat, t: EpollToken, mask: Mask)
    requires EntriesOk(id, entries, q, log, flights) && QueueOk(id, entries, q) && KeysDiffer(entries)
    requires Counted(entries, log, flights, nextGeneration, nextDelivery) && Live(id, entries, t)
    ensures
      var before := entries[t.slot].value;
      var after := AfterNotify(before, mask);
      var q', log' := if after.queued && !before.queued then q + [t] else q, log + [Notified(t, mask)];
      && EntriesOk(id, entries[t.slot := Some(after)], q', log', flights)
      && QueueOk(id, entries[t.slot := Some(after)], q')
      && KeysDiffer(entries[t.slot := Some(after)])
      && Counted(entries[t.slot := Some(after)], log', flights, nextGeneration, nextDelivery)
      && (!before.queued ==> |q| < |entries|)
  {
    hide AfterNotify, EntryOk, EntriesOk, QueueOk, KeysDiffer, Counted;
    var before := entries[t.slot].value;
    LiveOk(id, entries, q, log, flights, t);
    NotifyOk(t, before, mask, q, log, flights);
    NotifyFrame(before, mask);
    var after := AfterNotify(before, mask);
    if !before.queued {
      QueueHasRoom(id, entries, q, t);
    }
    SameKeys(entries, t.slot, Some(after));
    EventCounted(entries, log, Notified(t, mask), flights, nextGeneration, nextDelivery, t.slot, after);
    EventKeeps(id, entries, q, if after.queued && !before.queued then q + [t] else q, log, Notified(t, mask), flights, flights, t, after);
  }

  lemma NotifyFrame(e: Entry, mask: Mask)
    ensures AfterNotify(e, mask).generation == e.generation && AfterNotify(e, mask).interest == e.interest
  {
  }

  lemma BeginKeeps(id: nat, entries: Entries, q: seq<EpollToken>, log: seq<Event>, flights: map<nat, Delivery>,
                   nextGeneration: nat, nextDelivery: nat, t: EpollToken)
    requires EntriesOk(id, entries, q, log, flights) && QueueOk(id, entries, q) && KeysDiffer(entries)
    requires Counted(entries, log, flights, nextGeneration, nextDelivery) && q != [] && q[0] == t
    ensures Live(id, entries, t)
    ensures
      var e := entries[t.slot].value;
      var after := entries[t.slot := Some(e.(queued := false, inDelivery := Some(nextDelivery), ready := {}))];
      var log', flights' := log + [Began(t, nextDelivery)], flights[nextDelivery := Delivery(t, nextDelivery, e.ready)];
      && EntriesOk(id, after, q[1..], log', flights') && QueueOk(id, after, q[1..]) && KeysDiffer(after)
      && Counted(after, log', flights', nextGeneration, nextDelivery + 1)
  {
    hide EntryOk, EntriesOk, QueueOk, KeysDiffer, Counted;
    HeadIsLive(id, entries, q);
    var e := entries[t.slot].value;
    LiveOk(id, entries, q, log, flights, t);
    var after := e.(queued := false, inDelivery := Some(nextDelivery), ready := {});
    BeganCounted(entries, log, flights, nextGeneration, nextDelivery, t, after, e.ready);
    BeginOk(t, e, q, log, flights, nextDelivery);
    SameKeys(entries, t.slot, Some(after));
    EventKeeps(id, entries, q, q[1..], log, Began(t, nextDelivery), flights,
               flights[nextDelivery := Delivery(t, nextDelivery, e.ready)], t, after);
  }

  lemma HeadIsLive(id: nat, entries: Entries, q: seq<EpollToken>)
    requires QueueOk(id, entries, q) && q != []
    ensures Live(id, entries, q[0])
  {
  }

  lemma FinishKeeps(id: nat, entries: Entries, q: seq<EpollToken>, log: seq<Event>, flights: map<nat, Delivery>,
                    nextGeneration: nat, nextDelivery: nat, d: Delivery, outcome: Outcome)
    requires EntriesOk(id, entries, q, log, flights) && QueueOk(id, entries, q) && KeysDiffer(entries)
    requires Counted(entries, log, flights, nextGeneration, nextDelivery) && Live(id, entries, d.interest)
    requires entries[d.interest.slot].value.inDelivery == Some(d.serial) && d.serial in flights && flights[d.serial] == d
    ensures !entries[d.interest.slot].value.queued && |q| < |entries|
    ensures
      var t := d.interest;
      var after := AfterFinish(entries[t.slot].value, d.events, outcome);
      var q', log' := if after.queued then q + [t] else q, log + [FinishEvent(d, entries[t.slot].value, outcome)];
      && EntriesOk(id, entries[t.slot := Some(after)], q', log', flights)
      && QueueOk(id, entries[t.slot := Some(after)], q')
      && KeysDiffer(entries[t.slot := Some(after)])
      && Counted(entries[t.slot := Some(after)], log', flights, nextGeneration, nextDelivery)
  {
    hide AfterFinish, EntryOk, EntriesOk, QueueOk, KeysDiffer, Counted;
    var t := d.interest;
    var before := entries[t.slot].value;
    LiveOk(id, entries, q, log, flights, t);
    FinishOk(t, before, d, outcome, q, log, flights);
    FinishFrame(before, d.events, outcome);
    QueueHasRoom(id, entries, q, t);
    var after := AfterFinish(before, d.events, outcome);
    SameKeys(entries, t.slot, Some(after));
    EventCounted(entries, log, FinishEvent(d, before, outcome), flights, nextGeneration, nextDelivery, t.slot, after);
    EventKeeps(id, entries, q, if after.queued then q + [t] else q, log, FinishEvent(d, before, outcome), flights, flights, t, after);
  }

  lemma FinishFrame(e: Entry, events: Mask, outcome: Outcome)
    ensures AfterFinish(e, events, outcome).generation == e.generation
    ensures AfterFinish(e, events, outcome).interest == e.interest
  {
  }

  /** Tokens whose interest was removed or replaced never come back. */
  ghost predicate GoneOk(id: nat, entries: Entries, gone: set<EpollToken>, nextGeneration: nat) {
    forall t | t in gone :: t.generation < nextGeneration && !Live(id, entries, t)
  }

  lemma GoneStays(id: nat, entries: Entries, gone: set<EpollToken>, nextGeneration: nat, slot: nat, e: Entry)
    requires GoneOk(id, entries, gone, nextGeneration)
    requires slot < |entries| && entries[slot].Some? && e.generation == entries[slot].value.generation
    ensures GoneOk(id, entries[slot := Some(e)], gone, nextGeneration)
  {
  }

  lemma GoneUnderNew(id: nat, entries: Entries, gone: set<EpollToken>, nextGeneration: nat, slot: nat, e: Entry)
    requires GoneOk(id, entries, gone, nextGeneration) && slot < |entries| && e.generation == nextGeneration
    ensures GoneOk(id, entries[slot := Some(e)], gone, nextGeneration + 1)
  {
  }

  lemma GoneGrows(id: nat, entries: Entries, gone: set<EpollToken>, log: seq<Event>, flights: map<nat, Delivery>,
                  nextGeneration: nat, nextDelivery: nat, t: EpollToken, tenant: Option<Entry>)
    requires GoneOk(id, entries, gone, nextGeneration) && Live(id, entries, t)
    requires Counted(entries, log, flights, nextGeneration, nextDelivery)
    requires tenant.Some? ==> tenant.value.generation == nextGeneration
    ensures GoneOk(id, entries[t.slot := tenant], gone + {t}, nextGeneration + if tenant.Some? then 1 else 0)
  {
  }

  lemma CountedUp(entries: Entries, log: seq<Event>, flights: map<nat, Delivery>, nextGeneration: nat, nextDelivery: nat,
                  slot: nat, tenant: Option<Entry>)
    requires Counted(entries, log, flights, nextGeneration, nextDelivery) && slot < |entries|
    requires tenant.Some? ==> tenant.value.generation == nextGeneration
    ensures Counted(entries[slot := tenant], log, flights, nextGeneration + 1, nextDelivery)
    ensures tenant.Some? ==> forall i | 0 <= i < |log| :: log[i].token.generation < tenant.value.generation
  {
  }

  lemma SameKeys(entries: Entries, slot: nat, tenant: Option<Entry>)
    requires KeysDiffer(entries) && slot < |entries|
    requires tenant.Some? ==> entries[slot].Some? && tenant.value.interest.key == entries[slot].value.interest.key
    ensures KeysDiffer(entries[slot := tenant])
  {
  }

  lemma NewKey(entries: Entries, slot: nat, e: Entry)
    requires KeysDiffer(entries) && slot < |entries|
    requires forall k | 0 <= k < |entries| && entries[k].Some? :: entries[k].value.interest.key != e.interest.key
    ensures KeysDiffer(entries[slot := Some(e)])
  {
  }

  lemma VacantHasNoToken(id: nat, entries: Entries, q: seq<EpollToken>, slot: nat)
    requires QueueOk(id, entries, q) && slot < |entries| && entries[slot].None?
    ensures Distinct(q) && forall u :: u in q <==> u in q && u.slot != slot
  {
  }

  /** A live interest gives way to a successor with a new generation, or to none. */
  lemma SucceedingKeeps(id: nat, entries: Entries, q: seq<EpollToken>, log: seq<Event>, flights: map<nat, Delivery>,
                        gone: set<EpollToken>, nextGeneration: nat, nextDelivery: nat, t: EpollToken, tenant: Option<Entry>)
    requires EntriesOk(id, entries, q, log, flights) && QueueOk(id, entries, q) && KeysDiffer(entries)
    requires Counted(entries, log, flights, nextGeneration, nextDelivery) && GoneOk(id, entries, gone, nextGeneration)
    requires Live(id, entries, t)
    requires tenant.Some? ==>
               && tenant.value == FreshEntry(nextGeneration, tenant.value.interest)
               && tenant.value.interest.key == entries[t.slot].value.interest.key
    ensures
      var after, q' := entries[t.slot := tenant], Without(q, t);
      var next := nextGeneration + if tenant.Some? then 1 else 0;
      && EntriesOk(id, after, q', log, flights) && QueueOk(id, after, q') && KeysDiffer(after)
      && Counted(after, log, flights, next, nextDelivery) && GoneOk(id, after, gone + {t}, next)
  {
    hide EntriesOk, QueueOk, Counted, Without, KeysDiffer, GoneOk;
    if tenant.Some? {
      CountedUp(entries, log, flights, nextGeneration, nextDelivery, t.slot, tenant);
    } else {
      CountedStill(entries, log, flights, nextGeneration, nextDelivery, t.slot, tenant);
    }
    SameKeys(entries, t.slot, tenant);
    OneTokenPerSlot(id, entries, q, t);
    ReplaceKeeps(id, entries, q, Without(q, t), log, flights, t.slot, tenant);
    GoneGrows(id, entries, gone, log, flights, nextGeneration, nextDelivery, t, tenant);
  }

  class EpollCore {
    const id: nat
    var entries: Entries
    const ready: ReadyQueue
    var nextGeneration: nat
    var nextDelivery: nat

    /** What happened so far, and every delivery ever handed out. */
    ghost var log: seq<Event>
    ghost var flights: map<nat, Delivery>
    /** Tokens whose interest was removed or replaced. */
    ghost var gone: set<EpollToken>
    /** Every push, head removal and deletion of the ready queue. */
    ghost var queueSteps: seq<QueueStep>

    ghost predicate Valid()
      reads this, ready, ready.items
    {
      && ready.Valid()
      && |entries| == ready.items.Length < USIZE_MAX
      && EntriesOk(id, entries, ready.Contents(), log, flights)
      && QueueOk(id, entries, ready.Contents())
      && KeysDiffer(entries)
      && Counted(entries, log, flights, nextGeneration, nextDelivery)
      && GoneOk(id, entries, gone, nextGeneration)
      && ready.Contents() == PlayAll([], queueSteps)
      && nextGeneration <= U64_MAX && nextDelivery <= U64_MAX
    }

    constructor (id: nat, capacity: nat)
      requires capacity < USIZE_MAX
      ensures Valid() && this.id == id && |entries| == capacity && fresh(ready) && fresh(ready.items)
      ensures log == [] && ready.Contents() == [] && forall k | 0 <= k < capacity :: entries[k].None?
    {
      this.id := id;
      ready := new ReadyQueue(capacity, EpollToken(id, 0, 0));
      entries := seq(capacity, _ => None);
      nextGeneration, nextDelivery, log, flights, gone, queueSteps := 1, 1, [], map[], {}, [];
    }

    static method TryNew(id: nat, capacity: nat) returns (r: Result<EpollCore, EpollError>)
      requires capacity <= USIZE_MAX
      ensures r.Err? <==> capacity == USIZE_MAX
      ensures r.Err? ==> r.error == Capacity
      ensures r.Ok? ==> fresh(r.value) && r.value.Valid() && r.value.id == id && |r.value.entries| == capacity
    {
      if capacity == USIZE_MAX {
        return Err(Capacity);
      }
      var core := new EpollCore(id, capacity);
      return Ok(core);
    }

    /** Publishes an armed interest in the lowest free slot. */
    method Add(interest: Interest) returns (r: Result<EpollToken, EpollError>)
      requires Valid()
      modifies this`entries, this`nextGeneration
      ensures Valid()
      ensures r.Err? ==> unchanged(this)
      ensures r == if interest.mode.exclusive then Err(UnsupportedMode)
                   else if exists k | 0 <= k < old(|entries|) :: old(entries)[k].Some? && old(entries)[k].value.interest.key == interest.key
                        then Err(Duplicate)
                   else if LowestVacant(old(entries)) == old(|entries|) then Err(Capacity)
                   else if old(nextGeneration) == U64_MAX then Err(GenerationExhausted)
                   else Ok(EpollToken(id, LowestVacant(old(entries)), old(nextGeneration)))
      ensures r.Ok? ==>
                && entries == old(entries)[r.value.slot := Some(FreshEntry(r.value.generation, interest))]
                && nextGeneration == old(nextGeneration) + 1
    {
      hide EntriesOk, QueueOk, Counted, KeysDiffer, GoneOk, ReadyQueue.Contents;
      if interest.mode.exclusive {
        return Err(UnsupportedMode);
      }
      if exists k | 0 <= k < |entries| :: entries[k].Some? && entries[k].value.interest.key == interest.key {
        return Err(Duplicate);
      }
      var slot := FirstVacant(entries);
      if slot.None? {
        return Err(Capacity);
      }
      if nextGeneration == U64_MAX {
        return Err(GenerationExhausted);
      }
      var generation := nextGeneration;
      CountedUp(entries, log, flights, nextGeneration, nextDelivery, slot.value, Some(FreshEntry(generation, interest)));
      NewKey(entries, slot.value, FreshEntry(generation, interest));
      GoneUnderNew(id, entries, gone, nextGeneration, slot.value, FreshEntry(generation, interest));
      VacantHasNoToken(id, entries, ready.Contents(), slot.value);
      ReplaceKeeps(id, entries, ready.Contents(), ready.Contents(), log, flights, slot.value, Some(FreshEntry(generation, interest)));
      nextGeneration := generation + 1;
      entries := entries[slot.value := Some(FreshEntry(generation, interest))];
      return Ok(EpollToken(id, slot.value, generation));
    }

    /** Replaces one exact generation; the old interest is returned and its queue record dropped. */
    method Modify(token: EpollToken, replacement: Interest) returns (r: Result<(EpollToken, Interest), EpollError>)
      requires Valid()
      modifies this`entries, this`queueSteps, this`nextGeneration, this`gone, ready`len, ready.items
      ensures Valid()
      ensures r.Err? ==> unchanged(this) && ready.Contents() == old(ready.Contents())
      ensures r == if replacement.mode.exclusive then Err(UnsupportedMode)
                   else if !Live(id, old(entries), token) || old(entries)[token.slot].value.interest.key != replacement.key
                        then Err(StaleToken)
                   else if old(nextGeneration) == U64_MAX then Err(GenerationExhausted)
                   else Ok((EpollToken(id, token.slot, old(nextGeneration)), old(entries)[token.slot].value.interest))
      ensures r.Ok? ==>
                && entries == old(entries)[token.slot := Some(FreshEntry(old(nextGeneration), replacement))]
                && nextGeneration == old(nextGeneration) + 1 && gone == old(gone) + {token}
                && ready.Contents() == Without(old(ready.Contents()), token)
                && queueSteps == old(queueSteps) + [Removed(token)]
    {
      hide EntriesOk, QueueOk, Counted, Without, KeysDiffer, GoneOk, ReadyQueue.Contents, PlayAll;
      if replacement.mode.exclusive {
        return Err(UnsupportedMode);
      }
      if !Live(id, entries, token) || entries[token.slot].value.interest.key != replacement.key {
        return Err(StaleToken);
      }
      if nextGeneration == U64_MAX {
        return Err(GenerationExhausted);
      }
      var generation := nextGeneration;
      var previous := entries[token.slot].value.interest;
      SucceedingKeeps(id, entries, ready.Contents(), log, flights, gone, nextGeneration, nextDelivery, token,
                      Some(FreshEntry(generation, replacement)));
      nextGeneration := generation + 1;
      gone := gone + {token};
      PlayOne(queueSteps, Removed(token));
      ready.Remove(token);
      queueSteps := queueSteps + [Removed(token)];
      entries := entries[token.slot := Some(FreshEntry(generation, replacement))];
      return Ok((EpollToken(id, token.slot, generation), previous));
    }

    /** Deletes one exact interest and hands it back. */
    method Remove(token: EpollToken) returns (r: Result<Interest, EpollError>)
      requires Valid()
      modifies this`entries, this`queueSteps, this`gone, ready`len, ready.items
      ensures Valid()
      ensures r == if Live(id, old(entries), token) then Ok(old(entries)[token.slot].value.interest) else Err(StaleToken)
      ensures r.Err? ==> unchanged(this) && ready.Contents() == old(ready.Contents())
      ensures r.Ok? ==>
                && entries == old(entries)[token.slot := None]
                && gone == old(gone) + {token}
                && ready.Contents() == Without(old(ready.Contents()), token)
                && queueSteps == old(queueSteps) + [Removed(token)]
    {
      hide EntriesOk, QueueOk, Counted, Without, KeysDiffer, GoneOk, ReadyQueue.Contents, PlayAll;
      if !Live(id, entries, token) {
        return Err(StaleToken);
      }
      var interest := entries[token.slot].value.interest;
      SucceedingKeeps(id, entries, ready.Contents(), log, flights, gone, nextGeneration, nextDelivery, token, None);
      PlayOne(queueSteps, Removed(token));
      ready.Remove(token);
      queueSteps := queueSteps + [Removed(token)];
      gone := gone + {token};
      entries := entries[token.slot := None];
      return Ok(interest);
    }

    /** Records readiness from a source callback. */
    method Notify(token: EpollToken, mask: Mask) returns (r: Result<NotifyOutcome, EpollError>)
      requires Valid()
      modifies this`entries, this`queueSteps, this`log, ready`len, ready.items
      ensures Valid()
      ensures r.Err? <==> !Live(id, old(entries), token)
      ensures r.Err? ==> r.error == StaleToken && unchanged(this) && ready.Contents() == old(ready.Contents())
      ensures r.Ok? ==>
                var before := old(entries)[token.slot].value;
                var after := AfterNotify(before, mask);
                && entries == old(entries)[token.slot := Some(after)]
                && log == old(log) + [Notified(token, mask)]
                && ready.Contents() == old(ready.Contents()) + (if after.queued && !before.queued then [token] else [])
                && queueSteps == old(queueSteps) + (if after.queued && !before.queued then [Pushed(token)] else [])
                && (r.value == Ignored <==> !before.enabled || mask * (before.interest.mask + {3, 4, 5}) == {})
                && (r.value == Enqueued <==> after.queued && !before.queued)
    {
      hide EntriesOk, QueueOk, Counted, KeysDiffer, EntryOk, GoneOk, ReadyQueue.Contents, PlayAll, Deliverable;
      if !Live(id, entries, token) {
        return Err(StaleToken);
      }
      var entry := entries[token.slot].value;
      ghost var q := ready.Contents();
      NotifyKeeps(id, entries, q, log, flights, nextGeneration, nextDelivery, token, mask);
      GoneStays(id, entries, gone, nextGeneration, token.slot, AfterNotify(entry, mask));
      log := log + [Notified(token, mask)];
      assert q + [] == q && queueSteps + [] == queueSteps;
      var d := Deliverable(mask, entry.interest.mask);
      DeliverableIs(mask, entry.interest.mask);
      if !entry.enabled || d == {} {
        assert entries[token.slot := Some(entry)] == entries;
        return Ok(Ignored);
      }
      if entry.inDelivery.Some? {
        entries := entries[token.slot := Some(entry.(during := entry.during + d))];
        return Ok(Coalesced);
      }
      entry := entry.(ready := entry.ready + d);
      if entry.queued {
        entries := entries[token.slot := Some(entry)];
        return Ok(Coalesced);
      }
      var pushed := ready.Push(token);
      if pushed.Err? {
        assert false;
      }
      PlayOne(queueSteps, Pushed(token));
      queueSteps := queueSteps + [Pushed(token)];
      entries := entries[token.slot := Some(entry.(queued := true))];
      return Ok(Enqueued);
    }

    /** The candidate for the next delivery. Stale queue records never occur, so nothing is skipped. */
    method PrepareDelivery() returns (candidate: Option<EpollToken>)
      requires Valid()
      ensures candidate == if ready.Contents() == [] then None else Some(ready.Contents()[0])
      ensures candidate.Some? ==> Live(id, entries, candidate.value) && entries[candidate.value.slot].value.ready != {}
    {
      candidate := ready.Peek();
      if candidate.Some? {
        QueuedIsReady(id, entries, ready.Contents(), log, flights, candidate.value);
        if !(Live(id, entries, candidate.value) && entries[candidate.value.slot].value.queued) {
          assert false;
        }
      }
    }

    /** Takes the candidate off the queue and snapshots its readiness for copyout. */
    method CommitDelivery(token: EpollToken) returns (r: Result<Delivery, EpollError>)
      requires Valid()
      modifies this`entries, this`queueSteps, this`nextDelivery, this`log, this`flights, ready`head, ready`len
      ensures Valid()
      ensures r == if old(ready.Contents() == [] || ready.Contents()[0] != token) then Err(StaleToken)
                   else if old(nextDelivery) == U64_MAX then Err(GenerationExhausted)
                   else Ok(Delivery(token, old(nextDelivery), old(entries[token.slot].value.ready)))
      ensures r.Err? ==> unchanged(this) && ready.Contents() == old(ready.Contents())
      ensures r.Ok? ==>
                && Live(id, old(entries), token)
                && entries == old(entries)[token.slot :=
                     Some(old(entries)[token.slot].value.(queued := false, inDelivery := Some(r.value.serial), ready := {}))]
                && ready.Contents() == old(ready.Contents())[1..] && queueSteps == old(queueSteps) + [Popped]
                && log == old(log) + [Began(token, r.value.serial)]
                && flights == old(flights)[r.value.serial := r.value]
                && nextDelivery == old(nextDelivery) + 1
    {
      hide EntriesOk, QueueOk, Counted, KeysDiffer, EntryOk, GoneOk, ReadyQueue.Contents, PlayAll;
      var head := ready.Peek();
      if head != Some(token) {
        return Err(StaleToken);
      }
      QueuedIsReady(id, entries, ready.Contents(), log, flights, token);
      if nextDelivery == U64_MAX {
        return Err(GenerationExhausted);
      }
      var serial := nextDelivery;
      var entry := entries[token.slot].value;
      BeginKeeps(id, entries, ready.Contents(), log, flights, nextGeneration, nextDelivery, token);
      GoneStays(id, entries, gone, nextGeneration, token.slot, entry.(queued := false, inDelivery := Some(serial), ready := {}));
      nextDelivery := serial + 1;
      PlayOne(queueSteps, Popped);
      var popped := ready.Pop();
      queueSteps := queueSteps + [Popped];
      log := log + [Began(token, serial)];
      flights := flights[serial := Delivery(token, serial, entry.ready)];
      entries := entries[token.slot := Some(entry.(queued := false, inDelivery := Some(serial), ready := {}))];
      return Ok(Delivery(token, serial, entry.ready));
    }

    /** Ends a copyout: a fault restores the snapshot, and wakeups that raced the copy stay pending. */
    method FinishDelivery(delivery: Delivery, outcome: Outcome) returns (r: Result<(), EpollError>)
      requires Valid()
      requires delivery.interest.epoll == id ==> delivery.serial in flights && flights[delivery.serial] == delivery
      modifies this`entries, this`queueSteps, this`log, ready`len, ready.items
      ensures Valid()
      ensures
        var t := delivery.interest;
        r == if Live(id, old(entries), t) && old(entries)[t.slot].value.inDelivery == Some(delivery.serial)
             then Ok(()) else Err(StaleToken)
      ensures r.Err? ==> unchanged(this) && ready.Contents() == old(ready.Contents())
      ensures r.Ok? ==>
                var t := delivery.interest;
                var after := AfterFinish(old(entries)[t.slot].value, delivery.events, outcome);
                && entries == old(entries)[t.slot := Some(after)]
                && ready.Contents() == old(ready.Contents()) + (if after.queued then [t] else [])
                && queueSteps == old(queueSteps) + (if after.queued then [Pushed(t)] else [])
                && log == old(log) + [Finished(t, delivery.serial, !outcome.Fault?, outcome.Copied?,
                     if outcome.Copied? && !old(entries)[t.slot].value.interest.mode.edge then outcome.stillReady else {})]
    {
      hide EntriesOk, QueueOk, Counted, KeysDiffer, EntryOk, GoneOk, ReadyQueue.Contents, PlayAll, Deliverable;
      var token := delivery.interest;
      if !Live(id, entries, token) {
        return Err(StaleToken);
      }
      var entry := entries[token.slot].value;
      if entry.inDelivery != Some(delivery.serial) {
        return Err(StaleToken);
      }
      GoneStays(id, entries, gone, nextGeneration, token.slot, AfterFinish(entry, delivery.events, outcome));
      FinishKeeps(id, entries, ready.Contents(), log, flights, nextGeneration, nextDelivery, delivery, outcome);
      ghost var before, q := entry, ready.Contents();
      assert q + [] == q && queueSteps + [] == queueSteps;
      entry := entry.(inDelivery := None);
      match outcome {
        case Fault =>
          entry := entry.(ready := entry.ready + delivery.events + entry.during);
        case Suppressed =>
          entry := entry.(ready := entry.ready + entry.during);
        case Copied(stillReady) =>
          entry := entry.(ready := entry.ready + entry.during);
          if !entry.interest.mode.edge {
            entry := entry.(ready := entry.ready + Deliverable(stillReady, entry.interest.mask));
          }
          if entry.interest.mode.oneShot {
            entry := entry.(enabled := false);
          }
      }
      entry := entry.(during := {});
      if entry.enabled && entry.ready != {} && !entry.queued {
        var pushed := ready.Push(token);
        if pushed.Err? {
          assert false;
        }
        PlayOne(queueSteps, Pushed(token));
        queueSteps := queueSteps + [Pushed(token)];
        entry := entry.(queued := true);
      }
      log := log + [FinishEvent(delivery, before, outcome)];
      entries := entries[token.slot := Some(entry)];
      return Ok(());
    }

    /** A one-shot interest is armed until a delivery is copied out; any other is armed for ever. */
    ghost predicate Armed(token: EpollToken)
      requires Live(id, entries, token)
      reads this
    {
      entries[token.slot].value.interest.mode.oneShot ==>
        forall i | 0 <= i < |log| && log[i].Finished? && log[i].token == token :: !log[i].copied
    }

    lemma ArmedIsEnabled(token: EpollToken)
      requires Valid() && Live(id, entries, token)
      ensures entries[token.slot].value.enabled <==> Armed(token)
    {
      assert EntryOk(token, entries[token.slot].value, ready.Contents(), log, flights);
    }

    /** The bit is ready, raced a copyout, or is in the snapshot being copied out. */
    ghost predicate Keeps(e: Entry, bit: nat)
      reads this
    {
      bit in e.ready || bit in e.during || (e.inDelivery.Some? && e.inDelivery.value in flights && bit in flights[e.inDelivery.value].events)
    }

    /** No lost wakeup: a bit notified to an armed interest that asks for it, and not consumed by a
        delivery that began later, is still held. Errors, hangups and invalid descriptors (bits 3, 4
        and 5) need not be asked for. */
    lemma NoLostWakeup(token: EpollToken, i: nat, bit: nat)
      requires Valid() && Live(id, entries, token) && Armed(token)
      requires i < |log| && log[i].Notified? && log[i].token == token && !ConsumedAfter(log, token, i)
      requires bit in log[i].mask && (bit in entries[token.slot].value.interest.mask || 3 <= bit <= 5)
      ensures Keeps(entries[token.slot].value, bit)
    {
      var e := entries[token.slot].value;
      assert EntryOk(token, e, ready.Contents(), log, flights);
      ArmedIsEnabled(token);
      OwedHolds(log, token, e.interest.mask, i);
    }

    /** What the check after a level-triggered copyout found ready stays held until another delivery is consumed. */
    lemma StillReadyIsHeld(token: EpollToken, i: nat, bit: nat)
      requires Valid() && Live(id, entries, token) && Armed(token)
      requires i < |log| && log[i].Finished? && log[i].token == token && log[i].consumed
      requires forall k | i < k < |log| && log[k].Finished? && log[k].token == token :: !log[k].consumed
      requires bit in log[i].rechecked && (bit in entries[token.slot].value.interest.mask || 3 <= bit <= 5)
      ensures Keeps(entries[token.slot].value, bit)
    {
      var e := entries[token.slot].value;
      assert EntryOk(token, e, ready.Contents(), log, flights);
      ArmedIsEnabled(token);
      RecheckedHolds(log, token, e.interest.mask, i);
    }

    /** First in, first out: since the queue was as after its first `n` steps, every delivery begun has
        brought the token then at position `k` one place nearer the head, unless it was taken or deleted. */
    lemma DeliveryIsFifo(n: nat, k: nat) returns (i: nat)
      requires Valid() && n <= |queueSteps|
      requires k < |PlayAll([], queueSteps[..n])|
      requires
        var q, since := PlayAll([], queueSteps[..n]), queueSteps[n..];
        (forall j | 0 <= j < |since| :: since[j] != Removed(q[k])) && !TakenFromHead(q, since, q[k])
      ensures i + Pops(queueSteps[n..]) <= k
      ensures i < |ready.Contents()| && ready.Contents()[i] == PlayAll([], queueSteps[..n])[k]
    {
      PlayConcat([], queueSteps[..n], queueSteps[n..]);
      assert queueSteps[..n] + queueSteps[n..] == queueSteps;
      i := FifoOverRuns(PlayAll([], queueSteps[..n]), k, queueSteps[n..]);
    }

    /** While nothing is being copied out, an armed interest that holds anything is queued, exactly once. */
    lemma HeldMeansQueuedOnce(token: EpollToken)
      requires Valid() && Live(id, entries, token)
      requires Armed(token) && entries[token.slot].value.inDelivery == None
      ensures (exists bit :: Keeps(entries[token.slot].value, bit)) <==>
              exists k | 0 <= k < |ready.Contents()| :: ready.Contents()[k] == token
      ensures forall j, k | 0 <= j < k < |ready.Contents()| :: ready.Contents()[j] != ready.Contents()[k]
    {
      var e := entries[token.slot].value;
      assert EntryOk(token, e, ready.Contents(), log, flights);
      ArmedIsEnabled(token);
      if e.ready != {} {
        var bit :| bit in e.ready;
        assert Keeps(e, bit);
      }
    }

    /** No invented wakeup: whatever an armed interest holds was asked for, and was notified to its own
        generation or found by the check after one of its copyouts. */
    lemma HeldWasReported(token: EpollToken, bit: nat) returns (i: nat)
      requires Valid() && Live(id, entries, token) && Armed(token)
      requires Keeps(entries[token.slot].value, bit)
      ensures bit in entries[token.slot].value.interest.mask || 3 <= bit <= 5
      ensures i < |log| && log[i].token == token
      ensures (log[i].Notified? && bit in log[i].mask) || (log[i].Finished? && log[i].consumed && bit in log[i].rechecked)
    {
      var e := entries[token.slot].value;
      assert EntryOk(token, e, ready.Contents(), log, flights);
      ArmedIsEnabled(token);
      i := OwedHasSource(log, token, e.interest.mask, bit);
    }
  }
}
