/** The descriptor table: reservation, publication in two steps, generation
    tokens, duplication, fork and transactional close (crates/fd/src/table.rs). */
module FdTables {
  import opened Wrappers

  datatype Phase = Pending | Visible | Aborted

  /** Shared between one table slot and the publication that will make it visible. */
  class PublicationState {
    var phase: Phase

    constructor ()
      ensures phase == Pending
    {
      phase := Pending;
    }
  }

  /** A descriptor: a shared open file description and the close-on-exec flag. */
  datatype Entry = Entry(description: nat, closeOnExec: bool)

  datatype Slot =
    | Vacant
    | Reserved(generation: nat, closeOnExec: bool)
    | Prepared(generation: nat, entry: Entry, state: PublicationState)
    | Occupied(generation: nat, entry: Entry)
  {
    predicate Filled() {
      Prepared? || Occupied?
    }
  }

  datatype Token = Token(table: nat, fd: nat, generation: nat)

  datatype Reservation = Reservation(table: nat, fd: nat, generation: nat)

  datatype Publication = Publication(table: nat, fd: nat, generation: nat, state: PublicationState)
  {
    function Names(): Token {
      Token(table, fd, generation)
    }
  }

  datatype TableError =
    | BadDescriptor | TableFull | Busy | StaleToken | GenerationExhausted
    | InsufficientCloseStorage | Unbounded

  // ---------- What the slots say, and everything that was ever published ----------

  /** `issued` records the description filled in under each token; `gone` the tokens whose slot was emptied. */
  datatype Book = Book(id: nat, slots: seq<Slot>, next: nat, issued: map<Token, nat>, gone: set<Token>)

  ghost predicate Holds(slots: seq<Slot>, t: Token) {
    t.fd < |slots| && slots[t.fd].Filled() && slots[t.fd].generation == t.generation
  }

  ghost predicate GenerationsOk(b: Book) {
    && 1 <= b.next <= U64_MAX
    && (forall i | 0 <= i < |b.slots| && !b.slots[i].Vacant? :: b.slots[i].generation < b.next)
    && (forall i, j | 0 <= i < j < |b.slots| && !b.slots[i].Vacant? && !b.slots[j].Vacant? ::
          b.slots[i].generation != b.slots[j].generation)
  }

  ghost predicate HistoryOk(b: Book) {
    && b.gone <= b.issued.Keys
    && (forall t | t in b.issued ::
          && t.table == b.id && t.generation < b.next
          && (t in b.gone <==> !Holds(b.slots, t))
          && (t !in b.gone ==> b.slots[t.fd].entry.description == b.issued[t]))
    && (forall t, u | t in b.issued && u in b.issued && t.generation == u.generation :: t == u)
    && (forall i | 0 <= i < |b.slots| && b.slots[i].Filled() :: Token(b.id, i, b.slots[i].generation) in b.issued)
    && (forall t, i | t in b.issued && 0 <= i < |b.slots| && b.slots[i].Reserved? :: t.generation != b.slots[i].generation)
  }

  ghost predicate BookOk(b: Book) {
    GenerationsOk(b) && HistoryOk(b)
  }

  /** A token that has been issued and not closed names the only slot of its generation. */
  lemma TokenIsExact(b: Book, t: Token)
    requires BookOk(b) && t.table == b.id
    ensures Holds(b.slots, t) <==> t in b.issued && t !in b.gone
    ensures Holds(b.slots, t) ==> b.slots[t.fd].entry.description == b.issued[t]
  {
  }

  function Reserving(b: Book, fd: nat, flag: bool): Book
    requires fd < |b.slots|
  {
    b.(slots := b.slots[fd := Reserved(b.next, flag)], next := b.next + 1)
  }

  lemma ReservingKeeps(b: Book, fd: nat, flag: bool)
    requires BookOk(b) && fd < |b.slots| && b.slots[fd].Vacant? && b.next < U64_MAX
    ensures BookOk(Reserving(b, fd, flag))
  {
  }

  function Filling(b: Book, fd: nat, s: Slot): Book
    requires fd < |b.slots| && s.Filled()
  {
    b.(slots := b.slots[fd := s], issued := b.issued[Token(b.id, fd, s.generation) := s.entry.description])
  }

  lemma FillingKeeps(b: Book, fd: nat, s: Slot)
    requires BookOk(b) && fd < |b.slots| && b.slots[fd].Reserved? && s.Filled() && s.generation == b.slots[fd].generation
    ensures BookOk(Filling(b, fd, s))
    ensures Token(b.id, fd, s.generation) !in b.issued
  {
    var t := Token(b.id, fd, s.generation);
    assert t !in b.issued;
    var after := Filling(b, fd, s);
    assert GenerationsOk(after);
    assert t !in b.gone;
    forall u | u in after.issued
      ensures u in after.gone <==> !Holds(after.slots, u)
    {
    }
  }

  function Emptying(b: Book, fd: nat): Book
    requires fd < |b.slots|
  {
    b.(slots := b.slots[fd := Vacant],
       gone := b.gone + (if b.slots[fd].Filled() then {Token(b.id, fd, b.slots[fd].generation)} else {}))
  }

  lemma EmptyingKeeps(b: Book, fd: nat)
    requires BookOk(b) && fd < |b.slots|
    ensures BookOk(Emptying(b, fd))
  {
  }

  // ---------- Whole runs ----------

  datatype Move = Reserve(fd: nat, flag: bool) | Fill(fd: nat, slot: Slot) | Empty(fd: nat)

  predicate CanMove(b: Book, m: Move) {
    && m.fd < |b.slots|
    && match m
       case Reserve(fd, _) => b.slots[fd].Vacant? && b.next < U64_MAX
       case Fill(fd, s) => b.slots[fd].Reserved? && s.Filled() && s.generation == b.slots[fd].generation
       case Empty(_) => true
  }

  function Moved(b: Book, m: Move): Book
    requires CanMove(b, m)
  {
    match m
    case Reserve(fd, flag) => Reserving(b, fd, flag)
    case Fill(fd, s) => Filling(b, fd, s)
    case Empty(fd) => Emptying(b, fd)
  }

  ghost predicate IsRun(books: seq<Book>, moves: seq<Move>) {
    && |books| == |moves| + 1
    && forall i {:trigger moves[i]} | 0 <= i < |moves| :: CanMove(books[i], moves[i]) && books[i + 1] == Moved(books[i], moves[i])
  }

  lemma MovedKeeps(b: Book, m: Move)
    requires BookOk(b) && CanMove(b, m)
    ensures BookOk(Moved(b, m))
    ensures forall t | t in b.issued :: t in Moved(b, m).issued && Moved(b, m).issued[t] == b.issued[t]
    ensures b.gone <= Moved(b, m).gone && Moved(b, m).id == b.id
  {
    match m
    case Reserve(fd, flag) => ReservingKeeps(b, fd, flag);
    case Fill(fd, s) => FillingKeeps(b, fd, s);
    case Empty(fd) => EmptyingKeeps(b, fd);
  }

  /** Over any run, a token means the description first published under it, and once closed it never holds again. */
  lemma {:induction false} TokenMeansOneThing(books: seq<Book>, moves: seq<Move>, i: nat, j: nat, t: Token)
    requires IsRun(books, moves) && BookOk(books[0]) && i <= j < |books|
    ensures BookOk(books[i]) && BookOk(books[j])
    ensures t in books[i].issued ==>
      && t in books[j].issued && books[j].issued[t] == books[i].issued[t]
      && (Holds(books[j].slots, t) ==> books[j].slots[t.fd].entry.description == books[i].issued[t])
      && (t in books[i].gone ==> !Holds(books[j].slots, t))
  {
    hide BookOk;
    RunKeeps(books, moves, 0, i);
    RunKeeps(books, moves, i, j);
    if t in books[i].issued {
      HeldUnderToken(books[j], t);
    }
  }

  lemma HeldUnderToken(b: Book, t: Token)
    requires BookOk(b) && t in b.issued
    ensures t in b.gone <==> !Holds(b.slots, t)
    ensures Holds(b.slots, t) ==> b.slots[t.fd].entry.description == b.issued[t]
  {
  }

  lemma {:induction false} RunKeeps(books: seq<Book>, moves: seq<Move>, i: nat, j: nat)
    requires IsRun(books, moves) && i <= j < |books| && BookOk(books[i])
    ensures BookOk(books[j])
    ensures forall t | t in books[i].issued :: t in books[j].issued && books[j].issued[t] == books[i].issued[t]
    ensures books[i].gone <= books[j].gone && books[j].id == books[i].id
    decreases j - i
  {
    hide BookOk, Moved;
    if i < j {
      RunKeeps(books, moves, i, j - 1);
      MovedKeeps(books[j - 1], moves[j - 1]);
    }
  }

  /** A trail of books: what the table calls so far amount to, move by move. */
  ghost predicate Recorded(trail: seq<Book>, moves: seq<Move>, b: Book) {
    IsRun(trail, moves) && BookOk(trail[0]) && trail[|moves|] == b
  }

  lemma RecordedOn(trail: seq<Book>, moves: seq<Move>, b: Book, m: Move)
    requires Recorded(trail, moves, b) && CanMove(b, m)
    ensures Recorded(trail + [Moved(b, m)], moves + [m], Moved(b, m))
  {
    hide BookOk, CanMove, Moved;
    var books, all := trail + [Moved(b, m)], moves + [m];
    forall i {:trigger all[i]} | 0 <= i < |all|
      ensures CanMove(books[i], all[i]) && books[i + 1] == Moved(books[i], all[i])
    {
      assert i < |moves| ==> all[i] == moves[i];
    }
  }

  /** `dup2` on the book: the old descriptor out, a number reserved, the new one in. */
  function Replacing(b: Book, fd: nat, entry: Entry): Book
    requires fd < |b.slots|
  {
    Filling(Reserving(Emptying(b, fd), fd, entry.closeOnExec), fd, Occupied(b.next, entry))
  }

  lemma ReplacingKeeps(b: Book, fd: nat, entry: Entry)
    requires BookOk(b) && fd < |b.slots| && b.next < U64_MAX
    ensures BookOk(Replacing(b, fd, entry))
    ensures Token(b.id, fd, b.next) !in b.issued
  {
    hide BookOk;
    var emptied := Emptying(b, fd);
    EmptyingKeeps(b, fd);
    ReservingKeeps(emptied, fd, entry.closeOnExec);
    FillingKeeps(Reserving(emptied, fd, entry.closeOnExec), fd, Occupied(b.next, entry));
  }

  lemma ReplacingRecorded(trail: seq<Book>, moves: seq<Move>, b: Book, fd: nat, entry: Entry)
    returns (longer: seq<Book>, more: seq<Move>)
    requires Recorded(trail, moves, b) && fd < |b.slots| && b.next < U64_MAX
    ensures Recorded(longer, more, Replacing(b, fd, entry)) && trail <= longer
  {
    hide Recorded;
    var empty, reserve, fill := Empty(fd), Reserve(fd, entry.closeOnExec), Fill(fd, Occupied(b.next, entry));
    var emptied := Moved(b, empty);
    var reserved := Moved(emptied, reserve);
    RecordedOn(trail, moves, b, empty);
    RecordedOn(trail + [emptied], moves + [empty], emptied, reserve);
    RecordedOn(trail + [emptied] + [reserved], moves + [empty] + [reserve], reserved, fill);
    longer := trail + [emptied] + [reserved] + [Moved(reserved, fill)];
    more := moves + [empty] + [reserve] + [fill];
  }

  // ---------- Prepared slots ----------

  ghost predicate StatesOk(slots: seq<Slot>, states: set<PublicationState>) {
    && (forall i | 0 <= i < |slots| && slots[i].Prepared? :: slots[i].state in states)
    && (forall i, j | 0 <= i < j < |slots| && slots[i].Prepared? && slots[j].Prepared? :: slots[i].state != slots[j].state)
  }

  ghost predicate Matches(id: nat, slots: seq<Slot>, p: Publication) {
    && p.table == id && p.fd < |slots|
    && slots[p.fd].Prepared? && slots[p.fd].generation == p.generation && slots[p.fd].state == p.state
  }

  /** A publication still pending owns its slot: no table operation but its own cancellation can take it away. */
  ghost predicate PromisesOk(id: nat, slots: seq<Slot>, promised: set<Publication>, states: set<PublicationState>)
    reads states
  {
    forall p | p in promised :: p.state in states && (p.state.phase == Pending ==> Matches(id, slots, p))
  }

  function VisibleEntry(s: Slot): (r: Option<Entry>)
    reads if s.Prepared? then {s.state} else {}
  {
    match s
    case Occupied(_, entry) => Some(entry)
    case Prepared(_, entry, state) => if state.phase == Visible then Some(entry) else None
    case _ => None
  }

  // ---------- Transactional close ----------

  datatype Selector = InRange(first: nat, last: nat) | OnExec | Everything

  predicate Selected(entry: Option<Entry>, fd: nat, selector: Selector) {
    && entry.Some?
    && match selector
       case InRange(first, last) => first <= fd <= last
       case OnExec => entry.value.closeOnExec
       case Everything => true
  }

  function Picked(view: seq<Option<Entry>>, selector: Selector): seq<Entry> {
    if view == [] then []
    else
      var n := |view| - 1;
      Picked(view[..n], selector) + if Selected(view[n], n, selector) then [view[n].value] else []
  }

  lemma IsSomething(entry: Option<Entry>, fd: nat, selector: Selector)
    requires Selected(entry, fd, selector)
    ensures entry.Some?
  {
  }

  lemma PickedNothing(selector: Selector)
    ensures Picked([], selector) == []
  {
  }

  lemma PickedStep(view: seq<Option<Entry>>, k: nat, selector: Selector)
    requires k < |view|
    ensures Picked(view[..k + 1], selector) ==
            Picked(view[..k], selector) + if Selected(view[k], k, selector) then [view[k].value] else []
  {
    assert view[..k + 1][..k] == view[..k];
  }

  ghost predicate Ascending(s: seq<nat>) {
    forall i, j | 0 <= i < j < |s| :: s[i] < s[j]
  }

  /** The batch lists exactly the selected descriptors, each once, in ascending number. */
  lemma {:induction false} PickedAscending(view: seq<Option<Entry>>, selector: Selector) returns (fds: seq<nat>)
    ensures |fds| == |Picked(view, selector)| <= |view|
    ensures Ascending(fds)
    ensures forall k: nat :: k in fds <==> k < |view| && Selected(view[k], k, selector)
    ensures forall i | 0 <= i < |fds| :: fds[i] < |view| && view[fds[i]] == Some(Picked(view, selector)[i])
  {
    hide Selected, Picked;
    if view == [] {
      PickedNothing(selector);
      return [];
    }
    var n := |view| - 1;
    var front := PickedAscending(view[..n], selector);
    PickedStep(view, n, selector);
    assert view[..n + 1] == view;
    assert forall k | 0 <= k < n :: view[..n][k] == view[k];
    fds := front;
    if Selected(view[n], n, selector) {
      IsSomething(view[n], n, selector);
      fds := front + [n];
      assert forall k: nat :: k in fds <==> k in front || k == n;
    }
    assert forall i | 0 <= i < |front| :: front[i] in front;
  }

  /** Storage reserved for a close before the table is touched. */
  class CloseBatch {
    const limit: nat
    var entries: seq<Entry>

    constructor (limit: nat)
      ensures this.limit == limit && entries == []
    {
      this.limit := limit;
      entries := [];
    }
  }

  class FdTable {
    const id: nat
    var nextGeneration: nat
    var slots: seq<Slot>
    ghost var issued: map<Token, nat>
    ghost var gone: set<Token>
    ghost var promised: set<Publication>
    ghost var states: set<PublicationState>
    /** Every book so far, and the moves between them. */
    ghost var trail: seq<Book>
    ghost var moves: seq<Move>

    ghost function Ledger(): Book
      reads this
    {
      Book(id, slots, nextGeneration, issued, gone)
    }

    ghost predicate Valid()
      reads this, states
    {
      && |slots| <= U32_MAX + 1
      && BookOk(Ledger())
      && Recorded(trail, moves, Ledger())
      && StatesOk(slots, states)
      && PromisesOk(id, slots, promised, states)
    }

    /** What lookups see, descriptor by descriptor. */
    ghost function View(): (v: seq<Option<Entry>>)
      requires StatesOk(slots, states)
      reads this, states
      ensures |v| == |slots|
      ensures forall i | 0 <= i < |v| :: v[i] == VisibleEntry(slots[i])
    {
      seq(|slots|, i requires 0 <= i < |slots| && StatesOk(slots, states) reads this, states => VisibleEntry(slots[i]))
    }

    constructor (id: nat, capacity: nat)
      requires capacity <= U32_MAX + 1
      ensures Valid() && fresh(states)
      ensures this.id == id && nextGeneration == 1 && slots == seq(capacity, _ => Vacant)
      ensures issued == map[] && gone == {} && promised == {} && states == {}
    {
      this.id := id;
      nextGeneration := 1;
      slots := seq(capacity, _ => Vacant);
      issued, gone, promised, states := map[], {}, {}, {};
      trail, moves := [Book(id, seq(capacity, _ => Vacant), 1, map[], {})], [];
    }

    /** Notes the move that has just been made. */
    ghost method Record(b: Book, m: Move)
      requires Recorded(trail, moves, b) && CanMove(b, m) && Ledger() == Moved(b, m)
      modifies this`trail, this`moves
      ensures Recorded(trail, moves, Ledger()) && trail == old(trail) + [Ledger()]
    {
      hide Recorded, CanMove, Moved;
      RecordedOn(trail, moves, b, m);
      trail, moves := trail + [Ledger()], moves + [m];
    }

    /** Whatever calls came since book `i`, a token means what it meant then, and a closed one stays closed. */
    lemma TokenSurvivesCalls(i: nat, t: Token)
      requires Valid() && i < |trail| && t in trail[i].issued
      ensures t in issued && issued[t] == trail[i].issued[t]
      ensures Holds(slots, t) ==> slots[t.fd].entry.description == trail[i].issued[t]
      ensures t in trail[i].gone ==> !Holds(slots, t)
    {
      hide BookOk;
      TokenMeansOneThing(trail, moves, i, |moves|, t);
    }

    static method TryNew(id: nat, capacity: nat) returns (r: Result<FdTable, TableError>)
      ensures r.Err? <==> capacity > U32_MAX + 1
      ensures r.Err? ==> r.error == Unbounded
      ensures r.Ok? ==>
        && fresh(r.value) && r.value.Valid() && r.value.id == id
        && |r.value.slots| == capacity && forall i | 0 <= i < capacity :: r.value.slots[i].Vacant?
    {
      if capacity > U32_MAX + 1 {
        return Err(Unbounded);
      }
      var table := new FdTable(id, capacity);
      return Ok(table);
    }

    /** Replacing a slot that is not pending by one that is not prepared. */
    lemma SwapKeeps(fd: nat, s: Slot)
      requires Valid() && fd < |slots|
      requires slots[fd].Prepared? ==> slots[fd].state.phase != Pending
      requires !s.Prepared?
      ensures StatesOk(slots[fd := s], states)
      ensures PromisesOk(id, slots[fd := s], promised, states)
    {
    }

    /** Preparing a reserved slot adds one promise to those standing. */
    lemma PreparingKeeps(s: Slot, p: Publication)
      requires Valid() && p.fd < |slots| && !slots[p.fd].Prepared?
      requires s.Prepared? && s.state == p.state && p.state !in states
      requires Matches(id, slots[p.fd := s], p)
      ensures StatesOk(slots[p.fd := s], states + {p.state})
      ensures PromisesOk(id, slots[p.fd := s], promised + {p}, states + {p.state})
    {
      hide BookOk, Recorded;
    }

    /** The lowest vacant number of the range, and nothing becomes visible. */
    method Reserve(minimum: nat, limit: nat, flag: bool) returns (r: Result<Reservation, TableError>)
      requires Valid()
      modifies this`slots, this`nextGeneration, this`trail, this`moves
      ensures Valid()
      ensures r.Ok? ==>
        && r.value == Reservation(id, r.value.fd, old(nextGeneration))
        && minimum <= r.value.fd < limit && r.value.fd < old(|slots|) && old(slots)[r.value.fd].Vacant?
        && (forall k | minimum <= k < r.value.fd :: !old(slots)[k].Vacant?)
        && Ledger() == Reserving(old(Ledger()), r.value.fd, flag)
      ensures r.Err? ==> Ledger() == old(Ledger())
      ensures r == Err(TableFull) <==> forall k | minimum <= k < limit && k < |old(slots)| :: !old(slots)[k].Vacant?
      ensures r.Err? && r.error != TableFull ==> r.error == GenerationExhausted && nextGeneration == U64_MAX
      ensures View() == old(View())
      ensures old(trail) <= trail
    {
      hide BookOk, Recorded;
      var lo, hi := if minimum < |slots| then minimum else |slots|, if limit < |slots| then limit else |slots|;
      var fd := lo;
      while fd < hi && !slots[fd].Vacant?
        invariant lo <= fd <= |slots|
        invariant forall k | lo <= k < fd :: !slots[k].Vacant?
      {
        fd := fd + 1;
      }
      if fd >= hi {
        return Err(TableFull);
      }
      assert nextGeneration <= U64_MAX by { assert BookOk(Ledger()); NextBounded(); }
      if nextGeneration + 1 > U64_MAX {
        return Err(GenerationExhausted);
      }
      ReservingKeeps(Ledger(), fd, flag);
      SwapKeeps(fd, Reserved(nextGeneration, flag));
      r := Ok(Reservation(id, fd, nextGeneration));
      slots := slots[fd := Reserved(nextGeneration, flag)];
      nextGeneration := nextGeneration + 1;
      Record(old(Ledger()), Move.Reserve(fd, flag));
    }

    lemma NextBounded()
      requires BookOk(Ledger())
      ensures 1 <= nextGeneration <= U64_MAX
    {
    }

    predicate Reserves(res: Reservation)
      reads this
    {
      && res.table == id && res.fd < |slots|
      && slots[res.fd].Reserved? && slots[res.fd].generation == res.generation
    }

    method CancelReservation(res: Reservation) returns (r: Result<(), TableError>)
      requires Valid()
      modifies this`slots, this`trail, this`moves
      ensures Valid()
      ensures r == if old(Reserves(res)) then Ok(()) else Err(StaleToken)
      ensures slots == if r.Ok? then old(slots)[res.fd := Vacant] else old(slots)
      ensures View() == old(View())
      ensures old(trail) <= trail
    {
      hide BookOk, Recorded;
      if !Reserves(res) {
        return Err(StaleToken);
      }
      EmptyingKeeps(Ledger(), res.fd);
      SwapKeeps(res.fd, Vacant);
      slots := slots[res.fd := Vacant];
      assert Ledger() == Emptying(old(Ledger()), res.fd);
      Record(old(Ledger()), Empty(res.fd));
      return Ok(());
    }

    /** One step from reserved to visible, under the reservation's own generation. */
    method Publish(res: Reservation, description: nat) returns (r: Result<Token, TableError>)
      requires Valid()
      modifies this`slots, this`issued, this`trail, this`moves
      ensures Valid()
      ensures r == if old(Reserves(res)) then Ok(Token(id, res.fd, res.generation)) else Err(StaleToken)
      ensures r.Ok? ==>
        var entry := Entry(description, old(slots)[res.fd].closeOnExec);
        && r.value !in old(issued)
        && Ledger() == Filling(old(Ledger()), res.fd, Occupied(res.generation, entry))
        && View() == old(View())[res.fd := Some(entry)]
      ensures r.Err? ==> Ledger() == old(Ledger())
      ensures old(trail) <= trail
    {
      hide BookOk, Recorded;
      if !Reserves(res) {
        return Err(StaleToken);
      }
      var s := Occupied(res.generation, Entry(description, slots[res.fd].closeOnExec));
      FillingKeeps(Ledger(), res.fd, s);
      SwapKeeps(res.fd, s);
      slots := slots[res.fd := s];
      issued := issued[Token(id, res.fd, res.generation) := description];
      Record(old(Ledger()), Fill(res.fd, s));
      return Ok(Token(id, res.fd, res.generation));
    }

    /** Fills the slot but shows nothing: the returned publication alone decides. */
    method PreparePublication(res: Reservation, description: nat) returns (r: Result<Publication, TableError>)
      requires Valid()
      modifies this`slots, this`issued, this`promised, this`states, this`trail, this`moves
      ensures Valid()
      ensures r.Ok? <==> old(Reserves(res))
      ensures r.Ok? ==>
        && r.value == Publication(id, res.fd, res.generation, r.value.state)
        && fresh(r.value.state) && r.value.state.phase == Pending
        && promised == old(promised) + {r.value} && states == old(states) + {r.value.state}
        && Ledger() == Filling(old(Ledger()), res.fd, Prepared(res.generation, Entry(description, old(slots)[res.fd].closeOnExec), r.value.state))
      ensures r.Err? ==> r.error == StaleToken && Ledger() == old(Ledger()) && promised == old(promised) && states == old(states)
      ensures View() == old(View())
      ensures old(trail) <= trail
    {
      hide BookOk, Recorded, PromisesOk;
      if !Reserves(res) {
        return Err(StaleToken);
      }
      var state := new PublicationState();
      var s := Prepared(res.generation, Entry(description, slots[res.fd].closeOnExec), state);
      FillingKeeps(Ledger(), res.fd, s);
      var p := Publication(id, res.fd, res.generation, state);
      PreparingKeeps(s, p);
      slots := slots[res.fd := s];
      issued := issued[Token(id, res.fd, res.generation) := description];
      promised := promised + {p};
      states := states + {state};
      Record(old(Ledger()), Fill(res.fd, s));
      return Ok(p);
    }

    /** Only the exact pending publication can be withdrawn, and its entry comes back. */
    method CancelPrepared(p: Publication) returns (r: Result<Entry, TableError>)
      requires Valid()
      modifies this`slots, this`gone, this`promised, p.state, this`trail, this`moves
      ensures Valid()
      ensures r.Ok? <==> old(Matches(id, slots, p)) && old(p.state.phase) == Pending
      ensures r.Ok? ==>
        && r.value == old(slots)[p.fd].entry && p.state.phase == Aborted
        && Ledger() == Emptying(old(Ledger()), p.fd) && promised == old(promised) - {p}
      ensures r.Err? ==> r.error == StaleToken && Ledger() == old(Ledger()) && promised == old(promised) && p.state.phase == old(p.state.phase)
      ensures View() == old(View())
      ensures old(trail) <= trail
    {
      hide BookOk, Recorded;
      if p.table != id || p.fd >= |slots| {
        return Err(StaleToken);
      }
      var s := slots[p.fd];
      if !(s.Prepared? && s.generation == p.generation && s.state == p.state && s.state.phase == Pending) {
        return Err(StaleToken);
      }
      EmptyingKeeps(Ledger(), p.fd);
      gone := gone + {p.Names()};
      slots := slots[p.fd := Vacant];
      promised := promised - {p};
      p.state.phase := Aborted;
      Record(old(Ledger()), Empty(p.fd));
      return Ok(s.entry);
    }

    method Get(fd: nat) returns (r: Result<Entry, TableError>)
      requires Valid()
      ensures r == if fd < |slots| && View()[fd].Some? then Ok(View()[fd].value) else Err(BadDescriptor)
    {
      if fd < |slots| {
        var entry := VisibleEntry(slots[fd]);
        if entry.Some? {
          return Ok(entry.value);
        }
      }
      return Err(BadDescriptor);
    }

    method TokenFor(fd: nat) returns (r: Result<Token, TableError>)
      requires Valid()
      ensures r.Ok? <==> fd < |slots| && View()[fd].Some?
      ensures r.Ok? ==> r.value.fd == fd && Resolves(r.value)
      ensures r.Err? ==> r.error == BadDescriptor
    {
      if fd < |slots| && VisibleEntry(slots[fd]).Some? {
        r := Ok(Token(id, fd, slots[fd].generation));
        TokenIsExact(Ledger(), r.value);
        return;
      }
      return Err(BadDescriptor);
    }

    /** The token was issued here, has not been closed, and its entry is visible. */
    ghost predicate Resolves(t: Token)
      requires StatesOk(slots, states)
      reads this, states
    {
      t in issued && t !in gone && t.fd < |slots| && View()[t.fd].Some?
    }

    /** A token reaches the description published under it, or nothing at all. */
    method GetToken(t: Token) returns (r: Result<Entry, TableError>)
      requires Valid()
      ensures r.Ok? <==> Resolves(t)
      ensures r.Ok? ==> View()[t.fd] == Some(r.value) && r.value.description == issued[t]
      ensures r.Err? ==> r.error == StaleToken
    {
      if t.table != id || t.fd >= |slots| {
        return Err(StaleToken);
      }
      TokenIsExact(Ledger(), t);
      var entry := VisibleEntry(slots[t.fd]);
      if entry.None? || slots[t.fd].generation != t.generation {
        return Err(StaleToken);
      }
      return Ok(entry.value);
    }

    method Close(fd: nat) returns (r: Result<Entry, TableError>)
      requires Valid()
      modifies this`slots, this`gone, this`trail, this`moves
      ensures Valid()
      ensures r == if fd < old(|slots|) && old(View())[fd].Some? then Ok(old(View())[fd].value) else Err(BadDescriptor)
      ensures r.Ok? ==> Ledger() == Emptying(old(Ledger()), fd) && View() == old(View())[fd := None]
      ensures r.Err? ==> Ledger() == old(Ledger())
      ensures old(trail) <= trail
    {
      hide BookOk, Recorded;
      if fd >= |slots| {
        return Err(BadDescriptor);
      }
      var entry := VisibleEntry(slots[fd]);
      if entry.None? {
        return Err(BadDescriptor);
      }
      EmptyingKeeps(Ledger(), fd);
      SwapKeeps(fd, Vacant);
      gone := gone + {Token(id, fd, slots[fd].generation)};
      slots := slots[fd := Vacant];
      Record(old(Ledger()), Empty(fd));
      return Ok(entry.value);
    }

    /** Closes the descriptor the token was issued for, never a later one of the same number. */
    method CloseToken(t: Token) returns (r: Result<Entry, TableError>)
      requires Valid()
      modifies this`slots, this`gone, this`trail, this`moves
      ensures Valid()
      ensures r.Ok? <==> old(Resolves(t))
      ensures r.Ok? ==>
        && r.value.description == issued[t] && t in gone && gone == old(gone) + {t}
        && slots == old(slots)[t.fd := Vacant] && View() == old(View())[t.fd := None]
      ensures r.Err? ==> r.error == StaleToken && Ledger() == old(Ledger())
      ensures old(trail) <= trail
    {
      hide Recorded;
      r := GetToken(t);
      if r.Ok? {
        TokenIsExact(Ledger(), t);
        r := Close(t.fd);
      }
    }

    /** A second descriptor for the same description, at the lowest vacant number. */
    method Duplicate(source: nat, minimum: nat, limit: nat, flag: bool) returns (r: Result<Token, TableError>)
      requires Valid()
      modifies this`slots, this`nextGeneration, this`issued, this`trail, this`moves
      ensures Valid()
      ensures r.Ok? ==>
        && source < old(|slots|) && old(View())[source].Some?
        && minimum <= r.value.fd < limit && r.value.fd < old(|slots|) && old(slots)[r.value.fd].Vacant?
        && (forall k | minimum <= k < r.value.fd :: !old(slots)[k].Vacant?)
        && var entry := Entry(old(View())[source].value.description, flag);
           && r.value == Token(id, r.value.fd, old(nextGeneration)) && r.value !in old(issued) && Resolves(r.value)
           && View() == old(View())[r.value.fd := Some(entry)]
           && Ledger() == Filling(Reserving(old(Ledger()), r.value.fd, flag), r.value.fd, Occupied(old(nextGeneration), entry))
      ensures r.Err? ==> Ledger() == old(Ledger()) && View() == old(View())
      ensures r == Err(BadDescriptor) <==> !(source < old(|slots|) && old(View())[source].Some?)
      ensures r == Err(TableFull) <==>
        && source < old(|slots|) && old(View())[source].Some?
        && forall k | minimum <= k < limit && k < |old(slots)| :: !old(slots)[k].Vacant?
      ensures r.Err? && r.error != BadDescriptor && r.error != TableFull ==> r.error == GenerationExhausted && nextGeneration == U64_MAX
      ensures old(trail) <= trail
    {
      hide BookOk, Recorded;
      var entry := Get(source);
      if entry.Err? {
        return Err(entry.error);
      }
      var res := Reserve(minimum, limit, flag);
      if res.Err? {
        return Err(res.error);
      }
      r := Publish(res.value, entry.value.description);
      TokenIsExact(Ledger(), r.value);
    }

    /** `dup2`: the target's old descriptor comes out as the new one goes in; an unpublished target is never stolen. */
    method DuplicateReplace(source: nat, target: nat, flag: bool) returns (r: Result<(Token, Option<Entry>), TableError>)
      requires Valid()
      modifies this`slots, this`nextGeneration, this`issued, this`gone, this`trail, this`moves
      ensures Valid()
      ensures r.Ok? ==>
        && source < old(|slots|) && old(View())[source].Some? && target < old(|slots|)
        && r.value.0.fd == target && Resolves(r.value.0)
      ensures r.Ok? && source == target ==> r.value.1 == None && Ledger() == old(Ledger())
      ensures r.Ok? && source != target ==>
        && (old(slots)[target].Vacant? || old(View())[target].Some?)
        && r.value.0 !in old(issued) && r.value.1 == old(View())[target]
        && View() == old(View())[target := Some(Entry(old(View())[source].value.description, flag))]
        && Ledger() == Replacing(old(Ledger()), target, Entry(old(View())[source].value.description, flag))
        && slots == old(slots)[target := Occupied(old(nextGeneration), Entry(old(View())[source].value.description, flag))]
      ensures r.Err? ==> Ledger() == old(Ledger())
      ensures old(trail) <= trail
      ensures r == Err(Busy) <==>
        source != target && target < old(|slots|) && !old(slots)[target].Vacant? && old(View())[target].None?
      ensures r == Err(BadDescriptor) <==>
        || (source == target && !(source < old(|slots|) && old(View())[source].Some?))
        || (source != target && target >= old(|slots|))
        || (source != target && target < old(|slots|) && (old(slots)[target].Vacant? || old(View())[target].Some?)
            && !(source < old(|slots|) && old(View())[source].Some?))
      ensures r.Err? && r.error != Busy && r.error != BadDescriptor ==> r.error == GenerationExhausted && nextGeneration == U64_MAX
    {
      hide BookOk, Recorded;
      NextBounded();
      if source == target {
        var token := TokenFor(source);
        return if token.Ok? then Ok((token.value, None)) else Err(token.error);
      }
      if target >= |slots| {
        return Err(BadDescriptor);
      }
      if !slots[target].Vacant? && VisibleEntry(slots[target]).None? {
        return Err(Busy);
      }
      var entry := Get(source);
      if entry.Err? {
        return Err(entry.error);
      }
      if nextGeneration + 1 > U64_MAX {
        return Err(GenerationExhausted);
      }
      var removed := VisibleEntry(slots[target]);
      var token := Replace(target, Entry(entry.value.description, flag));
      return Ok((token, removed));
    }

    /** Puts a new generation into a slot that is vacant or visible. */
    method Replace(fd: nat, entry: Entry) returns (t: Token)
      requires Valid() && fd < |slots| && nextGeneration < U64_MAX
      requires slots[fd].Vacant? || VisibleEntry(slots[fd]).Some?
      modifies this`slots, this`nextGeneration, this`issued, this`gone, this`trail, this`moves
      ensures Valid()
      ensures t == Token(id, fd, old(nextGeneration)) && t !in old(issued) && Resolves(t)
      ensures slots == old(slots)[fd := Occupied(old(nextGeneration), entry)]
      ensures nextGeneration == old(nextGeneration) + 1
      ensures View() == old(View())[fd := Some(entry)]
      ensures Ledger() == Replacing(old(Ledger()), fd, entry)
      ensures old(trail) <= trail
    {
      hide BookOk, Recorded;
      ReplacingKeeps(Ledger(), fd, entry);
      SwapKeeps(fd, Occupied(nextGeneration, entry));
      t := Token(id, fd, nextGeneration);
      trail, moves := ReplacingRecorded(trail, moves, Ledger(), fd, entry);
      gone := Emptying(Ledger(), fd).gone;
      slots := slots[fd := Occupied(nextGeneration, entry)];
      issued := issued[t := entry.description];
      nextGeneration := nextGeneration + 1;
      assert Ledger() == Replacing(old(Ledger()), fd, entry);
      assert Holds(slots, t);
      TokenIsExact(Ledger(), t);
    }

    /** The child sees exactly what the parent sees; nothing unpublished is inherited. */
    method ForkCopy(newId: nat) returns (copy: FdTable)
      requires Valid()
      ensures fresh(copy) && copy.Valid() && copy.id == newId
      ensures copy.View() == View()
      ensures forall i | 0 <= i < |copy.slots| :: copy.slots[i].Vacant? || copy.slots[i].Occupied?
      ensures copy.promised == {} && copy.gone == {}
    {
      hide BookOk;
      copy := new FdTable(newId, |slots|);
      for k := 0 to |slots|
        invariant copy.Valid() && fresh(copy) && copy.id == newId && |copy.slots| == |slots| && copy.states == {}
        invariant copy.nextGeneration <= k + 1
        invariant copy.promised == {} && copy.gone == {}
        invariant forall i | 0 <= i < |copy.slots| ::
          if i < k && VisibleEntry(slots[i]).Some?
          then copy.slots[i].Occupied? && copy.slots[i].entry == VisibleEntry(slots[i]).value
          else copy.slots[i].Vacant?
      {
        var entry := VisibleEntry(slots[k]);
        if entry.Some? {
          var _ := copy.Replace(k, entry.value);
        }
      }
    }

    /** Takes the selected descriptors out, lowest number first. */
    method Sweep(batch: CloseBatch, selector: Selector)
      requires Valid()
      modifies this`slots, this`gone, batch`entries, this`trail, this`moves
      ensures Valid()
      ensures batch.entries == old(batch.entries) + Picked(old(View()), selector)
      ensures |slots| == old(|slots|)
      ensures forall i | 0 <= i < |slots| ::
        slots[i] == if Selected(old(View())[i], i, selector) then Vacant else old(slots)[i]
      ensures old(trail) <= trail
    {
      hide BookOk, Picked, Recorded;
      ghost var view := View();
      assert view[..0] == [];
      PickedNothing(selector);
      for fd := 0 to |slots|
        invariant Valid() && |slots| == |view|
        invariant old(trail) <= trail
        invariant batch.entries == old(batch.entries) + Picked(view[..fd], selector)
        invariant forall i | 0 <= i < |slots| ::
          slots[i] == if i < fd && Selected(view[i], i, selector) then Vacant else old(slots)[i]
      {
        var entry := VisibleEntry(slots[fd]);
        assert entry == view[fd];
        PickedStep(view, fd, selector);
        if Selected(entry, fd, selector) {
          var closed := Close(fd);
          assert closed == Ok(view[fd].value);
          batch.entries := batch.entries + [entry.value];
        }
      }
      assert view[..|slots|] == view;
    }

    method CountMatching(selector: Selector) returns (count: nat)
      requires Valid()
      ensures count == |Picked(View(), selector)|
    {
      hide BookOk, Picked;
      ghost var view := View();
      count := 0;
      PickedNothing(selector);
      assert view[..0] == [];
      for fd := 0 to |slots|
        invariant count == |Picked(view[..fd], selector)|
      {
        PickedStep(view, fd, selector);
        if Selected(VisibleEntry(slots[fd]), fd, selector) {
          count := count + 1;
        }
      }
      assert view[..|slots|] == view;
    }

    /** Counts first, so that a batch without room changes nothing. */
    method DetachMatching(batch: CloseBatch, selector: Selector) returns (r: Result<(), TableError>)
      requires Valid() && |batch.entries| <= batch.limit
      modifies this`slots, this`gone, batch`entries, this`trail, this`moves
      ensures Valid() && |batch.entries| <= batch.limit
      ensures r.Ok? <==> |old(batch.entries)| + |Picked(old(View()), selector)| <= batch.limit
      ensures r.Ok? ==>
        && batch.entries == old(batch.entries) + Picked(old(View()), selector)
        && |slots| == old(|slots|)
        && forall i | 0 <= i < |slots| ::
             slots[i] == if Selected(old(View())[i], i, selector) then Vacant else old(slots)[i]
      ensures r.Err? ==> r.error == InsufficientCloseStorage && Ledger() == old(Ledger()) && batch.entries == old(batch.entries)
      ensures old(trail) <= trail
    {
      hide BookOk, Picked, Recorded;
      var count := CountMatching(selector);
      if count > batch.limit - |batch.entries| {
        return Err(InsufficientCloseStorage);
      }
      Sweep(batch, selector);
      return Ok(());
    }

    method CloseRange(first: nat, last: nat, batch: CloseBatch) returns (r: Result<(), TableError>)
      requires Valid() && |batch.entries| <= batch.limit
      modifies this`slots, this`gone, batch`entries, this`trail, this`moves
      ensures Valid() && |batch.entries| <= batch.limit
      ensures r.Ok? <==>
        first <= last && |old(batch.entries)| + |Picked(old(View()), InRange(first, last))| <= batch.limit
      ensures r.Ok? ==>
        && batch.entries == old(batch.entries) + Picked(old(View()), InRange(first, last))
        && |slots| == old(|slots|)
        && forall i | 0 <= i < |slots| ::
             slots[i] == if first <= i <= last && old(View())[i].Some? then Vacant else old(slots)[i]
      ensures r.Err? ==>
        && Ledger() == old(Ledger()) && batch.entries == old(batch.entries)
        && r.error == if last < first then BadDescriptor else InsufficientCloseStorage
      ensures old(trail) <= trail
    {
      hide Picked, Recorded;
      if last < first {
        return Err(BadDescriptor);
      }
      r := DetachMatching(batch, InRange(first, last));
    }

    /** Exec's close: a batch of table capacity never overflows, whatever the flags became. */
    method CommitCloseOnExec() returns (closed: seq<Entry>, ghost fds: seq<nat>)
      requires Valid()
      modifies this`slots, this`gone, this`trail, this`moves
      ensures Valid() && |closed| <= old(|slots|)
      ensures closed == Picked(old(View()), OnExec)
      ensures |slots| == old(|slots|)
      ensures forall i | 0 <= i < |slots| ::
        slots[i] == if old(View())[i].Some? && old(View())[i].value.closeOnExec then Vacant else old(slots)[i]
      // The flagged descriptors, lowest number first.
      ensures |fds| == |closed| && Ascending(fds)
      ensures forall k: nat :: k in fds <==> k < old(|slots|) && old(View())[k].Some? && old(View())[k].value.closeOnExec
      ensures forall i | 0 <= i < |fds| :: fds[i] < old(|slots|) && old(View())[fds[i]] == Some(closed[i])
      ensures old(trail) <= trail
    {
      var batch := new CloseBatch(|slots|);
      fds := PickedAscending(View(), OnExec);
      Sweep(batch, OnExec);
      closed := batch.entries;
    }
  }

  /** Making a prepared descriptor visible touches its shared state only; the table is not consulted. */
  method CommitPrepared(ghost table: FdTable, p: Publication) returns (t: Token)
    requires table.Valid() && p in table.promised && p.state.phase == Pending
    modifies p.state
    ensures p.state.phase == Visible && t == p.Names()
    ensures table.Valid() && table.Resolves(t)
    ensures old(table.View())[p.fd].None?
    ensures table.View() == old(table.View())[p.fd := Some(table.slots[p.fd].entry)]
    ensures table.slots[p.fd].entry.description == table.issued[t]
  {
    p.state.phase := Visible;
    t := p.Names();
    TokenIsExact(table.Ledger(), t);
  }

  /** A publication dropped uncommitted never becomes visible. */
  method DropPrepared(ghost table: FdTable, p: Publication)
    requires table.Valid() && p in table.promised && p.state.phase == Pending
    modifies p.state
    ensures p.state.phase == Aborted
    ensures table.Valid() && table.View() == old(table.View()) && table.View()[p.fd].None?
  {
    p.state.phase := Aborted;
  }
}
