/** The life of io_uring requests as a ledger: what each step of the request
    registry means, without slots, free lists or wrapping counters, and what
    every run of such steps keeps (crates/io-uring/src/request.rs). */
module RequestLedgers {
  import opened Wrappers

  datatype Operation = Nop | Read | Write | PollAdd | AsyncCancel | Rejected(code: nat)

  datatype CancellationMode = Cancellable | Uncancellable

  /** Only a one-shot poll can still be cancelled once it was handed to execution. */
  function ModeOf(operation: Operation): CancellationMode {
    if operation == PollAdd then Cancellable else Uncancellable
  }

  datatype Descriptor = Descriptor(userData: nat, operation: Operation)

  datatype RequestId = RequestId(ring: nat, slot: nat, generation: nat)

  datatype Lifecycle = Open | Closing | Draining | Closed

  datatype Cause = Completed | Cancelled | CloseWon | PreparationFailed

  datatype Completion = Completion(userData: nat, result: int, flags: nat)

  datatype State =
    | Reserved
    | Prepared
    | Issued(mode: CancellationMode)
    | TerminalClaimed(cause: Cause)
    | CompletionPending(completion: Completion)
    | Publishing(completion: Completion)

  /** What the table stores for one request. */
  datatype Entry = Entry(descriptor: Descriptor, sequence: nat, state: State)

  /** A request with its own history: whether it was ever handed to execution,
      and who won its terminal transition. */
  datatype Request = Request(entry: Entry, wasIssued: bool, claim: Option<Cause>)
  {
    function State(): State { entry.state }

    function Moved(state: State): Request { this.(entry := entry.(state := state)) }

    /** The completion the request was finished with. */
    function Done(): Option<Completion> {
      match entry.state
      case CompletionPending(completion) => Some(completion)
      case Publishing(completion) => Some(completion)
      case _ => None
    }

    /** How far the request has come; it never goes back. */
    function Stage(): nat {
      match entry.state
      case Reserved => 0
      case Prepared => 1
      case Issued(_) => 2
      case TerminalClaimed(_) => 3
      case _ => 4
    }
  }

  /** How a request left the table. */
  datatype Fate = Withdrawn | Published(index: nat) | Discarded

  /** A request that left the table, in the last state it had there. */
  datatype Ended = Ended(request: Request, fate: Fate)

  datatype Cqe = Cqe(id: RequestId, completion: Completion)

  datatype Ledger = Ledger(
    cqEntries: nat,
    lifecycle: Lifecycle,
    live: map<RequestId, Request>,
    inFlight: Option<RequestId>,
    published: seq<Cqe>,
    consumed: nat,
    ended: map<RequestId, Ended>)
  {
    /** CQEs userspace has not consumed, oldest first. */
    function Unread(): seq<Cqe> {
      if consumed <= |published| then published[consumed..] else []
    }

    predicate InState(id: RequestId, state: State) {
      id in live && live[id].State() == state
    }

    predicate Known(id: RequestId) {
      id in live || id in ended
    }

    function With(id: RequestId, request: Request): Ledger {
      this.(live := live[id := request])
    }

    function Retired(id: RequestId, fate: Fate): Ledger
      requires id in live
    {
      this.(live := live - {id}, ended := ended[id := Ended(live[id], fate)])
    }
  }

  datatype Step =
    | Reserve(id: RequestId, descriptor: Descriptor, sequence: nat)
    | Rollback(id: RequestId)
    | Commit(id: RequestId)
    | Issue(id: RequestId)
    | Claim(id: RequestId, cause: Cause)
    | Finish(id: RequestId, cause: Cause, result: int, flags: nat)
    | Publish(id: RequestId)
    | CommitPublication(id: RequestId)
    | RollbackPublication(id: RequestId)
    | Consume(count: nat)
    | BeginClose
    | BeginDraining
    | DiscardCompletion(id: RequestId)
    | DiscardPublished
    | FinishClose

  predicate Enabled(s: Ledger, e: Step) {
    match e
    case Reserve(id, _, _) => s.lifecycle == Open && !s.Known(id) && |s.live| + |s.Unread()| < s.cqEntries
    case Rollback(id) => s.InState(id, Reserved)
    case Commit(id) => s.InState(id, Reserved)
    case Issue(id) => s.InState(id, Prepared)
    case Claim(id, cause) =>
      || s.InState(id, Prepared)
      || s.InState(id, Issued(Cancellable))
      || (s.InState(id, Issued(Uncancellable)) && cause == Completed)
    case Finish(id, cause, _, _) => s.InState(id, TerminalClaimed(cause))
    case Publish(id) =>
      (s.lifecycle == Open || s.lifecycle == Closing) && s.inFlight == None && id in s.live && s.live[id].State().CompletionPending?
    case CommitPublication(id) => s.inFlight == Some(id) && id in s.live && s.live[id].State().Publishing?
    case RollbackPublication(id) => s.inFlight == Some(id) && id in s.live && s.live[id].State().Publishing?
    case Consume(count) => s.inFlight == None && count <= |s.Unread()|
    case BeginClose => true
    case BeginDraining =>
      s.lifecycle == Draining || (s.lifecycle == Closing && forall id | id in s.live :: s.live[id].State().CompletionPending?)
    case DiscardCompletion(id) => s.lifecycle == Draining && id in s.live && s.live[id].State().CompletionPending?
    case DiscardPublished => s.lifecycle == Draining && s.inFlight == None
    case FinishClose =>
      s.lifecycle == Closed || (s.lifecycle != Open && s.inFlight == None && s.live == map[] && s.Unread() == [])
  }

  function Apply(s: Ledger, e: Step): Ledger
    requires Enabled(s, e)
  {
    match e
    case Reserve(id, d, q) => s.With(id, Request(Entry(d, q, Reserved), false, None))
    case Rollback(id) => s.Retired(id, Withdrawn)
    case Commit(id) => s.With(id, s.live[id].Moved(Prepared))
    case Issue(id) => s.With(id, s.live[id].Moved(Issued(ModeOf(s.live[id].entry.descriptor.operation))).(wasIssued := true))
    case Claim(id, cause) => s.With(id, s.live[id].Moved(TerminalClaimed(cause)).(claim := Some(cause)))
    case Finish(id, _, result, flags) =>
      s.With(id, s.live[id].Moved(CompletionPending(Completion(s.live[id].entry.descriptor.userData, result, flags))))
    case Publish(id) => s.With(id, s.live[id].Moved(Publishing(s.live[id].State().completion))).(inFlight := Some(id))
    case CommitPublication(id) =>
      s.Retired(id, Published(|s.published|)).(
        inFlight := None, published := s.published + [Cqe(id, s.live[id].State().completion)])
    case RollbackPublication(id) => s.With(id, s.live[id].Moved(CompletionPending(s.live[id].State().completion))).(inFlight := None)
    case Consume(count) => s.(consumed := s.consumed + count)
    case BeginClose => if s.lifecycle == Open then s.(lifecycle := Closing) else s
    case BeginDraining => s.(lifecycle := Draining)
    case DiscardCompletion(id) => s.Retired(id, Discarded)
    case DiscardPublished => s.(consumed := |s.published|)
    case FinishClose => s.(lifecycle := Closed)
  }

  function Initial(cqEntries: nat): Ledger {
    Ledger(cqEntries, Open, map[], None, [], 0, map[])
  }

  // ---------- What every state keeps ----------

  /** A request's state agrees with its own history. */
  predicate Coherent(r: Request) {
    var d := r.entry.descriptor;
    && match r.State() {
      case Reserved => !r.wasIssued && r.claim == None
      case Prepared => !r.wasIssued && r.claim == None
      case Issued(mode) => r.wasIssued && r.claim == None && mode == ModeOf(d.operation)
      case TerminalClaimed(cause) => r.claim == Some(cause)
      case CompletionPending(completion) => r.claim.Some? && completion.userData == d.userData
      case Publishing(completion) => r.claim.Some? && completion.userData == d.userData
    }
    // Issued work that cannot be cancelled ends only with its own completion.
    && (r.wasIssued && r.claim.Some? && d.operation != PollAdd ==> r.claim == Some(Completed))
  }

  /** A request left the table from a state that allows it, and its CQE is where its fate says. */
  predicate EndedWell(e: Ended, id: RequestId, published: seq<Cqe>) {
    && Coherent(e.request)
    && match e.fate {
      case Withdrawn => e.request.State() == Reserved
      case Published(i) => e.request.State().Publishing? && i < |published| && published[i] == Cqe(id, e.request.State().completion)
      case Discarded => e.request.State().CompletionPending?
    }
  }

  /** Ended requests and published CQEs name each other. */
  ghost predicate EndsAgree(ended: map<RequestId, Ended>, published: seq<Cqe>) {
    && (forall id | id in ended :: EndedWell(ended[id], id, published))
    && (forall i | 0 <= i < |published| :: published[i].id in ended && ended[published[i].id].fate == Published(i))
  }

  ghost predicate LiveAgree(live: map<RequestId, Request>, inFlight: Option<RequestId>) {
    && (forall id | id in live :: Coherent(live[id]))
    && (forall id | id in live :: live[id].State().Publishing? <==> inFlight == Some(id))
    && (inFlight.Some? ==> inFlight.value in live)
  }

  ghost predicate AllPending(live: map<RequestId, Request>) {
    forall id | id in live :: live[id].State().CompletionPending?
  }

  ghost predicate Inv(s: Ledger) {
    // Terminal credits: every live request has room for its CQE.
    && s.consumed <= |s.published|
    && |s.live| + |s.Unread()| <= s.cqEntries
    // Every request ever admitted is in the table or has exactly one end.
    && (forall id | id in s.live :: id !in s.ended)
    && LiveAgree(s.live, s.inFlight)
    && EndsAgree(s.ended, s.published)
    && (s.lifecycle == Draining || s.lifecycle == Closed ==> s.inFlight == None && AllPending(s.live))
    && (s.lifecycle == Closed ==> s.live == map[] && s.Unread() == [])
  }

  lemma InitialInv(cqEntries: nat)
    ensures Inv(Initial(cqEntries))
  {
  }

  // ---------- Every step keeps it ----------

  /** A step that changes only the state of one request. */
  lemma MoveKeeps(s: Ledger, id: RequestId, request: Request, inFlight: Option<RequestId>)
    requires Inv(s) && id in s.live && Coherent(request)
    requires s.lifecycle == Draining || s.lifecycle == Closed ==> request.State().CompletionPending? && inFlight == None
    requires request.State().Publishing? <==> inFlight == Some(id)
    requires inFlight == s.inFlight || (s.inFlight == None && inFlight == Some(id)) || (s.inFlight == Some(id) && inFlight == None)
    ensures Inv(s.With(id, request).(inFlight := inFlight))
  {
  }

  lemma FewerLive(live: map<RequestId, Request>, id: RequestId)
    requires id in live
    ensures |live - {id}| == |live| - 1
  {
  }

  /** A step that takes one request out of the table. */
  lemma RetireKeeps(s: Ledger, id: RequestId, fate: Fate)
    requires Inv(s) && id in s.live && !fate.Published? && s.inFlight != Some(id)
    requires fate == Withdrawn ==> s.live[id].State() == Reserved
    requires fate == Discarded ==> s.live[id].State().CompletionPending?
    ensures Inv(s.Retired(id, fate))
  {
    FewerLive(s.live, id);
    assert Coherent(s.live[id]);
  }

  lemma EndsGrow(ended: map<RequestId, Ended>, published: seq<Cqe>, id: RequestId, request: Request)
    requires EndsAgree(ended, published) && id !in ended
    requires Coherent(request) && request.State().Publishing?
    ensures EndsAgree(ended[id := Ended(request, Published(|published|))], published + [Cqe(id, request.State().completion)])
  {
  }

  lemma CommitPublicationKeeps(s: Ledger, id: RequestId)
    requires Inv(s) && Enabled(s, CommitPublication(id))
    ensures Inv(Apply(s, CommitPublication(id)))
  {
    hide EndsAgree, AllPending;
    FewerLive(s.live, id);
    EndsGrow(s.ended, s.published, id, s.live[id]);
    assert |Apply(s, CommitPublication(id)).Unread()| == |s.Unread()| + 1;
  }

  lemma ReserveKeeps(s: Ledger, id: RequestId, d: Descriptor, q: nat)
    requires Inv(s) && Enabled(s, Reserve(id, d, q))
    ensures Inv(Apply(s, Reserve(id, d, q)))
  {
  }

  /** Consuming published CQEs only makes room. */
  lemma ConsumeKeeps(s: Ledger, count: nat)
    requires Inv(s) && count <= |s.Unread()|
    ensures Inv(s.(consumed := s.consumed + count))
  {
  }

  lemma PhaseKeeps(s: Ledger, phase: Lifecycle)
    requires Inv(s)
    requires phase == Draining ==> AllPending(s.live)
    requires phase == Closed ==> s.live == map[] && s.Unread() == []
    ensures Inv(s.(lifecycle := phase))
  {
  }

  /** Every step keeps the invariant. */
  lemma StepInv(s: Ledger, e: Step)
    requires Inv(s) && Enabled(s, e)
    ensures Inv(Apply(s, e))
  {
    hide EndsAgree;
    match e
    case Reserve(id, d, q) => ReserveKeeps(s, id, d, q);
    case Rollback(id) => RetireKeeps(s, id, Withdrawn);
    case DiscardCompletion(id) => RetireKeeps(s, id, Discarded);
    case CommitPublication(id) => CommitPublicationKeeps(s, id);
    case Publish(id) => MoveKeeps(s, id, Apply(s, e).live[id], Some(id));
    case RollbackPublication(id) => MoveKeeps(s, id, Apply(s, e).live[id], None);
    case Consume(count) => ConsumeKeeps(s, count);
    case DiscardPublished => ConsumeKeeps(s, |s.Unread()|);
    case BeginClose => PhaseKeeps(s, Apply(s, e).lifecycle);
    case BeginDraining => PhaseKeeps(s, Draining);
    case FinishClose => PhaseKeeps(s, Closed);
    case _ => MoveKeeps(s, e.id, Apply(s, e).live[e.id], s.inFlight);
  }
}
