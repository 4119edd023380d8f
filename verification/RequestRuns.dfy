/** What holds over every run of the request ledger: one terminal owner, one
    end, no reuse of an id, and a way to close from every state. */
module RequestRuns {
  import opened Wrappers
  import opened RequestLedgers

  ghost predicate IsStep(s: Ledger, e: Step, t: Ledger) {
    Enabled(s, e) && t == Apply(s, e)
  }

  /** A run: `run[i]` leads from `states[i]` to the state after it. */
  ghost predicate IsRun(states: seq<Ledger>, run: seq<Step>) {
    && |states| == |run| + 1
    && forall i {:trigger run[i]} | 0 <= i < |run| :: IsStep(states[i], run[i], states[i + 1])
  }

  /** Every state of every run from a sound state is sound. */
  lemma {:induction false} RunKeepsInv(states: seq<Ledger>, run: seq<Step>, k: nat)
    requires IsRun(states, run) && Inv(states[0]) && k <= |run|
    ensures Inv(states[k])
  {
    hide Inv, Enabled, Apply;
    if k > 0 {
      RunKeepsInv(states, run, k - 1);
      assert IsStep(states[k - 1], run[k - 1], states[k]);
      StepInv(states[k - 1], run[k - 1]);
    }
  }

  // ---------- History only grows ----------

  /** `r` is an earlier view of the same request as `t`. */
  predicate Earlier(r: Request, t: Request) {
    && r.entry.descriptor == t.entry.descriptor
    && r.entry.sequence == t.entry.sequence
    && (r.wasIssued ==> t.wasIssued)
    && (r.claim.Some? ==> t.claim == r.claim && t.wasIssued == r.wasIssued)
    && (r.Done().Some? ==> t.Done() == r.Done())
    && r.Stage() <= t.Stage()
  }

  /** What was known of a request in `s` still holds in `t`. */
  ghost predicate Remembered(s: Ledger, t: Ledger, id: RequestId) {
    && (id in s.ended ==> id in t.ended && t.ended[id] == s.ended[id])
    && (id in s.live ==>
          || (id in t.live && Earlier(s.live[id], t.live[id]))
          || (id in t.ended && Earlier(s.live[id], t.ended[id].request)))
  }

  ghost predicate Extends(s: Ledger, t: Ledger) {
    && s.published <= t.published
    && s.consumed <= t.consumed
    && forall id :: Remembered(s, t, id)
  }

  lemma StepExtends(s: Ledger, e: Step)
    requires Inv(s) && Enabled(s, e)
    ensures Extends(s, Apply(s, e))
  {
    hide Inv, Remembered, Enabled, Apply;
    forall id
      ensures Remembered(s, Apply(s, e), id)
    {
      StepRemembers(s, e, id);
    }
    QueueGrows(s, e);
  }

  lemma QueueGrows(s: Ledger, e: Step)
    requires Inv(s) && Enabled(s, e)
    ensures s.published <= Apply(s, e).published && s.consumed <= Apply(s, e).consumed
  {
    hide EndsAgree, LiveAgree, AllPending;
  }

  lemma StepRemembers(s: Ledger, e: Step, id: RequestId)
    requires Inv(s) && Enabled(s, e)
    ensures Remembered(s, Apply(s, e), id)
  {
    hide EndsAgree, LiveAgree, AllPending;
    if id in s.live {
      LiveOne(s, id);
    }
  }

  lemma LiveOne(s: Ledger, id: RequestId)
    requires Inv(s) && id in s.live
    ensures Coherent(s.live[id]) && id !in s.ended
  {
  }

  lemma ExtendsReflexive(s: Ledger)
    ensures Extends(s, s)
  {
  }

  lemma ExtendsTransitive(a: Ledger, b: Ledger, c: Ledger)
    requires Extends(a, b) && Extends(b, c)
    ensures Extends(a, c)
  {
    forall id
      ensures Remembered(a, c, id)
    {
      assert Remembered(a, b, id) && Remembered(b, c, id);
    }
  }

  /** A run never loses a published CQE, a fate or a terminal owner. */
  lemma {:induction false} RunExtends(states: seq<Ledger>, run: seq<Step>, i: nat, j: nat)
    requires IsRun(states, run) && Inv(states[0]) && i <= j <= |run|
    ensures Extends(states[i], states[j])
    decreases j
  {
    hide Extends, Inv, Enabled, Apply;
    if i == j {
      ExtendsReflexive(states[i]);
    } else {
      RunExtends(states, run, i, j - 1);
      RunKeepsInv(states, run, j - 1);
      assert IsStep(states[j - 1], run[j - 1], states[j]);
      StepExtends(states[j - 1], run[j - 1]);
      ExtendsTransitive(states[i], states[j - 1], states[j]);
    }
  }

  // ---------- Exactly once ----------

  predicate Mentions(e: Step, id: RequestId) {
    match e
    case Reserve(k, _, _) => k == id
    case Rollback(k) => k == id
    case Commit(k) => k == id
    case Issue(k) => k == id
    case Claim(k, _) => k == id
    case Finish(k, _, _, _) => k == id
    case Publish(k) => k == id
    case CommitPublication(k) => k == id
    case RollbackPublication(k) => k == id
    case DiscardCompletion(k) => k == id
    case _ => false
  }

  predicate Ends(e: Step, id: RequestId) {
    e == Rollback(id) || e == CommitPublication(id) || e == DiscardCompletion(id)
  }

  /** The state before step `j` remembers what step `i` did. */
  lemma Between(states: seq<Ledger>, run: seq<Step>, i: nat, j: nat, id: RequestId)
    requires IsRun(states, run) && Inv(states[0]) && i < j < |run|
    ensures Inv(states[i]) && IsStep(states[i], run[i], states[i + 1])
    ensures Remembered(states[i + 1], states[j], id)
    ensures Inv(states[j]) && IsStep(states[j], run[j], states[j + 1])
  {
    hide Inv, Enabled, Apply, Remembered;
    RunKeepsInv(states, run, i);
    RunKeepsInv(states, run, j);
    RunExtends(states, run, i + 1, j);
  }

  lemma ClaimedOnce(s: Ledger, id: RequestId, cause: Cause, t: Ledger, again: Cause)
    requires Enabled(s, Claim(id, cause)) && Remembered(Apply(s, Claim(id, cause)), t, id) && Inv(t)
    ensures !Enabled(t, Claim(id, again))
  {
  }

  /** In every run, at most one step wins the terminal transition of a request. */
  lemma OneTerminalOwner(states: seq<Ledger>, run: seq<Step>, i: nat, j: nat)
    requires IsRun(states, run) && Inv(states[0]) && i < j < |run|
    requires run[i].Claim? && run[j].Claim?
    ensures run[i].id != run[j].id
  {
    hide Inv, Enabled, Apply, Remembered;
    if run[i].id == run[j].id {
      Between(states, run, i, j, run[i].id);
      ClaimedOnce(states[i], run[i].id, run[i].cause, states[j], run[j].cause);
    }
  }

  lemma IssuedThenClaimed(s: Ledger, id: RequestId, t: Ledger, cause: Cause)
    requires Inv(s) && Enabled(s, Issue(id)) && Remembered(Apply(s, Issue(id)), t, id)
    requires Inv(t) && Enabled(t, Claim(id, cause))
    ensures id in s.live && (s.live[id].entry.descriptor.operation != PollAdd ==> cause == Completed)
  {
  }

  /** Work handed to execution that is not a poll can only be claimed by its own completion. */
  lemma UncancellableCompletes(states: seq<Ledger>, run: seq<Step>, i: nat, j: nat)
    requires IsRun(states, run) && Inv(states[0]) && i < j < |run|
    requires run[i].Issue? && run[j].Claim? && run[i].id == run[j].id
    ensures run[i].id in states[i].live
    ensures states[i].live[run[i].id].entry.descriptor.operation != PollAdd ==> run[j].cause == Completed
  {
    hide Inv, Enabled, Apply, Remembered;
    Between(states, run, i, j, run[i].id);
    IssuedThenClaimed(states[i], run[i].id, states[j], run[j].cause);
  }

  lemma EndedForGood(s: Ledger, e: Step, id: RequestId, t: Ledger, later: Step)
    requires Enabled(s, e) && Ends(e, id) && Remembered(Apply(s, e), t, id)
    requires Inv(t) && Enabled(t, later)
    ensures !Mentions(later, id)
  {
  }

  /** Once a request has ended, no step of the run names its id again: not a
      second end, not a stale token, not a new admission in the same slot. */
  lemma NothingAfterTheEnd(states: seq<Ledger>, run: seq<Step>, i: nat, j: nat, id: RequestId)
    requires IsRun(states, run) && Inv(states[0]) && i < j < |run|
    requires Ends(run[i], id)
    ensures !Mentions(run[j], id)
  {
    hide Inv, Enabled, Apply, Remembered;
    Between(states, run, i, j, id);
    EndedForGood(states[i], run[i], id, states[j], run[j]);
  }

  /** The CQE of a request is published at most once, where its end says, with its own user data. */
  ghost predicate AtMostOneCqe(s: Ledger, id: RequestId, descriptor: Descriptor) {
    && (id in s.live <==> id !in s.ended)
    && (forall i | 0 <= i < |s.published| && s.published[i].id == id ::
          && id in s.ended && s.ended[id].fate == Published(i)
          && s.published[i].completion.userData == descriptor.userData)
    && (id in s.ended && s.ended[id].fate.Published? ==>
          s.ended[id].fate.index < |s.published| && s.published[s.ended[id].fate.index].id == id)
  }

  lemma AdmittedOnce(s: Ledger, id: RequestId, d: Descriptor, q: nat, t: Ledger)
    requires Enabled(s, Reserve(id, d, q)) && Remembered(Apply(s, Reserve(id, d, q)), t, id) && Inv(t)
    ensures AtMostOneCqe(t, id, d)
  {
  }

  /** The completion recorded for a request, in the table or after its end. */
  function DoneOf(s: Ledger, id: RequestId): Option<Completion> {
    if id in s.live then s.live[id].Done() else if id in s.ended then s.ended[id].request.Done() else None
  }

  /** Only a Finish step gives a request its completion. */
  lemma OnlyFinishCompletes(s: Ledger, e: Step, id: RequestId)
    requires Inv(s) && Enabled(s, e) && DoneOf(Apply(s, e), id).Some?
    ensures DoneOf(s, id).Some? || (e.Finish? && e.id == id)
  {
    hide EndsAgree, LiveAgree, AllPending;
  }

  lemma FinishRecords(s: Ledger, id: RequestId, cause: Cause, result: int, flags: nat)
    requires Enabled(s, Finish(id, cause, result, flags))
    ensures
      var t := Apply(s, Finish(id, cause, result, flags));
      && id in s.live && DoneOf(s, id).None?
      && DoneOf(t, id) == Some(Completion(s.live[id].entry.descriptor.userData, result, flags))
  {
  }

  lemma DoneIsKept(s: Ledger, t: Ledger, id: RequestId)
    requires Remembered(s, t, id) && Inv(s) && Inv(t) && DoneOf(s, id).Some?
    ensures DoneOf(t, id) == DoneOf(s, id)
  {
    hide EndsAgree, LiveAgree, AllPending;
  }

  lemma KnownDescriptor(s: Ledger, id: RequestId, d: Descriptor, q: nat, t: Ledger)
    requires Enabled(s, Reserve(id, d, q)) && Remembered(Apply(s, Reserve(id, d, q)), t, id) && Inv(t)
    ensures id in t.live ==> t.live[id].entry.descriptor == d
    ensures DoneOf(Apply(s, Reserve(id, d, q)), id).None?
  {
  }

  /** Before a request has a completion, some step of the run finished it. */
  lemma {:induction false} DoneWasFinished(states: seq<Ledger>, run: seq<Step>, k: nat, j: nat) returns (i: nat)
    requires IsRun(states, run) && Inv(states[0])
    requires k < j <= |run| && run[k].Reserve? && DoneOf(states[j], run[k].id).Some?
    ensures k < i < j && run[i].Finish? && run[i].id == run[k].id
    decreases j
  {
    hide Inv, Enabled, Apply, DoneOf;
    var id := run[k].id;
    RunKeepsInv(states, run, j - 1);
    RunKeepsInv(states, run, j);
    assert IsStep(states[j - 1], run[j - 1], states[j]);
    OnlyFinishCompletes(states[j - 1], run[j - 1], id);
    if j - 1 == k {
      ExtendsReflexive(states[j]);
      KnownDescriptor(states[k], id, run[k].descriptor, run[k].sequence, states[j]);
      assert false;
    } else if DoneOf(states[j - 1], id).Some? {
      i := DoneWasFinished(states, run, k, j - 1);
    } else {
      i := j - 1;
    }
  }

  /** What was finished is what is published: the CQE of a request carries the user data it was
      admitted with and the result and flags of the one step that finished it. */
  lemma CqeCarriesResult(states: seq<Ledger>, run: seq<Step>, k: nat, n: nat) returns (i: nat)
    requires IsRun(states, run) && Inv(states[0]) && k < |run| && run[k].Reserve?
    requires n < |states[|run|].published| && states[|run|].published[n].id == run[k].id
    ensures k < i < |run| && run[i].Finish? && run[i].id == run[k].id
    ensures states[|run|].published[n] == Cqe(run[k].id, Completion(run[k].descriptor.userData, run[i].result, run[i].flags))
  {
    hide Inv, Enabled, Apply, DoneOf, Remembered;
    RunKeepsInv(states, run, |run|);
    PublishedIsDone(states[|run|], n);
    i := DoneWasFinished(states, run, k, |run|);
    FinishIsFinal(states, run, k, i);
  }

  lemma PublishedIsDone(s: Ledger, n: nat)
    requires Inv(s) && n < |s.published|
    ensures DoneOf(s, s.published[n].id) == Some(s.published[n].completion)
  {
    assert s.published[n].id in s.ended;
  }

  /** Once finished, a request keeps that completion for the rest of the run. */
  lemma FinishIsFinal(states: seq<Ledger>, run: seq<Step>, k: nat, i: nat)
    requires IsRun(states, run) && Inv(states[0]) && k < i < |run|
    requires run[k].Reserve? && run[i].Finish? && run[i].id == run[k].id
    ensures DoneOf(states[|run|], run[k].id) == Some(Completion(run[k].descriptor.userData, run[i].result, run[i].flags))
  {
    hide Inv, Enabled, Apply, DoneOf, Remembered;
    var id := run[k].id;
    Between(states, run, k, i, id);
    KnownDescriptor(states[k], id, run[k].descriptor, run[k].sequence, states[i]);
    FinishRecords(states[i], id, run[i].cause, run[i].result, run[i].flags);
    RunKeepsInv(states, run, i + 1);
    RunKeepsInv(states, run, |run|);
    RunExtends(states, run, i + 1, |run|);
    DoneIsKept(states[i + 1], states[|run|], id);
  }

  /** A request is finished at most once. */
  lemma FinishedOnce(states: seq<Ledger>, run: seq<Step>, i: nat, j: nat)
    requires IsRun(states, run) && Inv(states[0]) && i < j < |run|
    requires run[i].Finish? && run[j].Finish?
    ensures run[i].id != run[j].id
  {
    hide Inv, Enabled, Apply, DoneOf, Remembered;
    if run[i].id == run[j].id {
      Between(states, run, i, j, run[i].id);
      FinishRecords(states[i], run[i].id, run[i].cause, run[i].result, run[i].flags);
      FinishRecords(states[j], run[j].id, run[j].cause, run[j].result, run[j].flags);
      RunKeepsInv(states, run, i + 1);
      DoneIsKept(states[i + 1], states[j], run[i].id);
    }
  }

  lemma CommittedStage(s: Ledger, id: RequestId, t: Ledger)
    requires Enabled(s, Commit(id)) && Remembered(Apply(s, Commit(id)), t, id) && Inv(t)
    ensures !Enabled(t, Rollback(id)) && !Enabled(t, Commit(id))
  {
  }

  /** A committed request is never rolled back: it ends with a completion. */
  lemma CommittedIsKept(states: seq<Ledger>, run: seq<Step>, i: nat, j: nat)
    requires IsRun(states, run) && Inv(states[0]) && i < j < |run| && run[i].Commit?
    ensures run[j] != Rollback(run[i].id) && run[j] != Commit(run[i].id)
  {
    hide Inv, Enabled, Apply, Remembered;
    Between(states, run, i, j, run[i].id);
    CommittedStage(states[i], run[i].id, states[j]);
  }

  /** Who may claim the terminal transition: anyone before execution, and after it anyone for a poll
      but only the completion itself for other work. */
  lemma ClaimAllowed(s: Ledger, id: RequestId, cause: Cause)
    requires Inv(s) && id in s.live
    ensures Enabled(s, Claim(id, cause)) <==>
      && s.live[id].claim == None && s.live[id].State() != Reserved
      && (s.live[id].wasIssued ==> s.live[id].entry.descriptor.operation == PollAdd || cause == Completed)
  {
    LiveOne(s, id);
  }

  /** No drop and no duplicate: after its admission a request is in the table or
      has exactly one end, and its CQE appears at most once in what was published. */
  lemma ExactlyOnce(states: seq<Ledger>, run: seq<Step>, k: nat)
    requires IsRun(states, run) && Inv(states[0])
    requires k < |run| && run[k].Reserve?
    ensures AtMostOneCqe(states[|run|], run[k].id, run[k].descriptor)
    ensures forall n, i | 0 <= n < |states[|run|].published| && states[|run|].published[n].id == run[k].id
                          && k < i < |run| && run[i].Finish? && run[i].id == run[k].id ::
              states[|run|].published[n].completion == Completion(run[k].descriptor.userData, run[i].result, run[i].flags)
  {
    hide Inv, Enabled, Apply, Remembered, AtMostOneCqe;
    forall n, i | 0 <= n < |states[|run|].published| && states[|run|].published[n].id == run[k].id
                  && k < i < |run| && run[i].Finish? && run[i].id == run[k].id
      ensures states[|run|].published[n].completion == Completion(run[k].descriptor.userData, run[i].result, run[i].flags)
    {
      hide DoneOf;
      RunKeepsInv(states, run, |run|);
      PublishedIsDone(states[|run|], n);
      FinishIsFinal(states, run, k, i);
    }
    RunKeepsInv(states, run, |run|);
    RunExtends(states, run, k + 1, |run|);
    assert IsStep(states[k], run[k], states[k + 1]);
    AdmittedOnce(states[k], run[k].id, run[k].descriptor, run[k].sequence, states[|run|]);
  }

  /** Room for every completion: a pending CQE can always be published without
      overrunning the queue, whatever userspace has left unread. */
  lemma PublishNeverFindsFullQueue(s: Ledger, id: RequestId)
    requires Inv(s) && id in s.live
    ensures |s.Unread()| < s.cqEntries
  {
  }

  // ---------- Closing ----------

  lemma StepThen(s: Ledger, e: Step, states: seq<Ledger>, run: seq<Step>)
    requires Enabled(s, e) && IsRun(states, run) && states[0] == Apply(s, e)
    ensures IsRun([s] + states, [e] + run)
  {
  }

  lemma RunsConcat(u: seq<Ledger>, first: seq<Step>, v: seq<Ledger>, second: seq<Step>)
    requires IsRun(u, first) && IsRun(v, second) && u[|first|] == v[0]
    ensures IsRun(u[..|first|] + v, first + second)
  {
  }

  /** The next step that brings a request nearer its end. */
  function NextStep(r: Request, id: RequestId): Step {
    match r.State()
    case Reserved => Rollback(id)
    case Prepared => Claim(id, PreparationFailed)
    case Issued(_) => Claim(id, Completed)
    case TerminalClaimed(cause) => Finish(id, cause, 0, 0)
    case CompletionPending(_) => Publish(id)
    case Publishing(_) => CommitPublication(id)
  }

  function StepsLeft(r: Request): nat {
    match r.State()
    case Reserved => 1
    case Prepared => 4
    case Issued(_) => 4
    case TerminalClaimed(_) => 3
    case CompletionPending(_) => 2
    case Publishing(_) => 1
  }

  lemma NextStepEnabled(s: Ledger, id: RequestId)
    requires Inv(s) && s.lifecycle == Closing && id in s.live && (s.inFlight == None || s.inFlight == Some(id))
    ensures Enabled(s, NextStep(s.live[id], id))
    ensures s.live[id].State().Publishing? <==> s.inFlight == Some(id)
  {
  }

  /** The next step of a request is enabled while the ring closes. */
  lemma NextStepWorks(s: Ledger, id: RequestId)
    requires Inv(s) && s.lifecycle == Closing && id in s.live && (s.inFlight == None || s.inFlight == Some(id))
    ensures Enabled(s, NextStep(s.live[id], id))
    ensures
      var t := Apply(s, NextStep(s.live[id], id));
      && Inv(t) && t.lifecycle == Closing && (t.inFlight == None || t.inFlight == Some(id))
      && t.live - {id} == s.live - {id}
      && if id in t.live then StepsLeft(t.live[id]) < StepsLeft(s.live[id]) else t.inFlight == None
  {
    hide Inv;
    NextStepEnabled(s, id);
    StepInv(s, NextStep(s.live[id], id));
  }

  /** One request can always be brought to its end without userspace's help. */
  lemma {:induction false} RetireOne(s: Ledger, id: RequestId) returns (states: seq<Ledger>, run: seq<Step>)
    requires Inv(s) && s.lifecycle == Closing && id in s.live && (s.inFlight == None || s.inFlight == Some(id))
    ensures IsRun(states, run) && states[0] == s
    ensures
      var t := states[|run|];
      Inv(t) && t.lifecycle == Closing && t.inFlight == None && t.live == s.live - {id}
    decreases StepsLeft(s.live[id])
  {
    hide Inv, Enabled, Apply;
    NextStepWorks(s, id);
    var e := NextStep(s.live[id], id);
    var t := Apply(s, e);
    states, run := [t], [];
    if id in t.live {
      states, run := RetireOne(t, id);
    } else {
      assert t.live == t.live - {id};
    }
    StepThen(s, e, states, run);
    states, run := [s] + states, [e] + run;
  }

  /** The phases of closing, last one lowest. */
  function Phase(l: Lifecycle): nat {
    match l case Open => 3 case Closing => 2 case Draining => 1 case Closed => 0
  }

  /** What closing does next when no request needs to be waited for. */
  function CloseStep(s: Ledger, id: RequestId): Step {
    if s.lifecycle == Open then BeginClose
    else if s.lifecycle == Closing then BeginDraining
    else if id in s.live then DiscardCompletion(id)
    else if s.Unread() != [] then DiscardPublished
    else FinishClose
  }

  predicate CanCloseStep(s: Ledger, id: RequestId) {
    && s.lifecycle != Closed && (s.lifecycle == Closing ==> s.live == map[])
    && (s.live != map[] ==> id in s.live)
  }

  lemma CloseStepEnabled(s: Ledger, id: RequestId)
    requires Inv(s) && CanCloseStep(s, id)
    ensures Enabled(s, CloseStep(s, id))
  {
    hide EndsAgree, LiveAgree;
  }

  lemma CloseStepNearer(s: Ledger, id: RequestId)
    requires CanCloseStep(s, id) && Enabled(s, CloseStep(s, id))
    ensures
      var t := Apply(s, CloseStep(s, id));
      || Phase(t.lifecycle) < Phase(s.lifecycle)
      || (t.lifecycle == s.lifecycle && |t.live| < |s.live|)
      || (t.lifecycle == s.lifecycle && |t.live| == |s.live| && |t.Unread()| < |s.Unread()|)
  {
    if s.lifecycle == Draining && id in s.live {
      FewerLive(s.live, id);
    }
  }

  lemma SomeToRetire(s: Ledger) returns (id: RequestId)
    requires Inv(s) && s.live != map[]
    ensures id in s.live && (s.inFlight == None || s.inFlight == Some(id))
  {
    if s.inFlight.Some? {
      id := s.inFlight.value;
    } else {
      id :| id in s.live;
    }
  }

  /** From every reachable state some run closes the ring, whatever userspace leaves unread. */
  lemma {:induction false} CanAlwaysClose(s: Ledger) returns (states: seq<Ledger>, run: seq<Step>)
    requires Inv(s)
    ensures IsRun(states, run) && states[0] == s && states[|run|].lifecycle == Closed
    decreases Phase(s.lifecycle), |s.live|, |s.Unread()|
  {
    hide Inv, Enabled, Apply, CloseStep;
    if s.lifecycle == Closed {
      states, run := [s], [];
    } else if s.lifecycle == Closing && s.live != map[] {
      var id := SomeToRetire(s);
      var firstStates, first := RetireOne(s, id);
      FewerLive(s.live, id);
      states, run := CanAlwaysClose(firstStates[|first|]);
      RunsConcat(firstStates, first, states, run);
      states, run := firstStates[..|first|] + states, first + run;
    } else {
      var id := if s.live != map[] then var k :| k in s.live; k else RequestId(0, 0, 0);
      CloseStepEnabled(s, id);
      CloseStepNearer(s, id);
      var e := CloseStep(s, id);
      StepInv(s, e);
      states, run := CanAlwaysClose(Apply(s, e));
      StepThen(s, e, states, run);
      states, run := [s] + states, [e] + run;
    }
  }
}
