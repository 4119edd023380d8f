/** Watch credits shared by concurrent subscribers (crates/fd/src/subscription.rs).

    Every task runs its own two-phase subscription against one atomic counter.
    A step is one atomic access of one task, or one move of what it owns: a load,
    a compare-and-exchange, a fetch-and-subtract, one source armed or cancelled,
    a field taken or cleared, or one step of a destructor. Runs interleave the
    tasks in any order. */
module WatchAccounts {
  import opened Wrappers

  type SourceId = nat

  /** The fields that a prepared and a published subscription both have. */
  datatype Owner = Owner(registrations: Option<seq<SourceId>>, charge: Option<nat>)

  datatype Task =
    | Idle
    // The counter was read as `seen`; a charge of `maximum` is being attempted.
    | Charging(maximum: nat, seen: nat)
    // The charge is held; storage for the registrations comes next.
    | Charged(maximum: nat)
    | Prepared(owner: Owner, maximum: nat)
    // `commit` took the registrations, then the charge, then cut the charge; `refund` is still in the counter.
    | Taken(owner: Owner, sources: seq<SourceId>)
    | Reducing(owner: Owner, sources: seq<SourceId>, amount: nat)
    | Refunding(owner: Owner, sources: seq<SourceId>, amount: nat, refund: nat)
    // `commit` gives up: it cancels the sources it took, then lets go of the charge it took.
    | Failing(owner: Owner, sources: seq<SourceId>, done: nat, taken: Option<nat>)
    | Subscribed(owner: Owner)
    // `cancel` works through the sources, then clears both fields.
    | Cancelling(owner: Owner, done: nat)
    | Clearing(owner: Owner)
    // A destructor: it cancels whatever registrations are left, then lets go of the charge.
    | Dropping(owner: Owner, done: nat, after: Task)

  datatype State = State(limit: nat, used: nat, tasks: seq<Task>, armed: nat, cancels: seq<SourceId>)

  datatype Step =
    | Load(task: nat, maximum: nat)
    | Refuse(task: nat)
    | Exchange(task: nat)
    | ExchangeFails(task: nat)
    | Build(task: nat)
    | OutOfMemory(task: nat)
    | Arm(task: nat)
    | ArmFails(task: nat)
    | Commit(task: nat)
    | TakeCharge(task: nat)
    | Reduce(task: nat)
    | Refund(task: nat)
    | GiveUp(task: nat)
    | Cancel(task: nat)
    | CancelOne(task: nat)
    | ClearRegistrations(task: nat)
    | ClearCharge(task: nat)
    | Drop(task: nat)
    | DropCharge(task: nat)
    | Return(task: nat)

  /** What the update closure of `try_charge` answers: the next value, when it fits. */
  function Next(seen: nat, maximum: nat, limit: nat): Option<nat> {
    if seen + maximum <= USIZE_MAX && seen + maximum <= limit then Some(seen + maximum) else None
  }

  function Sources(o: Owner): seq<SourceId> {
    if o.registrations.Some? then o.registrations.value else []
  }

  function Amount(charge: Option<nat>): nat {
    if charge.Some? then charge.value else 0
  }

  /** The sources that the task's present loop runs over. */
  function Loop(t: Task): seq<SourceId>
    requires t.Failing? || t.Cancelling? || t.Dropping?
  {
    if t.Failing? then t.sources else Sources(t.owner)
  }

  predicate Looping(t: Task) {
    (t.Failing? || t.Cancelling? || t.Dropping?) && t.done < |Loop(t)|
  }

  predicate LoopOver(t: Task) {
    (t.Failing? || t.Cancelling? || t.Dropping?) && t.done >= |Loop(t)|
  }

  predicate Enabled(s: State, step: Step) {
    && step.task < |s.tasks|
    && var t := s.tasks[step.task];
       match step
       case Load(_, maximum) => t.Idle? && maximum <= USIZE_MAX
       case Refuse(_) => t.Charging? && Next(t.seen, t.maximum, s.limit).None?
       case Exchange(_) => t.Charging? && Next(t.seen, t.maximum, s.limit).Some? && s.used == t.seen
       // The exchange is the weak form: it may fail even when the counter matches.
       case ExchangeFails(_) => t.Charging? && Next(t.seen, t.maximum, s.limit).Some?
       case Build(_) => t.Charged?
       case OutOfMemory(_) => t.Charged?
       case Arm(_) => t.Prepared? && t.owner.registrations.Some? && |Sources(t.owner)| < t.maximum
       case ArmFails(_) => t.Prepared?
       case Commit(_) => t.Prepared? && t.owner.registrations.Some?
       case TakeCharge(_) => t.Taken? && t.owner.charge.Some?
       case Reduce(_) => t.Reducing? && |t.sources| <= t.amount
       case Refund(_) => t.Refunding?
       case GiveUp(_) =>
         || (t.Prepared? && t.owner.registrations.None?)
         || (t.Taken? && t.owner.charge.None?)
         || (t.Reducing? && |t.sources| > t.amount)
         || (t.Failing? && LoopOver(t))
       case Cancel(_) => t.Subscribed?
       case CancelOne(_) => Looping(t)
       case ClearRegistrations(_) => t.Cancelling? && LoopOver(t)
       case ClearCharge(_) => t.Clearing?
       case Drop(_) => t.Prepared? || t.Subscribed?
       case DropCharge(_) => t.Dropping? && LoopOver(t) && t.owner.charge.Some?
       case Return(_) => t.Dropping? && LoopOver(t) && t.owner.charge.None?
  }

  /** `fetch_sub` on a `usize`: it wraps below zero. */
  function FetchSub(used: nat, amount: nat): nat {
    if amount <= used then used - amount else (used - amount) % (USIZE_MAX + 1)
  }

  /** The credits that a step takes out of the counter. */
  function Subtracted(t: Task, step: Step): nat {
    match step
    case OutOfMemory(_) => if t.Charged? then t.maximum else 0
    case Refund(_) => if t.Refunding? then t.refund else 0
    case GiveUp(_) => if t.Failing? then Amount(t.taken) else 0
    case ClearCharge(_) => if t.Clearing? then Amount(t.owner.charge) else 0
    case DropCharge(_) => if t.Dropping? then Amount(t.owner.charge) else 0
    case _ => 0
  }

  /** What becomes of the task. */
  function Moved(s: State, step: Step): Task
    requires Enabled(s, step)
  {
    var t := s.tasks[step.task];
    match step
    case Load(_, maximum) => Charging(maximum, s.used)
    case Refuse(_) => Idle
    case Exchange(_) => Charged(t.maximum)
    case ExchangeFails(_) => Charging(t.maximum, s.used)
    case Build(_) => Prepared(Owner(Some([]), Some(t.maximum)), t.maximum)
    case OutOfMemory(_) => Idle
    case Arm(_) => Prepared(t.owner.(registrations := Some(Sources(t.owner) + [s.armed])), t.maximum)
    case ArmFails(_) => t
    case Commit(_) => Taken(t.owner.(registrations := None), t.owner.registrations.value)
    case TakeCharge(_) => Reducing(t.owner.(charge := None), t.sources, t.owner.charge.value)
    case Reduce(_) => Refunding(t.owner, t.sources, |t.sources|, t.amount - |t.sources|)
    // The subscription is built from what was taken, and the prepared owner is dropped on return.
    case Refund(_) => Dropping(t.owner, 0, Subscribed(Owner(Some(t.sources), Some(t.amount))))
    case GiveUp(_) =>
      if t.Taken? then Failing(t.owner, t.sources, 0, None)
      else if t.Reducing? then Failing(t.owner, t.sources, 0, Some(t.amount))
      else Dropping(t.owner, 0, Idle)
    case Cancel(_) => Cancelling(t.owner, 0)
    case CancelOne(_) =>
      if t.Failing? then Failing(t.owner, t.sources, t.done + 1, t.taken)
      else if t.Cancelling? then Cancelling(t.owner, t.done + 1)
      else Dropping(t.owner, t.done + 1, t.after)
    case ClearRegistrations(_) => Clearing(t.owner.(registrations := None))
    // The subscription itself is dropped when `cancel` returns.
    case ClearCharge(_) => Dropping(t.owner.(charge := None), 0, Idle)
    case Drop(_) => Dropping(t.owner, 0, Idle)
    case DropCharge(_) => Dropping(t.owner.(charge := None), t.done, t.after)
    case Return(_) => t.after
  }

  function Apply(s: State, step: Step): State
    requires Enabled(s, step)
  {
    var t := s.tasks[step.task];
    State(s.limit,
          if step.Exchange? then Next(t.seen, t.maximum, s.limit).value else FetchSub(s.used, Subtracted(t, step)),
          s.tasks[step.task := Moved(s, step)],
          if step.Arm? then s.armed + 1 else s.armed,
          if step.CancelOne? then s.cancels + [Loop(t)[t.done]] else s.cancels)
  }

  // ---------- Conservation of credits ----------

  /** The credits a task has in the counter. */
  function Credit(t: Task): nat {
    match t
    case Charged(maximum) => maximum
    case Prepared(owner, _) => Amount(owner.charge)
    case Taken(owner, _) => Amount(owner.charge)
    case Reducing(owner, _, amount) => Amount(owner.charge) + amount
    case Refunding(owner, _, amount, refund) => Amount(owner.charge) + amount + refund
    case Failing(owner, _, _, taken) => Amount(owner.charge) + Amount(taken)
    case Subscribed(owner) => Amount(owner.charge)
    case Cancelling(owner, _) => Amount(owner.charge)
    case Clearing(owner) => Amount(owner.charge)
    case Dropping(owner, _, after) => Amount(owner.charge) + Credit(after)
    case _ => 0
  }

  function Credits(tasks: seq<Task>): nat {
    if tasks == [] then 0 else Credit(tasks[0]) + Credits(tasks[1..])
  }

  lemma {:induction false} CreditsUpdate(tasks: seq<Task>, i: nat, t: Task)
    requires i < |tasks|
    ensures Credits(tasks[i := t]) == Credits(tasks) - Credit(tasks[i]) + Credit(t)
    ensures Credit(tasks[i]) <= Credits(tasks)
  {
    if i == 0 {
      assert tasks[i := t][1..] == tasks[1..];
    } else {
      assert tasks[i := t][1..] == tasks[1..][i - 1 := t];
      CreditsUpdate(tasks[1..], i - 1, t);
    }
  }

  // ---------- Conservation of sources ----------

  /** What a loop that has dealt with the first `done` sources still has before it. */
  function Rest(ids: seq<SourceId>, done: nat): (r: seq<SourceId>)
    ensures done == 0 ==> r == ids
    ensures done >= |ids| ==> r == []
  {
    if done <= |ids| then ids[done..] else []
  }

  /** The sources a task has armed and not cancelled: every destructor still to run would cancel its own. */
  function Live(t: Task): seq<SourceId> {
    match t
    case Prepared(owner, _) => Sources(owner)
    case Taken(owner, sources) => Sources(owner) + sources
    case Reducing(owner, sources, _) => Sources(owner) + sources
    case Refunding(owner, sources, _, _) => Sources(owner) + sources
    case Failing(owner, sources, done, _) => Rest(sources, done) + Sources(owner)
    case Subscribed(owner) => Sources(owner)
    case Cancelling(owner, done) => Rest(Sources(owner), done)
    case Clearing(owner) => Sources(owner)
    case Dropping(owner, done, after) => Rest(Sources(owner), done) + Live(after)
    case _ => []
  }

  ghost function Times(ids: seq<SourceId>, id: SourceId): nat {
    multiset(ids)[id]
  }

  lemma TimesAppend(ids: seq<SourceId>, last: SourceId, id: SourceId)
    ensures Times(ids + [last], id) == Times(ids, id) + if last == id then 1 else 0
  {
  }

  lemma TimesDrop(ids: seq<SourceId>, k: nat, id: SourceId)
    requires k < |ids|
    ensures Times(ids[k..], id) == Times(ids[k + 1..], id) + if ids[k] == id then 1 else 0
  {
    assert ids[k..] == [ids[k]] + ids[k + 1..];
  }

  ghost function LiveCount(tasks: seq<Task>, id: SourceId): nat {
    if tasks == [] then 0 else Times(Live(tasks[0]), id) + LiveCount(tasks[1..], id)
  }

  lemma {:induction false} LiveCountUpdate(tasks: seq<Task>, i: nat, t: Task, id: SourceId)
    requires i < |tasks|
    ensures LiveCount(tasks[i := t], id) == LiveCount(tasks, id) - Times(Live(tasks[i]), id) + Times(Live(t), id)
    ensures Times(Live(tasks[i]), id) <= LiveCount(tasks, id)
  {
    hide Times, Live;
    if i == 0 {
      assert tasks[i := t][1..] == tasks[1..];
    } else {
      assert tasks[i := t][1..] == tasks[1..][i - 1 := t];
      LiveCountUpdate(tasks[1..], i - 1, t, id);
    }
  }

  /** Every source ever armed is held once or was cancelled once, never both and never twice. */
  ghost predicate SourcesOk(s: State) {
    forall id: SourceId :: LiveCount(s.tasks, id) + Times(s.cancels, id) == if id < s.armed then 1 else 0
  }

  /** What a task owns in each phase; a commit is never on its way to failing. */
  predicate TaskOk(t: Task) {
    match t
    case Prepared(owner, maximum) => owner.registrations.Some? && owner.charge == Some(maximum) && |Sources(owner)| <= maximum
    case Taken(owner, sources) => owner.registrations.None? && owner.charge.Some? && |sources| <= owner.charge.value
    case Reducing(owner, sources, amount) => owner == Owner(None, None) && |sources| <= amount
    case Refunding(owner, sources, amount, _) => owner == Owner(None, None) && |sources| == amount
    case Failing(_, _, _, _) => false
    case Subscribed(owner) => owner.registrations.Some? && owner.charge == Some(|Sources(owner)|)
    case Cancelling(owner, done) => done <= |Sources(owner)|
    case Clearing(owner) => owner.registrations.None?
    case Dropping(owner, done, after) => done <= |Sources(owner)| && (after.Idle? || (after.Subscribed? && TaskOk(after)))
    case _ => true
  }

  ghost predicate Inv(s: State) {
    && s.used == Credits(s.tasks) <= s.limit < USIZE_MAX
    && (forall i | 0 <= i < |s.tasks| :: TaskOk(s.tasks[i]))
    && SourcesOk(s)
  }

  lemma TimesJoin(a: seq<SourceId>, b: seq<SourceId>, id: SourceId)
    ensures Times(a + b, id) == Times(a, id) + Times(b, id)
  {
  }

  /** Moves of ownership, refunds and destructors of emptied owners change no source. */
  lemma OthersMoveNothing(s: State, step: Step)
    requires Enabled(s, step) && TaskOk(s.tasks[step.task]) && !step.Arm? && !step.CancelOne?
    ensures Live(Moved(s, step)) == Live(s.tasks[step.task])
  {
    hide Rest;
    var t := s.tasks[step.task];
    match step {
      case Return(_) => assert [] + Live(t.after) == Live(t.after);
      case Commit(_) => assert [] + Sources(t.owner) == Sources(t.owner);
      case Refund(_) => assert [] + t.sources == t.sources;
      case Drop(_) => assert Sources(t.owner) + [] == Sources(t.owner);
      case ClearCharge(_) => assert Sources(t.owner) + [] == Sources(t.owner);
      case _ =>
    }
  }

  lemma CancelledLive(s: State, step: Step, id: SourceId)
    requires Enabled(s, step) && TaskOk(s.tasks[step.task]) && step.CancelOne?
    ensures Times(Live(Moved(s, step)), id) + (if Loop(s.tasks[step.task])[s.tasks[step.task].done] == id then 1 else 0) ==
            Times(Live(s.tasks[step.task]), id)
  {
    hide Times;
    var t := s.tasks[step.task];
    TimesDrop(Loop(t), t.done, id);
    if t.Dropping? {
      TimesJoin(Loop(t)[t.done..], Live(t.after), id);
      TimesJoin(Loop(t)[t.done + 1..], Live(t.after), id);
    }
  }

  lemma SourceKept(s: State, step: Step, id: SourceId)
    requires Enabled(s, step) && TaskOk(s.tasks[step.task])
    ensures var next := Apply(s, step);
            LiveCount(next.tasks, id) + Times(next.cancels, id) ==
            LiveCount(s.tasks, id) + Times(s.cancels, id) + if step.Arm? && id == s.armed then 1 else 0
  {
    hide Times, LiveCount;
    LiveCountUpdate(s.tasks, step.task, Moved(s, step), id);
    if step.CancelOne? {
      CancelledLive(s, step, id);
      TimesAppend(s.cancels, Loop(s.tasks[step.task])[s.tasks[step.task].done], id);
    } else if step.Arm? {
      TimesAppend(Sources(s.tasks[step.task].owner), s.armed, id);
    } else {
      OthersMoveNothing(s, step);
    }
  }

  lemma SourcesKept(s: State, step: Step)
    requires Enabled(s, step) && TaskOk(s.tasks[step.task]) && SourcesOk(s)
    ensures SourcesOk(Apply(s, step))
  {
    hide Times, LiveCount;
    forall id: SourceId
      ensures LiveCount(Apply(s, step).tasks, id) + Times(Apply(s, step).cancels, id) == if id < Apply(s, step).armed then 1 else 0
    {
      SourceKept(s, step, id);
    }
  }

  lemma MovedOk(s: State, step: Step)
    requires Enabled(s, step) && TaskOk(s.tasks[step.task])
    ensures TaskOk(Moved(s, step))
    ensures Subtracted(s.tasks[step.task], step) <= Credit(s.tasks[step.task])
    ensures step.Exchange? ==> Subtracted(s.tasks[step.task], step) == 0
    ensures !step.Exchange? ==> Credit(Moved(s, step)) + Subtracted(s.tasks[step.task], step) == Credit(s.tasks[step.task])
    ensures step.Exchange? ==> Credit(Moved(s, step)) == Credit(s.tasks[step.task]) + s.tasks[step.task].maximum
  {
  }

  /** A step takes from the counter no more than it holds. */
  lemma StepInv(s: State, step: Step)
    requires Inv(s) && Enabled(s, step)
    ensures Inv(Apply(s, step))
    ensures Subtracted(s.tasks[step.task], step) <= s.used
  {
    hide SourcesOk, Moved, TaskOk, Credit, Subtracted;
    CreditsUpdate(s.tasks, step.task, Moved(s, step));
    MovedOk(s, step);
    SourcesKept(s, step);
  }

  // ---------- Runs ----------

  ghost predicate IsStep(s: State, step: Step, next: State) {
    Enabled(s, step) && next == Apply(s, step)
  }

  ghost predicate IsRun(states: seq<State>, steps: seq<Step>) {
    && |states| == |steps| + 1
    && states[0].used == 0 && states[0].armed == 0 && states[0].cancels == [] && states[0].limit < USIZE_MAX
    && (forall i | 0 <= i < |states[0].tasks| :: states[0].tasks[i].Idle?)
    && forall i {:trigger steps[i]} | 0 <= i < |steps| :: IsStep(states[i], steps[i], states[i + 1])
  }

  predicate AllIdle(tasks: seq<Task>) {
    forall i | 0 <= i < |tasks| :: tasks[i].Idle?
  }

  lemma {:induction false} IdleHoldsNothing(tasks: seq<Task>)
    requires AllIdle(tasks)
    ensures Credits(tasks) == 0
    ensures forall id: SourceId :: LiveCount(tasks, id) == 0
  {
    if tasks != [] {
      IdleHoldsNothing(tasks[1..]);
    }
  }

  /** In every reachable state the counter is exactly the credits outstanding, within the limit. */
  lemma {:induction false} CounterIsExact(states: seq<State>, steps: seq<Step>, j: nat)
    requires IsRun(states, steps) && j < |states|
    ensures Inv(states[j]) && states[j].limit == states[0].limit && |states[j].tasks| == |states[0].tasks|
  {
    hide Inv, Apply;
    if j == 0 {
      StartInv(states[0]);
    } else {
      CounterIsExact(states, steps, j - 1);
      assert IsStep(states[j - 1], steps[j - 1], states[j]);
      StepInv(states[j - 1], steps[j - 1]);
      SameShape(states[j - 1], steps[j - 1]);
    }
  }

  lemma StartInv(s: State)
    requires s.used == 0 && s.armed == 0 && s.cancels == [] && s.limit < USIZE_MAX && AllIdle(s.tasks)
    ensures Inv(s)
  {
    IdleHoldsNothing(s.tasks);
  }

  lemma SameShape(s: State, step: Step)
    requires Enabled(s, step)
    ensures Apply(s, step).limit == s.limit && |Apply(s, step).tasks| == |s.tasks|
  {
  }

  /** Publishing a subscription never fails: whatever `commit` takes is there, and the sources fit the charge. */
  lemma CommitSucceeds(states: seq<State>, steps: seq<Step>, j: nat)
    requires IsRun(states, steps) && j < |steps|
    ensures !steps[j].GiveUp?
  {
    CounterIsExact(states, steps, j);
    assert IsStep(states[j], steps[j], states[j + 1]);
    assert TaskOk(states[j].tasks[steps[j].task]);
  }

  /** The destructor that runs after a commit or a cancel finds nothing left to cancel or to give back. */
  lemma HuskIsEmpty(states: seq<State>, steps: seq<Step>, j: nat)
    requires IsRun(states, steps) && j < |steps| && (steps[j].Refund? || steps[j].ClearCharge?)
    ensures steps[j].task < |states[j + 1].tasks| && states[j + 1].tasks[steps[j].task].Dropping?
    ensures states[j + 1].tasks[steps[j].task].owner == Owner(None, None)
  {
    CounterIsExact(states, steps, j);
    assert IsStep(states[j], steps[j], states[j + 1]);
    assert TaskOk(states[j].tasks[steps[j].task]);
  }

  /** When every task is done, all credits are back and each armed source was cancelled exactly once. */
  lemma EverythingReturned(states: seq<State>, steps: seq<Step>, j: nat)
    requires IsRun(states, steps) && j < |states| && AllIdle(states[j].tasks)
    ensures states[j].used == 0
    ensures forall id: SourceId :: Times(states[j].cancels, id) == if id < states[j].armed then 1 else 0
  {
    CounterIsExact(states, steps, j);
    IdleHoldsNothing(states[j].tasks);
  }

  /** A source still held by a task has never been cancelled, and no task holds it twice. */
  lemma HeldIsUncancelled(states: seq<State>, steps: seq<Step>, j: nat, i: nat, id: SourceId)
    requires IsRun(states, steps) && j < |states| && i < |states[j].tasks| && id in Live(states[j].tasks[i])
    ensures id < states[j].armed && id !in states[j].cancels && Times(Live(states[j].tasks[i]), id) == 1
  {
    CounterIsExact(states, steps, j);
    var s := states[j];
    LiveCountUpdate(s.tasks, i, Idle, id);
    assert Times(Live(s.tasks[i]), id) >= 1;
    assert LiveCount(s.tasks, id) + Times(s.cancels, id) <= 1;
    assert id in s.cancels ==> Times(s.cancels, id) >= 1;
  }

  /** The value a charge compares against was the counter's at some moment since the charge began. */
  lemma {:induction false} SeenWasReal(states: seq<State>, steps: seq<Step>, j: nat, i: nat) returns (k: nat)
    requires IsRun(states, steps) && j < |states| && i < |states[j].tasks| && states[j].tasks[i].Charging?
    ensures k < j && states[k].used == states[j].tasks[i].seen
    ensures forall m | k < m <= j :: i < |states[m].tasks| && states[m].tasks[i] == states[j].tasks[i]
    ensures k < |steps| && steps[k].task == i && (steps[k].Load? || steps[k].ExchangeFails?)
  {
    CounterIsExact(states, steps, j);
    if j > 0 {
      CounterIsExact(states, steps, j - 1);
      assert IsStep(states[j - 1], steps[j - 1], states[j]);
      assert TaskOk(states[j - 1].tasks[i]);
      if steps[j - 1].task == i {
        k := j - 1;
      } else {
        k := SeenWasReal(states, steps, j - 1, i);
      }
    }
  }

  /** A charge is refused only if at some moment since it began it would have passed the limit. */
  lemma RefusalIsJustified(states: seq<State>, steps: seq<Step>, j: nat) returns (k: nat)
    requires IsRun(states, steps) && j < |steps| && steps[j].Refuse?
    ensures steps[j].task < |states[j].tasks| && states[j].tasks[steps[j].task].Charging?
    ensures k < j && states[k].used + states[j].tasks[steps[j].task].maximum > states[0].limit
    ensures forall m | k < m <= j :: steps[j].task < |states[m].tasks| && states[m].tasks[steps[j].task].Charging?
  {
    assert IsStep(states[j], steps[j], states[j + 1]);
    CounterIsExact(states, steps, j);
    k := SeenWasReal(states, steps, j, steps[j].task);
  }
}
