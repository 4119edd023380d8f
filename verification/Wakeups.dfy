/** The history of one epoll instance and the readiness it still owes its user. */
module Wakeups {
  import opened Wrappers
  import opened ReadyQueues

  /** A readiness or interest mask, as the set of its bit numbers. */
  type Mask = set<nat>

  /** Errors (0x08), hangups (0x10) and invalid descriptors (0x20) are reported whatever was asked for. */
  const UNCONDITIONAL: Mask := {3, 4, 5}

  function Deliverable(ready: Mask, interest: Mask): Mask {
    ready * (interest + UNCONDITIONAL)
  }

  lemma DeliverableIs(ready: Mask, interest: Mask)
    ensures Deliverable(ready, interest) == ready * (interest + {3, 4, 5})
  {
  }

  datatype Event =
    | Notified(token: EpollToken, mask: Mask)
    | Began(token: EpollToken, serial: nat)
    | Finished(token: EpollToken, serial: nat, consumed: bool, copied: bool, rechecked: Mask)

  /** Bits notified for `t` since its delivery `serial` began. */
  function Since(log: seq<Event>, t: EpollToken, serial: nat, interest: Mask): Mask {
    if log == [] then {}
    else
      var last, front := log[|log| - 1], log[..|log| - 1];
      if last == Began(t, serial) then {}
      else if last.Notified? && last.token == t then Since(front, t, serial, interest) + Deliverable(last.mask, interest)
      else Since(front, t, serial, interest)
  }

  /** Bits notified for `t` that no delivery begun after them has consumed, and bits that the
      recheck after the last consumed delivery found still ready. */
  function Owed(log: seq<Event>, t: EpollToken, interest: Mask): Mask {
    if log == [] then {}
    else
      var last, front := log[|log| - 1], log[..|log| - 1];
      if last.token != t then Owed(front, t, interest)
      else match last
        case Notified(_, mask) => Owed(front, t, interest) + Deliverable(mask, interest)
        case Began(_, _) => Owed(front, t, interest)
        case Finished(_, serial, consumed, _, rechecked) =>
          if consumed then Since(front, t, serial, interest) + Deliverable(rechecked, interest) else Owed(front, t, interest)
  }

  /** Some delivery of `t` was copied to the user. */
  ghost predicate CopiedIn(log: seq<Event>, t: EpollToken) {
    exists i :: 0 <= i < |log| && log[i].Finished? && log[i].token == t && log[i].copied
  }

  lemma CopiedAfter(log: seq<Event>, e: Event, t: EpollToken)
    ensures CopiedIn(log + [e], t) <==> CopiedIn(log, t) || (e.Finished? && e.token == t && e.copied)
  {
    if CopiedIn(log, t) {
      var i :| 0 <= i < |log| && log[i].Finished? && log[i].token == t && log[i].copied;
      assert (log + [e])[i] == log[i];
    }
    assert (log + [e])[|log|] == e;
  }

  /** Some delivery that began after event `i` was consumed. */
  ghost predicate ConsumedAfter(log: seq<Event>, t: EpollToken, i: nat) {
    exists j, k :: i < j < k < |log| && log[j].Began? && log[j].token == t
      && log[k].Finished? && log[k].token == t
      && log[k].serial == log[j].serial && log[k].consumed
  }

  lemma {:induction false} SinceHolds(log: seq<Event>, t: EpollToken, serial: nat, interest: Mask, i: nat)
    requires i < |log| && log[i].Notified? && log[i].token == t
    requires forall j | i < j < |log| :: log[j] != Began(t, serial)
    ensures Deliverable(log[i].mask, interest) <= Since(log, t, serial, interest)
    decreases |log|
  {
    if i < |log| - 1 {
      SinceHolds(log[..|log| - 1], t, serial, interest, i);
    }
  }

  /** What is owed holds every deliverable bit whose notification was not consumed by a later delivery. */
  lemma {:induction false} OwedHolds(log: seq<Event>, t: EpollToken, interest: Mask, i: nat)
    requires i < |log| && log[i].Notified? && log[i].token == t
    requires !ConsumedAfter(log, t, i)
    ensures Deliverable(log[i].mask, interest) <= Owed(log, t, interest)
    decreases |log|
  {
    var last, front := log[|log| - 1], log[..|log| - 1];
    if i < |log| - 1 {
      assert log == front + [last];
      OwedAfter(front, last, t, interest);
      if last.Finished? && last.token == t && last.consumed {
        forall j | i < j < |front|
          ensures front[j] != Began(t, last.serial)
        {
          assert front[j] == log[j];
        }
        SinceHolds(front, t, last.serial, interest, i);
      } else {
        forall j, k | i < j < k < |front|
          ensures !(front[j].Began? && front[j].token == t && front[k].Finished? && front[k].token == t
                    && front[k].serial == front[j].serial && front[k].consumed)
        {
          assert front[j] == log[j] && front[k] == log[k];
        }
        OwedHolds(front, t, interest, i);
      }
    }
  }

  /** What a recheck found is owed until another delivery is consumed. */
  lemma {:induction false} RecheckedHolds(log: seq<Event>, t: EpollToken, interest: Mask, i: nat)
    requires i < |log| && log[i].Finished? && log[i].token == t && log[i].consumed
    requires forall k | i < k < |log| && log[k].Finished? && log[k].token == t :: !log[k].consumed
    ensures Deliverable(log[i].rechecked, interest) <= Owed(log, t, interest)
    decreases |log|
  {
    var last, front := log[|log| - 1], log[..|log| - 1];
    if i < |log| - 1 {
      assert log == front + [last];
      OwedAfter(front, last, t, interest);
      RecheckedHolds(front, t, interest, i);
    }
  }

  /** A token the log never mentions is owed nothing. */
  lemma {:induction false} SilentOwesNothing(log: seq<Event>, t: EpollToken, interest: Mask)
    requires forall i | 0 <= i < |log| :: log[i].token != t
    ensures Owed(log, t, interest) == {}
    decreases |log|
  {
    if log != [] {
      SilentOwesNothing(log[..|log| - 1], t, interest);
    }
  }

  /** Nothing is owed that was not notified or rechecked: every owed bit has an event that reported it. */
  lemma {:induction false} OwedHasSource(log: seq<Event>, t: EpollToken, interest: Mask, bit: nat) returns (i: nat)
    requires bit in Owed(log, t, interest)
    ensures i < |log| && log[i].token == t && bit in Reported(log[i], interest)
    decreases |log|
  {
    var last, front := log[|log| - 1], log[..|log| - 1];
    assert log == front + [last];
    OwedAfter(front, last, t, interest);
    if last.token == t && bit in Reported(last, interest) {
      i := |log| - 1;
    } else if last.token == t && last.Finished? && last.consumed {
      i := SinceHasSource(front, t, last.serial, interest, bit);
    } else {
      i := OwedHasSource(front, t, interest, bit);
    }
  }

  lemma {:induction false} SinceHasSource(log: seq<Event>, t: EpollToken, serial: nat, interest: Mask, bit: nat) returns (i: nat)
    requires bit in Since(log, t, serial, interest)
    ensures i < |log| && log[i].token == t && bit in Reported(log[i], interest)
    decreases |log|
  {
    var last, front := log[|log| - 1], log[..|log| - 1];
    if last.token == t && last.Notified? && bit in Reported(last, interest) {
      i := |log| - 1;
    } else {
      i := SinceHasSource(front, t, serial, interest, bit);
    }
  }

  /** The deliverable readiness an event reports. */
  function Reported(e: Event, interest: Mask): Mask {
    match e
    case Notified(_, mask) => Deliverable(mask, interest)
    case Began(_, _) => {}
    case Finished(_, _, consumed, _, rechecked) => if consumed then Deliverable(rechecked, interest) else {}
  }

  lemma OwedAfter(log: seq<Event>, e: Event, t: EpollToken, interest: Mask)
    ensures e.token != t ==> Owed(log + [e], t, interest) == Owed(log, t, interest)
    ensures e.token == t && e.Notified? ==>
              Owed(log + [e], t, interest) == Owed(log, t, interest) + Deliverable(e.mask, interest)
    ensures e.token == t && e.Began? ==> Owed(log + [e], t, interest) == Owed(log, t, interest)
    ensures e.token == t && e.Finished? ==>
              Owed(log + [e], t, interest) ==
              if e.consumed then Since(log, t, e.serial, interest) + Deliverable(e.rechecked, interest) else Owed(log, t, interest)
  {
  }

  // ---------- Order of delivery ----------

  datatype QueueStep = Pushed(t: EpollToken) | Popped | Removed(t: EpollToken)

  function Play(q: seq<EpollToken>, step: QueueStep): seq<EpollToken> {
    match step
    case Pushed(t) => q + [t]
    case Popped => if q == [] then [] else q[1..]
    case Removed(t) => Without(q, t)
  }

  function PlayAll(q: seq<EpollToken>, steps: seq<QueueStep>): seq<EpollToken>
    decreases |steps|
  {
    if steps == [] then q else PlayAll(Play(q, steps[0]), steps[1..])
  }

  lemma {:induction false} PlayConcat(q: seq<EpollToken>, first: seq<QueueStep>, second: seq<QueueStep>)
    ensures PlayAll(q, first + second) == PlayAll(PlayAll(q, first), second)
    decreases |first|
  {
    if first == [] {
      assert first + second == second;
    } else {
      assert (first + second)[1..] == first[1..] + second;
      PlayConcat(Play(q, first[0]), first[1..], second);
    }
  }

  lemma PlayOne(steps: seq<QueueStep>, step: QueueStep)
    ensures PlayAll([], steps + [step]) == Play(PlayAll([], steps), step)
  {
    PlayConcat([], steps, [step]);
    assert [step][1..] == [];
  }

  function Pops(steps: seq<QueueStep>): nat {
    if steps == [] then 0 else (if steps[0] == Popped then 1 else 0) + Pops(steps[1..])
  }

  lemma {:induction false} WithoutPosition(q: seq<EpollToken>, t: EpollToken, k: nat) returns (i: nat)
    requires k < |q| && q[k] != t
    ensures i <= k && i < |Without(q, t)| && Without(q, t)[i] == q[k]
    decreases |q|
  {
    if k < |q| - 1 {
      i := WithoutPosition(q[..|q| - 1], t, k);
    } else {
      WithoutShrinks(q[..|q| - 1], t);
      i := |Without(q, t)| - 1;
    }
  }

  lemma {:induction false} WithoutShrinks(q: seq<EpollToken>, t: EpollToken)
    ensures |Without(q, t)| <= |q|
    decreases |q|
  {
    if q != [] {
      WithoutShrinks(q[..|q| - 1], t);
    }
  }

  /** Some step took `t` from the head. */
  predicate TakenFromHead(q: seq<EpollToken>, steps: seq<QueueStep>, t: EpollToken)
    decreases |steps|
  {
    steps != [] && ((steps[0] == Popped && q != [] && q[0] == t) || TakenFromHead(Play(q, steps[0]), steps[1..], t))
  }

  /** First in, first out over every run: while a token from position `k` is neither removed nor
      taken, `p` head removals have brought it to position `k - p` or nearer. So it is taken
      within `k + 1` head removals, whatever else is queued meanwhile. */
  lemma {:induction false} FifoOverRuns(q: seq<EpollToken>, k: nat, steps: seq<QueueStep>) returns (i: nat)
    requires k < |q|
    requires forall j | 0 <= j < |steps| :: steps[j] != Removed(q[k])
    requires !TakenFromHead(q, steps, q[k])
    ensures i + Pops(steps) <= k
    ensures i < |PlayAll(q, steps)| && PlayAll(q, steps)[i] == q[k]
    decreases |steps|
  {
    if steps == [] {
      i := k;
    } else {
      var next := k;
      match steps[0] {
        case Pushed(_) =>
        case Popped => next := k - 1;
        case Removed(t) => next := WithoutPosition(q, t, k);
      }
      i := FifoOverRuns(Play(q, steps[0]), next, steps[1..]);
    }
  }
}
