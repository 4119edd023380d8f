/** Option and Result values and limits shared by the components, and two
    counting facts about sequences of slot numbers. */
module Wrappers {

  datatype Option<+T> = None | Some(value: T)

  datatype Result<+T, +E> = Ok(value: T) | Err(error: E)

  const U32_MODULUS: nat := 0x1_0000_0000
  const U32_MAX: nat := 0xFFFF_FFFF
  const U64_MAX: nat := 0xFFFF_FFFF_FFFF_FFFF
  const USIZE_MAX: nat := 0xFFFF_FFFF_FFFF_FFFF

  /** The largest completion queue, which also bounds the leases of a resource table. */
  const IORING_MAX_CQ_ENTRIES: nat := 65_536

  ghost predicate Distinct<T>(s: seq<T>) {
    forall i, j | 0 <= i < j < |s| :: s[i] != s[j]
  }

  /** Distinct numbers below `n` are at most `n` many. */
  lemma {:induction false} Pigeonhole(s: seq<nat>, n: nat)
    requires Distinct(s)
    requires forall i | 0 <= i < |s| :: s[i] < n
    ensures |s| <= n
  {
    if s != [] {
      assert s[0] < n;
      if k :| 0 <= k < |s| && s[k] == n - 1 {
        var rest := s[..k] + s[k + 1..];
        assert forall i | 0 <= i < |rest| :: rest[i] == if i < k then s[i] else s[i + 1];
        Pigeonhole(rest, n - 1);
      } else {
        Pigeonhole(s, n - 1);
      }
    }
  }

  /** The lowest empty position, or the length when there is none. */
  function LowestVacant<T>(s: seq<Option<T>>): (k: nat)
    ensures k <= |s|
    ensures k < |s| ==> s[k].None?
    ensures forall i | 0 <= i < k :: s[i].Some?
  {
    if s == [] || s[0].None? then 0 else 1 + LowestVacant(s[1..])
  }

  /** What `iter().position(Option::is_none)` finds. */
  method FirstVacant<T>(s: seq<Option<T>>) returns (r: Option<nat>)
    ensures r == if LowestVacant(s) < |s| then Some(LowestVacant(s)) else None
  {
    for k := 0 to |s|
      invariant forall i | 0 <= i < k :: s[i].Some?
    {
      if s[k].None? {
        return Some(k);
      }
    }
    return None;
  }
}
