/** The fixed circular buffer of ready epoll tokens (crates/fd/src/epoll.rs). */
module ReadyQueues {
  import opened Wrappers
  import opened Bits

  datatype EpollToken = EpollToken(epoll: nat, slot: nat, generation: nat)

  /** A sequence with every `t` taken out. */
  function Without(s: seq<EpollToken>, t: EpollToken): seq<EpollToken> {
    if s == [] then []
    else if s[|s| - 1] == t then Without(s[..|s| - 1], t)
    else Without(s[..|s| - 1], t) + [s[|s| - 1]]
  }

  /** Taking one item out keeps the others, in order, and each comes no later than before. */
  lemma {:induction false} WithoutKeeps(s: seq<EpollToken>, t: EpollToken)
    requires Distinct(s)
    ensures t !in Without(s, t) && |Without(s, t)| <= |s|
    ensures forall x | x != t :: x in Without(s, t) <==> x in s
    ensures Distinct(Without(s, t))
    ensures t !in s ==> Without(s, t) == s
  {
    if s != [] {
      var front, last := s[..|s| - 1], s[|s| - 1];
      assert s == front + [last];
      WithoutKeeps(front, t);
      assert last !in front;
      assert last != t ==> last !in Without(front, t);
    }
  }

  lemma WithoutStep(s: seq<EpollToken>, k: nat, t: EpollToken)
    requires k <= |s|
    ensures k == 0 ==> Without(s[..k], t) == []
    ensures k < |s| ==> Without(s[..k + 1], t) == Without(s[..k], t) + if s[k] == t then [] else [s[k]]
  {
    if k < |s| {
      assert s[..k + 1][..k] == s[..k];
    }
  }

  /** The physical index of logical position `i`. */
  function At(head: nat, i: nat, capacity: nat): nat {
    if head + i < capacity then head + i else head + i - capacity
  }

  lemma AtIsRemainder(head: nat, i: nat, capacity: nat)
    requires head < capacity && i <= capacity
    ensures (head + i) % capacity == At(head, i, capacity) < capacity
  {
    if head + i < capacity {
      RemainderIs(head + i, capacity, 0, head + i);
    } else {
      RemainderIs(head + i, capacity, 1, head + i - capacity);
    }
  }

  class ReadyQueue {
    const items: array<EpollToken>
    var head: nat
    var len: nat

    ghost predicate Valid()
      reads this
    {
      len <= items.Length && if items.Length == 0 then head == 0 else head < items.Length
    }

    /** The queued tokens, oldest first. */
    ghost function Contents(): (s: seq<EpollToken>)
      reads this, items
      requires Valid()
      ensures |s| == len
      ensures forall i | 0 <= i < len :: s[i] == items[At(head, i, items.Length)]
    {
      if head + len <= items.Length then items[head..head + len]
      else items[head..] + items[..head + len - items.Length]
    }

    /** Where logical position `i` is stored. */
    function Index(i: nat): (k: nat)
      reads this
      requires Valid() && items.Length > 0 && i <= items.Length
      ensures k == At(head, i, items.Length) < items.Length
    {
      AtIsRemainder(head, i, items.Length);
      (head + i) % items.Length
    }

    constructor (capacity: nat, filler: EpollToken)
      ensures Valid() && Contents() == [] && items.Length == capacity && fresh(items)
    {
      items := new EpollToken[capacity](_ => filler);
      head, len := 0, 0;
    }

    method Push(token: EpollToken) returns (r: Result<(), ()>)
      requires Valid()
      modifies this`len, items
      ensures Valid()
      ensures r == if old(len) == items.Length then Err(()) else Ok(())
      ensures Contents() == old(Contents()) + if r.Ok? then [token] else []
    {
      if len == items.Length {
        return Err(());
      }
      items[Index(len)] := token;
      len := len + 1;
      return Ok(());
    }

    method Pop() returns (r: Option<EpollToken>)
      requires Valid()
      modifies this`head, this`len
      ensures Valid()
      ensures old(Contents()) == [] ==> r == None && Contents() == []
      ensures old(Contents()) != [] ==> r == Some(old(Contents())[0]) && Contents() == old(Contents())[1..]
    {
      if len == 0 {
        return None;
      }
      var token := items[head];
      head := Index(1);
      len := len - 1;
      return Some(token);
    }

    method Peek() returns (r: Option<EpollToken>)
      requires Valid()
      ensures r == if Contents() == [] then None else Some(Contents()[0])
    {
      return if len != 0 then Some(items[head]) else None;
    }

    /** Compacts the queue in place, dropping `token`. */
    method Remove(token: EpollToken)
      requires Valid()
      modifies this`len, items
      ensures Valid()
      ensures Contents() == Without(old(Contents()), token)
    {
      hide Contents, Index, Without;
      ghost var was := Contents();
      WithoutStep(was, 0, token);
      if len == 0 {
        assert was[..0] == was;
        return;
      }
      var retained := 0;
      for read := 0 to len
        invariant len == old(len) && retained == |Without(was[..read], token)| <= read
        invariant forall i | 0 <= i < retained :: items[At(head, i, items.Length)] == Without(was[..read], token)[i]
        invariant forall i | read <= i < len :: items[At(head, i, items.Length)] == was[i]
      {
        WithoutStep(was, read, token);
        var item := items[Index(read)];
        if item != token {
          items[Index(retained)] := item;
          retained := retained + 1;
        }
      }
      assert was[..len] == was;
      len := retained;
    }
  }
}
