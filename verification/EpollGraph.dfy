/** The epoll topology graph: registration, interest publication under explicit
    budgets, and removal (crates/fd/src/graph.rs). */
module EpollGraphs {
  import opened Wrappers
  import opened EpollTopology

  datatype Limits = Limits(
    nodeCapacity: nat,
    edgeCapacity: nat,
    maxParents: nat,
    maxNesting: nat,
    maxWalkSteps: nat)
  {
    /** The largest machine word is refused as an accidental unlimited value. */
    predicate Finite() {
      && nodeCapacity < USIZE_MAX && edgeCapacity < USIZE_MAX && maxParents < USIZE_MAX
      && maxNesting < USIZE_MAX && maxWalkSteps < USIZE_MAX
    }
  }

  datatype EdgeToken = EdgeToken(graph: nat, slot: nat, generation: nat)

  datatype GraphError =
    | Capacity | DuplicateNode | Busy | StaleToken | SelfCycle
    | Cycle | Nesting | ParentLimit | WalkLimit | GenerationExhausted | Unbounded

  // ---------- The work an unbudgeted search would do ----------

  /** Steps of a full search downwards from `n`: one for the visit, one for each
      edge examined, and the search below each edge that leaves `n`. */
  ghost function DownCost(edges: Edges, n: NodeToken, fuel: nat): nat
    decreases fuel, |edges| + 1
  {
    1 + DownCostOver(edges, n, |edges|, fuel)
  }

  ghost function DownCostOver(edges: Edges, n: NodeToken, k: nat, fuel: nat): nat
    requires k <= |edges|
    decreases fuel, k
  {
    if k == 0 then 0
    else
      DownCostOver(edges, n, k - 1, fuel) +
      if edges[k - 1].None? then 0
      else if edges[k - 1].value.parent == n && edges[k - 1].value.child.Some? && fuel > 0
      then 1 + DownCost(edges, edges[k - 1].value.child.value, fuel - 1)
      else 1
  }

  /** Steps of a full search upwards from `n`. */
  ghost function UpCost(edges: Edges, n: NodeToken, fuel: nat): nat
    decreases fuel, |edges| + 1
  {
    1 + UpCostOver(edges, n, |edges|, fuel)
  }

  ghost function UpCostOver(edges: Edges, n: NodeToken, k: nat, fuel: nat): nat
    requires k <= |edges|
    decreases fuel, k
  {
    if k == 0 then 0
    else
      UpCostOver(edges, n, k - 1, fuel) +
      if edges[k - 1].None? then 0
      else if edges[k - 1].value.child == Some(n) && fuel > 0
      then 1 + UpCost(edges, edges[k - 1].value.parent, fuel - 1)
      else 1
  }

  /** Once `fuel` covers the longest walk the cost no longer depends on it: it counts the full search. */
  lemma {:induction false} DownCostIsFull(edges: Edges, n: NodeToken, k: nat, room: nat, fuel: nat)
    requires DownWithin(edges, n, room) && room <= fuel && k <= |edges|
    ensures DownCostOver(edges, n, k, fuel) == DownCostOver(edges, n, k, room)
    decreases room, k
  {
    hide DownWithin;
    if k > 0 {
      DownCostIsFull(edges, n, k - 1, room, fuel);
      if edges[k - 1].Some? && edges[k - 1].value.parent == n && edges[k - 1].value.child.Some? {
        StepDown(edges, n, k - 1, room);
        DownCostIsFull(edges, edges[k - 1].value.child.value, |edges|, room - 1, fuel - 1);
      }
    }
  }

  lemma {:induction false} UpCostIsFull(edges: Edges, n: NodeToken, k: nat, room: nat, fuel: nat)
    requires UpWithin(edges, n, room) && room <= fuel && k <= |edges|
    ensures UpCostOver(edges, n, k, fuel) == UpCostOver(edges, n, k, room)
    decreases room, k
  {
    hide UpWithin;
    if k > 0 {
      UpCostIsFull(edges, n, k - 1, room, fuel);
      if edges[k - 1].Some? && edges[k - 1].value.child == Some(n) {
        StepUp(edges, n, k - 1, room);
        UpCostIsFull(edges, edges[k - 1].value.parent, |edges|, room - 1, fuel - 1);
      }
    }
  }

  lemma {:induction false} DownCostGrows(edges: Edges, n: NodeToken, k: nat, m: nat, fuel: nat)
    requires k <= m <= |edges|
    ensures DownCostOver(edges, n, k, fuel) <= DownCostOver(edges, n, m, fuel)
    decreases m
  {
    if k < m {
      DownCostGrows(edges, n, k, m - 1, fuel);
    }
  }

  lemma {:induction false} UpCostGrows(edges: Edges, n: NodeToken, k: nat, m: nat, fuel: nat)
    requires k <= m <= |edges|
    ensures UpCostOver(edges, n, k, fuel) <= UpCostOver(edges, n, m, fuel)
    decreases m
  {
    if k < m {
      UpCostGrows(edges, n, k, m - 1, fuel);
    }
  }

  ghost predicate FoundBelow(edges: Edges, n: NodeToken, target: NodeToken, k: nat) {
    exists e: nat :: e < k && ReachesVia(edges, n, e, target)
  }

  /** Steps of the search for `target` from `n`, which stops at the first edge that leads there. */
  ghost function FindCost(edges: Edges, n: NodeToken, target: NodeToken, fuel: nat): nat
    decreases fuel, |edges| + 1
  {
    if n == target then 1 else 1 + FindCostOver(edges, n, target, |edges|, fuel)
  }

  ghost function FindCostOver(edges: Edges, n: NodeToken, target: NodeToken, k: nat, fuel: nat): nat
    requires k <= |edges|
    decreases fuel, k
  {
    if k == 0 then 0
    else
      FindCostOver(edges, n, target, k - 1, fuel) +
      if edges[k - 1].None? || FoundBelow(edges, n, target, k - 1) then 0
      else if edges[k - 1].value.parent == n && edges[k - 1].value.child.Some? && fuel > 0
      then 1 + FindCost(edges, edges[k - 1].value.child.value, target, fuel - 1)
      else 1
  }

  lemma {:induction false} FindCostGrows(edges: Edges, n: NodeToken, target: NodeToken, k: nat, m: nat, fuel: nat)
    requires k <= m <= |edges|
    ensures FindCostOver(edges, n, target, k, fuel) <= FindCostOver(edges, n, target, m, fuel)
    ensures FoundBelow(edges, n, target, k) ==> FindCostOver(edges, n, target, k, fuel) == FindCostOver(edges, n, target, m, fuel)
    decreases m
  {
    if k < m {
      FindCostGrows(edges, n, target, k, m - 1, fuel);
    }
  }

  lemma {:induction false} FindCostIsFull(edges: Edges, n: NodeToken, target: NodeToken, k: nat, room: nat, fuel: nat)
    requires DownWithin(edges, n, room) && room <= fuel && k <= |edges|
    ensures FindCostOver(edges, n, target, k, fuel) == FindCostOver(edges, n, target, k, room)
    decreases room, k
  {
    hide DownWithin;
    if k > 0 {
      FindCostIsFull(edges, n, target, k - 1, room, fuel);
      if edges[k - 1].Some? && edges[k - 1].value.parent == n && edges[k - 1].value.child.Some? {
        StepDown(edges, n, k - 1, room);
        FindCostIsFull(edges, edges[k - 1].value.child.value, target, |edges|, room - 1, fuel - 1);
      }
    }
  }

  /** A search that finds nothing is a full search. */
  lemma {:induction false} UnfoundIsFull(edges: Edges, n: NodeToken, target: NodeToken, k: nat, fuel: nat)
    requires !Reachable(edges, n, target) && k <= |edges|
    ensures FindCostOver(edges, n, target, k, fuel) == DownCostOver(edges, n, k, fuel)
    ensures n != target
    decreases fuel, k
  {
    hide Reachable;
    NotThere(edges, n, target);
    if k > 0 {
      UnfoundIsFull(edges, n, target, k - 1, fuel);
      var e := edges[k - 1];
      if e.Some? && e.value.parent == n && e.value.child.Some? && fuel > 0 {
        assert !ReachesVia(edges, n, k - 1, target);
        UnfoundIsFull(edges, e.value.child.value, target, |edges|, fuel - 1);
      }
    }
  }

  lemma NotThere(edges: Edges, n: NodeToken, target: NodeToken)
    requires !Reachable(edges, n, target)
    ensures n != target
    ensures forall e: nat :: !ReachesVia(edges, n, e, target)
  {
    if n == target {
      assert WalkBetween(edges, n, [], target);
    } else {
      ReachableByStep(edges, n, target);
    }
  }

  /** Steps spent by the three walks that accept an interest. */
  ghost function SearchCost(nodeCount: nat, edges: Edges, parent: NodeToken, child: Option<NodeToken>): nat {
    UpCost(edges, parent, nodeCount) +
    if child.Some? then 2 * DownCost(edges, child.value, nodeCount) else 0
  }

  // ---------- What publication must decide ----------

  ghost predicate ParentsWithin(edges: Edges, max: nat) {
    forall c :: |Parents(edges, c)| <= max
  }

  /** What every run of the graph keeps: edges name registered nodes, paths and
      parents stay within their limits, and no epoll is registered twice. */
  ghost predicate Sound(id: nat, limits: Limits, nodes: seq<Option<Node>>, edges: Edges) {
    && LiveEdges(id, nodes, edges)
    && NestingAtMost(edges, limits.maxNesting)
    && ParentsWithin(edges, limits.maxParents)
    && (forall i, j | 0 <= i < j < |nodes| && nodes[i].Some? && nodes[j].Some? ::
          nodes[i].value.epoll != nodes[j].value.epoll)
  }

  /** A sound graph has no cycle. */
  lemma SoundIsAcyclic(id: nat, limits: Limits, nodes: seq<Option<Node>>, edges: Edges)
    requires Sound(id, limits, nodes, edges)
    ensures Acyclic(edges)
  {
    BoundedIsAcyclic(edges, limits.maxNesting);
  }

  /** The answer to a request for the edge `parent -> child`, given in terms of the graph that
      holds it: `None` accepts. The order is the order in which errors win. */
  ghost predicate Decision(id: nat, limits: Limits, nodes: seq<Option<Node>>, edges: Edges, next: nat,
                           parent: NodeToken, child: Option<NodeToken>, answer: Option<GraphError>)
  {
    if !LiveToken(id, nodes, parent) || (child.Some? && !LiveToken(id, nodes, child.value)) then
      answer == Some(StaleToken)
    else if child == Some(parent) then
      answer == Some(SelfCycle)
    else if child.Some? && parent !in Parents(edges, child.value)
            && |Parents(edges, child.value)| >= limits.maxParents then
      answer == Some(ParentLimit)
    else if LowestVacant(edges) == |edges| then
      answer == Some(Capacity)
    else
      var larger := edges[LowestVacant(edges) := Some(Edge(next, parent, child))];
      if !Acyclic(larger) then
        answer == Some(if child.Some? && limits.maxWalkSteps < FindCost(edges, child.value, parent, |nodes|) then WalkLimit else Cycle)
      else if limits.maxWalkSteps < SearchCost(|nodes|, edges, parent, child) then
        answer == Some(WalkLimit)
      else if !NestingAtMost(larger, limits.maxNesting) then
        answer == Some(Nesting)
      else if next == U64_MAX then
        answer == Some(GenerationExhausted)
      else
        answer == None
  }

  lemma ParentsAfterAdding(edges: Edges, slot: nat, e: Edge, c: NodeToken)
    requires slot < |edges| && edges[slot].None?
    ensures Parents(edges[slot := Some(e)], c) ==
            Parents(edges, c) + if e.child == Some(c) then {e.parent} else {}
  {
    var larger := edges[slot := Some(e)];
    forall p | p in Parents(edges, c)
      ensures p in Parents(larger, c)
    {
      var i :| 0 <= i < |edges| && edges[i].Some? && edges[i].value.child == Some(c) && edges[i].value.parent == p;
      assert larger[i] == edges[i];
    }
    if e.child == Some(c) {
      assert larger[slot].value.parent == e.parent;
    }
  }

  /** The class invariant survives an accepted edge. */
  lemma ParentsStayWithin(edges: Edges, slot: nat, e: Edge, max: nat)
    requires slot < |edges| && edges[slot].None? && ParentsWithin(edges, max)
    requires e.child.Some? && e.parent !in Parents(edges, e.child.value) ==> |Parents(edges, e.child.value)| < max
    ensures ParentsWithin(edges[slot := Some(e)], max)
  {
    var larger := edges[slot := Some(e)];
    forall c
      ensures |Parents(larger, c)| <= max
    {
      ParentsAfterAdding(edges, slot, e, c);
      if e.child == Some(c) && e.parent in Parents(edges, c) {
        assert Parents(edges, c) + {e.parent} == Parents(edges, c);
      }
    }
  }

  /** Every limit survives the removal of an edge. */
  lemma RemovalKeepsLimits(edges: Edges, slot: nat, maxNesting: nat, maxParents: nat)
    requires slot < |edges| && edges[slot].Some?
    requires NestingAtMost(edges, maxNesting) && ParentsWithin(edges, maxParents)
    ensures NestingAtMost(edges[slot := None], maxNesting) && ParentsWithin(edges[slot := None], maxParents)
  {
    var smaller := edges[slot := None];
    forall w | IsWalk(smaller, w)
      ensures |w| <= maxNesting
    {
      forall i | 0 <= i < |w|
        ensures w[i] != slot && Present(edges, w[i]) && edges[w[i]] == smaller[w[i]]
      {
        assert Present(smaller, w[i]);
      }
      assert IsWalk(edges, w);
    }
    forall c
      ensures |Parents(smaller, c)| <= maxParents
    {
      var all, fewer := Parents(edges, c), Parents(smaller, c);
      forall p | p in fewer
        ensures p in all
      {
        var i :| 0 <= i < |smaller| && smaller[i].Some? && smaller[i].value.child == Some(c) && smaller[i].value.parent == p;
        assert smaller[i] == edges[i];
      }
      assert all == fewer + (all - fewer);
    }
  }

  // ---------- The budgeted walks ----------

  /** Depth-first search for `target`. No walk from `current` is longer than `room`. */
  method Reaches(nodeCount: nat, edges: Edges, current: NodeToken, target: NodeToken, budget: nat, pathLen: nat, ghost room: nat)
    returns (r: Result<bool, GraphError>, left: nat)
    requires DownWithin(edges, current, room) && pathLen + room == nodeCount
    ensures left <= budget
    ensures r.Ok? <==> FindCost(edges, current, target, room) <= budget
    ensures r.Ok? ==> (r.value <==> Reachable(edges, current, target))
    ensures r.Ok? ==> budget - left == FindCost(edges, current, target, room)
    ensures r.Err? ==> r.error == WalkLimit
    decreases budget
  {
    hide Reachable, DownWithin, ReachesVia;
    left := budget;
    if left == 0 {
      return Err(WalkLimit), left;
    }
    left := left - 1;
    if current == target {
      ReachesItself(edges, current);
      return Ok(true), left;
    }
    if pathLen > nodeCount {
      assert false;
    }
    ReachableByStep(edges, current, target);
    for i := 0 to |edges|
      invariant left < budget
      invariant budget - left == 1 + FindCostOver(edges, current, target, i, room)
      invariant !FoundBelow(edges, current, target, i)
    {
      ViaEdge(edges, current, i, target);
      if edges[i].Some? {
        FindCostGrows(edges, current, target, i + 1, |edges|, room);
        if left == 0 {
          return Err(WalkLimit), left;
        }
        left := left - 1;
        if edges[i].value.parent == current && edges[i].value.child.Some? {
          StepDown(edges, current, i, room);
          var found, rest := Reaches(nodeCount, edges, edges[i].value.child.value, target, left, pathLen + 1, room - 1);
          left := rest;
          if found.Err? || found.value {
            assert found.Ok? ==> FoundBelow(edges, current, target, i + 1);
            return found, left;
          }
        }
      }
    }
    EdgesOnly(edges, current, target);
    return Ok(false), left;
  }

  lemma ReachesItself(edges: Edges, n: NodeToken)
    ensures Reachable(edges, n, n)
  {
    assert WalkBetween(edges, n, [], n);
  }

  lemma ViaEdge(edges: Edges, n: NodeToken, e: nat, target: NodeToken)
    ensures ReachesVia(edges, n, e, target) <==>
            Present(edges, e) && edges[e].value.parent == n && edges[e].value.child.Some? && Reachable(edges, edges[e].value.child.value, target)
  {
  }

  lemma EdgesOnly(edges: Edges, n: NodeToken, target: NodeToken)
    ensures forall e: nat :: ReachesVia(edges, n, e, target) ==> e < |edges|
  {
  }

  /** Longest walk downwards, counting a leaf interest as one edge. */
  method MaxDescendantDepth(nodeCount: nat, edges: Edges, current: NodeToken, budget: nat, pathLen: nat, ghost room: nat)
    returns (r: Result<nat, GraphError>, left: nat)
    requires DownWithin(edges, current, room) && pathLen + room == nodeCount < USIZE_MAX
    ensures left <= budget
    ensures r.Ok? ==> IsLongestFrom(edges, current, r.value) && r.value <= room
    ensures r.Ok? ==> budget - left == DownCost(edges, current, room)
    ensures r.Err? ==> r.error == WalkLimit && budget < DownCost(edges, current, room)
    decreases budget
  {
    hide DownWithin, LongestDownTo, IsLongestFrom;
    left := budget;
    if left == 0 {
      return Err(WalkLimit), left;
    }
    left := left - 1;
    if pathLen > nodeCount {
      assert false;
    }
    var maximum := 0;
    LongestDownEnds(edges, current, maximum, room);
    for i := 0 to |edges|
      invariant left < budget
      invariant budget - left == 1 + DownCostOver(edges, current, i, room)
      invariant LongestDownTo(edges, current, i, maximum)
    {
      if edges[i].Some? {
        DownCostGrows(edges, current, i + 1, |edges|, room);
        if left == 0 {
          return Err(WalkLimit), left;
        }
        left := left - 1;
        if edges[i].value.parent == current {
          var below := 0;
          if edges[i].value.child.Some? {
            StepDown(edges, current, i, room);
            var depth, rest := MaxDescendantDepth(nodeCount, edges, edges[i].value.child.value, left, pathLen + 1, room - 1);
            left := rest;
            if depth.Err? {
              return depth, left;
            }
            below := depth.value;
          }
          if below == USIZE_MAX {
            assert false;
          }
          LongestDownStep(edges, current, i, maximum, below);
          maximum := if below + 1 > maximum then below + 1 else maximum;
        } else {
          LongestDownSkip(edges, current, i, maximum);
        }
      } else {
        LongestDownSkip(edges, current, i, maximum);
      }
    }
    LongestDownEnds(edges, current, maximum, room);
    return Ok(maximum), left;
  }

  /** Longest walk upwards through the watching epolls. */
  method MaxParentDepth(nodeCount: nat, edges: Edges, current: NodeToken, budget: nat, pathLen: nat, ghost room: nat)
    returns (r: Result<nat, GraphError>, left: nat)
    requires UpWithin(edges, current, room) && pathLen + room == nodeCount < USIZE_MAX
    ensures left <= budget
    ensures r.Ok? ==> IsLongestInto(edges, current, r.value) && r.value <= room
    ensures r.Ok? ==> budget - left == UpCost(edges, current, room)
    ensures r.Err? ==> r.error == WalkLimit && budget < UpCost(edges, current, room)
    decreases budget
  {
    hide UpWithin, LongestUpTo, IsLongestInto;
    left := budget;
    if left == 0 {
      return Err(WalkLimit), left;
    }
    left := left - 1;
    if pathLen > nodeCount {
      assert false;
    }
    var maximum := 0;
    LongestUpEnds(edges, current, maximum, room);
    for i := 0 to |edges|
      invariant left < budget
      invariant budget - left == 1 + UpCostOver(edges, current, i, room)
      invariant LongestUpTo(edges, current, i, maximum)
    {
      if edges[i].Some? {
        UpCostGrows(edges, current, i + 1, |edges|, room);
        if left == 0 {
          return Err(WalkLimit), left;
        }
        left := left - 1;
        if edges[i].value.child == Some(current) {
          StepUp(edges, current, i, room);
          var above, rest := MaxParentDepth(nodeCount, edges, edges[i].value.parent, left, pathLen + 1, room - 1);
          left := rest;
          if above.Err? {
            return above, left;
          }
          if above.value == USIZE_MAX {
            assert false;
          }
          LongestUpStep(edges, current, i, maximum, above.value);
          maximum := if above.value + 1 > maximum then above.value + 1 else maximum;
        } else {
          LongestUpSkip(edges, current, i, maximum);
        }
      } else {
        LongestUpSkip(edges, current, i, maximum);
      }
    }
    LongestUpEnds(edges, current, maximum, room);
    return Ok(maximum), left;
  }

  /** Counts each distinct parent at its first edge. */
  method DistinctParentCount(edges: Edges, child: NodeToken) returns (count: nat)
    ensures count == |Parents(edges, child)|
  {
    count := 0;
    for index := 0 to |edges|
      invariant count == |ParentsBelow(edges, child, index)|
    {
      if edges[index].Some? && edges[index].value.child == Some(child) {
        var appearedEarlier := exists j | 0 <= j < index ::
          edges[j].Some? && edges[j].value.child == Some(child) && edges[j].value.parent == edges[index].value.parent;
        assert ParentsBelow(edges, child, index + 1) == ParentsBelow(edges, child, index) + {edges[index].value.parent};
        if !appearedEarlier {
          count := count + 1;
        }
      } else {
        assert ParentsBelow(edges, child, index + 1) == ParentsBelow(edges, child, index);
      }
    }
  }

  class EpollGraph {
    const id: nat
    const limits: Limits
    var nodes: seq<Option<Node>>
    var edges: Edges
    var nextGeneration: nat

    /** Every node and edge token whose registration has ended. */
    ghost var goneNodes: set<NodeToken>
    ghost var goneEdges: set<EdgeToken>

    ghost predicate Valid()
      reads this
    {
      && limits.Finite() && |nodes| == limits.nodeCapacity && |edges| == limits.edgeCapacity
      && Sound(id, limits, nodes, edges)
      && nextGeneration <= U64_MAX
      && (forall i | 0 <= i < |nodes| && nodes[i].Some? :: nodes[i].value.generation < nextGeneration)
      && (forall i | 0 <= i < |edges| && edges[i].Some? :: edges[i].value.generation < nextGeneration)
      && (forall t | t in goneNodes :: t.generation < nextGeneration && !LiveToken(id, nodes, t))
      && (forall t | t in goneEdges :: t.generation < nextGeneration && !LiveEdge(t))
    }

    predicate LiveEdge(t: EdgeToken)
      reads this
    {
      t.graph == id && t.slot < |edges| && edges[t.slot].Some? && edges[t.slot].value.generation == t.generation
    }

    constructor (id: nat, limits: Limits)
      requires limits.Finite()
      ensures Valid() && this.id == id && this.limits == limits
      ensures forall i | 0 <= i < |nodes| :: nodes[i].None?
      ensures forall i | 0 <= i < |edges| :: edges[i].None?
    {
      this.id, this.limits := id, limits;
      nodes, edges := seq(limits.nodeCapacity, _ => None), seq(limits.edgeCapacity, _ => None);
      nextGeneration, goneNodes, goneEdges := 1, {}, {};
      new;
      forall w | IsWalk(edges, w)
        ensures w == []
      {
        assert |w| > 0 ==> !IsWalk(edges, w) by {
          assert |w| > 0 ==> !Present(edges, w[0]);
        }
      }
      assert forall c :: Parents(edges, c) == {};
    }

    /** Every limit must be finite. */
    static method TryNew(id: nat, limits: Limits) returns (r: Result<EpollGraph, GraphError>)
      ensures r.Ok? <==>
                && limits.nodeCapacity < USIZE_MAX && limits.edgeCapacity < USIZE_MAX && limits.maxParents < USIZE_MAX
                && limits.maxNesting < USIZE_MAX && limits.maxWalkSteps < USIZE_MAX
      ensures r.Err? ==> r.error == Unbounded
      ensures r.Ok? ==> fresh(r.value) && r.value.Valid() && r.value.id == id && r.value.limits == limits
    {
      if !limits.Finite() {
        return Err(Unbounded);
      }
      var graph := new EpollGraph(id, limits);
      return Ok(graph);
    }

    method Register(epoll: nat) returns (r: Result<NodeToken, GraphError>)
      requires Valid()
      modifies this
      ensures Valid() && edges == old(edges) && goneNodes == old(goneNodes) && goneEdges == old(goneEdges)
      ensures old(exists i | 0 <= i < |nodes| :: nodes[i].Some? && nodes[i].value.epoll == epoll) <==> r == Err(DuplicateNode)
      ensures r.Err? && r.error != DuplicateNode ==>
                r.error == if LowestVacant(old(nodes)) == |nodes| then Capacity else GenerationExhausted
      ensures r == Err(GenerationExhausted) ==> old(nextGeneration) == U64_MAX
      ensures r.Err? ==> nodes == old(nodes) && nextGeneration == old(nextGeneration)
      ensures r.Ok? ==>
                && r.value.slot == LowestVacant(old(nodes)) < |nodes|
                && r.value.epoll == epoll
                && nodes == old(nodes)[r.value.slot := Some(Node(epoll, r.value.generation))]
                && LiveToken(id, nodes, r.value) && r.value !in goneNodes
                && forall t | LiveToken(id, old(nodes), t) :: LiveToken(id, nodes, t) && t != r.value
    {
      if exists i | 0 <= i < |nodes| :: nodes[i].Some? && nodes[i].value.epoll == epoll {
        return Err(DuplicateNode);
      }
      var slot := FirstVacant(nodes);
      if slot.None? {
        return Err(Capacity);
      }
      if nextGeneration == U64_MAX {
        return Err(GenerationExhausted);
      }
      var generation := nextGeneration;
      nextGeneration := generation + 1;
      nodes := nodes[slot.value := Some(Node(epoll, generation))];
      return Ok(NodeToken(id, slot.value, generation, epoll));
    }

    method Unregister(node: NodeToken) returns (r: Result<(), GraphError>)
      requires Valid()
      modifies this
      ensures Valid() && edges == old(edges) && goneEdges == old(goneEdges)
      ensures node in old(goneNodes) ==> r == Err(StaleToken)
      ensures r == Err(StaleToken) <==> !LiveToken(id, old(nodes), node)
      ensures LiveToken(id, old(nodes), node) ==>
                (r == Err(Busy) <==> exists i | 0 <= i < |edges| ::
                   edges[i].Some? && (edges[i].value.parent == node || edges[i].value.child == Some(node)))
      ensures r.Err? ==> r.error in {StaleToken, Busy} && nodes == old(nodes) && goneNodes == old(goneNodes)
      ensures r.Ok? ==> nodes == old(nodes)[node.slot := None] && goneNodes == old(goneNodes) + {node}
    {
      if !LiveToken(id, nodes, node) {
        return Err(StaleToken);
      }
      if exists i | 0 <= i < |edges| ::
          edges[i].Some? && (edges[i].value.parent == node || edges[i].value.child == Some(node)) {
        return Err(Busy);
      }
      nodes := nodes[node.slot := None];
      goneNodes := goneNodes + {node};
      return Ok(());
    }

    /** Runs the three budgeted walks for an interest that would go into `slot`. */
    method Judge(parent: NodeToken, child: Option<NodeToken>, slot: nat) returns (verdict: Option<GraphError>)
      requires Valid() && slot < |edges| && edges[slot].None?
      ensures
        var larger := edges[slot := Some(Edge(nextGeneration, parent, child))];
        if !Acyclic(larger) then
          verdict == Some(if child.Some? && limits.maxWalkSteps < FindCost(edges, child.value, parent, |nodes|) then WalkLimit else Cycle)
        else if limits.maxWalkSteps < SearchCost(|nodes|, edges, parent, child) then verdict == Some(WalkLimit)
        else if !NestingAtMost(larger, limits.maxNesting) then verdict == Some(Nesting)
        else verdict == None
    {
      hide Reachable, Acyclic, NestingAtMost, DownWithin, UpWithin, IsLongestFrom, IsLongestInto, LiveEdges, ParentsWithin;
      ghost var edge := Edge(nextGeneration, parent, child);
      SoundIsAcyclic(id, limits, nodes, edges);
      AcyclicIffUnreachable(edges, slot, edge, limits.maxNesting);
      NodesBoundSearch(id, nodes, edges, parent);
      var budget := limits.maxWalkSteps;
      if child.Some? {
        NodesBoundSearch(id, nodes, edges, child.value);
        if !Reachable(edges, child.value, parent) {
          UnfoundIsFull(edges, child.value, parent, |edges|, |nodes|);
        }
        var found, left := Reaches(|nodes|, edges, child.value, parent, budget, 0, |nodes|);
        budget := left;
        if found.Err? {
          return Some(found.error);
        }
        if found.value {
          return Some(Cycle);
        }
      }
      var parentDepth, left := MaxParentDepth(|nodes|, edges, parent, budget, 0, |nodes|);
      budget := left;
      if parentDepth.Err? {
        return Some(parentDepth.error);
      }
      var childDepth := 0;
      if child.Some? {
        var depth, rest := MaxDescendantDepth(|nodes|, edges, child.value, budget, 0, |nodes|);
        budget := rest;
        if depth.Err? {
          return Some(depth.error);
        }
        childDepth := depth.value;
      }
      NestingIffFits(edges, slot, edge, limits.maxNesting, parentDepth.value, childDepth);
      var combined := parentDepth.value + 1 + childDepth;
      if combined > USIZE_MAX || combined > limits.maxNesting {
        return Some(Nesting);
      }
      return None;
    }

    /** Everything `AddInterest` checks before it publishes. */
    method Refusal(parent: NodeToken, child: Option<NodeToken>) returns (answer: Option<GraphError>)
      requires Valid()
      ensures Decision(id, limits, nodes, edges, nextGeneration, parent, child, answer)
    {
      if !LiveToken(id, nodes, parent) {
        return Some(StaleToken);
      }
      if child.Some? {
        if !LiveToken(id, nodes, child.value) {
          return Some(StaleToken);
        }
        if parent == child.value {
          return Some(SelfCycle);
        }
        var alreadyParent := exists i | 0 <= i < |edges| ::
          edges[i].Some? && edges[i].value.child == child && edges[i].value.parent == parent;
        var parents := DistinctParentCount(edges, child.value);
        if !alreadyParent && parents >= limits.maxParents {
          return Some(ParentLimit);
        }
      }
      var vacant := FirstVacant(edges);
      if vacant.None? {
        return Some(Capacity);
      }
      answer := Judge(parent, child, vacant.value);
      if answer == None && nextGeneration == U64_MAX {
        return Some(GenerationExhausted);
      }
    }

    /** Publishes one interest, or says why not. */
    method AddInterest(parent: NodeToken, child: Option<NodeToken>) returns (r: Result<EdgeToken, GraphError>)
      requires Valid()
      modifies this`edges, this`nextGeneration
      ensures Valid()
      ensures Decision(id, limits, nodes, old(edges), old(nextGeneration), parent, child,
                       if r.Ok? then None else Some(r.error))
      ensures r.Ok? ==>
                && r.value == EdgeToken(id, LowestVacant(old(edges)), old(nextGeneration))
                && edges == old(edges)[r.value.slot := Some(Edge(old(nextGeneration), parent, child))]
                && nextGeneration == old(nextGeneration) + 1
                && r.value !in goneEdges
      ensures r.Err? ==> edges == old(edges) && nextGeneration == old(nextGeneration)
    {
      var answer := Refusal(parent, child);
      if answer.Some? {
        return Err(answer.value);
      }
      var vacant := FirstVacant(edges);
      var slot, generation := vacant.value, nextGeneration;
      ParentsStayWithin(edges, slot, Edge(generation, parent, child), limits.maxParents);
      nextGeneration := generation + 1;
      edges := edges[slot := Some(Edge(generation, parent, child))];
      return Ok(EdgeToken(id, slot, generation));
    }

    method RemoveInterest(token: EdgeToken) returns (r: Result<(), GraphError>)
      requires Valid()
      modifies this
      ensures Valid() && nodes == old(nodes) && goneNodes == old(goneNodes)
      ensures r == if old(LiveEdge(token)) then Ok(()) else Err(StaleToken)
      ensures token in old(goneEdges) ==> r == Err(StaleToken)
      ensures edges == if r.Ok? then old(edges)[token.slot := None] else old(edges)
      ensures goneEdges == if r.Ok? then old(goneEdges) + {token} else old(goneEdges)
    {
      if !LiveEdge(token) {
        return Err(StaleToken);
      }
      RemovalKeepsLimits(edges, token.slot, limits.maxNesting, limits.maxParents);
      edges := edges[token.slot := None];
      goneEdges := goneEdges + {token};
      return Ok(());
    }

    method ParentCount(node: NodeToken) returns (r: Result<nat, GraphError>)
      requires Valid()
      ensures r == if LiveToken(id, nodes, node) then Ok(|Parents(edges, node)|) else Err(StaleToken)
      ensures r.Ok? ==> r.value <= limits.maxParents
    {
      if !LiveToken(id, nodes, node) {
        return Err(StaleToken);
      }
      var count := DistinctParentCount(edges, node);
      return Ok(count);
    }
  }
}
