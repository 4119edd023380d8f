/** Walks in the epoll interest graph: what cycles and nesting mean, and what
    adding one edge does to them. Nothing here depends on how the graph is
    searched. */
module EpollTopology {
  import opened Wrappers

  datatype NodeToken = NodeToken(graph: nat, slot: nat, generation: nat, epoll: nat)

  datatype Node = Node(epoll: nat, generation: nat)

  /** One published interest; `child` is `None` for a leaf that is not an epoll. */
  datatype Edge = Edge(generation: nat, parent: NodeToken, child: Option<NodeToken>)

  type Edges = seq<Option<Edge>>

  predicate Present(edges: Edges, e: nat) {
    e < |edges| && edges[e].Some?
  }

  /** A walk is a sequence of edge slots, each ending at the node where the next begins. */
  ghost predicate IsWalk(edges: Edges, w: seq<nat>) {
    && (forall i | 0 <= i < |w| :: Present(edges, w[i]))
    && (forall i, j | 0 <= i < j < |w| && j == i + 1 ::
          edges[w[i]].value.child == Some(edges[w[j]].value.parent))
  }

  ghost function First(edges: Edges, w: seq<nat>): NodeToken
    requires IsWalk(edges, w) && w != []
  {
    edges[w[0]].value.parent
  }

  ghost function Last(edges: Edges, w: seq<nat>): Option<NodeToken>
    requires IsWalk(edges, w) && w != []
  {
    edges[w[|w| - 1]].value.child
  }

  ghost predicate WalkFrom(edges: Edges, n: NodeToken, w: seq<nat>) {
    IsWalk(edges, w) && (w != [] ==> First(edges, w) == n)
  }

  ghost predicate WalkInto(edges: Edges, w: seq<nat>, n: NodeToken) {
    IsWalk(edges, w) && (w != [] ==> Last(edges, w) == Some(n))
  }

  ghost predicate WalkBetween(edges: Edges, a: NodeToken, w: seq<nat>, b: NodeToken) {
    WalkFrom(edges, a, w) && WalkInto(edges, w, b) && (w == [] ==> a == b)
  }

  ghost predicate Reachable(edges: Edges, a: NodeToken, b: NodeToken) {
    exists w :: WalkBetween(edges, a, w, b)
  }

  ghost predicate Acyclic(edges: Edges) {
    forall n, w :: WalkBetween(edges, n, w, n) ==> w == []
  }

  /** Every epoll-to-leaf path, and so every walk, has at most `k` edges. */
  ghost predicate NestingAtMost(edges: Edges, k: nat) {
    forall w :: IsWalk(edges, w) ==> |w| <= k
  }

  ghost predicate IsLongestFrom(edges: Edges, n: NodeToken, d: nat) {
    && (exists w :: WalkFrom(edges, n, w) && |w| == d)
    && (forall w :: WalkFrom(edges, n, w) ==> |w| <= d)
  }

  ghost predicate IsLongestInto(edges: Edges, n: NodeToken, d: nat) {
    && (exists w :: WalkInto(edges, w, n) && |w| == d)
    && (forall w :: WalkInto(edges, w, n) ==> |w| <= d)
  }

  /** The distinct epolls that watch `child` through an edge below `k`. */
  ghost function ParentsBelow(edges: Edges, child: NodeToken, k: nat): set<NodeToken>
    requires k <= |edges|
  {
    set e | 0 <= e < k && edges[e].Some? && edges[e].value.child == Some(child) :: edges[e].value.parent
  }

  ghost function Parents(edges: Edges, child: NodeToken): set<NodeToken> {
    ParentsBelow(edges, child, |edges|)
  }

  // ---------- Walks ----------

  lemma Joined(edges: Edges, u: seq<nat>, v: seq<nat>)
    requires IsWalk(edges, u) && IsWalk(edges, v)
    requires u != [] && v != [] ==> Last(edges, u) == Some(First(edges, v))
    ensures IsWalk(edges, u + v)
  {
  }

  /** Going round a closed walk `times` times is a walk. */
  lemma {:induction false} GoRound(edges: Edges, n: NodeToken, w: seq<nat>, times: nat) returns (r: seq<nat>)
    requires WalkBetween(edges, n, w, n) && w != []
    ensures WalkBetween(edges, n, r, n) && |r| >= times
  {
    if times == 0 {
      r := [];
    } else {
      var s := GoRound(edges, n, w, times - 1);
      r := w + s;
      Joined(edges, w, s);
    }
  }

  /** A graph whose walks are bounded has no cycle. */
  lemma BoundedIsAcyclic(edges: Edges, k: nat)
    requires NestingAtMost(edges, k)
    ensures Acyclic(edges)
  {
    forall n, w | WalkBetween(edges, n, w, n)
      ensures w == []
    {
      if w != [] {
        var r := GoRound(edges, n, w, k + 1);
      }
    }
  }

  /** Edge `e` leaves `a` for a node that reaches `b`. */
  ghost predicate ReachesVia(edges: Edges, a: NodeToken, e: nat, b: NodeToken) {
    && Present(edges, e)
    && edges[e].value.parent == a
    && edges[e].value.child.Some?
    && Reachable(edges, edges[e].value.child.value, b)
  }

  /** Reaching another node means leaving by some edge that reaches it. */
  lemma ReachableByStep(edges: Edges, a: NodeToken, b: NodeToken)
    requires a != b
    ensures Reachable(edges, a, b) <==> exists e: nat :: ReachesVia(edges, a, e, b)
  {
    if Reachable(edges, a, b) {
      var w :| WalkBetween(edges, a, w, b);
      assert Present(edges, w[0]);
      assert |w| > 1 ==> w[1] == w[1..][0];
      assert WalkBetween(edges, edges[w[0]].value.child.value, w[1..], b);
      assert ReachesVia(edges, a, w[0], b);
    }
    if e: nat :| ReachesVia(edges, a, e, b) {
      var w :| WalkBetween(edges, edges[e].value.child.value, w, b);
      Joined(edges, [e], w);
      assert WalkBetween(edges, a, [e] + w, b);
    }
  }

  // ---------- Live nodes bound the length of a walk ----------

  predicate LiveToken(id: nat, nodes: seq<Option<Node>>, t: NodeToken) {
    && t.graph == id
    && t.slot < |nodes|
    && nodes[t.slot] == Some(Node(t.epoll, t.generation))
  }

  /** Every edge names registered nodes. */
  ghost predicate LiveEdges(id: nat, nodes: seq<Option<Node>>, edges: Edges) {
    forall e | 0 <= e < |edges| && edges[e].Some? ::
      && LiveToken(id, nodes, edges[e].value.parent)
      && (edges[e].value.child.Some? ==> LiveToken(id, nodes, edges[e].value.child.value))
  }

  /** In an acyclic graph no walk is longer than the node table. */
  lemma WalkFitsNodes(id: nat, nodes: seq<Option<Node>>, edges: Edges, w: seq<nat>)
    requires LiveEdges(id, nodes, edges) && Acyclic(edges) && IsWalk(edges, w)
    ensures |w| <= |nodes|
  {
    var slots: seq<nat> := seq(|w|, i requires 0 <= i < |w| => edges[w[i]].value.parent.slot);
    forall i, j | 0 <= i < j < |slots|
      ensures slots[i] != slots[j]
    {
      if slots[i] == slots[j] {
        var n := edges[w[i]].value.parent;
        assert n == edges[w[j]].value.parent;
        assert WalkBetween(edges, n, w[i..j], n);
      }
    }
    Pigeonhole(slots, |nodes|);
  }

  /** No walk from `n` has more than `k` edges. */
  ghost predicate DownWithin(edges: Edges, n: NodeToken, k: nat) {
    forall w :: WalkFrom(edges, n, w) ==> |w| <= k
  }

  /** No walk into `n` has more than `k` edges. */
  ghost predicate UpWithin(edges: Edges, n: NodeToken, k: nat) {
    forall w :: WalkInto(edges, w, n) ==> |w| <= k
  }

  /** The node table bounds the search in both directions, so a budgeted walk never gets deeper than it. */
  lemma NodesBoundSearch(id: nat, nodes: seq<Option<Node>>, edges: Edges, n: NodeToken)
    requires LiveEdges(id, nodes, edges) && Acyclic(edges)
    ensures DownWithin(edges, n, |nodes|) && UpWithin(edges, n, |nodes|)
  {
    forall w | IsWalk(edges, w)
      ensures |w| <= |nodes|
    {
      WalkFitsNodes(id, nodes, edges, w);
    }
  }

  lemma StepDown(edges: Edges, n: NodeToken, e: nat, k: nat)
    requires DownWithin(edges, n, k)
    requires Present(edges, e) && edges[e].value.parent == n && edges[e].value.child.Some?
    ensures k > 0 && DownWithin(edges, edges[e].value.child.value, k - 1)
  {
    assert WalkFrom(edges, n, [e]);
    forall w | WalkFrom(edges, edges[e].value.child.value, w)
      ensures |w| <= k - 1
    {
      Joined(edges, [e], w);
      assert WalkFrom(edges, n, [e] + w);
    }
  }

  lemma StepUp(edges: Edges, n: NodeToken, e: nat, k: nat)
    requires UpWithin(edges, n, k)
    requires Present(edges, e) && edges[e].value.child == Some(n)
    ensures k > 0 && UpWithin(edges, edges[e].value.parent, k - 1)
  {
    assert WalkInto(edges, [e], n);
    forall w | WalkInto(edges, w, edges[e].value.parent)
      ensures |w| <= k - 1
    {
      Joined(edges, w, [e]);
      assert WalkInto(edges, w + [e], n);
    }
  }

  // ---------- Longest walks, edge by edge ----------

  /** `d` is the length of the longest walk from `n` that is empty or begins with an edge below `k`. */
  ghost predicate LongestDownTo(edges: Edges, n: NodeToken, k: nat, d: nat) {
    && (exists w :: WalkFrom(edges, n, w) && |w| == d && (w != [] ==> w[0] < k))
    && (forall w :: WalkFrom(edges, n, w) && (w != [] ==> w[0] < k) ==> |w| <= d)
  }

  predicate EndsBelow(w: seq<nat>, k: nat) {
    w != [] ==> w[|w| - 1] < k
  }

  /** `d` is the length of the longest walk into `n` that is empty or ends with an edge below `k`. */
  ghost predicate LongestUpTo(edges: Edges, n: NodeToken, k: nat, d: nat) {
    && (exists w :: WalkInto(edges, w, n) && EndsBelow(w, k) && |w| == d)
    && (forall w :: WalkInto(edges, w, n) && EndsBelow(w, k) ==> |w| <= d)
  }

  /** Before the first edge only the empty walk counts; after the last one, every walk. */
  lemma LongestDownEnds(edges: Edges, n: NodeToken, d: nat, room: nat)
    requires DownWithin(edges, n, room)
    ensures LongestDownTo(edges, n, 0, 0)
    ensures LongestDownTo(edges, n, |edges|, d) ==> IsLongestFrom(edges, n, d) && d <= room
  {
    assert WalkFrom(edges, n, []);
  }

  lemma LongestUpEnds(edges: Edges, n: NodeToken, d: nat, room: nat)
    requires UpWithin(edges, n, room)
    ensures LongestUpTo(edges, n, 0, 0)
    ensures LongestUpTo(edges, n, |edges|, d) ==> IsLongestInto(edges, n, d) && d <= room
  {
    assert WalkInto(edges, [], n);
    assert forall w | WalkInto(edges, w, n) :: EndsBelow(w, |edges|);
  }

  lemma LongestDownSkip(edges: Edges, n: NodeToken, k: nat, d: nat)
    requires LongestDownTo(edges, n, k, d) && !(Present(edges, k) && edges[k].value.parent == n)
    ensures LongestDownTo(edges, n, k + 1, d)
  {
    var prior :| WalkFrom(edges, n, prior) && |prior| == d && (prior != [] ==> prior[0] < k);
    assert prior != [] ==> prior[0] < k + 1;
  }

  lemma LongestUpSkip(edges: Edges, n: NodeToken, k: nat, d: nat)
    requires LongestUpTo(edges, n, k, d) && !(Present(edges, k) && edges[k].value.child == Some(n))
    ensures LongestUpTo(edges, n, k + 1, d)
  {
    var prior :| WalkInto(edges, prior, n) && EndsBelow(prior, k) && |prior| == d;
    assert EndsBelow(prior, k + 1);
    assert forall w | WalkInto(edges, w, n) && EndsBelow(w, k + 1) :: EndsBelow(w, k);
  }

  /** Leaving `n` by edge `k` gives walks one longer than those from its child. */
  lemma LongestDownStep(edges: Edges, n: NodeToken, k: nat, d: nat, below: nat)
    requires LongestDownTo(edges, n, k, d) && Present(edges, k) && edges[k].value.parent == n
    requires if edges[k].value.child.Some? then IsLongestFrom(edges, edges[k].value.child.value, below) else below == 0
    ensures LongestDownTo(edges, n, k + 1, if below + 1 > d then below + 1 else d)
  {
    var tail := [];
    if edges[k].value.child.Some? {
      tail :| WalkFrom(edges, edges[k].value.child.value, tail) && |tail| == below;
    }
    Joined(edges, [k], tail);
    var through := [k] + tail;
    assert WalkFrom(edges, n, through) && |through| == below + 1 && through[0] == k;
    forall w | WalkFrom(edges, n, w) && w != [] && w[0] == k
      ensures |w| <= below + 1
    {
      if |w| > 1 {
        assert w[1] == w[1..][0];
        assert WalkFrom(edges, edges[k].value.child.value, w[1..]);
      }
    }
    var prior :| WalkFrom(edges, n, prior) && |prior| == d && (prior != [] ==> prior[0] < k);
    var best := if below + 1 > d then through else prior;
    assert WalkFrom(edges, n, best) && (best != [] ==> best[0] < k + 1);
  }

  lemma AllButLast(edges: Edges, w: seq<nat>)
    requires IsWalk(edges, w) && w != []
    ensures WalkInto(edges, w[..|w| - 1], edges[w[|w| - 1]].value.parent)
  {
  }

  /** Entering `n` by edge `k` gives walks one longer than those into its parent. */
  lemma LongestUpStep(edges: Edges, n: NodeToken, k: nat, d: nat, above: nat)
    requires LongestUpTo(edges, n, k, d) && Present(edges, k) && edges[k].value.child == Some(n)
    requires IsLongestInto(edges, edges[k].value.parent, above)
    ensures LongestUpTo(edges, n, k + 1, if above + 1 > d then above + 1 else d)
  {
    forall w | WalkInto(edges, w, n) && EndsBelow(w, k + 1) && !EndsBelow(w, k)
      ensures |w| <= above + 1
    {
      AllButLast(edges, w);
    }
    var through := LongestThroughLast(edges, n, k, above);
    var prior :| WalkInto(edges, prior, n) && EndsBelow(prior, k) && |prior| == d;
    assert EndsBelow(prior, k + 1);
  }

  lemma LongestThroughLast(edges: Edges, n: NodeToken, k: nat, above: nat) returns (w: seq<nat>)
    requires Present(edges, k) && edges[k].value.child == Some(n)
    requires IsLongestInto(edges, edges[k].value.parent, above)
    ensures WalkInto(edges, w, n) && EndsBelow(w, k + 1) && |w| == above + 1
  {
    var front :| WalkInto(edges, front, edges[k].value.parent) && |front| == above;
    Joined(edges, front, [k]);
    w := front + [k];
  }

  // ---------- Adding one edge ----------

  lemma WalkSurvives(edges: Edges, slot: nat, e: Edge, w: seq<nat>)
    requires slot < |edges| && edges[slot].None? && IsWalk(edges, w)
    ensures IsWalk(edges[slot := Some(e)], w)
  {
  }

  /** A walk of the larger graph that crosses the new edge twice shows that its child reaches its parent. */
  lemma {:induction false} TwiceMeansReachable(edges: Edges, slot: nat, e: Edge, w: seq<nat>, i: nat, j: nat)
    requires slot < |edges| && edges[slot].None?
    requires IsWalk(edges[slot := Some(e)], w)
    requires i < j < |w| && w[i] == slot && w[j] == slot
    ensures e.child.Some? && Reachable(edges, e.child.value, e.parent)
    decreases j - i
  {
    if k :| i < k < j && w[k] == slot {
      TwiceMeansReachable(edges, slot, e, w, i, k);
    } else {
      var mid := w[i + 1..j];
      assert w[i] == slot && w[i + 1] in w;
      assert e.child.Some?;
      assert WalkBetween(edges, e.child.value, mid, e.parent);
    }
  }

  /** A walk of the larger graph is an old one, or crosses the new edge once. */
  lemma WalkSplits(edges: Edges, slot: nat, e: Edge, w: seq<nat>, max: nat, above: nat, below: nat)
    requires slot < |edges| && edges[slot].None?
    requires NestingAtMost(edges, max)
    requires forall u :: WalkInto(edges, u, e.parent) ==> |u| <= above
    requires e.child.Some? ==> forall v :: WalkFrom(edges, e.child.value, v) ==> |v| <= below
    requires !(e.child.Some? && Reachable(edges, e.child.value, e.parent))
    requires IsWalk(edges[slot := Some(e)], w)
    ensures |w| <= max || |w| <= above + 1 + below
  {
    if i :| 0 <= i < |w| && w[i] == slot {
      forall k | 0 <= k < |w| && k != i
        ensures w[k] != slot
      {
        if w[k] == slot {
          TwiceMeansReachable(edges, slot, e, w, if k < i then k else i, if k < i then i else k);
        }
      }
      var u, v := w[..i], w[i + 1..];
      assert WalkInto(edges, u, e.parent);
      if v != [] {
        assert w[i + 1] == v[0];
        assert e.child.Some?;
        assert WalkFrom(edges, e.child.value, v);
      }
    } else {
      assert IsWalk(edges, w);
    }
  }

  /** Adding an edge keeps the graph acyclic iff its child did not already reach its parent. */
  lemma AcyclicIffUnreachable(edges: Edges, slot: nat, e: Edge, max: nat)
    requires slot < |edges| && edges[slot].None? && NestingAtMost(edges, max)
    ensures Acyclic(edges[slot := Some(e)]) <==> !(e.child.Some? && Reachable(edges, e.child.value, e.parent))
  {
    var larger := edges[slot := Some(e)];
    if e.child.Some? && Reachable(edges, e.child.value, e.parent) {
      var w :| WalkBetween(edges, e.child.value, w, e.parent);
      WalkSurvives(edges, slot, e, w);
      assert WalkBetween(larger, e.parent, [slot] + w, e.parent);
    } else {
      forall w | IsWalk(larger, w)
        ensures |w| <= max + 1 + max
      {
        WalkSplits(edges, slot, e, w, max, max, max);
      }
      BoundedIsAcyclic(larger, max + 1 + max);
    }
  }

  /** An edge that closes no cycle keeps nesting within `max` iff the longest path through it fits. */
  lemma NestingIffFits(edges: Edges, slot: nat, e: Edge, max: nat, above: nat, below: nat)
    requires slot < |edges| && edges[slot].None? && NestingAtMost(edges, max)
    requires IsLongestInto(edges, e.parent, above)
    requires if e.child.Some? then IsLongestFrom(edges, e.child.value, below) else below == 0
    requires !(e.child.Some? && Reachable(edges, e.child.value, e.parent))
    ensures NestingAtMost(edges[slot := Some(e)], max) <==> above + 1 + below <= max
  {
    var larger := edges[slot := Some(e)];
    forall w | IsWalk(larger, w)
      ensures |w| <= max || |w| <= above + 1 + below
    {
      WalkSplits(edges, slot, e, w, max, above, below);
    }
    LongestThrough(edges, slot, e, above, below);
  }

  /** The longest walk into the parent, the new edge, and the longest walk out of the child join up. */
  lemma LongestThrough(edges: Edges, slot: nat, e: Edge, above: nat, below: nat)
    requires slot < |edges| && edges[slot].None?
    requires IsLongestInto(edges, e.parent, above)
    requires if e.child.Some? then IsLongestFrom(edges, e.child.value, below) else below == 0
    ensures exists w :: IsWalk(edges[slot := Some(e)], w) && |w| == above + 1 + below
  {
    var larger := edges[slot := Some(e)];
    var u :| WalkInto(edges, u, e.parent) && |u| == above;
    WalkSurvives(edges, slot, e, u);
    Joined(larger, u, [slot]);
    var v := [];
    if e.child.Some? {
      v :| WalkFrom(edges, e.child.value, v) && |v| == below;
      WalkSurvives(edges, slot, e, v);
    }
    Joined(larger, u + [slot], v);
    assert |u + [slot] + v| == above + 1 + below;
  }
}
