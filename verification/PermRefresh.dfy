/** Permission propagation of engine/qemu-wasm/block.c (bdrv_do_refresh_perms and below): what a
    refreshed graph is, and why one pass over a topologically sorted list produces it. */
module PermRefresh {
  import opened Options
  import opened Permissions
  import opened BlockGraph
  import opened GraphSearch

  /** What the drivers contribute: .bdrv_child_perm (the edge is absent while it is being
      attached) and .bdrv_check_perm. */
  datatype Env = Env(policy: (NodeId, Option<EdgeId>, Role, Need) -> Need, accepts: (NodeId, Need) -> bool)

  /** bdrv_get_cumulative_perm: the union of what the parents need, the intersection of what they
      share. */
  ghost function Cumulative(g: Graph, n: NodeId): Need {
    Need(set p | p in ALL && exists e :: e in Parents(g, n) && p in g.edges[e].need.perm,
         set p | p in ALL && forall e | e in Parents(g, n) :: p in g.edges[e].need.shared)
  }

  /** bdrv_child_perm */
  function ChildNeed(env: Env, g: Graph, n: NodeId, c: Option<EdgeId>, role: Role, target: NodeId, cum: Need): Need {
    var r := env.policy(n, c, role, cum);
    if target in g.nodes && g.nodes[target].forceShare then r.(shared := ALL) else r
  }

  /** Some parent needs what another one does not share. */
  ghost predicate Conflict(g: Graph, n: NodeId) {
    exists a, b :: a in Parents(g, n) && b in Parents(g, n) && a != b
                   && !(g.edges[b].need.perm <= g.edges[a].need.shared)
  }

  predicate WantsWrite(n: Need) { Write in n.perm || WriteUnchanged in n.perm }

  /** The checks of bdrv_node_refresh_perm on the node itself, given its cumulative permissions. */
  predicate ChecksPass(env: Env, node: Node, n: NodeId, cum: Need) {
    && (WantsWrite(cum) ==> Writable(node.flags))
    && (WantsWrite(cum) && Resize !in cum.perm ==> node.aligned)
    && (node.drv ==> env.accepts(n, cum))
  }

  /** The need the driver of node `n` computes for its child edge `e`. */
  ghost function Wanted(env: Env, g: Graph, n: NodeId, e: EdgeId): Need
    requires e in Children(g, n)
  {
    ChildNeed(env, g, n, Some(e), g.edges[e].role, g.edges[e].bs.value, Cumulative(g, n))
  }

  ghost predicate Settled(env: Env, g: Graph, n: NodeId)
    requires n in g.nodes
  {
    g.nodes[n].drv ==> forall e | e in Children(g, n) :: g.edges[e].need == Wanted(env, g, n, e)
  }

  ghost predicate ConsistentNode(env: Env, g: Graph, n: NodeId) {
    && n in g.nodes && !Conflict(g, n)
    && ChecksPass(env, g.nodes[n], n, Cumulative(g, n))
    && Settled(env, g, n)
  }

  ghost predicate Consistent(env: Env, g: Graph, s: set<NodeId>) {
    forall n | n in s :: ConsistentNode(env, g, n)
  }

  /** The graphs differ at most in the permissions on edges that nodes of `s` with a driver own. */
  ghost predicate OnlyNeedsOf(g: Graph, g': Graph, s: set<NodeId>) {
    && g'.nodes == g.nodes && g'.edges.Keys == g.edges.Keys
    && forall e | e in g.edges ::
         && g'.edges[e] == g.edges[e].(need := g'.edges[e].need)
         && (g'.edges[e].need == g.edges[e].need || Owned(g, e, s))
  }

  predicate Owned(g: Graph, e: EdgeId, s: set<NodeId>)
    requires e in g.edges
  {
    && g.edges[e].bs.Some? && g.edges[e].parent.Some? && g.edges[e].parent.value in s
    && g.edges[e].parent.value in g.nodes && g.nodes[g.edges[e].parent.value].drv
  }

  /** `g'` is `g` with the permissions below `s` brought up to date: no conflict and no failed
      check at any node of `s`, and every edge a driver owns there carries exactly what the driver
      computes from the final permissions of its node. */
  ghost predicate Refreshed(env: Env, g: Graph, s: set<NodeId>, g': Graph) {
    OnlyNeedsOf(g, g', s) && Consistent(env, g', s)
  }

  // --- the pass ---

  /** The state after the first `k` nodes of the list. */
  ghost predicate Passed(env: Env, g: Graph, list: seq<NodeId>, k: nat, h: Graph) {
    k <= |list| && Refreshed(env, g, Elems(list[..k]), h)
  }

  /** bdrv_node_refresh_perm's loop: the children of `n` get what its driver wants. */
  ghost function SetChildren(env: Env, g: Graph, n: NodeId): Graph {
    g.(edges := map e | e in g.edges ::
         if e in Children(g, n) then g.edges[e].(need := Wanted(env, g, n, e)) else g.edges[e])
  }

  /** The parents of a node keep their needs. */
  ghost predicate SameParents(g: Graph, g': Graph, n: NodeId) {
    Parents(g', n) == Parents(g, n) && forall e | e in Parents(g, n) :: g'.edges[e].need == g.edges[e].need
  }

  lemma SameParentsSame(g: Graph, g': Graph, n: NodeId)
    requires SameParents(g, g', n)
    ensures Cumulative(g', n) == Cumulative(g, n) && Conflict(g', n) == Conflict(g, n)
  {}

  /** A change below node list[k] does not touch the parents of list[..k + 1]. */
  lemma ChangesGoDown(g: Graph, list: seq<NodeId>, k: nat, h: Graph, h': Graph, i: nat)
    requires Topological(g, list) && k < |list| && i <= k
    requires OnlyNeedsOf(g, h, Elems(list[..k])) && OnlyNeedsOf(h, h', {list[k]})
    ensures SameParents(h, h', list[i])
  {}

  // --- propagation without checks ---

  /** The first `k` nodes of the list have set their children, whether or not they pass their checks. */
  ghost predicate Propagated(env: Env, g: Graph, list: seq<NodeId>, k: nat, h: Graph) {
    && k <= |list| && OnlyNeedsOf(g, h, Elems(list[..k]))
    && forall n | n in list[..k] :: n in h.nodes && Settled(env, h, n)
  }

  /** What the permissions below a list of nodes will be if no check fails: each node of the list in
      turn gives its children what its driver wants. */
  ghost function Propagate(env: Env, g: Graph, list: seq<NodeId>, k: nat): (h: Graph)
    requires k <= |list|
    ensures h.nodes == g.nodes
  {
    if k == 0 then g
    else
      var h := Propagate(env, g, list, k - 1);
      if list[k - 1] in h.nodes && h.nodes[list[k - 1]].drv then SetChildren(env, h, list[k - 1]) else h
  }

  lemma PassedIsPropagated(env: Env, g: Graph, list: seq<NodeId>, k: nat, h: Graph)
    requires Passed(env, g, list, k, h)
    ensures Propagated(env, g, list, k, h)
  {
    forall n | n in list[..k] ensures ConsistentNode(env, h, n) { assert n in Elems(list[..k]); }
  }

  lemma PropagatedStep(env: Env, g: Graph, list: seq<NodeId>, k: nat, h: Graph, h': Graph)
    requires Topological(g, list) && k < |list| && Propagated(env, g, list, k, h) && list[k] in g.nodes
    requires h' == if h.nodes[list[k]].drv then SetChildren(env, h, list[k]) else h
    ensures Propagated(env, g, list, k + 1, h')
  {
    assert OnlyNeedsOf(h, h', {list[k]});
    assert Elems(list[..k + 1]) == Elems(list[..k]) + {list[k]};
    forall n | n in list[..k + 1] ensures n in h'.nodes && Settled(env, h', n) {
      var i: nat :| i <= k && list[i] == n;
      ChangesGoDown(g, list, k, h, h', i);
      SameParentsSame(h, h', n);
      if i < k {
        assert n in list[..k];
        assert Children(h', n) == Children(h, n);
      }
    }
  }

  /** One node of the list: if it has no conflicting parents and passes its checks, the pass goes on. */
  lemma PassStep(env: Env, g: Graph, list: seq<NodeId>, k: nat, h: Graph, h': Graph)
    requires Topological(g, list) && k < |list| && Passed(env, g, list, k, h)
    requires list[k] in g.nodes && !Conflict(h, list[k])
    requires ChecksPass(env, h.nodes[list[k]], list[k], Cumulative(h, list[k]))
    requires h' == if h.nodes[list[k]].drv then SetChildren(env, h, list[k]) else h
    ensures Passed(env, g, list, k + 1, h')
  {
    hide Settled, Cumulative, Conflict;
    PassedIsPropagated(env, g, list, k, h);
    PropagatedStep(env, g, list, k, h, h');
    forall n | n in Elems(list[..k + 1]) ensures ConsistentNode(env, h', n) {
      var i: nat :| i <= k && list[i] == n;
      ChangesGoDown(g, list, k, h, h', i);
      SameParentsSame(h, h', n);
      assert i < k ==> n in Elems(list[..k]);
    }
  }

  lemma {:induction false} PropagateIs(env: Env, g: Graph, list: seq<NodeId>, k: nat)
    requires Topological(g, list) && k <= |list| && forall n | n in list :: n in g.nodes
    ensures Propagated(env, g, list, k, Propagate(env, g, list, k))
  {
    if k > 0 {
      PropagateIs(env, g, list, k - 1);
      PropagatedStep(env, g, list, k - 1, Propagate(env, g, list, k - 1), Propagate(env, g, list, k));
    }
  }

  /** Two propagations agree on the parents of every node both have come to: what a pass computes
      does not depend on the order in which it walks the lists. */
  lemma {:induction false} PassesAgree(env: Env, g: Graph, list: seq<NodeId>, k: nat, a: Graph, m: nat, b: Graph, i: nat)
    requires WellFormed(g) && Topological(g, list) && i < |list|
    requires Propagated(env, g, list, k, a) && Propagated(env, g, list, m, b) && i <= k && i <= m
    ensures SameParents(a, b, list[i])
    decreases i
  {
    forall e | e in Parents(a, list[i]) ensures a.edges[e].need == b.edges[e].need {
      if Owned(g, e, Elems(list)) {
        var p := g.edges[e].parent.value;
        var j: nat :| j < |list| && list[j] == p;
        assert Linked(g, list[j], list[i]);
        PassesAgree(env, g, list, k, a, m, b, j);
        SameParentsSame(a, b, p);
        assert p in list[..k] by { assert list[..k][j] == p; }
        assert p in list[..m] by { assert list[..m][j] == p; }
        assert e in Children(a, p) && e in Children(b, p);
      } else {
        assert forall n | n in list[..k] || n in list[..m] :: n in list;
      }
    }
  }

  lemma PropagatedUnique(env: Env, g: Graph, list: seq<NodeId>, a: Graph, b: Graph)
    requires WellFormed(g) && Topological(g, list)
    requires Propagated(env, g, list, |list|, a) && Propagated(env, g, list, |list|, b)
    ensures a == b
  {
    assert list[..|list|] == list;
    forall e | e in g.edges ensures a.edges[e] == b.edges[e] {
      if Owned(g, e, Elems(list)) {
        assert g.edges[e].bs.value in Elems(list);
        var i: nat :| i < |list| && list[i] == g.edges[e].bs.value;
        PassesAgree(env, g, list, |list|, a, |list|, b, i);
      }
    }
    assert a.edges == b.edges;
  }

  // --- what success and failure mean ---

  /** A node where the pass fails rules out every refreshed graph. */
  lemma PassFails(env: Env, g: Graph, list: seq<NodeId>, k: nat, h: Graph, r: Graph)
    requires WellFormed(g) && Topological(g, list) && k < |list| && Passed(env, g, list, k, h)
    requires list[k] in g.nodes
    requires Conflict(h, list[k]) || !ChecksPass(env, h.nodes[list[k]], list[k], Cumulative(h, list[k]))
    ensures !Refreshed(env, g, Elems(list), r)
  {
    assert list[..|list|] == list;
    assert Refreshed(env, g, Elems(list), r) ==> ConsistentNode(env, r, list[k]);
    if Refreshed(env, g, Elems(list), r) {
      PassedIsPropagated(env, g, list, k, h);
      PassedIsPropagated(env, g, list, |list|, r);
      PassesAgree(env, g, list, k, h, |list|, r, k);
      SameParentsSame(h, r, list[k]);
    }
  }

  /** There is at most one refreshed graph. */
  lemma RefreshedUnique(env: Env, g: Graph, list: seq<NodeId>, a: Graph, b: Graph)
    requires WellFormed(g) && Topological(g, list)
    requires Refreshed(env, g, Elems(list), a) && Refreshed(env, g, Elems(list), b)
    ensures a == b
  {
    assert list[..|list|] == list;
    PassedIsPropagated(env, g, list, |list|, a);
    PassedIsPropagated(env, g, list, |list|, b);
    PropagatedUnique(env, g, list, a, b);
  }

  /** When the permissions can be refreshed, decided beforehand: exactly when, with the permissions
      that plain propagation gives, no node has conflicting parents and every node passes its checks;
      and that propagated graph is then the refreshed one. */
  lemma RefreshableIff(env: Env, g: Graph, list: seq<NodeId>)
    requires WellFormed(g) && Topological(g, list) && forall n | n in list :: n in g.nodes
    ensures var p := Propagate(env, g, list, |list|);
            && ((exists r :: Refreshed(env, g, Elems(list), r)) <==>
                forall n | n in list :: !Conflict(p, n) && ChecksPass(env, p.nodes[n], n, Cumulative(p, n)))
            && forall r | Refreshed(env, g, Elems(list), r) :: r == p
  {
    var p := Propagate(env, g, list, |list|);
    PropagateIs(env, g, list, |list|);
    assert list[..|list|] == list;
    forall r | Refreshed(env, g, Elems(list), r)
      ensures r == p && forall n | n in list :: !Conflict(p, n) && ChecksPass(env, p.nodes[n], n, Cumulative(p, n))
    {
      PassedIsPropagated(env, g, list, |list|, r);
      PropagatedUnique(env, g, list, r, p);
      assert forall n | n in list :: n in Elems(list) && ConsistentNode(env, p, n);
    }
    if forall n | n in list :: !Conflict(p, n) && ChecksPass(env, p.nodes[n], n, Cumulative(p, n)) {
      assert Refreshed(env, g, Elems(list), p);
    }
  }
}
