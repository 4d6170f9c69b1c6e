/** Taking a user away, or asking for less, with the default permission policy
    (bdrv_default_perms and bdrv_root_unref_child of engine/qemu-wasm/block.c): the permission
    conflict check never fails on the way down. The size-alignment check still may. */
module Loosening {
  import opened Options
  import opened Permissions
  import opened BlockGraph
  import opened GraphSearch
  import opened PermRefresh
  import opened GraphOps

  /** Every driver uses bdrv_default_perms. */
  ghost predicate DefaultDrivers(env: Env, g: Graph) {
    forall n, c, role, need | n in g.nodes && ValidRole(role) ::
      env.policy(n, c, role, need) == DefaultPerms(role, g.nodes[n].flags, need)
  }

  ghost predicate DefaultPolicy(env: Env, g: Graph) {
    (forall e | e in g.edges :: ValidRole(g.edges[e].role)) && DefaultDrivers(env, g)
  }

  /** Every edge of `h` is an edge of `g` that asks for no more and shares no less. */
  ghost predicate LooserGraph(h: Graph, g: Graph) {
    && h.nodes == g.nodes
    && forall e | e in h.edges ::
         && e in g.edges && h.edges[e] == g.edges[e].(need := h.edges[e].need)
         && Looser(h.edges[e].need, g.edges[e].need)
  }

  lemma LooserParents(h: Graph, g: Graph, n: NodeId)
    requires LooserGraph(h, g) && !Conflict(g, n)
    ensures Looser(Cumulative(h, n), Cumulative(g, n)) && !Conflict(h, n)
  {}

  /** What is left to fail at a node: writing without resizing an image of unaligned size, or the
      driver's own veto. */
  predicate AlignmentAndDriver(env: Env, node: Node, n: NodeId, cum: Need) {
    && (WantsWrite(cum) && Resize !in cum.perm ==> node.aligned)
    && (node.drv ==> env.accepts(n, cum))
  }

  /** Start from a graph `g` that is consistent below the affected node, and loosen something (`h`).
      With the permissions that propagation then gives, which can be computed before the call, every
      edge below asks for no more and shares no less, no node has a conflict, and no read-only node is
      asked to write. The refresh succeeds exactly when none of the nodes fails the alignment check or
      is vetoed by its driver. */
  lemma LooseningSucceedsIff(env: Env, g: Graph, h: Graph, list: seq<NodeId>)
    requires DefaultPolicy(env, g) && Consistent(env, g, Elems(list)) && LooserGraph(h, g)
    requires WellFormed(h) && Topological(h, list)
    ensures forall n | n in list :: n in g.nodes
    ensures var p := Propagate(env, h, list, |list|);
            && LooserGraph(p, g)
            && (forall n | n in list :: !Conflict(p, n) && (WantsWrite(Cumulative(p, n)) ==> Writable(p.nodes[n].flags)))
            && ((exists r :: Refreshed(env, h, Elems(list), r)) <==>
                forall n | n in list :: AlignmentAndDriver(env, p.nodes[n], n, Cumulative(p, n)))
            && forall r | Refreshed(env, h, Elems(list), r) :: r == p
  {
    forall n | n in list ensures n in g.nodes { assert n in Elems(list) && ConsistentNode(env, g, n); }
    var p := Propagate(env, h, list, |list|);
    PropagateIs(env, h, list, |list|);
    PropagatedIsLooser(env, g, h, list, |list|, p);
    forall n | n in list
      ensures !Conflict(p, n) && (WantsWrite(Cumulative(p, n)) ==> Writable(p.nodes[n].flags))
    {
      assert ConsistentNode(env, g, n);
      LooserParents(p, g, n);
    }
    RefreshableIff(env, h, list);
  }

  lemma PropagatedIsLooser(env: Env, g: Graph, h: Graph, list: seq<NodeId>, k: nat, p: Graph)
    requires DefaultPolicy(env, g) && Consistent(env, g, Elems(list)) && LooserGraph(h, g)
    requires WellFormed(h) && Topological(h, list) && Propagated(env, h, list, k, p)
    ensures LooserGraph(p, g)
  {
    forall e | e in p.edges ensures Looser(p.edges[e].need, g.edges[e].need) {
      if Owned(h, e, Elems(list[..k])) {
        var n := h.edges[e].parent.value;
        var i: nat :| i < k && list[i] == n;
        LooserAbove(env, g, h, list, k, p, i);
        SettledIsLooser(env, g, h, p, n, e);
      }
    }
  }

  /** A node whose users have become looser asks less of its children. */
  lemma SettledIsLooser(env: Env, g: Graph, h: Graph, p: Graph, n: NodeId, e: EdgeId)
    requires DefaultPolicy(env, g) && ConsistentNode(env, g, n) && g.nodes[n].drv && LooserGraph(h, g)
    requires OnlyNeedsOf(h, p, p.nodes.Keys) && n in p.nodes && Settled(env, p, n)
    requires Looser(Cumulative(p, n), Cumulative(g, n)) && e in h.edges && e in Children(h, n)
    ensures Looser(p.edges[e].need, g.edges[e].need)
  {
    assert e in Children(p, n) && e in Children(g, n);
    DefaultPermsMonotone(g.edges[e].role, g.nodes[n].flags, Cumulative(p, n), Cumulative(g, n));
  }

  /** The parents of the i-th node are looser, by induction along the list. */
  lemma {:induction false} LooserAbove(env: Env, g: Graph, h: Graph, list: seq<NodeId>, k: nat, p: Graph, i: nat)
    requires DefaultPolicy(env, g) && Consistent(env, g, Elems(list)) && LooserGraph(h, g)
    requires WellFormed(h) && Topological(h, list) && Propagated(env, h, list, k, p) && i < k
    ensures Looser(Cumulative(p, list[i]), Cumulative(g, list[i]))
    decreases i
  {
    forall e | e in Parents(p, list[i]) ensures e in Parents(g, list[i]) && Looser(p.edges[e].need, g.edges[e].need) {
      if Owned(h, e, Elems(list[..k])) {
        var n := h.edges[e].parent.value;
        var j: nat :| j < k && list[j] == n;
        assert Linked(h, list[j], list[i]);
        LooserAbove(env, g, h, list, k, p, j);
        assert ConsistentNode(env, g, n);
        SettledIsLooser(env, g, h, p, n, e);
      }
    }
  }

  /** At every node a pass comes to there is no conflict and no write request on a read-only node. */
  lemma LooseningNeverConflicts(env: Env, g: Graph, h: Graph, list: seq<NodeId>, k: nat, p: Graph)
    requires DefaultPolicy(env, g) && Consistent(env, g, Elems(list)) && LooserGraph(h, g)
    requires WellFormed(h) && Topological(h, list) && Passed(env, h, list, k, p)
    ensures LooserGraph(p, g)
    ensures k < |list| ==>
              list[k] in p.nodes && var node, cum := p.nodes[list[k]], Cumulative(p, list[k]);
              && !Conflict(p, list[k])
              && (ChecksPass(env, node, list[k], cum) <==> AlignmentAndDriver(env, node, list[k], cum))
  {
    PassedIsPropagated(env, h, list, k, p);
    PropagatedIsLooser(env, g, h, list, k, p);
    if k < |list| {
      assert ConsistentNode(env, g, list[k]);
      LooserParents(p, g, list[k]);
    }
  }

  // --- the operations that loosen ---

  /** The nodes in `list` pass what is left to fail, with the permissions they will have. */
  ghost predicate NothingInTheWay(env: Env, h: Graph, list: seq<NodeId>) {
    var p := Propagate(env, h, list, |list|);
    forall n | n in list :: n in p.nodes && AlignmentAndDriver(env, p.nodes[n], n, Cumulative(p, n))
  }

  /** `list` is the subtree of `n`, parents first. */
  ghost predicate ListsSubtree(h: Graph, n: NodeId, list: seq<NodeId>) {
    Topological(h, list) && Elems(list) == Subtrees(h, {n})
  }

  /** bdrv_root_unref_child: the edge goes in any case, and the permissions below it are updated
      exactly when nothing is in the way. */
  lemma UnrefLoosens(env: Env, g: Graph, e: EdgeId, r: Graph, list: seq<NodeId>)
    requires Inv(g) && Allowed(g, Unref(e)) && g.edges[e].bs.Some? && Step(env, g, Unref(e), true, r)
    requires ListsSubtree(DropEdge(g, e), g.edges[e].bs.value, list)
    requires DefaultPolicy(env, g) && Consistent(env, g, Elems(list))
    ensures var h := DropEdge(g, e);
            r == if NothingInTheWay(env, h, list) then Propagate(env, h, list, |list|) else h
  {
    LooseningSucceedsIff(env, g, DropEdge(g, e), list);
  }

  /** bdrv_child_try_set_perm with looser needs: it succeeds exactly when nothing is in the way. */
  lemma SetPermLoosens(env: Env, g: Graph, e: EdgeId, need: Need, ok: bool, r: Graph, list: seq<NodeId>)
    requires Inv(g) && Allowed(g, SetPerm(e, need)) && Looser(need, g.edges[e].need) && Step(env, g, SetPerm(e, need), ok, r)
    requires ListsSubtree(SetNeed(g, e, need), g.edges[e].bs.value, list)
    requires DefaultPolicy(env, g) && Consistent(env, g, Elems(list))
    ensures var h := SetNeed(g, e, need);
            && (ok <==> NothingInTheWay(env, h, list))
            && r == if ok then Propagate(env, h, list, |list|) else g
  {
    LooseningSucceedsIff(env, g, SetNeed(g, e, need), list);
  }

  const FLAGS := Flags(true, false, false)
  const UNALIGNED := Node(true, FLAGS, false, false, false, false, false, false)
  const DATA := Role(true, false, false, false, false)

  function Always(): Env {
    Env((n, c, r, need) => if ValidRole(r) then DefaultPerms(r, FLAGS, need) else need, (n, need) => true)
  }

  /** Loosening is not always possible: a writer shares an image of unaligned size with a user that
      resizes it, and that user goes away. */
  lemma LooseningCanFail()
    ensures var g := Graph(map[0 := UNALIGNED], map[0 := Edge(None, Some(0), DATA, Need({Write}, ALL), false, false),
                                                    1 := Edge(None, Some(0), DATA, Need({Resize}, ALL), false, false)]);
            var h := g.(edges := g.edges - {1});
            && DefaultPolicy(Always(), g) && Consistent(Always(), g, {0}) && LooserGraph(h, g)
            && forall r :: !Refreshed(Always(), h, {0}, r)
  {
    var g := Graph(map[0 := UNALIGNED], map[0 := Edge(None, Some(0), DATA, Need({Write}, ALL), false, false),
                                            1 := Edge(None, Some(0), DATA, Need({Resize}, ALL), false, false)]);
    assert 0 in Parents(g, 0) && 1 in Parents(g, 0);
    assert Resize in Cumulative(g, 0).perm;
    assert ConsistentNode(Always(), g, 0);
    var h := g.(edges := g.edges - {1});
    forall r ensures !Refreshed(Always(), h, {0}, r) {
      if OnlyNeedsOf(h, r, {0}) {
        assert Parents(r, 0) == {0} && r.edges[0].need == Need({Write}, ALL);
        assert Write in Cumulative(r, 0).perm && Resize !in Cumulative(r, 0).perm;
      }
    }
  }
}
