/** The graph of block nodes and BdrvChild edges of engine/qemu-wasm/block.c.

    An edge belongs to a parent node (`child_of_bds`) or to a user outside the graph (a device, a
    job, an export) and points at a node, or at nothing while it is detached. The parents and
    children lists of a node are derived from the edges; their order is not part of the value, and
    every algorithm that walks them picks the next entry arbitrarily. */
module BlockGraph {
  import opened Options
  import opened Permissions

  type NodeId = nat
  type EdgeId = nat

  /** The parts of BlockDriverState and BlockDriver that the graph code looks at. `aligned` says
      that the image size is a multiple of the request alignment. */
  datatype Node = Node(
    drv: bool, flags: Flags, aligned: bool, forceShare: bool,
    isFilter: bool, filteredIsBacking: bool, supportsBacking: bool, neverFreeze: bool)

  /** BdrvChild. `stay` is the class's stay_at_node. */
  datatype Edge = Edge(
    parent: Option<NodeId>, bs: Option<NodeId>, role: Role, need: Need, frozen: bool, stay: bool)

  datatype Graph = Graph(nodes: map<NodeId, Node>, edges: map<EdgeId, Edge>)

  function Parents(g: Graph, n: NodeId): set<EdgeId> {
    set e | e in g.edges && g.edges[e].bs == Some(n)
  }

  function Children(g: Graph, n: NodeId): set<EdgeId> {
    set e | e in g.edges && g.edges[e].parent == Some(n) && g.edges[e].bs.Some?
  }

  ghost predicate Linked(g: Graph, a: NodeId, b: NodeId) {
    exists e: EdgeId :: e in g.edges && g.edges[e].parent == Some(a) && g.edges[e].bs == Some(b)
  }

  /** Edges lead from and to nodes of the graph. */
  ghost predicate WellFormed(g: Graph) {
    forall e | e in g.edges ::
      && (g.edges[e].parent.Some? ==> g.edges[e].parent.value in g.nodes)
      && (g.edges[e].bs.Some? ==> g.edges[e].bs.value in g.nodes)
  }

  // --- reachability ---

  ghost predicate Closed(g: Graph, s: set<NodeId>) {
    forall e | e in g.edges && g.edges[e].parent.Some? && g.edges[e].bs.Some? && g.edges[e].parent.value in s ::
      g.edges[e].bs.value in s
  }

  /** `b` is in the subtree of `a`: in every set of nodes that contains `a` and, with a node, all
      its children. */
  ghost predicate Reaches(g: Graph, a: NodeId, b: NodeId) {
    forall s: set<NodeId> :: Closed(g, s) && a in s ==> b in s
  }

  lemma ReachesStep(g: Graph, a: NodeId, m: NodeId, b: NodeId)
    requires Reaches(g, a, m) && Linked(g, m, b)
    ensures Reaches(g, a, b)
  {}

  lemma ReachesTrans(g: Graph, a: NodeId, m: NodeId, b: NodeId)
    requires Reaches(g, a, m) && Reaches(g, m, b)
    ensures Reaches(g, a, b)
  {}

  ghost function Subtree(g: Graph, a: NodeId): set<NodeId> {
    set n | n in g.nodes && Reaches(g, a, n)
  }

  lemma SubtreeClosed(g: Graph, a: NodeId)
    requires WellFormed(g)
    ensures Closed(g, Subtree(g, a)) && (a in g.nodes ==> a in Subtree(g, a))
  {}

  /** A chain of child links. */
  ghost predicate Path(g: Graph, p: seq<NodeId>) {
    |p| > 0 && forall i | 0 <= i < |p| - 1 :: Linked(g, p[i], p[i + 1])
  }

  /** Reachability is what it should be: a chain of links. */
  lemma ReachesIsPath(g: Graph, a: NodeId, b: NodeId)
    requires WellFormed(g) && a in g.nodes
    ensures Reaches(g, a, b) <==> exists p :: Path(g, p) && p[0] == a && p[|p| - 1] == b
  {
    if p :| Path(g, p) && p[0] == a && p[|p| - 1] == b {
      PathReaches(g, p);
    }
    if Reaches(g, a, b) {
      var s := set n | n in g.nodes && exists p :: Path(g, p) && p[0] == a && p[|p| - 1] == n;
      assert a in s by { assert Path(g, [a]) && [a][0] == a; }
      forall e | e in g.edges && g.edges[e].parent.Some? && g.edges[e].bs.Some? && g.edges[e].parent.value in s
        ensures g.edges[e].bs.value in s
      {
        var m, n := g.edges[e].parent.value, g.edges[e].bs.value;
        var p :| Path(g, p) && p[0] == a && p[|p| - 1] == m;
        assert Linked(g, m, n);
        var p' := p + [n];
        assert Path(g, p') && p'[0] == a && p'[|p'| - 1] == n;
      }
      assert Closed(g, s);
    }
  }

  lemma {:induction false} PathReaches(g: Graph, p: seq<NodeId>)
    requires Path(g, p)
    ensures Reaches(g, p[0], p[|p| - 1])
  {
    if |p| > 1 {
      var q := p[..|p| - 1];
      assert Linked(g, p[|p| - 2], p[|p| - 2 + 1]);
      PathReaches(g, q);
      ReachesStep(g, p[0], q[|q| - 1], p[|p| - 1]);
    }
  }

  /** No node is in the subtree of one of its children. */
  ghost predicate Acyclic(g: Graph) {
    forall a: NodeId, b: NodeId :: Linked(g, a, b) ==> !Reaches(g, b, a)
  }

  /** In an acyclic graph a child's subtree is properly smaller. */
  lemma SubtreeShrinks(g: Graph, a: NodeId, b: NodeId)
    requires WellFormed(g) && Acyclic(g) && Linked(g, a, b)
    ensures Subtree(g, b) < Subtree(g, a)
  {
    forall n | n in Subtree(g, b) ensures n in Subtree(g, a) {
      ReachesStep(g, a, a, b);
      ReachesTrans(g, a, b, n);
    }
    assert a in Subtree(g, a) && a !in Subtree(g, b);
  }

  /** A node other than `a` in its subtree is in the subtree of one of its children. */
  lemma ReachesByChild(g: Graph, a: NodeId, b: NodeId)
    requires WellFormed(g) && Reaches(g, a, b) && a != b
    ensures exists m: NodeId :: Linked(g, a, m) && Reaches(g, m, b)
  {
    var s := {a} + set n | n in g.nodes && exists m: NodeId :: Linked(g, a, m) && Reaches(g, m, n);
    forall e | e in g.edges && g.edges[e].parent.Some? && g.edges[e].bs.Some? && g.edges[e].parent.value in s
      ensures g.edges[e].bs.value in s
    {
      var p, n := g.edges[e].parent.value, g.edges[e].bs.value;
      assert Linked(g, p, n);
      if p == a {
        assert Reaches(g, n, n);
      } else {
        var m: NodeId :| Linked(g, a, m) && Reaches(g, m, p);
        ReachesStep(g, m, p, n);
      }
    }
    assert Closed(g, s);
  }

  /** bdrv_recurse_has_child: a depth-first search without a visited set. */
  predicate RecurseHasChild(g: Graph, bs: NodeId, child: NodeId)
    requires WellFormed(g) && Acyclic(g)
    ensures RecurseHasChild(g, bs, child) <==> Reaches(g, bs, child)
    decreases Subtree(g, bs)
  {
    assert bs != child && Reaches(g, bs, child) ==>
        exists e :: e in Children(g, bs) && Reaches(g, g.edges[e].bs.value, child) by {
      if bs != child && Reaches(g, bs, child) {
        ReachesByChild(g, bs, child);
        var m: NodeId :| Linked(g, bs, m) && Reaches(g, m, child);
        var e: EdgeId :| e in g.edges && g.edges[e].parent == Some(bs) && g.edges[e].bs == Some(m);
        assert e in Children(g, bs);
      }
    }
    bs == child ||
    exists e | e in Children(g, bs) ::
      assert Linked(g, bs, g.edges[e].bs.value);
      SubtreeShrinks(g, bs, g.edges[e].bs.value);
      RecurseHasChild(g, g.edges[e].bs.value, child)
  }
}
