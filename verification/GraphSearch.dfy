/** The two graph searches of engine/qemu-wasm/block.c: bdrv_topological_dfs, and the breadth-first
    search of should_update_child. */
module GraphSearch {
  import opened BlockGraph

  ghost function Elems(s: seq<NodeId>): set<NodeId> { set n | n in s }

  ghost predicate NoDuplicates(s: seq<NodeId>) {
    forall i, j | 0 <= i < j < |s| :: s[i] != s[j]
  }

  /** What bdrv_topological_dfs documents for its list: no node twice, parents before children,
      and the whole subtree of every node. */
  ghost predicate Topological(g: Graph, s: seq<NodeId>) {
    && NoDuplicates(s)
    && Closed(g, Elems(s))
    && forall i, j | 0 <= i < |s| && 0 <= j < |s| && Linked(g, s[i], s[j]) :: i < j
  }

  /** A closed list that contains a node contains its subtree. */
  lemma ListHasSubtree(g: Graph, s: seq<NodeId>, n: NodeId)
    requires Closed(g, Elems(s)) && n in s
    ensures Subtree(g, n) <= Elems(s)
  {}

  lemma PrependTopological(g: Graph, s: seq<NodeId>, n: NodeId)
    requires Topological(g, s) && n !in s && !Linked(g, n, n)
    requires forall e | e in Children(g, n) :: g.edges[e].bs.value in s
    ensures Topological(g, [n] + s)
  {}

  /** `found` holds the list and the nodes whose calls are still open; those are ancestors of the
      node being visited. */
  ghost predicate OpenAbove(g: Graph, list: seq<NodeId>, found: set<NodeId>, bs: NodeId) {
    forall s | s in found && s !in list :: Reaches(g, s, bs) && !Reaches(g, bs, s)
  }

  /** bdrv_topological_dfs. Terminates because the set of nodes not found yet shrinks. */
  method TopologicalDfs(g: Graph, list: seq<NodeId>, found: set<NodeId>, bs: NodeId)
    returns (list': seq<NodeId>, found': set<NodeId>)
    requires WellFormed(g) && Acyclic(g) && bs in g.nodes
    requires Topological(g, list) && Elems(list) <= found <= g.nodes.Keys
    requires OpenAbove(g, list, found, bs)
    ensures Topological(g, list')
    ensures Elems(list') == Elems(list) + Subtree(g, bs)
    ensures found' == found + Elems(list')
    decreases g.nodes.Keys - found
  {
    list', found' := list, found;
    if bs in found {
      assert bs in list;
      ListHasSubtree(g, list, bs);
      return;
    }
    found' := found' + {bs};
    var todo := Children(g, bs);
    while todo != {}
      invariant todo <= Children(g, bs)
      invariant Topological(g, list')
      invariant Elems(list) <= Elems(list') <= Elems(list) + (Subtree(g, bs) - {bs})
      invariant found' == found + {bs} + Elems(list')
      invariant Targets(g, Children(g, bs) - todo) <= Elems(list')
    {
      var e: EdgeId :| e in todo;
      var next := g.edges[e].bs.value;
      todo := todo - {e};
      OpenStaysAbove(g, list, found, list', bs, e);
      list', found' := TopologicalDfs(g, list', found', next);
      assert next in Subtree(g, next);
    }
    assert Children(g, bs) - todo == Children(g, bs);
    PrependNode(g, list, list', bs);
    list' := [bs] + list';
  }

  ghost function Targets(g: Graph, es: set<EdgeId>): set<NodeId> {
    set e | e in es && e in g.edges && g.edges[e].bs.Some? :: g.edges[e].bs.value
  }

  lemma PrependNode(g: Graph, list: seq<NodeId>, s: seq<NodeId>, bs: NodeId)
    requires WellFormed(g) && Acyclic(g) && bs in g.nodes && Topological(g, s)
    requires Elems(list) <= Elems(s) <= Elems(list) + (Subtree(g, bs) - {bs}) && bs !in list
    requires Targets(g, Children(g, bs)) <= Elems(s)
    ensures Topological(g, [bs] + s) && Elems([bs] + s) == Elems(list) + Subtree(g, bs)
    ensures Elems([bs] + s) == Elems(s) + {bs}
  {
    assert Linked(g, bs, bs) ==> !Reaches(g, bs, bs);
    assert bs !in Elems(s);
    forall e | e in Children(g, bs) ensures g.edges[e].bs.value in s {
      assert g.edges[e].bs.value in Targets(g, Children(g, bs));
      assert g.edges[e].bs.value in Elems(s);
    }
    PrependTopological(g, s, bs);
    var t := [bs] + s;
    assert Elems(t) == Elems(s) + {bs};
    SubtreeClosed(g, bs);
    ListHasSubtree(g, t, bs);
  }

  lemma OpenStaysAbove(g: Graph, list: seq<NodeId>, found: set<NodeId>, list': seq<NodeId>, bs: NodeId, e: EdgeId)
    requires WellFormed(g) && Acyclic(g) && e in Children(g, bs) && OpenAbove(g, list, found, bs)
    requires Elems(list) <= Elems(list')
    ensures OpenAbove(g, list', found + {bs} + Elems(list'), g.edges[e].bs.value)
    ensures g.edges[e].bs.value in g.nodes && Subtree(g, g.edges[e].bs.value) <= Subtree(g, bs) - {bs}
  {
    var next := g.edges[e].bs.value;
    assert Linked(g, bs, next);
    SubtreeShrinks(g, bs, next);
    forall s | s in found + {bs} + Elems(list') && s !in list' ensures Reaches(g, s, next) && !Reaches(g, next, s) {
      assert s in Elems(list) ==> s in Elems(list');
      ReachesStep(g, s, bs, next);
      if Reaches(g, next, s) {
        ReachesStep(g, bs, bs, next);
        ReachesTrans(g, bs, next, s);
      }
    }
  }

  /** The nodes of several starting points, as bdrv_list_refresh_perms collects them. */
  ghost function Subtrees(g: Graph, roots: set<NodeId>): set<NodeId> {
    set n | n in g.nodes && exists r :: r in roots && Reaches(g, r, n)
  }

  method CollectSubtrees(g: Graph, roots: seq<NodeId>) returns (list: seq<NodeId>)
    requires WellFormed(g) && Acyclic(g) && forall r | r in roots :: r in g.nodes
    ensures Topological(g, list) && Elems(list) == Subtrees(g, Elems(roots))
  {
    list := [];
    var found: set<NodeId> := {};
    for i := 0 to |roots|
      invariant Topological(g, list) && found == Elems(list) == Subtrees(g, Elems(roots[..i]))
    {
      list, found := TopologicalDfs(g, list, found, roots[i]);
      assert Elems(roots[..i + 1]) == Elems(roots[..i]) + {roots[i]};
    }
    assert roots[..|roots|] == roots;
  }

  /** should_update_child: false exactly for edges that stay at their node and for edges that lie
      in the subtree of `to`. */
  method ShouldUpdateChild(g: Graph, c: EdgeId, to: NodeId) returns (ret: bool)
    requires WellFormed(g) && to in g.nodes && c in g.edges && g.edges[c].bs.Some?
    ensures ret <==> !g.edges[c].stay && !InSubtree(g, c, to)
  {
    if g.edges[c].stay {
      return false;
    }
    SubtreeClosed(g, to);
    ret := true;
    var found := {to};
    var queue := [to];
    while queue != []
      invariant Elems(queue) <= found <= Subtree(g, to) && to in found
      invariant !ret ==> InSubtree(g, c, to)
      invariant ret ==> forall v | v in found && v !in queue :: Explored(g, v, found, c)
      decreases g.nodes.Keys - found, |queue|
    {
      var v := queue[0];
      queue := queue[1..];
      ghost var before := found;
      ghost var rest := queue;
      var todo := Children(g, v);
      while todo != {}
        invariant todo <= Children(g, v)
        invariant Elems(queue) <= found <= Subtree(g, to) && before <= found && rest <= queue
        invariant found == before ==> queue == rest
        invariant !ret ==> InSubtree(g, c, to)
        invariant ret ==> forall e | e in Children(g, v) && e !in todo :: e != c && g.edges[e].bs.value in found
        invariant forall u | u in found && u !in before :: u in queue
      {
        var c2: EdgeId :| c2 in todo;
        todo := todo - {c2};
        if c2 == c {
          ret := false;
          break;
        }
        if g.edges[c2].bs.value in found {
          continue;
        }
        queue := queue + [g.edges[c2].bs.value];
        found := found + {g.edges[c2].bs.value};
      }
      assert ret ==> Explored(g, v, found, c);
      forall u | ret && u in found && u !in queue ensures Explored(g, u, found, c) {
        assert u in before;
        if u != v { assert Explored(g, u, before, c); }
      }
    }
    if ret {
      assert Closed(g, found) by {
        forall e | e in g.edges && g.edges[e].parent.Some? && g.edges[e].bs.Some? && g.edges[e].parent.value in found
          ensures g.edges[e].bs.value in found
        {
          assert Explored(g, g.edges[e].parent.value, found, c);
          assert e in Children(g, g.edges[e].parent.value);
        }
      }
      assert forall v | v in found :: Explored(g, v, found, c);
    }
  }

  ghost predicate InSubtree(g: Graph, c: EdgeId, to: NodeId)
    requires c in g.edges
  {
    g.edges[c].parent.Some? && g.edges[c].parent.value in Subtree(g, to)
  }

  /** All children of `v` were looked at, and `c` was not among them. */
  ghost predicate Explored(g: Graph, v: NodeId, found: set<NodeId>, c: EdgeId) {
    forall e | e in Children(g, v) :: e != c && g.edges[e].bs.value in found
  }
}
