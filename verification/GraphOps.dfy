/** The operations on the block graph (engine/qemu-wasm/block.c): what each of them may do to the
    graph, and what every finite run of them keeps. */
module GraphOps {
  import opened Options
  import opened Permissions
  import opened BlockGraph
  import opened GraphSearch
  import opened PermRefresh

  // --- edits ---

  function AddEdge(g: Graph, e: EdgeId, edge: Edge): Graph { g.(edges := g.edges[e := edge]) }

  function DropEdge(g: Graph, e: EdgeId): Graph { g.(edges := g.edges - {e}) }

  function Retarget(g: Graph, e: EdgeId, bs: Option<NodeId>): Graph
    requires e in g.edges
  {
    g.(edges := g.edges[e := g.edges[e].(bs := bs)])
  }

  function SetNeed(g: Graph, e: EdgeId, need: Need): Graph
    requires e in g.edges
  {
    g.(edges := g.edges[e := g.edges[e].(need := need)])
  }

  function Redirect(g: Graph, es: set<EdgeId>, to: NodeId): Graph {
    g.(edges := map e | e in g.edges :: if e in es then g.edges[e].(bs := Some(to)) else g.edges[e])
  }

  // --- the chain of COW and filter links ---

  /** bdrv_filter_or_cow_child: a filter's primary child, or another driver's COW child. */
  predicate ChainLink(g: Graph, e: EdgeId) {
    && e in g.edges && g.edges[e].bs.Some? && g.edges[e].parent.Some?
    && IsChainRole(g, g.edges[e].parent.value, g.edges[e].role)
  }

  predicate IsChainRole(g: Graph, n: NodeId, role: Role) {
    n in g.nodes && g.nodes[n].drv && if g.nodes[n].isFilter then role.primary else role.cow
  }

  predicate ChainFree(g: Graph, n: NodeId) {
    forall e | e in Children(g, n) :: !ChainLink(g, e)
  }

  ghost predicate UniqueChain(g: Graph) {
    forall a, b | ChainLink(g, a) && ChainLink(g, b) && g.edges[a].parent == g.edges[b].parent :: a == b
  }

  /** bs->backing */
  predicate IsBacking(g: Graph, n: NodeId, e: EdgeId) {
    && ChainLink(g, e) && g.edges[e].parent == Some(n)
    && (g.nodes[n].isFilter ==> g.nodes[n].filteredIsBacking)
  }

  /** `was` is the node's backing link, if it has one. */
  ghost predicate OldBacking(g: Graph, bs: NodeId, was: Option<EdgeId>) {
    if was.Some? then IsBacking(g, bs, was.value) else forall c :: !IsBacking(g, bs, c)
  }

  /** bdrv_backing_role, and the role bdrv_set_file_or_backing_noperm gives a backing child. */
  function BackingRole(node: Node): Role {
    if node.isFilter then Role(false, false, true, false, true) else Role(false, false, false, true, false)
  }

  // --- operations ---

  /** `e` names the edge an operation creates. */
  datatype Op =
    | RootAttach(e: EdgeId, child: NodeId, role: Role, need: Need, stay: bool)
    | Attach(e: EdgeId, parent: NodeId, child: NodeId, role: Role)
    | SetPerm(e: EdgeId, need: Need)
    | Unref(e: EdgeId)
    | SetBacking(e: EdgeId, bs: NodeId, backing: Option<NodeId>)
    | ReplaceNode(from: NodeId, to: NodeId, autoSkip: bool)
    | Append(e: EdgeId, bsNew: NodeId, bsTop: NodeId)

  /** What the code asserts of its callers. */
  predicate Allowed(g: Graph, op: Op) {
    match op
    case RootAttach(e, child, _, _, _) => e !in g.edges && child in g.nodes
    case Attach(e, parent, child, role) =>
      && e !in g.edges && parent in g.nodes && child in g.nodes && g.nodes[parent].drv
      && (IsChainRole(g, parent, role) ==> ChainFree(g, parent))
    case SetPerm(e, _) => e in g.edges && g.edges[e].bs.Some?
    case Unref(e) => e in g.edges && !g.edges[e].frozen
    case SetBacking(e, bs, backing) =>
      && e !in g.edges && bs in g.nodes && (backing.Some? ==> backing.value in g.nodes)
      && (backing.Some? && g.nodes[bs].isFilter && !g.nodes[bs].filteredIsBacking ==> ChainFree(g, bs))
    case ReplaceNode(from, to, _) => from in g.nodes && to in g.nodes && from != to
    case Append(e, bsNew, bsTop) =>
      && e !in g.edges && bsNew in g.nodes && bsTop in g.nodes && g.nodes[bsNew].drv && ChainFree(g, bsNew)
  }

  /** The edge bdrv_attach_child_noperm creates, with its provisional permissions. */
  ghost function NewEdge(env: Env, g: Graph, parent: NodeId, child: NodeId, role: Role): Edge {
    Edge(Some(parent), Some(child), role,
         ChildNeed(env, g, parent, None, role, child, Cumulative(g, parent)), false, false)
  }

  /** The end of a transaction that edited `g` into `h`: the permissions below `roots` are
      refreshed, or, exactly when that is impossible, everything is as before. */
  ghost predicate Transact(env: Env, g: Graph, h: Graph, roots: set<NodeId>, ok: bool, r: Graph) {
    if ok then Refreshed(env, h, Subtrees(h, roots), r)
    else r == g && forall x :: !Refreshed(env, h, Subtrees(h, roots), x)
  }

  ghost predicate Fails(g: Graph, ok: bool, r: Graph) { !ok && r == g }

  /** The parents of `from` that a replacement by `to` takes along: not those that stay at their
      node, and not those inside the subtree of `to`. */
  ghost function Movable(g: Graph, from: NodeId, to: NodeId): set<EdgeId> {
    set e | e in Parents(g, from) && !g.edges[e].stay && !InSubtree(g, e, to)
  }

  ghost predicate StepReplace(env: Env, g: Graph, from: NodeId, to: NodeId, autoSkip: bool, ok: bool, r: Graph) {
    var es := Movable(g, from, to);
    if (!autoSkip && es != Parents(g, from)) || exists e :: e in es && g.edges[e].frozen then Fails(g, ok, r)
    else Transact(env, g, Redirect(g, es, to), {from, to}, ok, r)
  }

  ghost predicate StepAppend(env: Env, g: Graph, e: EdgeId, bsNew: NodeId, bsTop: NodeId, ok: bool, r: Graph)
    requires bsNew in g.nodes
  {
    if Reaches(g, bsTop, bsNew) then Fails(g, ok, r)
    else
      var h := AddEdge(g, e, NewEdge(env, g, bsNew, bsTop, BackingRole(g.nodes[bsNew])));
      var es := Movable(h, bsTop, bsNew);
      if exists c :: c in es && h.edges[c].frozen then Fails(g, ok, r)
      else Transact(env, g, Redirect(h, es, bsNew), {bsNew}, ok, r)
  }

  /** The graph with the old backing link of `bs` cut; the edge object lives on until commit. */
  ghost function CutBacking(g: Graph, was: Option<EdgeId>): Graph
    requires was.Some? ==> was.value in g.edges
  {
    if was.Some? then Retarget(g, was.value, None) else g
  }

  ghost function BackingEdit(env: Env, g: Graph, e: EdgeId, bs: NodeId, backing: Option<NodeId>, was: Option<EdgeId>): Graph
    requires bs in g.nodes && (was.Some? ==> was.value in g.edges)
  {
    var cut := CutBacking(g, was);
    if backing.None? then cut
    else AddEdge(cut, e, NewEdge(env, cut, bs, backing.value, BackingRole(g.nodes[bs])))
  }

  ghost predicate StepSetBacking(env: Env, g: Graph, e: EdgeId, bs: NodeId, backing: Option<NodeId>,
                                 was: Option<EdgeId>, ok: bool, r: Graph)
    requires bs in g.nodes && OldBacking(g, bs, was)
  {
    if || !g.nodes[bs].drv
       || (was.Some? && g.edges[was.value].frozen)
       || (!g.nodes[bs].isFilter && !g.nodes[bs].supportsBacking)
    then Fails(g, ok, r)
    else
      var cut := CutBacking(g, was);
      if backing.Some? && Reaches(cut, backing.value, bs) then Fails(g, ok, r)
      else
        exists t ::
          && Transact(env, g, BackingEdit(env, g, e, bs, backing, was), {bs}, ok, t)
          && r == if ok && was.Some? then DropEdge(t, was.value) else t
  }

  ghost predicate StepUnref(env: Env, g: Graph, e: EdgeId, r: Graph)
    requires e in g.edges
  {
    var h := DropEdge(g, e);
    if g.edges[e].bs.None? then r == h else exists ok :: Transact(env, h, h, {g.edges[e].bs.value}, ok, r)
  }

  ghost predicate Step(env: Env, g: Graph, op: Op, ok: bool, r: Graph)
    requires Allowed(g, op)
  {
    match op
    case RootAttach(e, child, role, need, stay) =>
      Transact(env, g, AddEdge(g, e, Edge(None, Some(child), role, need, false, stay)), {child}, ok, r)
    case Attach(e, parent, child, role) =>
      if Reaches(g, child, parent) then Fails(g, ok, r)
      else Transact(env, g, AddEdge(g, e, NewEdge(env, g, parent, child, role)), {parent}, ok, r)
    case SetPerm(e, need) => Transact(env, g, SetNeed(g, e, need), {g.edges[e].bs.value}, ok, r)
    case Unref(e) => ok && StepUnref(env, g, e, r)
    case SetBacking(e, bs, backing) =>
      exists was: Option<EdgeId> ::
        && OldBacking(g, bs, was)
        && StepSetBacking(env, g, e, bs, backing, was, ok, r)
    case ReplaceNode(from, to, autoSkip) => StepReplace(env, g, from, to, autoSkip, ok, r)
    case Append(e, bsNew, bsTop) => StepAppend(env, g, e, bsNew, bsTop, ok, r)
  }

  // --- what every operation keeps ---

  ghost predicate NoConflicts(g: Graph) {
    forall n | n in g.nodes :: !Conflict(g, n)
  }

  /** Nobody may write to a node that is not open for writing. */
  ghost predicate NoStrayWriters(g: Graph) {
    forall e | e in g.edges && g.edges[e].bs.Some? && g.edges[e].bs.value in g.nodes ::
      var f := g.nodes[g.edges[e].bs.value].flags;
      Write in g.edges[e].need.perm || WriteUnchanged in g.edges[e].need.perm ==> f.rdwr && !f.inactive
  }

  ghost predicate Inv(g: Graph) {
    WellFormed(g) && Acyclic(g) && NoConflicts(g) && NoStrayWriters(g) && UniqueChain(g)
  }

  /** Same links, whatever the permissions. */
  ghost predicate SameLinks(g: Graph, g': Graph) {
    && g'.nodes == g.nodes && g'.edges.Keys == g.edges.Keys
    && forall e | e in g.edges :: g'.edges[e] == g.edges[e].(need := g'.edges[e].need)
  }

  /** Every link of `g'` is a link of `g`. */
  lemma FewerLinksAcyclic(g: Graph, g': Graph)
    requires Acyclic(g) && forall a: NodeId, b: NodeId :: Linked(g', a, b) ==> Linked(g, a, b)
    ensures Acyclic(g')
  {
    forall a: NodeId, b: NodeId | Linked(g', a, b) ensures !Reaches(g', b, a) {
      assert !Reaches(g, b, a);
      var s: set<NodeId> :| Closed(g, s) && b in s && a !in s;
      forall e | e in g'.edges && g'.edges[e].parent.Some? && g'.edges[e].bs.Some? && g'.edges[e].parent.value in s
        ensures g'.edges[e].bs.value in s
      {
        assert Linked(g', g'.edges[e].parent.value, g'.edges[e].bs.value);
        var c: EdgeId :| c in g.edges && g.edges[c].parent == g'.edges[e].parent && g.edges[c].bs == g'.edges[e].bs;
      }
      assert Closed(g', s);
    }
  }

  lemma SameLinksKeep(g: Graph, g': Graph)
    requires SameLinks(g, g') && WellFormed(g) && Acyclic(g) && UniqueChain(g)
    ensures WellFormed(g') && Acyclic(g') && UniqueChain(g')
  {
    forall a: NodeId, b: NodeId | Linked(g', a, b) ensures Linked(g, a, b) {
      var e: EdgeId :| e in g'.edges && g'.edges[e].parent == Some(a) && g'.edges[e].bs == Some(b);
      assert e in g.edges && g.edges[e].parent == Some(a) && g.edges[e].bs == Some(b);
    }
    FewerLinksAcyclic(g, g');
    forall e | e in g.edges ensures ChainLink(g', e) == ChainLink(g, e) {}
  }

  /** A new edge from `p` to `c` makes no cycle when `p` is not in the subtree of `c`. */
  lemma AddEdgeAcyclic(g: Graph, e: EdgeId, edge: Edge)
    requires WellFormed(g) && Acyclic(g) && e !in g.edges
    requires edge.parent.Some? ==> edge.parent.value in g.nodes
    requires edge.bs.Some? ==> edge.bs.value in g.nodes
    requires edge.parent.Some? && edge.bs.Some? ==> !Reaches(g, edge.bs.value, edge.parent.value)
    ensures WellFormed(AddEdge(g, e, edge)) && Acyclic(AddEdge(g, e, edge))
  {
    var h := AddEdge(g, e, edge);
    forall a: NodeId, b: NodeId | Linked(h, a, b) ensures !Reaches(h, b, a) {
      if edge.parent == Some(a) && edge.bs == Some(b) {
        if Reaches(h, b, a) { NewEdgeReach(g, e, edge, b, a); }
      } else {
        assert Linked(g, a, b);
        if Reaches(h, b, a) {
          NewEdgeReach(g, e, edge, b, a);
          var p, c := edge.parent.value, edge.bs.value;
          ReachesStep(g, c, a, b);
          ReachesTrans(g, c, b, p);
        }
      }
    }
  }

  /** What the new edge adds to reachability. */
  lemma NewEdgeReach(g: Graph, e: EdgeId, edge: Edge, x: NodeId, y: NodeId)
    requires WellFormed(g) && e !in g.edges && x in g.nodes
    requires edge.bs.Some? ==> edge.bs.value in g.nodes
    requires Reaches(AddEdge(g, e, edge), x, y)
    ensures Reaches(g, x, y) || (edge.parent.Some? && edge.bs.Some? && Reaches(g, x, edge.parent.value)
                                 && Reaches(g, edge.bs.value, y))
  {
    var h := AddEdge(g, e, edge);
    var s := set n | n in g.nodes && (Reaches(g, x, n)
               || (edge.parent.Some? && edge.bs.Some? && Reaches(g, x, edge.parent.value) && Reaches(g, edge.bs.value, n)));
    forall c | c in h.edges && h.edges[c].parent.Some? && h.edges[c].bs.Some? && h.edges[c].parent.value in s
      ensures h.edges[c].bs.value in s
    {
      if c != e {
        var m, n := g.edges[c].parent.value, g.edges[c].bs.value;
        assert Linked(g, m, n);
        if Reaches(g, x, m) { ReachesStep(g, x, m, n); } else { ReachesStep(g, edge.bs.value, m, n); }
      }
    }
    assert Closed(h, s);
  }

  /** Redirecting edges that lie outside the subtree of `to` changes neither that subtree nor
      acyclicity. */
  lemma RedirectAcyclic(g: Graph, es: set<EdgeId>, to: NodeId)
    requires WellFormed(g) && Acyclic(g) && to in g.nodes
    requires forall e | e in es && e in g.edges :: g.edges[e].bs.Some? && !InSubtree(g, e, to)
    ensures WellFormed(Redirect(g, es, to)) && Acyclic(Redirect(g, es, to))
    ensures Subtree(Redirect(g, es, to), to) == Subtree(g, to)
  {
    var h := Redirect(g, es, to);
    var r := Subtree(g, to);
    SubtreeClosed(g, to);
    assert Closed(h, r);
    forall a: NodeId, b: NodeId | Linked(h, a, b) ensures !Reaches(h, b, a) {
      RedirectLink(g, es, to, a, b);
      var s := set n | n in g.nodes && if b in r then n in r && Reaches(g, b, n) else n in r || Reaches(g, b, n);
      forall c | c in h.edges && h.edges[c].parent.Some? && h.edges[c].bs.Some? && h.edges[c].parent.value in s
        ensures h.edges[c].bs.value in s
      {
        var m, n := h.edges[c].parent.value, h.edges[c].bs.value;
        if c !in es {
          assert Linked(g, m, n);
          if Reaches(g, b, m) { ReachesStep(g, b, m, n); }
        }
      }
      assert Closed(h, s) && b in s;
    }
    forall n | n in r ensures Reaches(h, to, n) {
      forall s: set<NodeId> | Closed(h, s) && to in s ensures n in s {
        var t := s * r;
        assert Closed(g, t) by {
          forall c | c in g.edges && g.edges[c].parent.Some? && g.edges[c].bs.Some? && g.edges[c].parent.value in t
            ensures g.edges[c].bs.value in t
          {
            assert c !in es;
            assert h.edges[c] == g.edges[c];
          }
        }
      }
    }
  }

  lemma RedirectLink(g: Graph, es: set<EdgeId>, to: NodeId, a: NodeId, b: NodeId)
    requires WellFormed(g) && Acyclic(g) && to in g.nodes
    requires forall e | e in es && e in g.edges :: g.edges[e].bs.Some? && !InSubtree(g, e, to)
    requires Linked(Redirect(g, es, to), a, b)
    ensures a in g.nodes && b in g.nodes
    ensures (b == to && a !in Subtree(g, to)) || (Linked(g, a, b) && !Reaches(g, b, a))
    ensures a in Subtree(g, to) ==> b in Subtree(g, to) && Linked(g, a, b)
  {}

  /** Outside the refreshed subtrees nothing new points at a node. */
  ghost predicate NewEdgesInside(g: Graph, h: Graph, s: set<NodeId>) {
    && h.nodes == g.nodes
    && forall e | e in h.edges && h.edges[e].bs.Some? && h.edges[e].bs.value !in s ::
         e in g.edges && g.edges[e].bs == h.edges[e].bs && g.edges[e].need == h.edges[e].need
  }

  lemma RefreshKeepsNoConflicts(env: Env, g: Graph, h: Graph, s: set<NodeId>, r: Graph)
    requires NoConflicts(g) && Closed(h, s) && NewEdgesInside(g, h, s) && Refreshed(env, h, s, r)
    ensures NoConflicts(r)
  {}

  lemma RefreshKeepsWriters(env: Env, g: Graph, h: Graph, s: set<NodeId>, r: Graph)
    requires NoStrayWriters(g) && Closed(h, s) && NewEdgesInside(g, h, s) && Refreshed(env, h, s, r)
    ensures NoStrayWriters(r)
  {
    hide Conflict, Settled;
    AllPerms();
    forall e | e in r.edges && r.edges[e].bs.Some? && r.edges[e].bs.value in s
      ensures r.edges[e].need.perm <= Cumulative(r, r.edges[e].bs.value).perm && ConsistentNode(env, r, r.edges[e].bs.value)
    {
      assert e in Parents(r, r.edges[e].bs.value);
    }
  }

  lemma SubtreesClosed(g: Graph, roots: set<NodeId>)
    requires WellFormed(g)
    ensures Closed(g, Subtrees(g, roots))
    ensures forall r | r in roots && r in g.nodes :: r in Subtrees(g, roots)
  {}

  /** A transaction whose edit is sound keeps the invariant, whether it succeeds or fails. */
  lemma TransactKeeps(env: Env, g: Graph, h: Graph, roots: set<NodeId>, ok: bool, r: Graph)
    requires Inv(g) && WellFormed(h) && Acyclic(h) && UniqueChain(h)
    requires NewEdgesInside(g, h, Subtrees(h, roots)) && Transact(env, g, h, roots, ok, r)
    ensures Inv(r)
  {
    if ok {
      SubtreesClosed(h, roots);
      RefreshKeepsNoConflicts(env, g, h, Subtrees(h, roots), r);
      RefreshKeepsWriters(env, g, h, Subtrees(h, roots), r);
      SameLinksKeep(h, r);
    }
  }

  lemma AttachKeeps(env: Env, g: Graph, e: EdgeId, edge: Edge, root: NodeId, ok: bool, r: Graph)
    requires Inv(g) && e !in g.edges && edge.bs.Some? && edge.bs.value in g.nodes
    requires root == if edge.parent.Some? then edge.parent.value else edge.bs.value
    requires edge.parent.Some? ==>
               && edge.parent.value in g.nodes && !Reaches(g, edge.bs.value, edge.parent.value)
               && (IsChainRole(g, edge.parent.value, edge.role) ==> ChainFree(g, edge.parent.value))
    requires Transact(env, g, AddEdge(g, e, edge), {root}, ok, r)
    ensures Inv(r)
  {
    var h := AddEdge(g, e, edge);
    AddEdgeAcyclic(g, e, edge);
    AddEdgeChain(g, e, edge);
    SubtreesClosed(h, {root});
    if edge.parent.Some? { assert h.edges[e].bs.value in Subtrees(h, {root}); }
    TransactKeeps(env, g, h, {root}, ok, r);
  }

  lemma AddEdgeChain(g: Graph, e: EdgeId, edge: Edge)
    requires UniqueChain(g) && e !in g.edges
    requires edge.parent.Some? && IsChainRole(g, edge.parent.value, edge.role) ==> ChainFree(g, edge.parent.value)
    ensures UniqueChain(AddEdge(g, e, edge))
  {
    var h := AddEdge(g, e, edge);
    forall a | a != e ensures ChainLink(h, a) == ChainLink(g, a) {}
    forall a | ChainLink(g, a) ensures a in Children(g, g.edges[a].parent.value) {}
  }

  lemma ReplaceKeeps(env: Env, g: Graph, h: Graph, from: NodeId, to: NodeId, roots: set<NodeId>, ok: bool, r: Graph)
    requires Inv(g) && WellFormed(h) && Acyclic(h) && UniqueChain(h) && h.nodes == g.nodes && to in h.nodes
    requires forall e | e in h.edges :: (e in g.edges && h.edges[e] == g.edges[e]) || h.edges[e].parent == Some(to)
    requires to in roots && Transact(env, g, Redirect(h, Movable(h, from, to), to), roots, ok, r)
    ensures Inv(r)
  {
    var es := Movable(h, from, to);
    RedirectAcyclic(h, es, to);
    RedirectChain(h, es, to);
    RedirectInside(g, h, es, to, roots);
    TransactKeeps(env, g, Redirect(h, es, to), roots, ok, r);
  }

  lemma RedirectChain(g: Graph, es: set<EdgeId>, to: NodeId)
    requires UniqueChain(g) && forall e | e in es && e in g.edges :: g.edges[e].bs.Some?
    ensures UniqueChain(Redirect(g, es, to))
  {}

  /** Whatever an edit added or moved points into the subtree of `to`. */
  lemma RedirectInside(g: Graph, h: Graph, es: set<EdgeId>, to: NodeId, roots: set<NodeId>)
    requires WellFormed(Redirect(h, es, to)) && h.nodes == g.nodes && to in h.nodes && to in roots
    requires forall e | e in h.edges :: (e in g.edges && h.edges[e] == g.edges[e]) || h.edges[e].parent == Some(to)
    ensures NewEdgesInside(g, Redirect(h, es, to), Subtrees(Redirect(h, es, to), roots))
  {}

  lemma CutKeeps(g: Graph, e: EdgeId)
    requires Inv(g) && e in g.edges
    ensures Inv(DropEdge(g, e)) && Inv(Retarget(g, e, None))
  {
    var d, c := DropEdge(g, e), Retarget(g, e, None);
    forall h | h in {d, c} ensures Inv(h) {
      forall x: NodeId, y: NodeId | Linked(h, x, y) ensures Linked(g, x, y) {
        var k: EdgeId :| k in h.edges && h.edges[k].parent == Some(x) && h.edges[k].bs == Some(y);
        assert g.edges[k] == h.edges[k];
      }
      FewerLinksAcyclic(g, h);
      forall n | n in h.nodes ensures !Conflict(h, n) {
        assert !Conflict(g, n);
        assert Parents(h, n) <= Parents(g, n);
        assert forall k | k in Parents(h, n) :: h.edges[k] == g.edges[k];
      }
      forall k | ChainLink(h, k) ensures ChainLink(g, k) && g.edges[k] == h.edges[k] {}
    }
  }

  lemma UnrefKeeps(env: Env, g: Graph, e: EdgeId, r: Graph)
    requires Inv(g) && e in g.edges && StepUnref(env, g, e, r)
    ensures Inv(r)
  {
    CutKeeps(g, e);
    var h := DropEdge(g, e);
    if g.edges[e].bs.Some? {
      var ok :| Transact(env, h, h, {g.edges[e].bs.value}, ok, r);
      TransactKeeps(env, h, h, {g.edges[e].bs.value}, ok, r);
    }
  }

  lemma BackingEditSound(env: Env, g: Graph, e: EdgeId, bs: NodeId, backing: Option<NodeId>, was: Option<EdgeId>)
    requires Inv(g) && Allowed(g, SetBacking(e, bs, backing))
    requires OldBacking(g, bs, was)
    requires backing.Some? ==> !Reaches(CutBacking(g, was), backing.value, bs)
    ensures var h := BackingEdit(env, g, e, bs, backing, was);
            && WellFormed(h) && Acyclic(h) && UniqueChain(h)
            && NewEdgesInside(g, h, Subtrees(h, {bs}))
  {
    var cut := CutBacking(g, was);
    if was.Some? { CutKeeps(g, was.value); }
    var h := BackingEdit(env, g, e, bs, backing, was);
    if backing.Some? {
      CutIsChainFree(g, bs, was, backing);
      AddEdgeAcyclic(cut, e, h.edges[e]);
      AddEdgeChain(cut, e, h.edges[e]);
    }
    SubtreesClosed(h, {bs});
  }

  lemma SetBackingKeeps(env: Env, g: Graph, e: EdgeId, bs: NodeId, backing: Option<NodeId>, was: Option<EdgeId>, ok: bool, r: Graph)
    requires Inv(g) && Allowed(g, SetBacking(e, bs, backing))
    requires OldBacking(g, bs, was)
    requires StepSetBacking(env, g, e, bs, backing, was, ok, r)
    ensures Inv(r)
  {
    if r != g {
      BackingEditSound(env, g, e, bs, backing, was);
      var h := BackingEdit(env, g, e, bs, backing, was);
      var t :| Transact(env, g, h, {bs}, ok, t) && r == if ok && was.Some? then DropEdge(t, was.value) else t;
      TransactKeeps(env, g, h, {bs}, ok, t);
      if was.Some? { CutKeeps(t, was.value); }
    }
  }

  /** Cutting the old backing link leaves room for the new one. */
  lemma CutIsChainFree(g: Graph, bs: NodeId, was: Option<EdgeId>, backing: Option<NodeId>)
    requires UniqueChain(g) && bs in g.nodes && backing.Some?
    requires OldBacking(g, bs, was)
    requires g.nodes[bs].isFilter && !g.nodes[bs].filteredIsBacking ==> ChainFree(g, bs)
    ensures ChainFree(CutBacking(g, was), bs)
  {
    var cut := CutBacking(g, was);
    forall e | e in Children(cut, bs) ensures !ChainLink(cut, e) {
      if ChainLink(cut, e) {
        assert ChainLink(g, e) && e in Children(g, bs);
        assert IsBacking(g, bs, e);
      }
    }
  }

  /** Every operation, succeeding or failing, keeps the graph acyclic and free of conflicts. */
  lemma StepKeeps(env: Env, g: Graph, op: Op, ok: bool, r: Graph)
    requires Inv(g) && Allowed(g, op) && Step(env, g, op, ok, r)
    ensures Inv(r)
  {
    hide Transact, Reaches, Movable, UniqueChain, NoConflicts, Acyclic, StepSetBacking, StepUnref;
    match op
    case RootAttach(e, child, role, need, stay) =>
      AttachKeeps(env, g, e, Edge(None, Some(child), role, need, false, stay), child, ok, r);
    case Attach(e, parent, child, role) =>
      if !Reaches(g, child, parent) {
        AttachKeeps(env, g, e, NewEdge(env, g, parent, child, role), parent, ok, r);
      }
    case SetPerm(e, need) =>
      var h := SetNeed(g, e, need);
      SameLinksKeep(g, h);
      SubtreesClosed(h, {g.edges[e].bs.value});
      TransactKeeps(env, g, h, {g.edges[e].bs.value}, ok, r);
    case Unref(e) => UnrefKeeps(env, g, e, r);
    case SetBacking(e, bs, backing) =>
      var was: Option<EdgeId> :|
        && OldBacking(g, bs, was)
        && StepSetBacking(env, g, e, bs, backing, was, ok, r);
      SetBackingKeeps(env, g, e, bs, backing, was, ok, r);
    case ReplaceNode(from, to, autoSkip) =>
      if r != g { ReplaceKeeps(env, g, g, from, to, {from, to}, ok, r); }
    case Append(e, bsNew, bsTop) =>
      if r != g {
        var h := AddEdge(g, e, NewEdge(env, g, bsNew, bsTop, BackingRole(g.nodes[bsNew])));
        AddEdgeAcyclic(g, e, h.edges[e]);
        AddEdgeChain(g, e, h.edges[e]);
        ReplaceKeeps(env, g, h, bsTop, bsNew, {bsNew}, ok, r);
      }
  }
}
