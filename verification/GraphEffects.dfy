/** What a successful graph operation has done to the links of the block graph
    (engine/qemu-wasm/block.c), edge by edge: which edges exist, where they lead and in which role,
    and what becomes of the backing chains. */
module GraphEffects {
  import opened Options
  import opened BlockGraph
  import opened GraphSearch
  import opened PermRefresh
  import opened GraphOps
  import opened GraphRuns

  /** Apart from permissions, all edges but `gone` are as before, and `made` are the new ones. */
  ghost predicate OtherLinksStay(g: Graph, r: Graph, gone: set<EdgeId>, made: set<EdgeId>) {
    && r.nodes == g.nodes && r.edges.Keys == (g.edges.Keys - gone) + made
    && forall c | c in g.edges && c !in gone :: r.edges[c] == g.edges[c].(need := r.edges[c].need)
  }

  /** A new edge from `parent` to `child`. */
  ghost predicate NewLink(r: Graph, e: EdgeId, parent: NodeId, child: NodeId) {
    && e in r.edges && r.edges[e].parent == Some(parent) && r.edges[e].bs == Some(child)
    && !r.edges[e].frozen && !r.edges[e].stay
  }

  /** A new backing link: for copy-on-write, or the filtered and primary child of a filter. */
  ghost predicate NewBacking(r: Graph, e: EdgeId, parent: NodeId, child: NodeId) {
    && NewLink(r, e, parent, child) && parent in r.nodes
    && ValidBackingRole(r, e, r.nodes[parent].isFilter)
    && ChainLink(r, e) && forall c | ChainLink(r, c) && r.edges[c].parent == Some(parent) :: c == e
  }

  ghost predicate ValidBackingRole(r: Graph, e: EdgeId, filter: bool)
    requires e in r.edges
  {
    var role := r.edges[e].role;
    !role.data && !role.metadata && role.filtered == filter && role.primary == filter && role.cow == !filter
  }

  /** The edge goes along when `from` is replaced by `to`: it is a parent of `from` that does not stay
      with it, and its owner is not in the subtree of `to`. */
  ghost predicate Follows(g: Graph, c: EdgeId, from: NodeId, to: NodeId)
    requires c in g.edges
  {
    && g.edges[c].bs == Some(from) && !g.edges[c].stay
    && (g.edges[c].parent.Some? ==> !Reaches(g, to, g.edges[c].parent.value))
  }

  ghost predicate ParentsMoved(g: Graph, r: Graph, from: NodeId, to: NodeId) {
    forall c | c in g.edges ::
      && c in r.edges
      && r.edges[c] == g.edges[c].(need := r.edges[c].need,
                                   bs := if Follows(g, c, from, to) then Some(to) else g.edges[c].bs)
  }

  /** What each operation is for. */
  ghost predicate Effect(g: Graph, op: Op, r: Graph) {
    match op
    case RootAttach(e, child, role, need, stay) =>
      OtherLinksStay(g, r, {}, {e}) && r.edges[e] == Edge(None, Some(child), role, need, false, stay)
    case Attach(e, parent, child, role) =>
      OtherLinksStay(g, r, {}, {e}) && NewLink(r, e, parent, child) && r.edges[e].role == role
    case SetPerm(e, need) => OtherLinksStay(g, r, {}, {}) && e in r.edges && r.edges[e].need == need
    case Unref(e) => OtherLinksStay(g, r, {e}, {})
    case SetBacking(e, bs, backing) =>
      var gone := set c | c in g.edges && IsBacking(g, bs, c);
      if backing.Some? then OtherLinksStay(g, r, gone, {e}) && NewBacking(r, e, bs, backing.value)
      else OtherLinksStay(g, r, gone, {}) && forall c :: !IsBacking(r, bs, c)
    case ReplaceNode(from, to, autoSkip) =>
      && r.nodes == g.nodes && r.edges.Keys == g.edges.Keys && ParentsMoved(g, r, from, to)
      && (!autoSkip ==> Parents(r, from) == {})
    case Append(e, bsNew, bsTop) =>
      && r.nodes == g.nodes && r.edges.Keys == g.edges.Keys + {e} && ParentsMoved(g, r, bsTop, bsNew)
      && NewBacking(r, e, bsNew, bsTop)
  }

  // --- the operations have their effects ---

  lemma TransactLinks(env: Env, g: Graph, h: Graph, roots: set<NodeId>, r: Graph)
    requires Transact(env, g, h, roots, true, r)
    ensures SameLinks(h, r)
  {}

  lemma RootAttachEffect(env: Env, g: Graph, op: Op, r: Graph)
    requires op.RootAttach? && Allowed(g, op) && Step(env, g, op, true, r)
    ensures Effect(g, op, r)
  {
    hide Consistent, Subtrees;
  }

  lemma AttachEffect(env: Env, g: Graph, op: Op, r: Graph)
    requires op.Attach? && Allowed(g, op) && Step(env, g, op, true, r)
    ensures Effect(g, op, r)
  {
    hide ChildNeed, Cumulative, Reaches, Transact;
    var h := AddEdge(g, op.e, NewEdge(env, g, op.parent, op.child, op.role));
    TransactLinks(env, g, h, {op.parent}, r);
  }

  lemma SetPermEffect(env: Env, g: Graph, op: Op, r: Graph)
    requires op.SetPerm? && Inv(g) && Allowed(g, op) && Step(env, g, op, true, r)
    ensures Effect(g, op, r)
  {
    hide Subtrees, Owned, Consistent, Acyclic, NoConflicts, UniqueChain;
    var e, bs := op.e, g.edges[op.e].bs.value;
    var h := SetNeed(g, e, op.need);
    SameLinksKeep(g, h);
    AboveIsNotOwned(h, e, bs);
  }

  /** An edge to a node is not owned below that node. */
  lemma AboveIsNotOwned(g: Graph, e: EdgeId, bs: NodeId)
    requires Acyclic(g) && e in g.edges && g.edges[e].bs == Some(bs)
    ensures !Owned(g, e, Subtrees(g, {bs}))
  {
    hide Reaches;
    if g.edges[e].parent.Some? { assert Linked(g, g.edges[e].parent.value, bs); }
  }

  lemma UnrefEffect(env: Env, g: Graph, op: Op, r: Graph)
    requires op.Unref? && Allowed(g, op) && Step(env, g, op, true, r)
    ensures Effect(g, op, r)
  {}

  lemma ReplaceEffect(env: Env, g: Graph, op: Op, r: Graph)
    requires op.ReplaceNode? && Inv(g) && Allowed(g, op) && Step(env, g, op, true, r)
    ensures Effect(g, op, r)
  {
    hide Transact, Reaches, Acyclic, NoConflicts, UniqueChain;
    var es := Movable(g, op.from, op.to);
    TransactLinks(env, g, Redirect(g, es, op.to), {op.from, op.to}, r);
  }

  lemma AppendEffect(env: Env, g: Graph, op: Op, r: Graph)
    requires op.Append? && Inv(g) && Allowed(g, op) && Step(env, g, op, true, r)
    ensures Effect(g, op, r)
  {
    hide Transact, Reaches, Acyclic, NoConflicts, UniqueChain, ChildNeed, Cumulative;
    var Append(e, bsNew, bsTop) := op;
    StepKeeps(env, g, op, true, r);
    var h := AddEdge(g, e, NewEdge(env, g, bsNew, bsTop, BackingRole(g.nodes[bsNew])));
    var es := Movable(h, bsTop, bsNew);
    TransactLinks(env, g, Redirect(h, es, bsNew), {bsNew}, r);
    forall c | c in h.edges ensures c in es <==> c != e && Follows(g, c, bsTop, bsNew) {
      AppendMoves(g, h, e, c, bsNew, bsTop);
    }
    OnlyLink(r, e);
  }

  /** Whom appending takes along, told from the graph before the new edge. */
  lemma AppendMoves(g: Graph, h: Graph, e: EdgeId, c: EdgeId, bsNew: NodeId, bsTop: NodeId)
    requires Inv(g) && e !in g.edges && bsNew in g.nodes && bsTop in g.nodes && c in h.edges
    requires e in h.edges && h == AddEdge(g, e, h.edges[e]) && NewLink(h, e, bsNew, bsTop)
    ensures c in Movable(h, bsTop, bsNew) <==> c != e && Follows(g, c, bsTop, bsNew)
  {
    if c != e && g.edges[c].bs == Some(bsTop) && g.edges[c].parent.Some? {
      var p := g.edges[c].parent.value;
      assert Linked(g, p, bsTop);
      if Reaches(h, bsNew, p) { NewEdgeReach(g, e, h.edges[e], bsNew, p); }
      if Reaches(g, bsNew, p) { MoreLinksReach(g, h, bsNew, p); }
    }
  }

  lemma MoreLinksReach(g: Graph, h: Graph, a: NodeId, b: NodeId)
    requires Reaches(g, a, b) && forall c | c in g.edges :: c in h.edges && h.edges[c] == g.edges[c]
    ensures Reaches(h, a, b)
  {
    forall s: set<NodeId> | Closed(h, s) && a in s ensures b in s { assert Closed(g, s); }
  }

  lemma OnlyLink(r: Graph, e: EdgeId)
    requires UniqueChain(r) && ChainLink(r, e)
    ensures forall c | ChainLink(r, c) && r.edges[c].parent == r.edges[e].parent :: c == e
  {}

  lemma SetBackingEffect(env: Env, g: Graph, op: Op, r: Graph)
    requires op.SetBacking? && Inv(g) && Allowed(g, op) && Step(env, g, op, true, r)
    ensures Effect(g, op, r)
  {
    hide Transact, Reaches, Inv, UniqueChain, BackingEdit, OtherLinksStay, NewBacking;
    var SetBacking(e, bs, backing) := op;
    StepKeeps(env, g, op, true, r);
    var was: Option<EdgeId> :| OldBacking(g, bs, was) && StepSetBacking(env, g, e, bs, backing, was, true, r);
    var h := BackingEdit(env, g, e, bs, backing, was);
    var t :| Transact(env, g, h, {bs}, true, t) && r == if was.Some? then DropEdge(t, was.value) else t;
    TransactLinks(env, g, h, {bs}, t);
    InvUnique(g);
    InvUnique(r);
    BackingLinks(env, g, op, was, t, r);
  }

  lemma InvUnique(g: Graph)
    requires Inv(g)
    ensures UniqueChain(g)
  {}

  lemma BackingLinks(env: Env, g: Graph, op: Op, was: Option<EdgeId>, t: Graph, r: Graph)
    requires op.SetBacking? && UniqueChain(g) && Allowed(g, op) && g.nodes[op.bs].drv && OldBacking(g, op.bs, was) && UniqueChain(r)
    requires SameLinks(BackingEdit(env, g, op.e, op.bs, op.backing, was), t)
    requires r == if was.Some? then DropEdge(t, was.value) else t
    ensures Effect(g, op, r)
  {
    hide ChildNeed, Cumulative, UniqueChain, NewBacking;
    var SetBacking(e, bs, backing) := op;
    OneBacking(g, bs, was);
    if backing.Some? { BackingMade(env, g, op, was, t, r); } else { BackingCut(g, bs, r); }
  }

  lemma BackingMade(env: Env, g: Graph, op: Op, was: Option<EdgeId>, t: Graph, r: Graph)
    requires op.SetBacking? && Allowed(g, op) && g.nodes[op.bs].drv && OldBacking(g, op.bs, was) && UniqueChain(r)
    requires SameLinks(BackingEdit(env, g, op.e, op.bs, op.backing, was), t) && op.backing.Some?
    requires r == if was.Some? then DropEdge(t, was.value) else t
    ensures NewBacking(r, op.e, op.bs, op.backing.value)
  {
    hide ChildNeed, Cumulative, UniqueChain;
    OnlyLink(r, op.e);
  }

  /** With its backing links gone, the node has none. */
  lemma BackingCut(g: Graph, bs: NodeId, r: Graph)
    requires OtherLinksStay(g, r, set c | c in g.edges && IsBacking(g, bs, c), {})
    ensures forall c :: !IsBacking(r, bs, c)
  {
    forall c ensures !IsBacking(r, bs, c) {
      if IsBacking(r, bs, c) { assert IsBacking(g, bs, c); }
    }
  }

  lemma OneBacking(g: Graph, bs: NodeId, was: Option<EdgeId>)
    requires UniqueChain(g) && OldBacking(g, bs, was)
    ensures (set c | c in g.edges && IsBacking(g, bs, c)) == if was.Some? then {was.value} else {}
  {}

  /** A successful operation does to the links what it is for, and nothing else. */
  lemma StepEffect(env: Env, g: Graph, op: Op, r: Graph)
    requires Inv(g) && Allowed(g, op) && Step(env, g, op, true, r)
    ensures Effect(g, op, r)
  {
    hide Inv, Allowed, Step, Effect;
    match op
    case RootAttach(_, _, _, _, _) => RootAttachEffect(env, g, op, r);
    case Attach(_, _, _, _) => AttachEffect(env, g, op, r);
    case SetPerm(_, _) => SetPermEffect(env, g, op, r);
    case Unref(_) => UnrefEffect(env, g, op, r);
    case SetBacking(_, _, _) => SetBackingEffect(env, g, op, r);
    case ReplaceNode(_, _, _) => ReplaceEffect(env, g, op, r);
    case Append(_, _, _) => AppendEffect(env, g, op, r);
  }

  // --- backing chains ---

  /** The chain below the old top is untouched. */
  lemma {:induction false} ChainBelowKept(g: Graph, r: Graph, bsTop: NodeId, bsNew: NodeId, x: NodeId, es: seq<EdgeId>, last: NodeId)
    requires Inv(g) && r.nodes == g.nodes && ParentsMoved(g, r, bsTop, bsNew)
    requires Reaches(g, bsTop, x) && Chain(g, x, es, last)
    ensures Chain(r, x, es, last)
    decreases |es|
  {
    hide Reaches, NoConflicts;
    if es != [] {
      var m := g.edges[es[0]].bs.value;
      assert Linked(g, x, m);
      ReachesStep(g, bsTop, x, m);
      ChainBelowKept(g, r, bsTop, bsNew, m, es[1..], last);
    }
  }

  /** A chain that led to the old top leads to the new one, if its last link follows. */
  lemma {:induction false} ChainAboveMoves(g: Graph, r: Graph, bsTop: NodeId, bsNew: NodeId, x: NodeId, fs: seq<EdgeId>)
    requires Inv(g) && r.nodes == g.nodes && ParentsMoved(g, r, bsTop, bsNew)
    requires Chain(g, x, fs, bsTop) && fs != [] && fs[|fs| - 1] in g.edges && Follows(g, fs[|fs| - 1], bsTop, bsNew)
    ensures Chain(r, x, fs, bsNew)
    decreases |fs|
  {
    hide Reaches, NoConflicts;
    var m := g.edges[fs[0]].bs.value;
    if |fs| == 1 {
      assert Chain(g, m, [], bsTop);
      assert fs[1..] == [];
    } else {
      var rest := fs[1..];
      assert rest[|rest| - 1] == fs[|fs| - 1];
      if m == bsTop { NoLoop(g, bsTop, rest); }
      ChainAboveMoves(g, r, bsTop, bsNew, m, rest);
    }
  }

  lemma NoLoop(g: Graph, n: NodeId, es: seq<EdgeId>)
    requires Inv(g) && Chain(g, n, es, n)
    ensures es == []
  {
    ChainUnique(g, n, es, [], n);
  }

  lemma {:induction false} ChainsJoin(g: Graph, a: NodeId, es: seq<EdgeId>, b: NodeId, fs: seq<EdgeId>, c: NodeId)
    requires Chain(g, a, es, b) && Chain(g, b, fs, c)
    ensures Chain(g, a, es + fs, c)
    decreases |es|
  {
    if es == [] {
      assert es + fs == fs;
    } else {
      ChainsJoin(g, g.edges[es[0]].bs.value, es[1..], b, fs, c);
      assert (es + fs)[1..] == es[1..] + fs;
    }
  }

  /** bdrv_append puts the new node into the chain: the chain of the old top becomes its tail, and
      whoever reached it through a link that follows now passes the new node on the way. */
  lemma AppendInsertsIntoChain(env: Env, g: Graph, e: EdgeId, bsNew: NodeId, bsTop: NodeId, r: Graph,
                               x: NodeId, fs: seq<EdgeId>, es: seq<EdgeId>, last: NodeId)
    requires Inv(g) && Allowed(g, Append(e, bsNew, bsTop)) && Step(env, g, Append(e, bsNew, bsTop), true, r)
    requires Chain(g, bsTop, es, last)
    ensures Chain(r, bsNew, [e] + es, last)
    ensures Chain(g, x, fs, bsTop) && fs != [] && fs[|fs| - 1] in g.edges && Follows(g, fs[|fs| - 1], bsTop, bsNew)
            ==> Chain(r, x, fs + [e] + es, last)
  {
    hide Inv, Step, Allowed, Reaches, Follows, ParentsMoved, NewBacking;
    StepEffect(env, g, Append(e, bsNew, bsTop), r);
    ReachesSelf(g, bsTop);
    ChainBelowKept(g, r, bsTop, bsNew, bsTop, es, last);
    BackingIsChain(r, e, bsNew, bsTop);
    ChainsJoin(r, bsNew, [e], bsTop, es, last);
    if Chain(g, x, fs, bsTop) && fs != [] && fs[|fs| - 1] in g.edges && Follows(g, fs[|fs| - 1], bsTop, bsNew) {
      ChainAboveMoves(g, r, bsTop, bsNew, x, fs);
      ChainsJoin(r, x, fs, bsNew, [e] + es, last);
      assert fs + ([e] + es) == fs + [e] + es;
    }
  }

  lemma ReachesSelf(g: Graph, n: NodeId)
    ensures Reaches(g, n, n)
  {}

  lemma BackingIsChain(r: Graph, e: EdgeId, parent: NodeId, child: NodeId)
    requires NewBacking(r, e, parent, child)
    ensures Chain(r, parent, [e], child)
  {
    assert Chain(r, child, [e][1..], child);
  }
}
