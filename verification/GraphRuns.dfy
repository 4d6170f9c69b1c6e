/** Whole runs of graph operations, and frozen backing chains within them
    (engine/qemu-wasm/block.c). */
module GraphRuns {
  import opened Options
  import opened BlockGraph
  import opened PermRefresh
  import opened GraphOps

  /** A call with the drivers' behaviour during it and its outcome. */
  datatype Event = Event(env: Env, op: Op, ok: bool)

  ghost predicate IsRun(gs: seq<Graph>, evs: seq<Event>) {
    && |gs| == |evs| + 1
    && forall i | 0 <= i < |evs| ::
         Allowed(gs[i], evs[i].op) && Step(evs[i].env, gs[i], evs[i].op, evs[i].ok, gs[i + 1])
  }

  /** In any finite run of operations, successful or not, no node ever has two parents where one
      needs what the other does not share, and no cycle appears. */
  lemma {:induction false} RunStaysSound(gs: seq<Graph>, evs: seq<Event>, n: nat)
    requires IsRun(gs, evs) && n < |gs| && Inv(gs[0])
    ensures Inv(gs[n]) && gs[n].nodes == gs[0].nodes
  {
    if n > 0 {
      RunStaysSound(gs, evs, n - 1);
      var ev := evs[n - 1];
      assert Step(ev.env, gs[n - 1], ev.op, ev.ok, gs[n - 1 + 1]);
      StepKeeps(ev.env, gs[n - 1], ev.op, ev.ok, gs[n]);
      StepFrame(ev.env, gs[n - 1], ev.op, ev.ok, gs[n]);
    }
  }

  // --- frozen chains ---

  /** Frozen edges keep their parent, their target and their role. */
  ghost predicate FrozenKept(g: Graph, r: Graph) {
    && r.nodes == g.nodes
    && forall e | e in g.edges && g.edges[e].frozen ::
         e in r.edges && r.edges[e] == g.edges[e].(need := r.edges[e].need)
  }

  lemma TransactFrame(env: Env, g: Graph, h: Graph, roots: set<NodeId>, ok: bool, r: Graph)
    requires Transact(env, g, h, roots, ok, r) && FrozenKept(g, h)
    ensures FrozenKept(g, r)
  {}

  lemma SetBackingFrame(env: Env, g: Graph, e: EdgeId, bs: NodeId, backing: Option<NodeId>, was: Option<EdgeId>, ok: bool, r: Graph)
    requires Allowed(g, SetBacking(e, bs, backing))
    requires OldBacking(g, bs, was)
    requires StepSetBacking(env, g, e, bs, backing, was, ok, r)
    ensures FrozenKept(g, r)
  {}

  lemma UnrefFrame(env: Env, g: Graph, e: EdgeId, r: Graph)
    requires Allowed(g, Unref(e)) && StepUnref(env, g, e, r)
    ensures FrozenKept(g, r)
  {}

  lemma StepFrame(env: Env, g: Graph, op: Op, ok: bool, r: Graph)
    requires Allowed(g, op) && Step(env, g, op, ok, r)
    ensures FrozenKept(g, r)
  {
    hide Transact, Reaches, Movable, NewEdge, StepSetBacking;
    match op
    case RootAttach(e, child, role, need, stay) =>
      TransactFrame(env, g, AddEdge(g, e, Edge(None, Some(child), role, need, false, stay)), {child}, ok, r);
    case Attach(e, parent, child, role) =>
      if r != g { TransactFrame(env, g, AddEdge(g, e, NewEdge(env, g, parent, child, role)), {parent}, ok, r); }
    case SetPerm(e, need) => TransactFrame(env, g, SetNeed(g, e, need), {g.edges[e].bs.value}, ok, r);
    case Unref(e) => UnrefFrame(env, g, e, r);
    case SetBacking(e, bs, backing) =>
      var was: Option<EdgeId> :|
        && OldBacking(g, bs, was)
        && StepSetBacking(env, g, e, bs, backing, was, ok, r);
      SetBackingFrame(env, g, e, bs, backing, was, ok, r);
    case ReplaceNode(from, to, _) =>
      if r != g { TransactFrame(env, g, Redirect(g, Movable(g, from, to), to), {from, to}, ok, r); }
    case Append(e, bsNew, bsTop) =>
      if r != g {
        var h := AddEdge(g, e, NewEdge(env, g, bsNew, bsTop, BackingRole(g.nodes[bsNew])));
        TransactFrame(env, g, Redirect(h, Movable(h, bsTop, bsNew), bsNew), {bsNew}, ok, r);
      }
  }

  /** `es` are the links of the chain from `bs` down to `base`. */
  ghost predicate Chain(g: Graph, bs: NodeId, es: seq<EdgeId>, base: NodeId)
    decreases |es|
  {
    if es == [] then bs == base
    else ChainLink(g, es[0]) && g.edges[es[0]].parent == Some(bs) && Chain(g, g.edges[es[0]].bs.value, es[1..], base)
  }

  ghost predicate AllFrozen(g: Graph, es: seq<EdgeId>, frozen: bool) {
    forall e | e in es :: e in g.edges && g.edges[e].frozen == frozen
  }

  lemma {:induction false} FrozenChainKept(g: Graph, r: Graph, bs: NodeId, es: seq<EdgeId>, base: NodeId)
    requires FrozenKept(g, r) && Chain(g, bs, es, base) && AllFrozen(g, es, true)
    ensures Chain(r, bs, es, base) && AllFrozen(r, es, true)
    decreases |es|
  {
    if es != [] {
      FrozenChainKept(g, r, g.edges[es[0]].bs.value, es[1..], base);
    }
  }

  /** While a chain is frozen, no run of operations changes a link of it; and with one chain link
      per node it is still the whole way from `bs` to `base`. */
  lemma {:induction false} FrozenChainSurvives(gs: seq<Graph>, evs: seq<Event>, n: nat, bs: NodeId, es: seq<EdgeId>, base: NodeId)
    requires IsRun(gs, evs) && n < |gs| && Inv(gs[0])
    requires Chain(gs[0], bs, es, base) && AllFrozen(gs[0], es, true)
    ensures Chain(gs[n], bs, es, base) && AllFrozen(gs[n], es, true) && UniqueChain(gs[n])
  {
    RunStaysSound(gs, evs, n);
    if n > 0 {
      FrozenChainSurvives(gs, evs, n - 1, bs, es, base);
      var ev := evs[n - 1];
      assert Step(ev.env, gs[n - 1], ev.op, ev.ok, gs[n - 1 + 1]);
      StepFrame(ev.env, gs[n - 1], ev.op, ev.ok, gs[n]);
      FrozenChainKept(gs[n - 1], gs[n], bs, es, base);
    }
  }

  /** A chain is determined by its ends. */
  lemma {:induction false} ChainUnique(g: Graph, bs: NodeId, es: seq<EdgeId>, fs: seq<EdgeId>, base: NodeId)
    requires WellFormed(g) && Acyclic(g) && UniqueChain(g) && Chain(g, bs, es, base) && Chain(g, bs, fs, base)
    ensures es == fs
    decreases |es|
  {
    if es == [] || fs == [] {
      var rest := if es == [] then fs else es;
      if rest != [] { ChainReaches(g, g.edges[rest[0]].bs.value, rest[1..], base); assert Linked(g, bs, g.edges[rest[0]].bs.value); }
    } else {
      assert es[0] == fs[0];
      ChainUnique(g, g.edges[es[0]].bs.value, es[1..], fs[1..], base);
    }
  }

  lemma {:induction false} ChainReaches(g: Graph, bs: NodeId, es: seq<EdgeId>, base: NodeId)
    requires Chain(g, bs, es, base)
    ensures Reaches(g, bs, base)
    decreases |es|
  {
    if es != [] {
      var m := g.edges[es[0]].bs.value;
      assert Linked(g, bs, m);
      ReachesStep(g, bs, bs, m);
      ChainReaches(g, m, es[1..], base);
      ReachesTrans(g, bs, m, base);
    }
  }
}
