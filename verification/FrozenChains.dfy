/** Walking and freezing the chain of COW and filter links (engine/qemu-wasm/block.c). */
module FrozenChains {
  import opened Options
  import opened BlockGraph
  import opened GraphSearch
  import opened GraphOps
  import opened GraphRuns

  /** `es` are the links from `bs` down to `base`, or, without a base, to the end of the chain. */
  ghost predicate ChainTo(g: Graph, bs: NodeId, es: seq<EdgeId>, base: Option<NodeId>, last: NodeId) {
    Chain(g, bs, es, last) && if base.Some? then last == base.value else ChainFree(g, last)
  }

  function SetFrozen(g: Graph, es: set<EdgeId>, frozen: bool): Graph {
    g.(edges := map e | e in g.edges :: if e in es then g.edges[e].(frozen := frozen) else g.edges[e])
  }

  /** What bdrv_freeze_backing_chain requires of every link. */
  ghost predicate Freezable(g: Graph, es: seq<EdgeId>) {
    && AllFrozen(g, es, false)
    && forall e | e in es :: g.edges[e].bs.Some? && g.edges[e].bs.value in g.nodes && !g.nodes[g.edges[e].bs.value].neverFreeze
  }

  // --- the walk `for (i = bs; i != base; i = child_bs(child))` ---

  /** The walk has passed `k` links and stands at `i`. */
  ghost predicate WalkAt(g: Graph, es: seq<EdgeId>, k: int, i: Option<NodeId>, base: Option<NodeId>, last: NodeId) {
    && 0 <= k <= |es|
    && if i.Some? then Chain(g, i.value, es[k..], last) else base.None? && k == |es|
  }

  /** bdrv_filter_or_cow_child */
  ghost predicate IsLinkOf(g: Graph, n: NodeId, child: Option<EdgeId>) {
    if child.Some? then ChainLink(g, child.value) && g.edges[child.value].parent == Some(n) else ChainFree(g, n)
  }

  method FilterOrCowChild(g: Graph, n: NodeId) returns (child: Option<EdgeId>)
    ensures IsLinkOf(g, n, child)
  {
    if e :| e in g.edges && ChainLink(g, e) && g.edges[e].parent == Some(n) {
      return Some(e);
    }
    return None;
  }

  lemma WalkStep(g: Graph, bs: NodeId, es: seq<EdgeId>, k: int, i: NodeId, base: Option<NodeId>, last: NodeId, child: Option<EdgeId>)
    requires UniqueChain(g) && ChainTo(g, bs, es, base, last) && IsLinkOf(g, i, child)
    requires WalkAt(g, es, k, Some(i), base, last) && Some(i) != base
    ensures child.Some? <==> k < |es|
    ensures child.Some? ==> child.value == es[k] && WalkAt(g, es, k + 1, g.edges[es[k]].bs, base, last)
    ensures child.None? ==> WalkAt(g, es, k, None, base, last)
  {}

  /** The walk stops only when it has passed every link. */
  lemma WalkEnd(g: Graph, es: seq<EdgeId>, k: int, base: Option<NodeId>, last: NodeId)
    requires WellFormed(g) && Acyclic(g) && UniqueChain(g)
    requires WalkAt(g, es, k, base, base, last) && (base.Some? ==> last == base.value)
    ensures k == |es|
  {
    if base.Some? { ChainUnique(g, last, es[k..], [], last); }
  }

  /** bdrv_is_backing_chain_frozen */
  method IsBackingChainFrozen(g: Graph, bs: NodeId, base: Option<NodeId>, ghost es: seq<EdgeId>, ghost last: NodeId) returns (frozen: bool)
    requires WellFormed(g) && Acyclic(g) && UniqueChain(g) && ChainTo(g, bs, es, base, last)
    ensures !frozen <==> AllFrozen(g, es, false)
  {
    hide Acyclic, UniqueChain, ChainLink;
    ChainEdges(g, bs, es, last);
    var i := Some(bs);
    ghost var k := 0;
    assert es[0..] == es;
    while i != base
      invariant WalkAt(g, es, k, i, base, last) && forall j | 0 <= j < k :: !g.edges[es[j]].frozen
      decreases |es| - k, i.Some?
    {
      var child := FilterOrCowChild(g, i.value);
      WalkStep(g, bs, es, k, i.value, base, last, child);
      if child.Some? && g.edges[child.value].frozen {
        return true;
      }
      i := if child.Some? then g.edges[child.value].bs else None;
      k := if child.Some? then k + 1 else k;
    }
    WalkEnd(g, es, k, base, last);
    return false;
  }

  /** The second loop of bdrv_freeze_backing_chain. */
  method MayFreezeChain(g: Graph, bs: NodeId, base: Option<NodeId>, ghost es: seq<EdgeId>, ghost last: NodeId) returns (ok: bool)
    requires WellFormed(g) && Acyclic(g) && UniqueChain(g) && ChainTo(g, bs, es, base, last)
    requires AllFrozen(g, es, false)
    ensures ok <==> Freezable(g, es)
  {
    hide Acyclic, UniqueChain;
    ChainEdges(g, bs, es, last);
    var i := Some(bs);
    ghost var k := 0;
    assert es[0..] == es;
    while i != base
      invariant WalkAt(g, es, k, i, base, last) && forall j | 0 <= j < k :: !g.nodes[g.edges[es[j]].bs.value].neverFreeze
      decreases |es| - k, i.Some?
    {
      var child := FilterOrCowChild(g, i.value);
      WalkStep(g, bs, es, k, i.value, base, last, child);
      if child.Some? && g.nodes[g.edges[child.value].bs.value].neverFreeze {
        return false;
      }
      i := if child.Some? then g.edges[child.value].bs else None;
      k := if child.Some? then k + 1 else k;
    }
    WalkEnd(g, es, k, base, last);
    return true;
  }

  lemma {:induction false} ChainEdges(g: Graph, bs: NodeId, es: seq<EdgeId>, last: NodeId)
    requires Chain(g, bs, es, last) && WellFormed(g)
    ensures forall j | 0 <= j < |es| :: es[j] in g.edges && g.edges[es[j]].bs.Some? && g.edges[es[j]].bs.value in g.nodes
    decreases |es|
  {
    if es != [] {
      ChainEdges(g, g.edges[es[0]].bs.value, es[1..], last);
      forall j | 0 < j < |es| ensures es[j] == es[1..][j - 1] {}
    }
  }

  lemma {:induction false} ChainSuffix(g: Graph, bs: NodeId, es: seq<EdgeId>, last: NodeId, k: nat)
    requires Chain(g, bs, es, last) && k < |es|
    ensures es[k] in g.edges && g.edges[es[k]].parent.Some? && Chain(g, g.edges[es[k]].parent.value, es[k..], last)
    decreases |es|
  {
    if k > 0 {
      ChainSuffix(g, g.edges[es[0]].bs.value, es[1..], last, k - 1);
      assert es[1..][k - 1..] == es[k..];
    } else {
      assert es[0..] == es;
    }
  }

  /** No link occurs twice on a chain. */
  lemma ChainNoRepeat(g: Graph, bs: NodeId, es: seq<EdgeId>, last: NodeId, j: nat, k: nat)
    requires WellFormed(g) && Acyclic(g) && UniqueChain(g) && Chain(g, bs, es, last) && j < k < |es|
    ensures es[j] != es[k]
  {
    ChainSuffix(g, bs, es, last, j);
    ChainSuffix(g, bs, es, last, k);
    if es[j] == es[k] { ChainUnique(g, g.edges[es[j]].parent.value, es[j..], es[k..], last); }
  }

  // --- freezing changes nothing else ---

  lemma {:induction false} SetFrozenChain(g: Graph, fs: set<EdgeId>, frozen: bool, bs: NodeId, es: seq<EdgeId>, last: NodeId)
    requires Chain(g, bs, es, last)
    ensures Chain(SetFrozen(g, fs, frozen), bs, es, last)
    decreases |es|
  {
    if es != [] { SetFrozenChain(g, fs, frozen, g.edges[es[0]].bs.value, es[1..], last); }
  }

  lemma SetFrozenLinks(g: Graph, fs: set<EdgeId>, frozen: bool, n: NodeId)
    ensures forall child :: IsLinkOf(SetFrozen(g, fs, frozen), n, child) <==> IsLinkOf(g, n, child)
    ensures forall m :: Parents(SetFrozen(g, fs, frozen), m) == Parents(g, m)
  {
    var h := SetFrozen(g, fs, frozen);
    assert forall e :: ChainLink(h, e) == ChainLink(g, e);
    assert Children(h, n) == Children(g, n);
  }

  lemma SetFrozenAcyclic(g: Graph, fs: set<EdgeId>, frozen: bool)
    requires Acyclic(g)
    ensures Acyclic(SetFrozen(g, fs, frozen))
  {
    var h := SetFrozen(g, fs, frozen);
    forall a: NodeId, b: NodeId | Linked(h, a, b) ensures Linked(g, a, b) {
      var e: EdgeId :| e in h.edges && h.edges[e].parent == Some(a) && h.edges[e].bs == Some(b);
      assert g.edges[e].parent == Some(a) && g.edges[e].bs == Some(b);
    }
    FewerLinksAcyclic(g, h);
  }

  lemma SetFrozenNoConflicts(g: Graph, fs: set<EdgeId>, frozen: bool)
    requires NoConflicts(g)
    ensures NoConflicts(SetFrozen(g, fs, frozen))
  {}

  lemma SetFrozenUniqueChain(g: Graph, fs: set<EdgeId>, frozen: bool)
    requires UniqueChain(g)
    ensures UniqueChain(SetFrozen(g, fs, frozen))
  {}

  lemma SetFrozenKeeps(g: Graph, fs: set<EdgeId>, frozen: bool)
    requires Inv(g)
    ensures Inv(SetFrozen(g, fs, frozen))
  {
    hide Acyclic, NoConflicts, UniqueChain;
    SetFrozenAcyclic(g, fs, frozen);
    SetFrozenNoConflicts(g, fs, frozen);
    SetFrozenUniqueChain(g, fs, frozen);
  }

  /** One turn of the freezing and unfreezing loops. */
  lemma SetFrozenNext(g: Graph, es: seq<EdgeId>, k: nat, frozen: bool)
    requires k < |es| && es[k] in g.edges
    ensures SetFrozen(SetFrozen(g, Elems(es[..k]), frozen), {es[k]}, frozen) == SetFrozen(g, Elems(es[..k + 1]), frozen)
  {}

  /** Unfreezing undoes freezing. */
  lemma ThawUndoesFreeze(g: Graph, es: seq<EdgeId>)
    requires AllFrozen(g, es, false)
    ensures SetFrozen(SetFrozen(g, Elems(es), true), Elems(es), false) == g
    ensures AllFrozen(SetFrozen(g, Elems(es), true), es, true)
  {}

  lemma {:induction false} RunKeepsFrozen(gs: seq<Graph>, evs: seq<Event>, n: nat)
    requires IsRun(gs, evs) && n < |gs|
    ensures FrozenKept(gs[0], gs[n])
  {
    if n > 0 {
      RunKeepsFrozen(gs, evs, n - 1);
      var ev := evs[n - 1];
      assert Step(ev.env, gs[n - 1], ev.op, ev.ok, gs[n - 1 + 1]);
      StepFrame(ev.env, gs[n - 1], ev.op, ev.ok, gs[n]);
    }
  }

  /** Freeze a chain, run any operations, successful or not, unfreeze it: every link is the one
      it was, up to its permissions, and the links still lead from `bs` to `last`. */
  lemma FrozenInBetween(g: Graph, bs: NodeId, es: seq<EdgeId>, last: NodeId, gs: seq<Graph>, evs: seq<Event>, n: nat)
    requires Inv(g) && Chain(g, bs, es, last) && Freezable(g, es)
    requires IsRun(gs, evs) && n < |gs| && gs[0] == SetFrozen(g, Elems(es), true)
    ensures AllFrozen(gs[n], es, true)
    ensures var t := SetFrozen(gs[n], Elems(es), false);
            && Chain(t, bs, es, last)
            && forall e | e in es :: e in t.edges && t.edges[e] == g.edges[e].(need := t.edges[e].need)
  {
    hide Inv, UniqueChain, ChainLink, Step;
    SetFrozenKeeps(g, Elems(es), true);
    SetFrozenChain(g, Elems(es), true, bs, es, last);
    ThawUndoesFreeze(g, es);
    FrozenChainSurvives(gs, evs, n, bs, es, last);
    RunKeepsFrozen(gs, evs, n);
    SetFrozenChain(gs[n], Elems(es), false, bs, es, last);
    forall e | e in es ensures e in Elems(es) {}
  }
}
