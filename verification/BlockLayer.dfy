/** The block layer's graph operations with their transactions (engine/qemu-wasm/block.c and
    util/transactions.c): every change is made at once and logged, tran_abort undoes the log in
    reverse order, tran_commit drops what the changes replaced. References are counted along. */
module BlockLayers {
  import opened Options
  import opened Permissions
  import opened BlockGraph
  import opened GraphSearch
  import opened PermRefresh
  import opened GraphOps
  import opened GraphRuns
  import opened GraphEffects
  import opened Loosening
  import opened ChildPerms
  import opened FrozenChains

  /** TransactionAction: bdrv_child_set_pem_drv, bdrv_replace_child_drv,
      bdrv_attach_child_common_drv, bdrv_remove_child_drv. */
  datatype Action =
    | SetPermAction(e: EdgeId, was: Need)
    | ReplaceAction(e: EdgeId, target: Option<NodeId>)
    | AttachAction(e: EdgeId)
    | RemoveAction(e: EdgeId)

  // --- undoing a log ---

  ghost function UndoOne(g: Graph, a: Action): Graph {
    match a
    case SetPermAction(e, was) => if e in g.edges then SetNeed(g, e, was) else g
    case ReplaceAction(e, target) => if e in g.edges then Retarget(g, e, target) else g
    case AttachAction(e) => DropEdge(g, e)
    case RemoveAction(_) => g
  }

  /** The graph at the start of the transaction. */
  ghost function Undo(log: seq<Action>, g: Graph): Graph {
    if log == [] then g else Undo(log[..|log| - 1], UndoOne(g, log[|log| - 1]))
  }

  /** The actions refer to edges that exist when their turn comes. */
  ghost predicate Undoable(log: seq<Action>, g: Graph) {
    WellFormed(g) &&
    (log != [] ==>
       var a := log[|log| - 1];
       && a.e in g.edges
       && (a.AttachAction? ==> g.edges[a.e].bs.Some?)
       && (a.ReplaceAction? ==> a.e !in Removed(log[..|log| - 1]))
       && Undoable(log[..|log| - 1], UndoOne(g, a)))
  }

  /** References that replaced targets keep until the transaction ends. */
  ghost function Pinned(log: seq<Action>): multiset<NodeId> {
    if log == [] then multiset{}
    else Pinned(log[..|log| - 1]) +
         match log[|log| - 1] case ReplaceAction(_, Some(n)) => multiset{n} case _ => multiset{}
  }

  ghost function Removed(log: seq<Action>): set<EdgeId> {
    set i | 0 <= i < |log| && log[i].RemoveAction? :: log[i].e
  }

  ghost predicate OnlyPerms(log: seq<Action>) {
    forall a | a in log :: a.SetPermAction?
  }

  /** The log has only gained permission changes: same start, same pins, same removals. */
  ghost predicate SameTransaction(log: seq<Action>, g: Graph, log': seq<Action>, g': Graph) {
    && Undo(log', g') == Undo(log, g) && Pinned(log') == Pinned(log) && Removed(log') == Removed(log)
    && (OnlyPerms(log) ==> OnlyPerms(log'))
  }

  // --- counting parents ---

  lemma ParentsRetarget(g: Graph, e: EdgeId, to: Option<NodeId>, n: NodeId)
    requires e in g.edges
    ensures |Parents(Retarget(g, e, to), n)| ==
            |Parents(g, n)| - (if g.edges[e].bs == Some(n) then 1 else 0) + (if to == Some(n) then 1 else 0)
  {
    var h := Retarget(g, e, to);
    WithoutOne(Parents(g, n), e);
    WithoutOne(Parents(h, n), e);
    assert Parents(h, n) - {e} == Parents(g, n) - {e};
  }

  lemma WithoutOne(s: set<EdgeId>, e: EdgeId)
    ensures |s| == |s - {e}| + if e in s then 1 else 0
  {}

  lemma ParentsAdd(g: Graph, e: EdgeId, edge: Edge, n: NodeId)
    requires e !in g.edges
    ensures |Parents(AddEdge(g, e, edge), n)| == |Parents(g, n)| + (if edge.bs == Some(n) then 1 else 0)
  {
    assert Parents(AddEdge(g, e, edge), n) == Parents(g, n) + if edge.bs == Some(n) then {e} else {};
  }

  lemma ParentsDrop(g: Graph, e: EdgeId, n: NodeId)
    requires e in g.edges
    ensures |Parents(DropEdge(g, e), n)| == |Parents(g, n)| - (if g.edges[e].bs == Some(n) then 1 else 0)
  {
    if g.edges[e].bs == Some(n) {
      assert Parents(DropEdge(g, e), n) == Parents(g, n) - {e};
    } else {
      assert Parents(DropEdge(g, e), n) == Parents(g, n);
    }
  }

  function RefCount(refs: map<NodeId, int>, n: NodeId): int { if n in refs then refs[n] else 0 }

  /** Every reference to a node is an edge to it or is owed to somebody else: a caller, a
      scheduled unref, a log entry. */
  ghost predicate Balanced(g: Graph, refs: map<NodeId, int>, owed: multiset<NodeId>) {
    && refs.Keys == g.nodes.Keys
    && forall n: NodeId :: RefCount(refs, n) == |Parents(g, n)| + owed[n]
  }

  ghost predicate BaseOf(g: Graph, log: seq<Action>, nextEdge: EdgeId) {
    && Undoable(log, g)
    && (forall e | e in g.edges :: e < nextEdge)
    && (forall e | e in Removed(log) && e in g.edges :: g.edges[e].bs.None?)
  }

  /** Every node has a reference, except those being deleted. */
  ghost predicate AliveAt(g: Graph, owed: multiset<NodeId>, dying: set<NodeId>) {
    forall n | n in g.nodes && n !in dying :: |Parents(g, n)| + owed[n] > 0
  }

  ghost predicate Positive(refs: map<NodeId, int>, dying: set<NodeId>) {
    forall n | n in refs && n !in dying :: refs[n] > 0
  }

  /** The child edges in `es` have been set. */
  ghost predicate PartlySet(env: Env, start: Graph, n: NodeId, es: set<EdgeId>, g: Graph) {
    && g.nodes == start.nodes && g.edges.Keys == start.edges.Keys && es <= Children(start, n)
    && forall e | e in start.edges ::
         g.edges[e] == if e in es then start.edges[e].(need := Wanted(env, start, n, e)) else start.edges[e]
  }

  lemma PartlySetNext(env: Env, start: Graph, n: NodeId, es: set<EdgeId>, g: Graph, e: EdgeId)
    requires PartlySet(env, start, n, es, g) && e in Children(start, n) && e !in es
    ensures var c := g.edges[e];
            && c.bs.Some?
            && PartlySet(env, start, n, es + {e},
                         SetNeed(g, e, ChildNeed(env, g, n, Some(e), c.role, c.bs.value, Cumulative(start, n))))
  {}

  lemma AllSet(env: Env, start: Graph, n: NodeId, g: Graph)
    requires PartlySet(env, start, n, Children(start, n), g)
    ensures g == SetChildren(env, start, n)
  {}

  lemma SetPermLogged(g: Graph, log: seq<Action>, nextEdge: EdgeId, e: EdgeId, need: Need)
    requires BaseOf(g, log, nextEdge) && e in g.edges
    ensures var log', g' := log + [SetPermAction(e, g.edges[e].need)], SetNeed(g, e, need);
            BaseOf(g', log', nextEdge) && SameTransaction(log, g, log', g')
  {
    LogGrows(log, SetPermAction(e, g.edges[e].need), g, SetNeed(g, e, need));
  }

  lemma SameParentsBalanced(g: Graph, g': Graph, refs: map<NodeId, int>, owed: multiset<NodeId>)
    requires Balanced(g, refs, owed) && g'.nodes == g.nodes
    requires forall n: NodeId :: Parents(g', n) == Parents(g, n)
    ensures Balanced(g', refs, owed)
  {}

  function Bump(refs: map<NodeId, int>, n: Option<NodeId>, d: int): map<NodeId, int> {
    if n.Some? && n.value in refs then refs[n.value := refs[n.value] + d] else refs
  }

  function Bag(n: Option<NodeId>): multiset<NodeId> { if n.Some? then multiset{n.value} else multiset{} }

  lemma ReplaceLogged(g: Graph, log: seq<Action>, nextEdge: EdgeId, e: EdgeId, to: Option<NodeId>)
    requires BaseOf(g, log, nextEdge) && e in g.edges && e !in Removed(log) && (to.Some? ==> to.value in g.nodes)
    ensures var log', g' := log + [ReplaceAction(e, g.edges[e].bs)], Retarget(g, e, to);
            && BaseOf(g', log', nextEdge) && Undo(log', g') == Undo(log, g)
            && Pinned(log') == Pinned(log) + Bag(g.edges[e].bs) && Removed(log') == Removed(log)
  {
    LogGrows(log, ReplaceAction(e, g.edges[e].bs), g, Retarget(g, e, to));
  }

  /** The old target's reference moves into the log, the new target gets one of its own. */
  lemma ReplaceBalanced(g: Graph, refs: map<NodeId, int>, owed: multiset<NodeId>, e: EdgeId, to: Option<NodeId>)
    requires Balanced(g, refs, owed) && e in g.edges && (to.Some? ==> to.value in g.nodes)
    ensures Balanced(Retarget(g, e, to), Bump(refs, to, 1), owed + Bag(g.edges[e].bs))
  {
    forall n: NodeId
      ensures RefCount(Bump(refs, to, 1), n) == |Parents(Retarget(g, e, to), n)| + (owed + Bag(g.edges[e].bs))[n]
    {
      ParentsRetarget(g, e, to, n);
    }
  }

  lemma ReplaceBooks(g: Graph, log: seq<Action>, nextEdge: EdgeId, refs: map<NodeId, int>, owed: multiset<NodeId>, e: EdgeId, to: Option<NodeId>)
    requires BaseOf(g, log, nextEdge) && Balanced(g, refs, owed + Pinned(log))
    requires e in g.edges && e !in Removed(log) && (to.Some? ==> to.value in g.nodes)
    ensures var log', g' := log + [ReplaceAction(e, g.edges[e].bs)], Retarget(g, e, to);
            && BaseOf(g', log', nextEdge) && Balanced(g', Bump(refs, to, 1), owed + Pinned(log'))
            && Undo(log', g') == Undo(log, g) && Removed(log') == Removed(log)
  {
    ReplaceLogged(g, log, nextEdge, e, to);
    ReplaceBalanced(g, refs, owed + Pinned(log), e, to);
    var bag := Bag(g.edges[e].bs);
    assert owed + Pinned(log) + bag == owed + (Pinned(log) + bag);
  }

  /** ... and back. */
  lemma UnreplaceBalanced(g: Graph, refs: map<NodeId, int>, owed: multiset<NodeId>, e: EdgeId, to: Option<NodeId>)
    requires Balanced(g, refs, owed + Bag(to)) && e in g.edges && WellFormed(g)
    ensures Balanced(Retarget(g, e, to), Bump(refs, g.edges[e].bs, -1), owed)
  {
    forall n: NodeId
      ensures RefCount(Bump(refs, g.edges[e].bs, -1), n) == |Parents(Retarget(g, e, to), n)| + owed[n]
    {
      ParentsRetarget(g, e, to, n);
      assert (owed + Bag(to))[n] == owed[n] + if to == Some(n) then 1 else 0;
    }
  }

  lemma DropBalanced(g: Graph, refs: map<NodeId, int>, owed: multiset<NodeId>, e: EdgeId)
    requires Balanced(g, refs, owed) && e in g.edges
    ensures Balanced(DropEdge(g, e), refs, owed + Bag(g.edges[e].bs))
  {
    forall n: NodeId
      ensures RefCount(refs, n) == |Parents(DropEdge(g, e), n)| + (owed + Bag(g.edges[e].bs))[n]
    {
      ParentsDrop(g, e, n);
    }
  }

  lemma AttachLogged(g: Graph, log: seq<Action>, e: EdgeId, edge: Edge)
    requires BaseOf(g, log, e) && edge.bs.Some? && edge.bs.value in g.nodes
    requires edge.parent.Some? ==> edge.parent.value in g.nodes
    requires e !in Removed(log)
    ensures var log', g' := log + [AttachAction(e)], AddEdge(g, e, edge);
            && BaseOf(g', log', e + 1) && Undo(log', g') == Undo(log, g)
            && Pinned(log') == Pinned(log) && Removed(log') == Removed(log)
  {
    assert UndoOne(AddEdge(g, e, edge), AttachAction(e)).edges == g.edges;
    LogGrows(log, AttachAction(e), g, AddEdge(g, e, edge));
  }

  lemma AttachBalanced(g: Graph, refs: map<NodeId, int>, owed: multiset<NodeId>, e: EdgeId, edge: Edge)
    requires Balanced(g, refs, owed) && e !in g.edges && edge.bs.Some? && edge.bs.value in g.nodes
    ensures Balanced(AddEdge(g, e, edge), Bump(refs, edge.bs, 1), owed)
  {
    forall n: NodeId ensures RefCount(Bump(refs, edge.bs, 1), n) == |Parents(AddEdge(g, e, edge), n)| + owed[n] {
      ParentsAdd(g, e, edge, n);
    }
  }

  /** One abort callback keeps the books: `owed` is what is owed outside the log. */
  lemma AbortOneBalanced(g: Graph, log: seq<Action>, refs: map<NodeId, int>, owed: multiset<NodeId>)
    requires Undoable(log, g) && Balanced(g, refs, owed + Pinned(log)) && log != []
    ensures var a, rest := log[|log| - 1], log[..|log| - 1];
            var bs := g.edges[a.e].bs;
            Balanced(UndoOne(g, a), if a.ReplaceAction? then Bump(refs, bs, -1) else refs,
                     (if a.AttachAction? then owed + Bag(bs) else owed) + Pinned(rest))
  {
    var a, rest := log[|log| - 1], log[..|log| - 1];
    LastAction(log);
    match a
    case SetPermAction(e, was) => SameParentsBalanced(g, SetNeed(g, e, was), refs, owed + Pinned(rest));
    case ReplaceAction(e, target) =>
      assert owed + Pinned(log) == owed + Pinned(rest) + Bag(target);
      UnreplaceBalanced(g, refs, owed + Pinned(rest), e, target);
    case AttachAction(e) =>
      DropBalanced(g, refs, owed + Pinned(rest), e);
      assert owed + Pinned(rest) + Bag(g.edges[e].bs) == owed + Bag(g.edges[e].bs) + Pinned(rest);
    case RemoveAction(_) =>
  }

  /** The state after the abort callback of the last action. */
  lemma AbortBooks(g: Graph, log: seq<Action>, nextEdge: EdgeId, refs: map<NodeId, int>, scheduled: multiset<NodeId>, held: multiset<NodeId>,
                   dying: set<NodeId>)
    requires BaseOf(g, log, nextEdge) && Balanced(g, refs, held + scheduled + Pinned(log)) && log != []
    requires AliveAt(Undo(log, g), held + scheduled, dying)
    ensures var a, rest := log[|log| - 1], log[..|log| - 1];
            a.e in g.edges &&
            var bs := g.edges[a.e].bs;
            && BaseOf(UndoOne(g, a), rest, nextEdge)
            && Balanced(UndoOne(g, a), if a.ReplaceAction? then Bump(refs, bs, -1) else refs,
                        held + (if a.AttachAction? then scheduled + Bag(bs) else scheduled) + Pinned(rest))
            && AliveAt(Undo(rest, UndoOne(g, a)), held + (if a.AttachAction? then scheduled + Bag(bs) else scheduled), dying)
            && (a.ReplaceAction? ==> Positive(Bump(refs, bs, -1), dying))
  {
    hide Balanced, Pinned, Parents;
    AbortOneBase(g, log, nextEdge);
    AbortOneBalanced(g, log, refs, held + scheduled);
    var a, rest := log[|log| - 1], log[..|log| - 1];
    var bag := Bag(g.edges[a.e].bs);
    assert held + scheduled + bag == held + (scheduled + bag);
    if a.ReplaceAction? {
      RefsPositive(UndoOne(g, a), rest, nextEdge, Bump(refs, g.edges[a.e].bs, -1), held + scheduled, dying);
    }
  }

  /** The state after the commit callback of the last action. */
  lemma CommitBooks(g: Graph, log: seq<Action>, refs: map<NodeId, int>, scheduled: multiset<NodeId>, held: multiset<NodeId>)
    requires Balanced(g, refs, held + scheduled + Pinned(log)) && log != []
    requires forall e | e in Removed(log) && e in g.edges :: g.edges[e].bs.None?
    ensures var a, rest := log[|log| - 1], log[..|log| - 1];
            && Balanced(if a.RemoveAction? then DropEdge(g, a.e) else g, refs,
                        held + (if a.ReplaceAction? then scheduled + Bag(a.target) else scheduled) + Pinned(rest))
            && Removed(log) == Removed(rest) + if a.RemoveAction? then {a.e} else {}
  {
    hide Pinned, Removed;
    var a, rest := log[|log| - 1], log[..|log| - 1];
    LastAction(log);
    if a.ReplaceAction? {
      assert held + scheduled + (Pinned(rest) + Bag(a.target)) == held + (scheduled + Bag(a.target)) + Pinned(rest);
    } else if a.RemoveAction? {
      SameParentsBalanced(g, DropEdge(g, a.e), refs, held + scheduled + Pinned(log));
    }
  }

  lemma AbortOneBase(g: Graph, log: seq<Action>, nextEdge: EdgeId)
    requires BaseOf(g, log, nextEdge) && log != []
    ensures BaseOf(UndoOne(g, log[|log| - 1]), log[..|log| - 1], nextEdge)
  {}

  lemma LastAction(log: seq<Action>)
    requires log != []
    ensures var a, rest := log[|log| - 1], log[..|log| - 1];
            && Pinned(log) == Pinned(rest) + (if a.ReplaceAction? then Bag(a.target) else multiset{})
            && Removed(log) == Removed(rest) + if a.RemoveAction? then {a.e} else {}
  {}

  lemma UndoneParents(g: Graph, a: Action, n: NodeId)
    requires a.e in g.edges
    ensures |Parents(UndoOne(g, a), n)| <= |Parents(g, n)| + (if a.ReplaceAction? then Bag(a.target) else multiset{})[n]
    ensures UndoOne(g, a).nodes == g.nodes
  {
    match a
    case SetPermAction(e, was) => assert Parents(UndoOne(g, a), n) == Parents(g, n);
    case ReplaceAction(e, target) => ParentsRetarget(g, e, target, n);
    case AttachAction(e) => ParentsDrop(g, e, n);
    case RemoveAction(_) =>
  }

  /** A node that loses a parent in a transaction keeps a reference in its log. */
  lemma {:induction false} PinsCover(log: seq<Action>, g: Graph, n: NodeId)
    requires Undoable(log, g)
    ensures |Parents(Undo(log, g), n)| <= |Parents(g, n)| + Pinned(log)[n] && Undo(log, g).nodes == g.nodes
    decreases |log|
  {
    hide UndoOne, Parents, Removed;
    if log != [] {
      var a, rest := log[|log| - 1], log[..|log| - 1];
      PinsCover(rest, UndoOne(g, a), n);
      LastAction(log);
      UndoneParents(g, a, n);
    }
  }

  /** So no count reaches zero in a transaction, nor while it is undone. */
  lemma RefsPositive(g: Graph, log: seq<Action>, nextEdge: EdgeId, refs: map<NodeId, int>, owed: multiset<NodeId>, dying: set<NodeId>)
    requires BaseOf(g, log, nextEdge) && Balanced(g, refs, owed + Pinned(log)) && AliveAt(Undo(log, g), owed, dying)
    ensures Positive(refs, dying)
  {
    forall n | n in refs && n !in dying ensures refs[n] > 0 {
      PinsCover(log, g, n);
      assert RefCount(refs, n) == |Parents(g, n)| + (owed + Pinned(log))[n];
    }
  }

  lemma AliveFromRefs(g: Graph, refs: map<NodeId, int>, owed: multiset<NodeId>, dying: set<NodeId>)
    requires Balanced(g, refs, owed + Pinned([])) && Positive(refs, dying)
    ensures AliveAt(Undo([], g), owed, dying)
  {
    forall n | n in g.nodes && n !in dying ensures |Parents(g, n)| + owed[n] > 0 {
      assert RefCount(refs, n) == |Parents(g, n)| + (owed + Pinned([]))[n];
    }
  }

  lemma RootAttachDone(env: Env, g: Graph, e: EdgeId, child: NodeId, role: Role, need: Need, stay: bool, ok: bool, r: Graph)
    requires Inv(g) && e !in g.edges && child in g.nodes
    requires Transact(env, g, AddEdge(g, e, Edge(None, Some(child), role, need, false, stay)), {child}, ok, r)
    ensures Step(env, g, RootAttach(e, child, role, need, stay), ok, r) && Inv(r) && (!ok ==> r == g)
    ensures ok ==> Effect(g, RootAttach(e, child, role, need, stay), r)
  {
    hide Effect;
    StepKeeps(env, g, RootAttach(e, child, role, need, stay), ok, r);
    if ok { StepEffect(env, g, RootAttach(e, child, role, need, stay), r); }
  }

  lemma AttachDone(env: Env, g: Graph, e: EdgeId, parent: NodeId, child: NodeId, role: Role, ok: bool, r: Graph)
    requires Inv(g) && Allowed(g, Attach(e, parent, child, role))
    requires if Reaches(g, child, parent) then Fails(g, ok, r)
             else Transact(env, g, AddEdge(g, e, NewEdge(env, g, parent, child, role)), {parent}, ok, r)
    ensures Step(env, g, Attach(e, parent, child, role), ok, r) && Inv(r) && (!ok ==> r == g)
    ensures ok ==> Effect(g, Attach(e, parent, child, role), r)
  {
    hide Effect;
    StepKeeps(env, g, Attach(e, parent, child, role), ok, r);
    if ok { StepEffect(env, g, Attach(e, parent, child, role), r); }
  }

  lemma SetPermDone(env: Env, g: Graph, e: EdgeId, need: Need, ok: bool, r: Graph)
    requires Inv(g) && Allowed(g, SetPerm(e, need))
    requires Transact(env, g, SetNeed(g, e, need), {g.edges[e].bs.value}, ok, r)
    ensures Step(env, g, SetPerm(e, need), ok, r) && Inv(r) && (!ok ==> r == g)
    ensures ok ==> Effect(g, SetPerm(e, need), r)
  {
    hide Effect;
    StepKeeps(env, g, SetPerm(e, need), ok, r);
    if ok { StepEffect(env, g, SetPerm(e, need), r); }
  }

  lemma SetPermReady(g: Graph, e: EdgeId, need: Need)
    requires Inv(g) && e in g.edges && g.edges[e].bs.Some?
    ensures Acyclic(SetNeed(g, e, need)) && g.edges[e].bs.value in SetNeed(g, e, need).nodes
  {
    SameLinksKeep(g, SetNeed(g, e, need));
  }

  lemma InvAcyclic(g: Graph)
    requires Inv(g)
    ensures Acyclic(g)
  {}

  lemma UnrefDone(env: Env, g: Graph, e: EdgeId, ok: bool, r: Graph)
    requires Inv(g) && Allowed(g, Unref(e))
    requires if g.edges[e].bs.None? then r == DropEdge(g, e)
             else Transact(env, DropEdge(g, e), DropEdge(g, e), {g.edges[e].bs.value}, ok, r)
    ensures Step(env, g, Unref(e), true, r) && Inv(r) && Effect(g, Unref(e), r)
  {
    hide Effect;
    StepKeeps(env, g, Unref(e), true, r);
    StepEffect(env, g, Unref(e), r);
  }

  /** Dropping an edge hands its reference to whoever dropped it. */
  lemma DropBooks(g: Graph, nextEdge: EdgeId, refs: map<NodeId, int>, scheduled: multiset<NodeId>, held: multiset<NodeId>,
                  dying: set<NodeId>, e: EdgeId)
    requires BaseOf(g, [], nextEdge) && Balanced(g, refs, held + scheduled + Pinned([])) && e in g.edges
    requires AliveAt(Undo([], g), held + scheduled, dying)
    ensures BaseOf(DropEdge(g, e), [], nextEdge)
    ensures Balanced(DropEdge(g, e), refs, held + Bag(g.edges[e].bs) + scheduled + Pinned([]))
    ensures AliveAt(Undo([], DropEdge(g, e)), held + Bag(g.edges[e].bs) + scheduled, dying)
  {
    hide Balanced, AliveAt;
    DropBalanced(g, refs, held + scheduled + Pinned([]), e);
    var bag := Bag(g.edges[e].bs);
    assert held + scheduled + Pinned([]) + bag == held + bag + scheduled + Pinned([]);
    RefsPositive(g, [], nextEdge, refs, held + scheduled, dying);
    AliveFromRefs(DropEdge(g, e), refs, held + bag + scheduled, dying);
  }

  /** Some parent forbids the replacement. */
  ghost predicate ReplaceRefused(g: Graph, from: NodeId, to: NodeId, autoSkip: bool) {
    var es := Movable(g, from, to);
    (!autoSkip && es != Parents(g, from)) || exists e :: e in es && g.edges[e].frozen
  }

  /** Half-way through the loop: the movable parents not in `todo` have been redirected. The search
      of should_update_child still gives the answer it would have given at the start. */
  lemma HalfReplaced(start: Graph, from: NodeId, to: NodeId, todo: set<EdgeId>, c: EdgeId)
    requires WellFormed(start) && Acyclic(start) && to in start.nodes && from != to
    requires todo <= Parents(start, from) && c in todo
    ensures var es := Movable(start, from, to);
            var g := Redirect(start, es - todo, to);
            && WellFormed(g) && g.edges[c] == start.edges[c] && InSubtree(g, c, to) == InSubtree(start, c, to)
            && Redirect(start, es - (todo - {c}), to) == if c in es then Retarget(g, c, Some(to)) else g
  {
    var es := Movable(start, from, to);
    var g := Redirect(start, es - todo, to);
    RedirectAcyclic(start, es - todo, to);
    assert Redirect(start, es - (todo - {c}), to).edges == if c in es then Retarget(g, c, Some(to)).edges else g.edges;
  }

  lemma NothingReplaced(start: Graph, from: NodeId, to: NodeId)
    ensures Redirect(start, Movable(start, from, to) - Parents(start, from), to) == start
  {}

  /** This parent does not stop the replacement. */
  ghost predicate ParentPasses(g: Graph, from: NodeId, to: NodeId, autoSkip: bool, c: EdgeId) {
    if c in Movable(g, from, to) then !g.edges[c].frozen else autoSkip
  }

  lemma RefusedByOne(g: Graph, from: NodeId, to: NodeId, autoSkip: bool)
    ensures ReplaceRefused(g, from, to, autoSkip) <==>
            exists c :: c in Parents(g, from) && !ParentPasses(g, from, to, autoSkip, c)
  {}

  lemma PairElems(a: NodeId, b: NodeId)
    ensures Elems([a, b]) == {a, b}
  {}

  lemma ReplaceDone(env: Env, g: Graph, from: NodeId, to: NodeId, autoSkip: bool, ok: bool, r: Graph)
    requires Inv(g) && Allowed(g, ReplaceNode(from, to, autoSkip))
    requires if ReplaceRefused(g, from, to, autoSkip) then Fails(g, ok, r)
             else Transact(env, g, Redirect(g, Movable(g, from, to), to), {from, to}, ok, r)
    ensures Step(env, g, ReplaceNode(from, to, autoSkip), ok, r) && Inv(r) && (!ok ==> r == g)
    ensures ok ==> Effect(g, ReplaceNode(from, to, autoSkip), r)
  {
    hide Effect;
    StepKeeps(env, g, ReplaceNode(from, to, autoSkip), ok, r);
    if ok { StepEffect(env, g, ReplaceNode(from, to, autoSkip), r); }
  }

  lemma MovableRedirectAcyclic(g: Graph, from: NodeId, to: NodeId)
    requires WellFormed(g) && Acyclic(g) && to in g.nodes
    ensures Acyclic(Redirect(g, Movable(g, from, to), to))
  {
    RedirectAcyclic(g, Movable(g, from, to), to);
  }

  lemma EmptyLog(g: Graph)
    ensures Removed([]) == {} && Undo([], g) == g
  {}

  lemma BelowNext(g: Graph, log: seq<Action>, nextEdge: EdgeId)
    requires BaseOf(g, log, nextEdge)
    ensures WellFormed(g) && (forall e | e in g.edges :: e < nextEdge)
    ensures forall e | e in Removed(log) && e in g.edges :: g.edges[e].bs.None?
  {}

  lemma EmptyBase(g: Graph, nextEdge: EdgeId)
    requires WellFormed(g) && forall e | e in g.edges :: e < nextEdge
    ensures BaseOf(g, [], nextEdge)
  {}

  lemma OneElem(n: NodeId)
    ensures Elems([n]) == {n}
  {}

  lemma AppendReady(env: Env, g: Graph, e: EdgeId, bsNew: NodeId, bsTop: NodeId)
    requires Inv(g) && Allowed(g, Append(e, bsNew, bsTop)) && !Reaches(g, bsTop, bsNew)
    ensures var h := AddEdge(g, e, NewEdge(env, g, bsNew, bsTop, BackingRole(g.nodes[bsNew])));
            && bsNew != bsTop && Acyclic(h) && bsNew in h.nodes && bsTop in h.nodes
            && Acyclic(Redirect(h, Movable(h, bsTop, bsNew), bsNew))
  {
    var h := AddEdge(g, e, NewEdge(env, g, bsNew, bsTop, BackingRole(g.nodes[bsNew])));
    AddEdgeAcyclic(g, e, h.edges[e]);
    MovableRedirectAcyclic(h, bsTop, bsNew);
  }

  lemma AppendDone(env: Env, g: Graph, e: EdgeId, bsNew: NodeId, bsTop: NodeId, ok: bool, r: Graph)
    requires Inv(g) && Allowed(g, Append(e, bsNew, bsTop))
    requires
      var h := AddEdge(g, e, NewEdge(env, g, bsNew, bsTop, BackingRole(g.nodes[bsNew])));
      if Reaches(g, bsTop, bsNew) || ReplaceRefused(h, bsTop, bsNew, true) then Fails(g, ok, r)
      else Transact(env, g, Redirect(h, Movable(h, bsTop, bsNew), bsNew), {bsNew}, ok, r)
    ensures Step(env, g, Append(e, bsNew, bsTop), ok, r) && Inv(r) && (!ok ==> r == g)
    ensures ok ==> Effect(g, Append(e, bsNew, bsTop), r)
  {
    hide Effect;
    StepKeeps(env, g, Append(e, bsNew, bsTop), ok, r);
    if ok { StepEffect(env, g, Append(e, bsNew, bsTop), r); }
  }

  ghost predicate BackingRefused(g: Graph, bs: NodeId, backing: Option<NodeId>, was: Option<EdgeId>)
    requires bs in g.nodes && (was.Some? ==> was.value in g.edges)
  {
    || !g.nodes[bs].drv
    || (was.Some? && g.edges[was.value].frozen)
    || (!g.nodes[bs].isFilter && !g.nodes[bs].supportsBacking)
    || (backing.Some? && Reaches(CutBacking(g, was), backing.value, bs))
  }

  lemma CutReady(g: Graph, bs: NodeId, was: Option<EdgeId>)
    requires Inv(g) && OldBacking(g, bs, was)
    ensures Acyclic(CutBacking(g, was)) && CutBacking(g, was).nodes == g.nodes
  {
    if was.Some? { CutKeeps(g, was.value); }
  }

  lemma BackingReady(env: Env, g: Graph, e: EdgeId, bs: NodeId, backing: Option<NodeId>, was: Option<EdgeId>)
    requires Inv(g) && Allowed(g, SetBacking(e, bs, backing)) && OldBacking(g, bs, was)
    ensures !BackingRefused(g, bs, backing, was) ==>
              && Acyclic(BackingEdit(env, g, e, bs, backing, was))
              && bs in BackingEdit(env, g, e, bs, backing, was).nodes
  {
    if !BackingRefused(g, bs, backing, was) {
      BackingEditSound(env, g, e, bs, backing, was);
    }
  }

  lemma BackingDone(env: Env, g: Graph, e: EdgeId, bs: NodeId, backing: Option<NodeId>, was: Option<EdgeId>,
                    ok: bool, t: Graph, r: Graph)
    requires Inv(g) && Allowed(g, SetBacking(e, bs, backing)) && OldBacking(g, bs, was)
    requires
      if BackingRefused(g, bs, backing, was) then Fails(g, ok, r)
      else Transact(env, g, BackingEdit(env, g, e, bs, backing, was), {bs}, ok, t)
           && r == if ok && was.Some? then DropEdge(t, was.value) else t
    ensures Step(env, g, SetBacking(e, bs, backing), ok, r) && Inv(r) && (!ok ==> r == g)
    ensures ok ==> Effect(g, SetBacking(e, bs, backing), r)
  {
    hide Effect;
    assert StepSetBacking(env, g, e, bs, backing, was, ok, r);
    StepKeeps(env, g, SetBacking(e, bs, backing), ok, r);
    if ok { StepEffect(env, g, SetBacking(e, bs, backing), r); }
  }

  lemma NothingFrozen(g: Graph, frozen: bool)
    ensures SetFrozen(g, Elems([]), frozen) == g
  {}

  lemma NotYetMarked(g: Graph, bs: NodeId, es: seq<EdgeId>, last: NodeId, k: nat)
    requires WellFormed(g) && Acyclic(g) && UniqueChain(g) && Chain(g, bs, es, last) && k < |es|
    ensures es[k] !in Elems(es[..k])
  {
    forall j | 0 <= j < k ensures es[j] != es[k] { ChainNoRepeat(g, bs, es, last, j, k); }
  }

  lemma FrozenBooks(g: Graph, nextEdge: EdgeId, refs: map<NodeId, int>, owed: multiset<NodeId>, fs: set<EdgeId>, frozen: bool,
                    alive: multiset<NodeId>, dying: set<NodeId>)
    requires BaseOf(g, [], nextEdge) && Balanced(g, refs, owed) && Inv(g) && AliveAt(Undo([], g), alive, dying)
    ensures var h := SetFrozen(g, fs, frozen);
            BaseOf(h, [], nextEdge) && Balanced(h, refs, owed) && Inv(h) && AliveAt(Undo([], h), alive, dying)
  {
    hide Acyclic, NoConflicts, UniqueChain, Chain;
    SetFrozenKeeps(g, fs, frozen);
    SetFrozenLinks(g, fs, frozen, 0);
    SameParentsBalanced(g, SetFrozen(g, fs, frozen), refs, owed);
  }

  // --- deleting nodes ---

  /** The edges a node owns, attached or not. */
  function OwnEdges(g: Graph, n: NodeId): set<EdgeId> {
    set e | e in g.edges && g.edges[e].parent == Some(n)
  }

  /** bdrv_close before it lets the children go: the driver has unfrozen them, bs->drv is NULL. */
  function Closing(g: Graph, n: NodeId): Graph
    requires n in g.nodes
  {
    SetFrozen(g, OwnEdges(g, n), false).(nodes := g.nodes[n := g.nodes[n].(drv := false)])
  }

  function Without(g: Graph, n: NodeId): Graph {
    Graph(g.nodes - {n}, g.edges - OwnEdges(g, n))
  }

  lemma ClosingKeeps(g: Graph, n: NodeId)
    requires Inv(g) && n in g.nodes
    ensures Inv(Closing(g, n))
  {
    var f, h := SetFrozen(g, OwnEdges(g, n), false), Closing(g, n);
    SetFrozenKeeps(g, OwnEdges(g, n), false);
    SameEdgesKeep(f, h);
  }

  /** Nodes may lose their driver, or go when no edge is left at them. */
  lemma SameEdgesKeep(g: Graph, h: Graph)
    requires Inv(g) && h.edges == g.edges && h.nodes.Keys <= g.nodes.Keys && WellFormed(h)
    requires forall m | m in h.nodes :: h.nodes[m] == g.nodes[m] || h.nodes[m] == g.nodes[m].(drv := false)
    ensures Inv(h)
  {
    forall a: NodeId, b: NodeId | Linked(h, a, b) ensures Linked(g, a, b) {
      var e: EdgeId :| e in h.edges && h.edges[e].parent == Some(a) && h.edges[e].bs == Some(b);
      assert e in g.edges;
    }
    FewerLinksAcyclic(g, h);
    SameEdgesNoConflicts(g, h);
    forall e | ChainLink(h, e) ensures ChainLink(g, e) {}
  }

  lemma SameEdgesNoConflicts(g: Graph, h: Graph)
    requires NoConflicts(g) && h.edges == g.edges && h.nodes.Keys <= g.nodes.Keys
    ensures NoConflicts(h)
  {}

  lemma ClosingBooks(g: Graph, nextEdge: EdgeId, refs: map<NodeId, int>, owed: multiset<NodeId>, n: NodeId)
    requires BaseOf(g, [], nextEdge) && Balanced(g, refs, owed) && Inv(g) && n in g.nodes
    ensures BaseOf(Closing(g, n), [], nextEdge) && Balanced(Closing(g, n), refs, owed) && Inv(Closing(g, n))
  {
    hide Acyclic, NoConflicts, UniqueChain;
    ClosingKeeps(g, n);
    var h := Closing(g, n);
    forall m: NodeId ensures Parents(h, m) == Parents(g, m) {}
  }

  lemma ClosingAlive(g: Graph, n: NodeId, owed: multiset<NodeId>, dying: set<NodeId>)
    requires n in g.nodes && AliveAt(Undo([], g), owed, dying)
    ensures AliveAt(Undo([], Closing(g, n)), owed, dying)
  {
    forall m: NodeId ensures Parents(Closing(g, n), m) == Parents(g, m) {}
  }

  lemma GoneAlive(g: Graph, n: NodeId, owed: multiset<NodeId>, dying: set<NodeId>)
    requires AliveAt(Undo([], g), owed, dying)
    ensures AliveAt(Undo([], g.(nodes := g.nodes - {n})), owed, dying - {n})
  {
    forall m: NodeId ensures Parents(g.(nodes := g.nodes - {n}), m) == Parents(g, m) {}
  }

  /** A node that nothing refers to has no parents, and nobody is owed a reference to it. */
  lemma UnreferencedHasNoParents(g: Graph, refs: map<NodeId, int>, owed: multiset<NodeId>, n: NodeId)
    requires Balanced(g, refs, owed) && RefCount(refs, n) == 0
    ensures Parents(g, n) == {} && n !in owed
  {}

  lemma GoneBooks(g: Graph, nextEdge: EdgeId, refs: map<NodeId, int>, owed: multiset<NodeId>, n: NodeId)
    requires BaseOf(g, [], nextEdge) && Balanced(g, refs, owed) && Inv(g)
    requires n in g.nodes && OwnEdges(g, n) == {} && refs[n] == 0
    ensures var h := g.(nodes := g.nodes - {n});
            BaseOf(h, [], nextEdge) && Balanced(h, refs - {n}, owed) && Inv(h)
  {
    UnreferencedHasNoParents(g, refs, owed, n);
    var h := g.(nodes := g.nodes - {n});
    forall e | e in g.edges ensures g.edges[e].parent != Some(n) && g.edges[e].bs != Some(n) {
      assert e !in OwnEdges(g, n) && e !in Parents(g, n);
    }
    SameEdgesKeep(g, h);
    forall m: NodeId ensures Parents(h, m) == Parents(g, m) {}
  }

  /** Of the edges the closing node owned, those in `todo` are left. */
  ghost predicate PartlyClosed(g: Graph, n: NodeId, todo: set<EdgeId>, r: Graph)
    requires n in g.nodes
  {
    && todo <= OwnEdges(g, n)
    && SameLinks(Closing(g, n).(edges := Closing(g, n).edges - (OwnEdges(g, n) - todo)), r)
  }

  lemma NoneClosed(g: Graph, n: NodeId)
    requires n in g.nodes
    ensures OwnEdges(Closing(g, n), n) == OwnEdges(g, n)
    ensures PartlyClosed(g, n, OwnEdges(g, n), Closing(g, n))
    ensures |Closing(g, n).edges| == |g.edges|
  {
    assert Closing(g, n).edges.Keys == g.edges.Keys;
  }

  lemma UnrefLinks(env: Env, g: Graph, e: EdgeId, r: Graph)
    requires Allowed(g, Unref(e)) && Step(env, g, Unref(e), true, r)
    ensures SameLinks(DropEdge(g, e), r)
  {}

  lemma PartlyClosedStep(g: Graph, n: NodeId, todo: set<EdgeId>, r: Graph, c: EdgeId, r': Graph)
    requires n in g.nodes && PartlyClosed(g, n, todo, r) && c in todo && SameLinks(DropEdge(r, c), r')
    ensures PartlyClosed(g, n, todo - {c}, r') && |r'.edges| + 1 == |r.edges|
  {
    assert c in r.edges && r'.edges.Keys == r.edges.Keys - {c};
  }

  lemma OneMoreClosed(env: Env, g: Graph, n: NodeId, todo: set<EdgeId>, r: Graph, c: EdgeId, r': Graph)
    requires n in g.nodes && PartlyClosed(g, n, todo, r) && c in todo
    ensures Allowed(r, Unref(c))
    ensures Step(env, r, Unref(c), true, r') ==> PartlyClosed(g, n, todo - {c}, r') && |r'.edges| + 1 == |r.edges|
  {
    hide Step;
    if Step(env, r, Unref(c), true, r') {
      UnrefLinks(env, r, c, r');
      PartlyClosedStep(g, n, todo, r, c, r');
    }
  }

  lemma AllClosed(g: Graph, n: NodeId, r: Graph)
    requires n in g.nodes && PartlyClosed(g, n, {}, r)
    ensures OwnEdges(r, n) == {} && n in r.nodes && SameLinks(Without(g, n), r.(nodes := r.nodes - {n}))
  {}

  lemma UnrefBooks(g: Graph, refs: map<NodeId, int>, held: multiset<NodeId>, scheduled: multiset<NodeId>, n: NodeId)
    requires Balanced(g, refs, held + scheduled + Pinned([])) && n in held
    ensures n in refs && n in g.nodes && refs[n] > 0
    ensures Balanced(g, refs[n := refs[n] - 1], held - multiset{n} + scheduled + Pinned([]))
  {
    assert RefCount(refs, n) == |Parents(g, n)| + (held + scheduled + Pinned([]))[n];
  }

  lemma UnrefAlive(g: Graph, refs: map<NodeId, int>, held: multiset<NodeId>, scheduled: multiset<NodeId>, n: NodeId, dying: set<NodeId>)
    requires Balanced(g, refs, held + scheduled + Pinned([])) && n in held && n in refs && AliveAt(Undo([], g), held + scheduled, dying)
    ensures AliveAt(Undo([], g), held - multiset{n} + scheduled, if refs[n] == 1 then dying + {n} else dying)
  {
    assert RefCount(refs, n) == |Parents(g, n)| + (held + scheduled + Pinned([]))[n];
  }

  lemma EmptyBooks()
    ensures var g := Graph(map[], map[]);
            && BaseOf(g, [], 0) && Balanced(g, map[], multiset{} + multiset{} + Pinned([])) && Inv(g)
            && AliveAt(Undo([], g), multiset{} + multiset{}, {})
  {}

  lemma NewNodeBooks(g: Graph, nextEdge: EdgeId, refs: map<NodeId, int>, held: multiset<NodeId>, scheduled: multiset<NodeId>,
                     n: NodeId, node: Node, dying: set<NodeId>)
    requires BaseOf(g, [], nextEdge) && Balanced(g, refs, held + scheduled + Pinned([])) && Inv(g) && n !in g.nodes
    requires AliveAt(Undo([], g), held + scheduled, dying)
    ensures var h := g.(nodes := g.nodes[n := node]);
            && BaseOf(h, [], nextEdge) && Inv(h)
            && Balanced(h, refs[n := 1], held + multiset{n} + scheduled + Pinned([]))
            && AliveAt(Undo([], h), held + multiset{n} + scheduled, dying)
  {
    var h := g.(nodes := g.nodes[n := node]);
    forall m: NodeId ensures Parents(h, m) == Parents(g, m) {}
    assert RefCount(refs, n) == 0;
    NewNodeKeeps(g, n, node);
  }

  lemma NewNodeKeeps(g: Graph, n: NodeId, node: Node)
    requires Inv(g) && n !in g.nodes
    ensures Inv(g.(nodes := g.nodes[n := node]))
  {
    var h := g.(nodes := g.nodes[n := node]);
    forall a: NodeId, b: NodeId | Linked(h, a, b) ensures Linked(g, a, b) {
      var e: EdgeId :| e in h.edges && h.edges[e].parent == Some(a) && h.edges[e].bs == Some(b);
      assert e in g.edges;
    }
    FewerLinksAcyclic(g, h);
    forall m | m in h.nodes ensures !Conflict(h, m) {
      assert Parents(h, m) == Parents(g, m);
      if m != n { assert !Conflict(g, m); }
    }
    forall e ensures ChainLink(h, e) ==> ChainLink(g, e) {}
  }

  class BlockLayer {
    var g: Graph
    var log: seq<Action>                 // the open transaction
    var refs: map<NodeId, int>           // bs->refcnt
    var scheduled: multiset<NodeId>      // bottom halves of bdrv_schedule_unref
    var nextEdge: EdgeId
    ghost var held: multiset<NodeId>     // references the callers own
    ghost var dying: set<NodeId>         // nodes that are being deleted

    /** Holds inside transactions, too. */
    ghost predicate Base()
      reads this
    {
      && BaseOf(g, log, nextEdge) && Balanced(g, refs, held + scheduled + Pinned(log))
      && AliveAt(Undo(log, g), held + scheduled, dying)
    }

    /** Holds between operations. */
    ghost predicate Valid()
      reads this
    {
      Base() && log == [] && Inv(g)
    }

    constructor ()
      ensures Valid() && g == Graph(map[], map[]) && held == multiset{} && dying == {}
    {
      g, log, refs, scheduled, nextEdge := Graph(map[], map[]), [], map[], multiset{}, 0;
      held, dying := multiset{}, {};
      new;
      EmptyBooks();
    }

    /** bdrv_new: the caller owns the first reference. */
    method NewNode(n: NodeId, node: Node)
      requires Valid() && n !in g.nodes
      modifies this`g, this`refs, this`held
      ensures Valid() && g == old(g).(nodes := old(g).nodes[n := node]) && held == old(held) + multiset{n}
    {
      hide BaseOf, Balanced, AliveAt, Inv, Pinned;
      NewNodeBooks(g, nextEdge, refs, held, scheduled, n, node, dying);
      g := g.(nodes := g.nodes[n := node]);
      refs := refs[n := 1];
      held := held + multiset{n};
    }

    // --- permissions ---

    /** bdrv_get_cumulative_perm */
    method GetCumulativePerm(n: NodeId) returns (cum: Need)
      ensures cum == Cumulative(g, n)
    {
      var todo := Parents(g, n);
      cum := Need({}, ALL);
      AllPerms();
      while todo != {}
        invariant todo <= Parents(g, n)
        invariant forall p :: p in cum.perm <==> exists e :: e in Parents(g, n) - todo && p in g.edges[e].need.perm
        invariant forall p :: p in cum.shared <==> forall e | e in Parents(g, n) - todo :: p in g.edges[e].need.shared
      {
        var e: EdgeId :| e in todo;
        ghost var before := todo;
        todo := todo - {e};
        assert Parents(g, n) - todo == (Parents(g, n) - before) + {e};
        cum := Need(cum.perm + g.edges[e].need.perm, cum.shared * g.edges[e].need.shared);
      }
      assert Parents(g, n) - todo == Parents(g, n);
    }

    /** bdrv_parent_perms_conflict: every pair, in both directions. */
    method ParentPermsConflict(n: NodeId) returns (conflict: bool)
      ensures conflict == Conflict(g, n)
    {
      var as_ := Parents(g, n);
      while as_ != {}
        invariant as_ <= Parents(g, n)
        invariant forall a, b | a in Parents(g, n) - as_ && b in Parents(g, n) && a != b ::
                    g.edges[b].need.perm <= g.edges[a].need.shared
      {
        var a: EdgeId :| a in as_;
        as_ := as_ - {a};
        var bs := Parents(g, n);
        while bs != {}
          invariant bs <= Parents(g, n)
          invariant forall b | b in Parents(g, n) - bs && a != b :: g.edges[b].need.perm <= g.edges[a].need.shared
        {
          var b: EdgeId :| b in bs;
          bs := bs - {b};
          if a == b {
            continue;
          }
          if !(g.edges[b].need.perm <= g.edges[a].need.shared) {
            return true;
          }
        }
      }
      return false;
    }

    /** bdrv_child_set_perm */
    method ChildSetPerm(e: EdgeId, need: Need)
      requires Base() && e in g.edges
      modifies this`g, this`log
      ensures Base() && g == SetNeed(old(g), e, need) && SameTransaction(old(log), old(g), log, g)
    {
      SetPermLogged(g, log, nextEdge, e, need);
      log := log + [SetPermAction(e, g.edges[e].need)];
      g := SetNeed(g, e, need);
      SameParentsBalanced(old(g), g, refs, held + scheduled + Pinned(log));
    }

    /** bdrv_node_refresh_perm */
    method NodeRefreshPerm(env: Env, n: NodeId) returns (ok: bool)
      requires Base() && n in g.nodes
      modifies this`g, this`log
      ensures Base() && SameTransaction(old(log), old(g), log, g)
      ensures ok <==> ChecksPass(env, old(g).nodes[n], n, Cumulative(old(g), n))
      ensures g == if ok && old(g).nodes[n].drv then SetChildren(env, old(g), n) else old(g)
      ensures ok && old(g).nodes[n].drv && DefaultDrivers(env, old(g)) && !Linked(old(g), n, n) ==> NodeByRole(g, n)
    {
      ghost var start := g;
      BelowNext(g, log, nextEdge);
      var cum := GetCumulativePerm(n);
      if WantsWrite(cum) && !Writable(g.nodes[n].flags) {
        return false;
      }
      if WantsWrite(cum) && Resize !in cum.perm && !g.nodes[n].aligned {
        return false;
      }
      if !g.nodes[n].drv {
        return true;
      }
      if !env.accepts(n, cum) {
        return false;
      }
      SetChildrenPerms(env, n, cum);
      if DefaultDrivers(env, start) && !Linked(start, n, n) { SetChildrenByRole(env, start, n); }
      return true;
    }

    /** Its loop over the children. */
    method SetChildrenPerms(env: Env, n: NodeId, cum: Need)
      requires Base() && cum == Cumulative(g, n)
      modifies this`g, this`log
      ensures Base() && SameTransaction(old(log), old(g), log, g)
      ensures g == SetChildren(env, old(g), n)
    {
      hide BaseOf, Balanced, AliveAt, Undo, Removed, Pinned, Wanted;
      ghost var start := g;
      var todo := Children(g, n);
      while todo != {}
        invariant todo <= Children(start, n)
        invariant Base() && SameTransaction(old(log), start, log, g)
        invariant PartlySet(env, start, n, Children(start, n) - todo, g)
      {
        var e: EdgeId :| e in todo;
        PartlySetNext(env, start, n, Children(start, n) - todo, g, e);
        assert Children(start, n) - (todo - {e}) == (Children(start, n) - todo) + {e};
        todo := todo - {e};
        var c := g.edges[e];
        ChildSetPerm(e, ChildNeed(env, g, n, Some(e), c.role, c.bs.value, cum));
      }
      assert Children(start, n) - todo == Children(start, n);
      AllSet(env, start, n, g);
    }

    /** bdrv_do_refresh_perms: one pass over a topologically sorted list. It succeeds exactly when
        the graph can be refreshed, and the result is then the one refreshed graph. */
    method DoRefreshPerms(env: Env, list: seq<NodeId>) returns (ok: bool)
      requires Base() && Topological(g, list) && forall n | n in list :: n in g.nodes
      modifies this`g, this`log
      ensures Base() && SameTransaction(old(log), old(g), log, g)
      ensures ok ==> Refreshed(env, old(g), Elems(list), g)
      ensures !ok ==> forall x :: !Refreshed(env, old(g), Elems(list), x)
    {
      ghost var start := g;
      for k := 0 to |list|
        invariant Base() && SameTransaction(old(log), start, log, g)
        invariant Passed(env, start, list, k, g)
      {
        ghost var h := g;
        var conflict := ParentPermsConflict(list[k]);
        if conflict {
          forall x ensures !Refreshed(env, start, Elems(list), x) { PassFails(env, start, list, k, h, x); }
          return false;
        }
        var passed := NodeRefreshPerm(env, list[k]);
        if !passed {
          forall x ensures !Refreshed(env, start, Elems(list), x) { PassFails(env, start, list, k, h, x); }
          return false;
        }
        PassStep(env, start, list, k, h, g);
      }
      assert list[..|list|] == list;
      return true;
    }

    /** bdrv_refresh_perms, bdrv_list_refresh_perms */
    method RefreshPerms(env: Env, roots: seq<NodeId>) returns (ok: bool)
      requires Base() && Acyclic(g) && forall r | r in roots :: r in g.nodes
      modifies this`g, this`log
      ensures Base() && SameTransaction(old(log), old(g), log, g)
      ensures ok ==> Refreshed(env, old(g), Subtrees(old(g), Elems(roots)), g)
      ensures !ok ==> forall x :: !Refreshed(env, old(g), Subtrees(old(g), Elems(roots)), x)
    {
      var list := CollectSubtrees(g, roots);
      assert forall n | n in list :: n in Elems(list);
      ok := DoRefreshPerms(env, list);
    }

    // --- transactions ---

    /** bdrv_replace_child_tran, with bdrv_replace_child_noperm */
    method ReplaceChildTran(e: EdgeId, to: Option<NodeId>)
      requires Base() && e in g.edges && !g.edges[e].frozen && g.edges[e].bs != to
      requires e !in Removed(log) && (to.Some? ==> to.value in g.nodes)
      modifies this`g, this`log, this`refs
      ensures Base() && g == Retarget(old(g), e, to) && Undo(log, g) == old(Undo(log, g))
      ensures Removed(log) == old(Removed(log))
    {
      hide BaseOf, Balanced, AliveAt, Undo, Removed, Pinned;
      ReplaceBooks(g, log, nextEdge, refs, held + scheduled, e, to);
      log := log + [ReplaceAction(e, g.edges[e].bs)];
      refs := Bump(refs, to, 1);
      g := Retarget(g, e, to);
    }

    /** bdrv_attach_child_common, all nodes being in one AioContext */
    method AttachChildCommon(edge: Edge) returns (e: EdgeId)
      requires Base() && edge.bs.Some? && edge.bs.value in g.nodes && nextEdge !in Removed(log)
      requires edge.parent.Some? ==> edge.parent.value in g.nodes
      modifies this`g, this`log, this`refs, this`nextEdge
      ensures Base() && e == old(nextEdge) && g == AddEdge(old(g), e, edge) && Undo(log, g) == old(Undo(log, g))
      ensures Removed(log) == old(Removed(log)) && e !in old(g).edges
    {
      hide Balanced, AliveAt, Undo, Removed, Pinned;
      e := nextEdge;
      AttachLogged(g, log, e, edge);
      AttachBalanced(g, refs, held + scheduled + Pinned(log), e, edge);
      log := log + [AttachAction(e)];
      refs := Bump(refs, edge.bs, 1);
      g := AddEdge(g, e, edge);
      nextEdge := nextEdge + 1;
    }

    /** bdrv_remove_child */
    method RemoveChild(e: EdgeId)
      requires Base() && e in g.edges && !g.edges[e].frozen && e !in Removed(log)
      modifies this`g, this`log, this`refs
      ensures Base() && g == Retarget(old(g), e, None) && Undo(log, g) == old(Undo(log, g))
      ensures Removed(log) == old(Removed(log)) + {e}
    {
      if g.edges[e].bs.Some? {
        ReplaceChildTran(e, None);
      }
      assert g.edges == Retarget(old(g), e, None).edges;
      LogGrows(log, RemoveAction(e), g, g);
      log := log + [RemoveAction(e)];
    }

    /** bdrv_child_set_perm_abort */
    method SetPermAbort()
      requires Base() && log != [] && log[|log| - 1].SetPermAction?
      modifies this`g, this`log
      ensures Base() && log == old(log)[..|old(log)| - 1] && g == UndoOne(old(g), old(log)[|old(log)| - 1])
    {
      hide BaseOf, Balanced, AliveAt, Removed, Pinned, Undoable;
      AbortBooks(g, log, nextEdge, refs, scheduled, held, dying);
      var SetPermAction(e, was) := log[|log| - 1];
      g := SetNeed(g, e, was);
      log := log[..|log| - 1];
    }

    /** bdrv_replace_child_abort: the logged reference goes back to the edge, the new target's is
        dropped. It is never the last one, so that bdrv_unref deletes nothing here. */
    method ReplaceChildAbort()
      requires Base() && log != [] && log[|log| - 1].ReplaceAction?
      modifies this`g, this`log, this`refs
      ensures Base() && log == old(log)[..|old(log)| - 1] && g == UndoOne(old(g), old(log)[|old(log)| - 1])
      ensures Positive(refs, dying)
    {
      hide BaseOf, Balanced, AliveAt, Removed, Pinned, Undoable;
      AbortBooks(g, log, nextEdge, refs, scheduled, held, dying);
      var ReplaceAction(e, target) := log[|log| - 1];
      refs := Bump(refs, g.edges[e].bs, -1);
      assert forall n | n in refs && n !in dying :: refs[n] > 0;
      g := Retarget(g, e, target);
      log := log[..|log| - 1];
    }

    /** bdrv_attach_child_common_abort */
    method AttachChildCommonAbort()
      requires Base() && log != [] && log[|log| - 1].AttachAction?
      modifies this`g, this`log, this`scheduled
      ensures Base() && log == old(log)[..|old(log)| - 1] && g == UndoOne(old(g), old(log)[|old(log)| - 1])
    {
      hide BaseOf, Balanced, AliveAt, Removed, Pinned, Undoable;
      AbortBooks(g, log, nextEdge, refs, scheduled, held, dying);
      var AttachAction(e) := log[|log| - 1];
      scheduled := scheduled + Bag(g.edges[e].bs);
      g := DropEdge(g, e);
      log := log[..|log| - 1];
    }

    /** The abort callback of the last action. */
    method AbortAction()
      requires Base() && log != []
      modifies this`g, this`log, this`refs, this`scheduled
      ensures Base() && log == old(log)[..|old(log)| - 1] && g == UndoOne(old(g), old(log)[|old(log)| - 1])
      ensures OnlyPerms(old(log)) ==> OnlyPerms(log) && refs == old(refs) && scheduled == old(scheduled)
    {
      hide BaseOf, Balanced, AliveAt, Removed, Pinned, Undoable;
      match log[|log| - 1] {
        case SetPermAction(_, _) =>
          SetPermAbort();
        case ReplaceAction(_, _) =>
          ReplaceChildAbort();
        case AttachAction(_) =>
          AttachChildCommonAbort();
        case RemoveAction(_) =>
          AbortBooks(g, log, nextEdge, refs, scheduled, held, dying);
          log := log[..|log| - 1];
      }
    }

    /** tran_abort: the abort callbacks in reverse order. */
    method TranAbort()
      requires Base()
      modifies this`g, this`log, this`refs, this`scheduled
      ensures Base() && log == [] && g == old(Undo(log, g))
      ensures OnlyPerms(old(log)) ==> refs == old(refs) && scheduled == old(scheduled)
    {
      hide BaseOf, Balanced, AliveAt, Removed, Pinned, Undoable;
      while log != []
        invariant Base() && Undo(log, g) == old(Undo(log, g))
        invariant OnlyPerms(old(log)) ==> OnlyPerms(log) && refs == old(refs) && scheduled == old(scheduled)
        decreases |log|
      {
        AbortAction();
      }
    }

    /** What holds while a transaction is being committed. */
    ghost predicate Committing()
      reads this
    {
      && WellFormed(g) && (forall e | e in g.edges :: e < nextEdge) && Balanced(g, refs, held + scheduled + Pinned(log))
      && Positive(refs, dying)
    }

    /** The commit callback of the last action. */
    method CommitAction() returns (ghost gone: set<EdgeId>)
      requires Committing() && log != []
      requires forall e | e in Removed(log) && e in g.edges :: g.edges[e].bs.None?
      modifies this`g, this`log, this`scheduled
      ensures Committing() && log == old(log)[..|old(log)| - 1]
      ensures g == old(g).(edges := old(g).edges - gone) && Removed(log) + gone == old(Removed(log))
      ensures OnlyPerms(old(log)) ==> OnlyPerms(log) && scheduled == old(scheduled)
    {
      hide Balanced, AliveAt, Removed, Pinned;
      var a := log[|log| - 1];
      assert a in log;
      CommitBooks(g, log, refs, scheduled, held);
      gone := {};
      match a {
        case ReplaceAction(_, target) =>
          scheduled := scheduled + Bag(target);
        case RemoveAction(e) =>
          g := DropEdge(g, e);
          gone := {e};
        case _ =>
      }
      log := log[..|log| - 1];
    }

    /** tran_commit: the commit callbacks in reverse order. */
    method TranCommit()
      requires Base()
      modifies this`g, this`log, this`scheduled
      ensures Base() && log == []
      ensures g == old(g).(edges := old(g).edges - old(Removed(log)))
      ensures OnlyPerms(old(log)) ==> scheduled == old(scheduled)
    {
      hide BaseOf, Balanced, AliveAt, Removed, Pinned, Undo, Positive;
      RefsPositive(g, log, nextEdge, refs, held + scheduled, dying);
      BelowNext(g, log, nextEdge);
      ghost var all: set<EdgeId> := {};
      while log != []
        invariant Committing()
        invariant all + Removed(log) == old(Removed(log)) && g == old(g).(edges := old(g).edges - all)
        invariant OnlyPerms(old(log)) ==> OnlyPerms(log) && scheduled == old(scheduled)
        decreases |log|
      {
        ghost var gone := CommitAction();
        all := all + gone;
      }
      EmptyLog(g);
      AliveFromRefs(g, refs, held + scheduled, dying);
      EmptyBase(g, nextEdge);
    }

    /** tran_finalize */
    method TranFinalize(ok: bool)
      requires Base()
      modifies this`g, this`log, this`refs, this`scheduled
      ensures Base() && log == []
      ensures g == if ok then old(g).(edges := old(g).edges - old(Removed(log))) else old(Undo(log, g))
      ensures OnlyPerms(old(log)) ==> refs == old(refs) && scheduled == old(scheduled)
    {
      if ok {
        TranCommit();
      } else {
        TranAbort();
      }
    }

    /** The common end of the operations below. `t` is the graph before removed edges are freed. */
    method RefreshAndFinalize(env: Env, roots: seq<NodeId>) returns (ok: bool, ghost t: Graph)
      requires Base() && Acyclic(g) && forall r | r in roots :: r in g.nodes
      modifies this`g, this`log, this`refs, this`scheduled
      ensures Base() && log == []
      ensures Transact(env, old(Undo(log, g)), old(g), Elems(roots), ok, t)
      ensures g == if ok then t.(edges := t.edges - old(Removed(log))) else t
      ensures old(Removed(log)) == {} ==> g == t
      ensures OnlyPerms(old(log)) ==> refs == old(refs) && scheduled == old(scheduled)
    {
      hide BaseOf, Balanced, AliveAt, Pinned, Undoable, Undo, Refreshed, Subtrees;
      ok := RefreshPerms(env, roots);
      t := g;
      TranFinalize(ok);
      if !ok { t := g; }
      assert t.edges - {} == t.edges;
    }

    /** bdrv_schedule_unref of a reference the caller owns. */
    method ScheduleUnref(n: NodeId)
      requires Base() && n in held
      modifies this`scheduled, this`held
      ensures Base() && held == old(held) - multiset{n} && scheduled == old(scheduled) + multiset{n}
    {
      assert (held - multiset{n}) + (scheduled + multiset{n}) == held + scheduled;
      held := held - multiset{n};
      scheduled := scheduled + multiset{n};
    }

    // --- operations ---

    /** bdrv_root_attach_child: consumes the caller's reference, whatever the outcome. */
    method RootAttachChild(env: Env, child: NodeId, role: Role, need: Need, stay: bool) returns (ret: Option<EdgeId>)
      requires Valid() && child in g.nodes && child in held
      modifies this
      ensures dying == old(dying) && (ret.None? ==> g == old(g))
      ensures Valid() && Step(env, old(g), RootAttach(old(nextEdge), child, role, need, stay), ret.Some?, g)
      ensures ret.Some? ==> Effect(old(g), RootAttach(old(nextEdge), child, role, need, stay), g)
      ensures ret == Some(old(nextEdge)) || ret.None?
      ensures held == old(held) - multiset{child}
    {
      hide BaseOf, Balanced, AliveAt, Acyclic, Undo, Removed, Pinned, Transact, Step, Reaches, Effect;
      var edge := Edge(None, Some(child), role, need, false, stay);
      EmptyLog(g);
      BelowNext(g, log, nextEdge);
      AddEdgeAcyclic(g, nextEdge, edge);
      var e := AttachChildCommon(edge);
      var ok, t := RefreshAndFinalize(env, [child]);
      assert Elems([child]) == {child};
      RootAttachDone(env, old(g), e, child, role, need, stay, ok, g);
      ScheduleUnref(child);
      ret := if ok then Some(e) else None;
    }

    /** bdrv_attach_child_noperm: refuses to make a cycle. */
    method AttachChildNoperm(env: Env, parent: NodeId, child: NodeId, role: Role) returns (e: Option<EdgeId>)
      requires Base() && Acyclic(g) && parent in g.nodes && child in g.nodes && nextEdge !in Removed(log)
      modifies this`g, this`log, this`refs, this`nextEdge
      ensures Base() && Undo(log, g) == old(Undo(log, g)) && Removed(log) == old(Removed(log))
      ensures e == if Reaches(old(g), child, parent) then None else Some(old(nextEdge))
      ensures g == if e.Some? then AddEdge(old(g), e.value, NewEdge(env, old(g), parent, child, role)) else old(g)
      ensures old(nextEdge) !in old(g).edges
    {
      if RecurseHasChild(g, child, parent) {
        return None;
      }
      var cum := GetCumulativePerm(parent);
      var need := ChildNeed(env, g, parent, None, role, child, cum);
      var id := AttachChildCommon(Edge(Some(parent), Some(child), role, need, false, false));
      e := Some(id);
    }

    /** bdrv_attach_child: consumes the caller's reference to the child, whatever the outcome. */
    method AttachChild(env: Env, parent: NodeId, child: NodeId, role: Role) returns (ret: Option<EdgeId>)
      requires Valid() && Allowed(g, Attach(nextEdge, parent, child, role)) && child in held
      modifies this
      ensures dying == old(dying) && (ret.None? ==> g == old(g))
      ensures Valid() && Allowed(old(g), Attach(old(nextEdge), parent, child, role))
      ensures Step(env, old(g), Attach(old(nextEdge), parent, child, role), ret.Some?, g)
      ensures ret.Some? ==> Effect(old(g), Attach(old(nextEdge), parent, child, role), g)
      ensures ret == Some(old(nextEdge)) || ret.None?
      ensures held == old(held) - multiset{child}
    {
      hide BaseOf, Balanced, AliveAt, Acyclic, Undo, Removed, Pinned, Transact, Step, Reaches, Effect;
      ghost var id := nextEdge;
      EmptyLog(g);
      var e := AttachChildNoperm(env, parent, child, role);
      var ok := false;
      if e.Some? {
        AddEdgeAcyclic(old(g), e.value, g.edges[e.value]);
        ghost var t;
        ok, t := RefreshAndFinalize(env, [parent]);
        assert Elems([parent]) == {parent};
      } else {
        TranFinalize(false);
      }
      AttachDone(env, old(g), id, parent, child, role, ok, g);
      ScheduleUnref(child);
      ret := if ok then e else None;
    }

    /** bdrv_child_try_set_perm: a failure to loosen is not reported. */
    method ChildTrySetPerm(env: Env, e: EdgeId, need: Need) returns (ret: bool, ghost done: bool)
      requires Valid() && Allowed(g, SetPerm(e, need))
      modifies this
      ensures dying == old(dying) && (!done ==> g == old(g))
      ensures Valid() && held == old(held)
      ensures Step(env, old(g), SetPerm(e, need), done, g)
      ensures done ==> Effect(old(g), SetPerm(e, need), g)
      ensures ret <==> done || Looser(need, old(g).edges[e].need)
    {
      hide BaseOf, Balanced, AliveAt, Acyclic, Undo, Removed, Pinned, Step, Reaches, Refreshed, Effect;
      ghost var start := g;
      EmptyLog(g);
      SetPermReady(g, e, need);
      var n := g.edges[e].bs.value;
      assert Elems([n]) == {n};
      ChildSetPerm(e, need);
      var ok, t := RefreshAndFinalize(env, [n]);
      SetPermDone(env, start, e, need, ok, g);
      done := ok;
      ret := ok;
      if !ok {
        ret := Looser(need, g.edges[e].need);
      }
    }

    /** bdrv_root_unref_child: the edge goes away for good, and a failure to update the
        permissions below it is ignored. */
    method RootUnrefChild(env: Env, e: EdgeId)
      requires Valid() && Allowed(g, Unref(e))
      modifies this
      ensures dying == old(dying)
      ensures Valid() && Step(env, old(g), Unref(e), true, g) && Effect(old(g), Unref(e), g) && held == old(held)
      ensures refs == old(refs) && scheduled == old(scheduled) + Bag(old(g).edges[e].bs) && nextEdge == old(nextEdge)
    {
      hide BaseOf, Balanced, AliveAt, Acyclic, Undo, Removed, Pinned, Transact, Step, Reaches, Effect, Inv;
      ghost var start := g;
      assert held + Bag(g.edges[e].bs) - Bag(g.edges[e].bs) == held;
      var child := DropChild(e);
      EmptyLog(g);
      InvAcyclic(g);
      var ok := true;
      if child.Some? {
        ghost var t;
        ok, t := RefreshAndFinalize(env, [child.value]);
        OneElem(child.value);
        ScheduleUnref(child.value);
      }
      UnrefDone(env, start, e, ok, g);
    }

    /** bdrv_replace_child_noperm(child, NULL) and bdrv_child_free: the edge's reference is now ours. */
    method DropChild(e: EdgeId) returns (child: Option<NodeId>)
      requires Valid() && e in g.edges && !g.edges[e].frozen
      modifies this`g, this`held
      ensures Valid() && g == DropEdge(old(g), e) && child == old(g).edges[e].bs && held == old(held) + Bag(child)
      ensures child.Some? ==> child.value in g.nodes && child.value in held
    {
      child := g.edges[e].bs;
      DropBooks(g, nextEdge, refs, scheduled, held, dying, e);
      CutKeeps(g, e);
      g := DropEdge(g, e);
      held := held + Bag(child);
    }

    /** One turn of the loop of bdrv_replace_node_noperm; `start` is the graph before the loop. */
    method ReplaceParent(ghost start: Graph, from: NodeId, to: NodeId, autoSkip: bool, ghost todo: set<EdgeId>, c: EdgeId)
      returns (ok: bool)
      requires WellFormed(start) && Acyclic(start) && to in start.nodes && from != to
      requires todo <= Parents(start, from) && c in todo
      requires Base() && Removed(log) == {} && g == Redirect(start, Movable(start, from, to) - todo, to)
      modifies this`g, this`log, this`refs
      ensures Base() && Undo(log, g) == old(Undo(log, g)) && Removed(log) == {}
      ensures ok <==> ParentPasses(start, from, to, autoSkip, c)
      ensures ok ==> g == Redirect(start, Movable(start, from, to) - (todo - {c}), to)
    {
      hide BaseOf, Balanced, AliveAt, Acyclic, Undo, Removed;
      HalfReplaced(start, from, to, todo, c);
      EmptyLog(g);
      var should := ShouldUpdateChild(g, c, to);
      if !should {
        return autoSkip;
      }
      if g.edges[c].frozen {
        return false;
      }
      ReplaceChildTran(c, Some(to));
      return true;
    }

    /** bdrv_replace_node_noperm */
    method ReplaceNodeNoperm(from: NodeId, to: NodeId, autoSkip: bool) returns (ok: bool)
      requires Base() && Acyclic(g) && from in g.nodes && to in g.nodes && from != to && Removed(log) == {}
      modifies this`g, this`log, this`refs
      ensures Base() && Undo(log, g) == old(Undo(log, g)) && Removed(log) == {}
      ensures ok <==> !ReplaceRefused(old(g), from, to, autoSkip)
      ensures ok ==> g == Redirect(old(g), Movable(old(g), from, to), to)
    {
      hide BaseOf, Balanced, AliveAt, Acyclic, Undo, Removed, Redirect, ReplaceRefused, ParentPasses;
      BelowNext(g, log, nextEdge);
      ghost var start := g;
      RefusedByOne(start, from, to, autoSkip);
      var todo := Parents(g, from);
      NothingReplaced(start, from, to);
      while todo != {}
        invariant todo <= Parents(start, from)
        invariant Base() && Undo(log, g) == old(Undo(log, g)) && Removed(log) == {}
        invariant g == Redirect(start, Movable(start, from, to) - todo, to)
        invariant forall c | c in Parents(start, from) - todo :: ParentPasses(start, from, to, autoSkip, c)
      {
        var c: EdgeId :| c in todo;
        var passed := ReplaceParent(start, from, to, autoSkip, todo, c);
        todo := todo - {c};
        if !passed {
          return false;
        }
      }
      assert Movable(start, from, to) - todo == Movable(start, from, to);
      return true;
    }

    /** bdrv_replace_node_common with detach_subchain false */
    method ReplaceNodeCommon(env: Env, from: NodeId, to: NodeId, autoSkip: bool) returns (ok: bool)
      requires Valid() && Allowed(g, ReplaceNode(from, to, autoSkip))
      modifies this
      ensures dying == old(dying) && (!ok ==> g == old(g))
      ensures Valid() && Step(env, old(g), ReplaceNode(from, to, autoSkip), ok, g) && held == old(held)
      ensures ok ==> Effect(old(g), ReplaceNode(from, to, autoSkip), g)
    {
      hide BaseOf, Balanced, AliveAt, Acyclic, Undo, Removed, Movable, ReplaceRefused, Effect;
      ghost var start := g;
      EmptyLog(g);
      ok := ReplaceNodeNoperm(from, to, autoSkip);
      if ok {
        MovableRedirectAcyclic(start, from, to);
        ghost var t;
        PairElems(from, to);
        ok, t := RefreshAndFinalize(env, [from, to]);
      } else {
        TranFinalize(false);
      }
      ReplaceDone(env, start, from, to, autoSkip, ok, g);
    }

    /** bdrv_append */
    method AppendNode(env: Env, bsNew: NodeId, bsTop: NodeId) returns (ok: bool)
      requires Valid() && Allowed(g, Append(nextEdge, bsNew, bsTop))
      modifies this
      ensures dying == old(dying) && (!ok ==> g == old(g))
      ensures Valid() && held == old(held) && Allowed(old(g), Append(old(nextEdge), bsNew, bsTop))
      ensures Step(env, old(g), Append(old(nextEdge), bsNew, bsTop), ok, g)
      ensures ok ==> Effect(old(g), Append(old(nextEdge), bsNew, bsTop), g)
    {
      hide BaseOf, Balanced, AliveAt, Acyclic, Removed, Undo, ReplaceRefused, Movable, Reaches, Effect;
      ghost var start, id := g, nextEdge;
      EmptyLog(g);
      var e := AttachChildNoperm(env, bsNew, bsTop, BackingRole(g.nodes[bsNew]));
      ok := false;
      if e.Some? {
        AppendReady(env, start, id, bsNew, bsTop);
        ok := ReplaceNodeNoperm(bsTop, bsNew, true);
      }
      if ok {
        ghost var t;
        ok, t := RefreshAndFinalize(env, [bsNew]);
        OneElem(bsNew);
      } else {
        TranFinalize(false);
      }
      AppendDone(env, start, id, bsNew, bsTop, ok, g);
    }

    /** bs->backing */
    method FindBacking(bs: NodeId) returns (was: Option<EdgeId>)
      ensures OldBacking(g, bs, was)
    {
      if c :| c in g.edges && IsBacking(g, bs, c) {
        return Some(c);
      }
      return None;
    }

    /** bdrv_set_file_or_backing_noperm for the backing link */
    method SetBackingNoperm(env: Env, bs: NodeId, backing: Option<NodeId>, was: Option<EdgeId>) returns (ok: bool)
      requires Valid() && Allowed(g, SetBacking(nextEdge, bs, backing)) && OldBacking(g, bs, was)
      modifies this`g, this`log, this`refs, this`nextEdge
      ensures Base() && OldBacking(old(g), bs, was) && Undo(log, g) == old(g)
      ensures ok <==> !BackingRefused(old(g), bs, backing, was)
      ensures ok ==> g == BackingEdit(env, old(g), old(nextEdge), bs, backing, was)
      ensures ok ==> Removed(log) == if was.Some? then {was.value} else {}
    {
      hide BaseOf, Balanced, AliveAt, Acyclic, Removed, Undo, Reaches;
      EmptyLog(g);
      BelowNext(g, log, nextEdge);
      CutReady(g, bs, was);
      if !g.nodes[bs].drv {
        return false;
      }
      if was.Some? && g.edges[was.value].frozen {
        return false;
      }
      if !g.nodes[bs].isFilter && !g.nodes[bs].supportsBacking {
        return false;
      }
      var role := BackingRole(g.nodes[bs]);
      if was.Some? {
        RemoveChild(was.value);
      }
      if backing.None? {
        return true;
      }
      var e := AttachChildNoperm(env, bs, backing.value, role);
      return e.Some?;
    }

    /** bdrv_set_backing_hd_drained */
    method SetBackingHd(env: Env, bs: NodeId, backing: Option<NodeId>) returns (ok: bool)
      requires Valid() && Allowed(g, SetBacking(nextEdge, bs, backing))
      modifies this
      ensures dying == old(dying) && (!ok ==> g == old(g))
      ensures Valid() && held == old(held) && Allowed(old(g), SetBacking(old(nextEdge), bs, backing))
      ensures Step(env, old(g), SetBacking(old(nextEdge), bs, backing), ok, g)
      ensures ok ==> Effect(old(g), SetBacking(old(nextEdge), bs, backing), g)
    {
      hide BaseOf, Balanced, AliveAt, Acyclic, Reaches, Removed, Undo, BackingRefused, Effect;
      ghost var start, id, t := g, nextEdge, g;
      var was := FindBacking(bs);
      BackingReady(env, start, id, bs, backing, was);
      ok := SetBackingNoperm(env, bs, backing, was);
      if ok {
        OneElem(bs);
        ok, t := RefreshAndFinalize(env, [bs]);
      } else {
        TranFinalize(false);
      }
      BackingDone(env, start, id, bs, backing, was, ok, t, g);
    }

    // --- references ---

    /** bdrv_unref of a reference the caller owns: the last one deletes the node. */
    method UnrefNode(env: Env, n: NodeId)
      requires Valid() && n in held
      modifies this
      ensures Valid() && held == old(held) - multiset{n} && nextEdge == old(nextEdge) && n in old(refs) && dying <= old(dying)
      ensures if old(refs)[n] == 1 then refs == old(refs) - {n} && SameLinks(Without(old(g), n), g)
              else refs == old(refs)[n := old(refs)[n] - 1] && g == old(g)
      ensures |scheduled| + |g.edges| <= old(|scheduled| + |g.edges|)
    {
      hide BaseOf, Inv, AliveAt;
      UnrefBooks(g, refs, held, scheduled, n);
      UnrefAlive(g, refs, held, scheduled, n, dying);
      held := held - multiset{n};
      refs := refs[n := refs[n] - 1];
      if refs[n] == 0 {
        dying := dying + {n};
        DeleteNode(env, n);
        assert refs == old(refs) - {n};
      }
    }

    /** bdrv_delete, with bdrv_close: nothing points at the node any more. Its children are let go
        one by one; their own unrefs are scheduled. */
    method DeleteNode(env: Env, n: NodeId)
      requires Valid() && n in g.nodes && n in refs && refs[n] == 0 && n in dying
      modifies this
      ensures Valid() && held == old(held) && nextEdge == old(nextEdge) && refs == old(refs) - {n} && dying == old(dying) - {n}
      ensures SameLinks(Without(old(g), n), g)
      ensures |scheduled| + |g.edges| <= old(|scheduled| + |g.edges|)
    {
      hide BaseOf, Balanced, AliveAt, Inv, Step, Closing, PartlyClosed, SameLinks, Without;
      ghost var start := g;
      ClosingBooks(g, nextEdge, refs, held + scheduled + Pinned(log), n);
      ClosingAlive(g, n, held + scheduled, dying);
      NoneClosed(g, n);
      g := Closing(g, n);
      var todo := OwnEdges(g, n);
      while todo != {}
        invariant Valid() && held == old(held) && nextEdge == old(nextEdge) && refs == old(refs) && dying == old(dying)
        invariant PartlyClosed(start, n, todo, g)
        invariant |scheduled| + |g.edges| <= old(|scheduled| + |g.edges|)
      {
        var c: EdgeId :| c in todo;
        ghost var before := g;
        OneMoreClosed(env, start, n, todo, before, c, before);
        RootUnrefChild(env, c);
        OneMoreClosed(env, start, n, todo, before, c, g);
        todo := todo - {c};
      }
      AllClosed(start, n, g);
      GoneBooks(g, nextEdge, refs, held + scheduled + Pinned(log), n);
      GoneAlive(g, n, held + scheduled, dying);
      g := g.(nodes := g.nodes - {n});
      refs := refs - {n};
      dying := dying - {n};
    }

    /** The bottom halves of bdrv_schedule_unref, in any order, until none is left. */
    method RunScheduledUnrefs(env: Env)
      requires Valid()
      modifies this
      ensures Valid() && held == old(held) && nextEdge == old(nextEdge) && scheduled == multiset{} && dying <= old(dying)
      ensures forall n | n in g.nodes :: refs[n] == |Parents(g, n)| + held[n]
      ensures forall n | n in g.nodes && n !in dying :: refs[n] > 0
    {
      hide BaseOf, Inv, AliveAt;
      while scheduled != multiset{}
        invariant Valid() && held == old(held) && nextEdge == old(nextEdge) && dying <= old(dying)
        decreases |scheduled| + |g.edges|
      {
        var n: NodeId :| n in scheduled;
        assert (held + multiset{n}) + (scheduled - multiset{n}) == held + scheduled;
        scheduled := scheduled - multiset{n};
        held := held + multiset{n};
        UnrefNode(env, n);
        assert old(held) + multiset{n} - multiset{n} == old(held);
      }
      RefsPositive(g, log, nextEdge, refs, held + scheduled, dying);
    }

    // --- freezing a chain ---

    /** The last loop of bdrv_freeze_backing_chain and the loop of bdrv_unfreeze_backing_chain. */
    method MarkBackingChain(bs: NodeId, base: Option<NodeId>, frozen: bool, ghost es: seq<EdgeId>, ghost last: NodeId)
      requires Valid() && ChainTo(g, bs, es, base, last) && AllFrozen(g, es, !frozen)
      modifies this`g
      ensures Valid() && g == SetFrozen(old(g), Elems(es), frozen)
    {
      hide BaseOf, Balanced, AliveAt, Acyclic, NoConflicts, UniqueChain;
      ghost var start := g;
      ChainEdges(start, bs, es, last);
      var i := Some(bs);
      ghost var k := 0;
      assert es[0..] == es;
      NothingFrozen(start, frozen);
      while i != base
        invariant WalkAt(start, es, k, i, base, last) && g == SetFrozen(start, Elems(es[..k]), frozen)
        decreases |es| - k, i.Some?
      {
        SetFrozenLinks(start, Elems(es[..k]), frozen, i.value);
        var child := FilterOrCowChild(g, i.value);
        WalkStep(start, bs, es, k, i.value, base, last, child);
        if child.Some? {
          NotYetMarked(start, bs, es, last, k);
          assert g.edges[child.value].frozen == !frozen;
          SetFrozenNext(start, es, k, frozen);
          g := SetFrozen(g, {child.value}, frozen);
        }
        i := if child.Some? then g.edges[child.value].bs else None;
        k := if child.Some? then k + 1 else k;
      }
      WalkEnd(start, es, k, base, last);
      assert es[..k] == es;
      FrozenBooks(start, nextEdge, refs, held + scheduled + Pinned(log), Elems(es), frozen, held + scheduled, dying);
    }

    /** bdrv_freeze_backing_chain: all links or none. */
    method FreezeBackingChain(bs: NodeId, base: Option<NodeId>, ghost es: seq<EdgeId>, ghost last: NodeId) returns (ok: bool)
      requires Valid() && ChainTo(g, bs, es, base, last)
      modifies this`g
      ensures Valid() && (ok <==> Freezable(old(g), es))
      ensures g == if ok then SetFrozen(old(g), Elems(es), true) else old(g)
    {
      hide BaseOf, Balanced, AliveAt, Acyclic, NoConflicts, UniqueChain, AllFrozen;
      var frozen := IsBackingChainFrozen(g, bs, base, es, last);
      if frozen {
        return false;
      }
      var may := MayFreezeChain(g, bs, base, es, last);
      if !may {
        return false;
      }
      MarkBackingChain(bs, base, true, es, last);
      return true;
    }

    /** bdrv_unfreeze_backing_chain */
    method UnfreezeBackingChain(bs: NodeId, base: Option<NodeId>, ghost es: seq<EdgeId>, ghost last: NodeId)
      requires Valid() && ChainTo(g, bs, es, base, last) && AllFrozen(g, es, true)
      modifies this`g
      ensures Valid() && g == SetFrozen(old(g), Elems(es), false)
    {
      hide BaseOf, Balanced, AliveAt, Acyclic, NoConflicts, UniqueChain, AllFrozen;
      MarkBackingChain(bs, base, false, es, last);
    }
  }

  /** Appending an action whose undoing gives the previous graph. */
  lemma LogGrows(log: seq<Action>, a: Action, g: Graph, g': Graph)
    requires Undoable(log, g) && WellFormed(g') && a.e in g'.edges && UndoOne(g', a) == g
    requires a.AttachAction? ==> g'.edges[a.e].bs.Some?
    requires a.ReplaceAction? ==> a.e !in Removed(log)
    ensures Undoable(log + [a], g') && Undo(log + [a], g') == Undo(log, g)
    ensures Pinned(log + [a]) == Pinned(log) + match a case ReplaceAction(_, Some(n)) => multiset{n} case _ => multiset{}
    ensures Removed(log + [a]) == Removed(log) + if a.RemoveAction? then {a.e} else {}
  {}
}
