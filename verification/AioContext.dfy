/** Moving nodes, jobs and backends to another AioContext (engine/qemu-wasm/block.c,
    engine/qemu-wasm/blockjob.c, engine/qemu-wasm/block/block-backend.c): a recursion over the
    graph that remembers the edges it has visited, drains the nodes and collects the changes, and
    then a commit that makes them, or an abort. */
module AioContext {
  import opened Options
  import opened BlockGraph
  import opened AioSpread

  /** The log of a transaction holds what is to change its context. */
  ghost function Things(log: seq<Thing>): set<Thing> { set t | t in log }

  ghost function NodeEntries(log: seq<Thing>): multiset<NodeId> {
    if log == [] then multiset{}
    else NodeEntries(log[..|log| - 1]) + if log[|log| - 1].NodeThing? then multiset{log[|log| - 1].n} else multiset{}
  }

  lemma LogOne(log: seq<Thing>, t: Thing)
    ensures Things(log + [t]) == Things(log) + {t}
    ensures NodeEntries(log + [t]) == NodeEntries(log) + if t.NodeThing? then multiset{t.n} else multiset{}
  {
    assert (log + [t])[..|log|] == log;
  }

  lemma LastEntry(log: seq<Thing>)
    requires log != []
    ensures var t, rest := log[|log| - 1], log[..|log| - 1];
            forall n :: NodeEntries(log)[n] == NodeEntries(rest)[n] + if t == NodeThing(n) then 1 else 0
  {}

  lemma {:induction false} EntryIsCounted(log: seq<Thing>, k: nat)
    requires k < |log|
    ensures log[k].NodeThing? ==> NodeEntries(log)[log[k].n] > 0
  {
    if k < |log| - 1 { EntryIsCounted(log[..|log| - 1], k); }
  }

  // --- the recursion's invariant ---

  ghost predicate Ends(q: Query, e: EdgeId, s: set<Thing>)
    requires e in q.w.links
  {
    var Link(owner, bs) := q.w.links[e];
    && Willing(q.w, e)
    && (NodeThing(bs) in s || bs in q.still)
    && (owner.value in s || !Moves(q, owner.value))
  }

  /** Links at a node or a job. */
  function LinksAt(w: Wiring, t: Thing): set<EdgeId> {
    set e | e in w.links && ((t.NodeThing? && w.links[e].bs == t.n) || (!t.BackendThing? && w.links[e].owner == Some(t)))
  }

  /** `done` are the things whose change has been logged, `stack` those being worked on. */
  ghost predicate Searched(q: Query, visited: set<EdgeId>, done: set<Thing>, stack: set<Thing>) {
    && q.ignored <= visited
    && (forall e | e in visited && e !in q.ignored :: e in q.w.links && Ends(q, e, done + stack))
    && (forall t | t in done :: Affected(q, t) && LinksAt(q.w, t) <= visited)
  }

  lemma SearchStarts(q: Query)
    ensures Searched(q, q.ignored, Things([]), {} + {q.root})
    ensures Moves(q, q.root) ==> Affected(q, q.root)
  {}

  /** With nothing left to do, the logged things are the affected ones, and nobody objected. */
  lemma SearchComplete(q: Query, visited: set<EdgeId>, done: set<Thing>)
    requires Searched(q, visited, done, {}) && (Moves(q, q.root) ==> q.root in done)
    ensures forall t :: Affected(q, t) <==> t in done
    ensures NobodyObjects(q)
  {}

  /** A thing is done once all its links have been visited. */
  lemma ThingDone(q: Query, visited: set<EdgeId>, done: set<Thing>, stack: set<Thing>, t: Thing)
    requires Searched(q, visited, done, stack + {t}) && Affected(q, t) && LinksAt(q.w, t) <= visited
    ensures Searched(q, visited, done + {t}, stack)
  {}

  /** The search goes on to the other end of a new link. */
  lemma VisitLink(q: Query, visited: set<EdgeId>, done: set<Thing>, stack: set<Thing>, e: EdgeId, t: Thing)
    requires Searched(q, visited, done, stack) && e in q.w.links && Willing(q.w, e)
    requires Ends(q, e, stack + {t})
    ensures Searched(q, visited + {e}, done, stack + {t})
  {}

  /** Nodes in the context already need not be worked on. */
  lemma StillNode(q: Query, visited: set<EdgeId>, done: set<Thing>, stack: set<Thing>, n: NodeId)
    requires Searched(q, visited, done, stack + {NodeThing(n)}) && n in q.still
    ensures Searched(q, visited, done, stack)
  {}

  lemma NotIgnored(q: Query, visited: set<EdgeId>, done: set<Thing>, stack: set<Thing>, e: EdgeId)
    requires Searched(q, visited, done, stack) && e !in visited
    ensures e !in q.ignored
  {}

  class Contexts {
    var ctx: map<Thing, Ctx>            // bs->aio_context, job->aio_context, blk->ctx
    var drains: map<NodeId, nat>        // bdrv_drained_begin calls without their bdrv_drained_end
    var visited: set<EdgeId>
    var log: seq<Thing>                 // the transaction
    ghost var base: map<NodeId, nat>    // drains before the call

    /** Between calls: no transaction is open, every node has a drain count. */
    ghost predicate Valid()
      reads this`ctx, this`drains, this`log
    {
      log == [] && forall n :: n in drains <==> NodeThing(n) in ctx
    }

    /** Every logged node change holds one drain. */
    ghost predicate Paired()
      reads this`ctx, this`drains, this`base, this`log
    {
      && (forall n :: n in drains <==> NodeThing(n) in ctx) && base.Keys == drains.Keys
      && (forall n | n in drains :: drains[n] == base[n] + NodeEntries(log)[n])
      && forall t | t in log :: t in ctx
    }

    ghost predicate Asks(q: Query, w: Wiring, to: Ctx)
      reads this`ctx
    {
      && q.w == w && Known(w, ctx)
      && forall n :: n in q.still <==> NodeThing(n) in ctx && ctx[NodeThing(n)] == to
    }

    /** tran_add; a node is drained until the transaction ends. */
    method Log(t: Thing)
      requires Paired() && t in ctx
      modifies this`log, this`drains
      ensures Paired() && Things(log) == old(Things(log)) + {t}
    {
      hide NodeEntries, Things;
      LogOne(log, t);
      if t.NodeThing? {
        drains := drains[t.n := drains[t.n] + 1];
      }
      log := log + [t];
    }

    /** bdrv_change_aio_context */
    method ChangeNode(w: Wiring, to: Ctx, n: NodeId, ghost q: Query, ghost stack: set<Thing>) returns (ok: bool)
      requires Asks(q, w, to) && Paired() && NodeThing(n) in ctx && (n !in q.still ==> Affected(q, NodeThing(n)))
      requires Searched(q, visited, Things(log), stack + {NodeThing(n)})
      modifies this`visited, this`log, this`drains
      ensures Paired() && old(visited) <= visited
      ensures ok ==> Searched(q, visited, Things(log), stack) && (n in q.still || NodeThing(n) in Things(log))
      ensures !ok ==> !NobodyObjects(q)
      decreases w.links.Keys - visited, 3
    {
      hide Searched, Affected, NobodyObjects, Paired, Things;
      if ctx[NodeThing(n)] == to {
        StillNode(q, visited, Things(log), stack, n);
        return true;
      }
      ghost var stack' := stack + {NodeThing(n)};
      ok := ChangeParents(w, to, n, q, stack');
      if !ok {
        return;
      }
      ok := ChangeChildren(w, to, NodeThing(n), q, stack');
      if !ok {
        return;
      }
      ThingDone(q, visited, Things(log), stack, NodeThing(n));
      Log(NodeThing(n));
    }

    /** Its loop over the parents. */
    method ChangeParents(w: Wiring, to: Ctx, n: NodeId, ghost q: Query, ghost stack: set<Thing>) returns (ok: bool)
      requires Asks(q, w, to) && Paired() && Searched(q, visited, Things(log), stack)
      requires Affected(q, NodeThing(n)) && NodeThing(n) in stack
      modifies this`visited, this`log, this`drains
      ensures Paired() && old(visited) <= visited
      ensures ok ==> Searched(q, visited, Things(log), stack) && forall e | e in w.links && w.links[e].bs == n :: e in visited
      ensures !ok ==> !NobodyObjects(q)
      decreases w.links.Keys - visited, 1
    {
      hide Searched, Affected, NobodyObjects, Paired, Things;
      var todo := set e | e in w.links && w.links[e].bs == n;
      while todo != {}
        invariant Paired() && old(visited) <= visited && Searched(q, visited, Things(log), stack)
        invariant forall e | e in todo :: e in w.links && w.links[e].bs == n
        invariant forall e | e in w.links && w.links[e].bs == n :: e in todo || e in visited
      {
        var e: EdgeId :| e in todo;
        todo := todo - {e};
        ok := ChangeParent(w, to, e, q, stack);
        if !ok {
          return;
        }
      }
      return true;
    }

    /** The loop over the children of a node, and the one over the nodes of a job. */
    method ChangeChildren(w: Wiring, to: Ctx, t: Thing, ghost q: Query, ghost stack: set<Thing>) returns (ok: bool)
      requires Asks(q, w, to) && Paired() && Searched(q, visited, Things(log), stack)
      requires Affected(q, t) && t in stack && !t.BackendThing?
      modifies this`visited, this`log, this`drains
      ensures Paired() && old(visited) <= visited
      ensures ok ==> Searched(q, visited, Things(log), stack) && forall e | e in w.links && w.links[e].owner == Some(t) :: e in visited
      ensures !ok ==> !NobodyObjects(q)
      decreases w.links.Keys - visited, 1
    {
      hide Searched, Affected, NobodyObjects, Paired, Things;
      var todo := set e | e in w.links && w.links[e].owner == Some(t);
      while todo != {}
        invariant Paired() && old(visited) <= visited && Searched(q, visited, Things(log), stack)
        invariant forall e | e in todo :: e in w.links && w.links[e].owner == Some(t)
        invariant forall e | e in w.links && w.links[e].owner == Some(t) :: e in todo || e in visited
      {
        var e: EdgeId :| e in todo;
        todo := todo - {e};
        ok := ChangeChild(w, to, e, q, stack);
        if !ok {
          return;
        }
      }
      return true;
    }

    /** bdrv_parent_change_aio_context, with the handlers of the child classes */
    method ChangeParent(w: Wiring, to: Ctx, e: EdgeId, ghost q: Query, ghost stack: set<Thing>) returns (ok: bool)
      requires Asks(q, w, to) && Paired() && e in w.links && Searched(q, visited, Things(log), stack)
      requires Affected(q, NodeThing(w.links[e].bs)) && NodeThing(w.links[e].bs) in stack
      modifies this`visited, this`log, this`drains
      ensures Paired() && old(visited) <= visited
      ensures ok ==> Searched(q, visited, Things(log), stack) && e in visited
      ensures !ok ==> !NobodyObjects(q)
      decreases w.links.Keys - visited, 0
    {
      hide Searched, Affected, Paired, Things;
      if e in visited {
        return true;
      }
      NotIgnored(q, visited, Things(log), stack, e);
      visited := visited + {e};
      if w.links[e].owner.None? {
        return false;
      }
      var owner := w.links[e].owner.value;
      if owner.BackendThing? && owner.b !in w.flexible {
        return false;
      }
      if Moves(q, owner) { AffectedOwner(q, e); }
      VisitLink(q, old(visited), Things(log), stack, e, owner);
      match owner {
        case NodeThing(m) =>
          ok := ChangeNode(w, to, m, q, stack);
        case JobThing(j) =>
          ok := ChangeJob(w, to, j, q, stack);
        case BackendThing(_) =>
          ThingDone(q, visited, Things(log), stack, owner);
          Log(owner);
          ok := true;
      }
    }

    /** child_job_change_aio_ctx */
    method ChangeJob(w: Wiring, to: Ctx, j: JobId, ghost q: Query, ghost stack: set<Thing>) returns (ok: bool)
      requires Asks(q, w, to) && Paired() && JobThing(j) in ctx && Affected(q, JobThing(j))
      requires Searched(q, visited, Things(log), stack + {JobThing(j)})
      modifies this`visited, this`log, this`drains
      ensures Paired() && old(visited) <= visited
      ensures ok ==> Searched(q, visited, Things(log), stack) && JobThing(j) in Things(log)
      ensures !ok ==> !NobodyObjects(q)
      decreases w.links.Keys - visited, 3
    {
      hide Searched, Affected, NobodyObjects, Paired, Things;
      ok := ChangeChildren(w, to, JobThing(j), q, stack + {JobThing(j)});
      if !ok {
        return;
      }
      ThingDone(q, visited, Things(log), stack, JobThing(j));
      Log(JobThing(j));
    }

    /** bdrv_child_change_aio_context */
    method ChangeChild(w: Wiring, to: Ctx, e: EdgeId, ghost q: Query, ghost stack: set<Thing>) returns (ok: bool)
      requires Asks(q, w, to) && Paired() && e in w.links && Searched(q, visited, Things(log), stack)
      requires w.links[e].owner.Some? && !w.links[e].owner.value.BackendThing?
      requires Affected(q, w.links[e].owner.value) && w.links[e].owner.value in stack
      modifies this`visited, this`log, this`drains
      ensures Paired() && old(visited) <= visited
      ensures ok ==> Searched(q, visited, Things(log), stack) && e in visited
      ensures !ok ==> !NobodyObjects(q)
      decreases w.links.Keys - visited, 0
    {
      hide Searched, Affected, NobodyObjects, Paired, Things;
      if e in visited {
        return true;
      }
      NotIgnored(q, visited, Things(log), stack, e);
      var bs := w.links[e].bs;
      if bs !in q.still { AffectedTarget(q, e); }
      VisitLink(q, visited, Things(log), stack, e, NodeThing(bs));
      visited := visited + {e};
      ok := ChangeNode(w, to, bs, q, stack);
    }

    /** The commit callbacks, last action first; a node is drained when it changes its context. */
    method Commit(to: Ctx)
      requires Paired()
      modifies this`ctx
      ensures Paired() && ctx == map t | t in old(ctx) :: if t in Things(log) then to else old(ctx)[t]
    {
      var k := |log|;
      while k > 0
        invariant 0 <= k <= |log|
        invariant ctx == map t | t in old(ctx) :: if t in Things(log[k..]) then to else old(ctx)[t]
      {
        k := k - 1;
        EntryIsCounted(log, k);
        assert log[k].NodeThing? ==> log[k].n in drains && drains[log[k].n] > 0;
        assert log[k..] == [log[k]] + log[k + 1..];
        ctx := ctx[log[k] := to];
      }
      assert log[0..] == log;
    }

    /** bdrv_set_aio_context_clean */
    method CleanLast()
      requires Paired() && log != []
      modifies this`log, this`drains
      ensures Paired() && log == old(log)[..|old(log)| - 1]
    {
      hide NodeEntries;
      LastEntry(log);
      var t := log[|log| - 1];
      assert t in ctx;
      log := log[..|log| - 1];
      if t.NodeThing? {
        drains := drains[t.n := drains[t.n] - 1];
      }
    }

    /** The clean callbacks, last action first: they end the drains. */
    method Clean()
      requires Paired()
      modifies this`log, this`drains
      ensures Paired() && log == [] && drains == base
    {
      while log != []
        invariant Paired()
        decreases |log|
      {
        CleanLast();
      }
    }

    /** tran_commit or tran_abort */
    method Finish(commit: bool, to: Ctx)
      requires Paired()
      modifies this`ctx, this`log, this`drains
      ensures Valid() && drains == base
      ensures ctx == if commit then map t | t in old(ctx) :: if t in old(Things(log)) then to else old(ctx)[t] else old(ctx)
    {
      if commit {
        Commit(to);
      }
      Clean();
    }

    /** The handler of the owner of an edge, or bdrv_change_aio_context for a node. */
    method ChangeRoot(w: Wiring, to: Ctx, root: Thing, ghost q: Query) returns (ok: bool)
      requires Asks(q, w, to) && Paired() && root in ctx && q.root == root && log == [] && visited == q.ignored
      modifies this`visited, this`log, this`drains
      ensures Paired()
      ensures ok <==> NobodyObjects(q) && (root.BackendThing? ==> root.b in w.flexible)
      ensures ok ==> forall t :: t in Things(log) <==> Affected(q, t)
    {
      hide Searched, Affected, NobodyObjects, Paired, Things;
      SearchStarts(q);
      match root {
        case NodeThing(n) =>
          ok := ChangeNode(w, to, n, q, {});
        case JobThing(j) =>
          ok := ChangeJob(w, to, j, q, {});
        case BackendThing(b) =>
          ok := b in w.flexible;
          ThingDone(q, visited, Things(log), {}, root);
          if ok {
            Log(root);
          }
      }
      if ok {
        SearchComplete(q, visited, Things(log));
      }
    }

    /** A search from a node or an owner, and its commit or abort: everything the change reaches moves,
        or nothing does. Every drain that was begun has ended. */
    method ChangeFrom(w: Wiring, to: Ctx, root: Thing, ignored: set<EdgeId>) returns (ok: bool)
      requires Valid() && Known(w, ctx) && root in ctx
      modifies this
      ensures Valid() && drains == old(drains)
      ensures ok <==> NobodyObjects(Ask(w, old(ctx), to, root, ignored)) && (root.BackendThing? ==> root.b in w.flexible)
      ensures ctx == if ok then Moved(old(ctx), Ask(w, old(ctx), to, root, ignored), to) else old(ctx)
    {
      hide Searched, Affected, NobodyObjects, Things;
      ghost var q := Ask(w, ctx, to, root, ignored);
      StillIs(w, ctx, to, root, ignored);
      base := drains;
      visited := ignored;
      ok := ChangeRoot(w, to, root, q);
      Finish(ok, to);
    }

    /** bdrv_try_change_aio_context */
    method TryChange(w: Wiring, to: Ctx, bs: NodeId, ignore: Option<EdgeId>) returns (ok: bool)
      requires Valid() && Known(w, ctx) && NodeThing(bs) in ctx
      modifies this
      ensures Valid() && drains == old(drains)
      ensures var q := Ask(w, old(ctx), to, NodeThing(bs), if ignore.Some? then {ignore.value} else {});
              && (ok <==> NobodyObjects(q))
              && ctx == if ok then Moved(old(ctx), q, to) else old(ctx)
      ensures Uniform(w, old(ctx)) && ignore.None? ==> Uniform(w, ctx)
    {
      hide Affected, NobodyObjects, Uniform, Moved;
      ghost var before := ctx;
      ok := ChangeFrom(w, to, NodeThing(bs), if ignore.Some? then {ignore.value} else {});
      if Uniform(w, before) { MoveKeepsUniform(w, before, to, NodeThing(bs), {}); }
    }

    /** blk_set_aio_context, with `root` for blk->root: the backend and everything connected to it,
        or nothing if somebody connected to it objects. The backend itself does not. */
    method SetBackendContext(w: Wiring, b: BackendId, root: Option<EdgeId>, to: Ctx) returns (ok: bool)
      requires Valid() && Uniform(w, ctx) && BackendThing(b) in ctx && RootOf(w, b, root)
      modifies this
      ensures Valid() && drains == old(drains) && Uniform(w, ctx)
      ensures if ok then ctx.Keys == old(ctx).Keys && ctx[BackendThing(b)] == to else ctx == old(ctx)
      ensures root.None? ==> ok && ctx == old(ctx)[BackendThing(b) := to]
      ensures root.Some? ==>
                var q := Ask(w.(flexible := w.flexible + {b}), old(ctx), to, NodeThing(w.links[root.value].bs), {});
                && (ok <==> NobodyObjects(q))
                && ctx == if ok then Moved(old(ctx), q, to) else old(ctx)
    {
      if root.Some? {
        var bs := w.links[root.value].bs;
        RootArrives(w.(flexible := w.flexible + {b}), ctx, to, NodeThing(bs), {});
        ok := TryChange(w.(flexible := w.flexible + {b}), to, bs, None);
      } else {
        ctx := ctx[BackendThing(b) := to];
        ok := true;
      }
    }

    // --- attaching an edge ---

    /** The part of bdrv_attach_child_common that brings both ends of a new edge `e` into one
        context: the child's side moves, or else the owner's. */
    method AlignContexts(w: Wiring, e: EdgeId, owner: Thing, child: NodeId) returns (ok: bool)
      requires Valid() && Uniform(w, ctx) && e !in w.links && MayAttach(w, owner) && owner in ctx && NodeThing(child) in ctx
      modifies this
      ensures Valid() && drains == old(drains)
      ensures if ok then Aligned(w, old(ctx), owner, child, ctx) else ctx == old(ctx)
      ensures !ok ==> old(ctx)[owner] != old(ctx)[NodeThing(child)] && !Agreed(w, NodeThing(child)) && !Agreed(w, owner)
    {
      hide Affected, NobodyObjects, Uniform, Moved, Shift, Agreed;
      ghost var before := ctx;
      var ownerCtx, childCtx := ctx[owner], ctx[NodeThing(child)];
      if childCtx == ownerCtx {
        return true;
      }
      UniformKnown(w, before);
      MoveShifts(w, before, ownerCtx, NodeThing(child), {});
      MoveShifts(w, before, childCtx, owner, {e});
      AgreedIs(w, owner);
      AgreedIs(w, NodeThing(child));
      ok := TryChange(w, ownerCtx, child, None);
      if !ok {
        ok := ChangeFrom(w, childCtx, owner, {e});
      }
    }

    /** The part of bdrv_attach_child_common_abort that moves the ends back. Its assertion holds, and
        everything is in the context where it was. */
    method UndoAlign(w: Wiring, owner: Thing, child: NodeId, oldOwner: Ctx, oldChild: Ctx, ghost before: map<Thing, Ctx>)
      requires Valid() && Uniform(w, before) && MayAttach(w, owner) && owner in before && NodeThing(child) in before
      requires oldOwner == before[owner] && oldChild == before[NodeThing(child)] && Aligned(w, before, owner, child, ctx)
      modifies this
      ensures Valid() && drains == old(drains) && ctx == before
    {
      hide Affected, NobodyObjects, Uniform, Moved, Shift, Agreed;
      UndoFacts(w, before, owner, child, ctx);
      if ctx[NodeThing(child)] != oldChild {
        MoveShifts(w, ctx, oldChild, NodeThing(child), {});
        AgreedIs(w, NodeThing(child));
        var moved := TryChange(w, oldChild, child, None);
        assert moved;
      }
      if ctx[owner] != oldOwner {
        MoveShifts(w, ctx, oldOwner, owner, {});
        AgreedIs(w, owner);
        var moved := ChangeFrom(w, oldOwner, owner, {});
        assert moved;
      }
    }
  }

  /** `root` is the link that the backend owns, if it owns one. */
  ghost predicate RootOf(w: Wiring, b: BackendId, root: Option<EdgeId>) {
    if root.Some? then root.value in w.links && w.links[root.value].owner == Some(BackendThing(b))
    else forall e | e in w.links :: w.links[e].owner != Some(BackendThing(b))
  }

  /** The owner of a new edge: a backend has no root yet. */
  ghost predicate MayAttach(w: Wiring, owner: Thing) {
    owner.BackendThing? ==> RootOf(w, owner.b, None)
  }

  /** The ends agree: they did before, or one side has moved to the other, and the owner's only
      because the child's could not. */
  ghost predicate Aligned(w: Wiring, c: map<Thing, Ctx>, owner: Thing, child: NodeId, r: map<Thing, Ctx>)
    requires owner in c && NodeThing(child) in c
  {
    if c[owner] == c[NodeThing(child)] then r == c
    else
      || (Agreed(w, NodeThing(child)) && r == Shift(w, c, NodeThing(child), c[owner]))
      || (!Agreed(w, NodeThing(child)) && Agreed(w, owner) && r == Shift(w, c, owner, c[NodeThing(child)]))
  }

  lemma UniformKnown(w: Wiring, c: map<Thing, Ctx>)
    requires Uniform(w, c)
    ensures Known(w, c)
  {}

  lemma RootArrives(w: Wiring, c: map<Thing, Ctx>, to: Ctx, root: Thing, ignored: set<EdgeId>)
    requires root.NodeThing? && root in c
    ensures Moved(c, Ask(w, c, to, root, ignored), to)[root] == to
  {
    StillIs(w, c, to, root, ignored);
  }

  lemma AgreedIs(w: Wiring, root: Thing)
    ensures Agreed(w, root) <==> NobodyObjects(Query(w, root, {}, {})) && (root.BackendThing? ==> root.b in w.flexible)
  {}

  /** After the new edge is in place, both ends of every link are in one context. */
  lemma AlignedIsUniform(w: Wiring, c: map<Thing, Ctx>, e: EdgeId, owner: Thing, child: NodeId, r: map<Thing, Ctx>)
    requires Uniform(w, c) && e !in w.links && MayAttach(w, owner) && owner in c && NodeThing(child) in c
    requires Aligned(w, c, owner, child, r)
    ensures Uniform(w.(links := w.links[e := Link(Some(owner), child)]), r)
  {
    if c[owner] != c[NodeThing(child)] {
      ShiftBack(w, c, NodeThing(child), c[owner]);
      ShiftLeaves(w, c, NodeThing(child), c[owner], owner);
      ShiftBack(w, c, owner, c[NodeThing(child)]);
      ShiftLeaves(w, c, owner, c[NodeThing(child)], NodeThing(child));
    }
  }

  lemma UndoFacts(w: Wiring, c: map<Thing, Ctx>, owner: Thing, child: NodeId, r: map<Thing, Ctx>)
    requires Uniform(w, c) && MayAttach(w, owner) && owner in c && NodeThing(child) in c
    requires Aligned(w, c, owner, child, r)
    ensures Uniform(w, r) && Known(w, r) && owner in r && NodeThing(child) in r
    ensures r == c
            || (r[NodeThing(child)] != c[NodeThing(child)] && r[owner] == c[owner]
                && Agreed(w, NodeThing(child)) && Shift(w, r, NodeThing(child), c[NodeThing(child)]) == c)
            || (r[NodeThing(child)] == c[NodeThing(child)] && r[owner] != c[owner]
                && Agreed(w, owner) && Shift(w, r, owner, c[owner]) == c)
  {
    if c[owner] != c[NodeThing(child)] {
      ShiftBack(w, c, NodeThing(child), c[owner]);
      ShiftLeaves(w, c, NodeThing(child), c[owner], owner);
      ShiftBack(w, c, owner, c[NodeThing(child)]);
      ShiftLeaves(w, c, owner, c[NodeThing(child)], NodeThing(child));
    }
  }
}
