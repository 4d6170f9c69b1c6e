/** What a change of AioContext reaches (engine/qemu-wasm/block.c, engine/qemu-wasm/blockjob.c,
    engine/qemu-wasm/block/block-backend.c), and what it does to contexts that linked nodes, jobs
    and backends share. */
module AioSpread {
  import opened Options
  import opened BlockGraph

  type JobId = nat
  type BackendId = nat
  type Ctx = nat

  /** What has an AioContext. */
  datatype Thing = NodeThing(n: NodeId) | JobThing(j: JobId) | BackendThing(b: BackendId)

  /** A BdrvChild: without an owner here, its class has no change_aio_ctx. */
  datatype Link = Link(owner: Option<Thing>, bs: NodeId)

  /** `flexible` are the backends that allow the change: allow_aio_context_change, or a named
      backend that no device uses. */
  datatype Wiring = Wiring(links: map<EdgeId, Link>, flexible: set<BackendId>)

  /** One call: where it starts, which links it ignores, which nodes are in the context already. */
  datatype Query = Query(w: Wiring, root: Thing, ignored: set<EdgeId>, still: set<NodeId>)

  ghost predicate Moves(q: Query, t: Thing) { t.NodeThing? ==> t.n !in q.still }

  /** Change reaches the owner of a link from the node, and the node from an owning node or job;
      it stops at nodes that are in the context already. */
  ghost predicate Spread(q: Query, s: set<Thing>) {
    forall e | e in q.w.links && e !in q.ignored && q.w.links[e].owner.Some? ::
      var Link(owner, bs) := q.w.links[e];
      && (NodeThing(bs) in s && Moves(q, owner.value) ==> owner.value in s)
      && (owner.value in s && !owner.value.BackendThing? && bs !in q.still ==> NodeThing(bs) in s)
  }

  ghost predicate Affected(q: Query, t: Thing) {
    Moves(q, q.root) && forall s: set<Thing> :: Spread(q, s) && q.root in s ==> t in s
  }

  /** The owner of the link lets the change happen. */
  predicate Willing(w: Wiring, e: EdgeId)
    requires e in w.links
  {
    var owner := w.links[e].owner;
    owner.Some? && (owner.value.BackendThing? ==> owner.value.b in w.flexible)
  }

  ghost predicate NobodyObjects(q: Query) {
    forall e | e in q.w.links && e !in q.ignored && Affected(q, NodeThing(q.w.links[e].bs)) :: Willing(q.w, e)
  }

  lemma AffectedOwner(q: Query, e: EdgeId)
    requires e in q.w.links && e !in q.ignored && q.w.links[e].owner.Some? && Moves(q, q.w.links[e].owner.value)
    requires Affected(q, NodeThing(q.w.links[e].bs))
    ensures Affected(q, q.w.links[e].owner.value)
  {}

  lemma AffectedTarget(q: Query, e: EdgeId)
    requires e in q.w.links && e !in q.ignored && q.w.links[e].owner.Some? && !q.w.links[e].owner.value.BackendThing?
    requires q.w.links[e].bs !in q.still && Affected(q, q.w.links[e].owner.value)
    ensures Affected(q, NodeThing(q.w.links[e].bs))
  {}

  // --- everything connected ---

  function NoStill(q: Query): Query { q.(still := {}) }

  /** Connected to the root, whatever the contexts. */
  ghost predicate Connected(q: Query, t: Thing) { Affected(NoStill(q), t) }

  /** A link that is not ignored leads from `a` to `b`. */
  ghost predicate Leads(q: Query, a: Thing, b: Thing) {
    exists e ::
      && e in q.w.links && e !in q.ignored && q.w.links[e].owner.Some?
      && var Link(owner, bs) := q.w.links[e];
         || (a == NodeThing(bs) && b == owner.value)
         || (a == owner.value && !a.BackendThing? && b == NodeThing(bs))
  }

  ghost function LinkEnds(q: Query): set<Thing> {
    {q.root} + (set e | e in q.w.links :: NodeThing(q.w.links[e].bs))
    + (set e | e in q.w.links && q.w.links[e].owner.Some? :: q.w.links[e].owner.value)
  }

  lemma ConnectedLead(q: Query, a: Thing, b: Thing)
    requires Connected(q, a) && Leads(q, a, b)
    ensures Connected(q, b)
  {}

  lemma AffectedLead(q: Query, a: Thing, b: Thing)
    requires Affected(q, a) && Leads(q, a, b) && Moves(q, b)
    ensures Affected(q, b)
  {}

  lemma LinkLeads(q: Query, e: EdgeId)
    requires e in q.w.links && e !in q.ignored && q.w.links[e].owner.Some?
    ensures var Link(owner, bs) := q.w.links[e];
            Leads(q, NodeThing(bs), owner.value) && (!owner.value.BackendThing? ==> Leads(q, owner.value, NodeThing(bs)))
  {}

  lemma SpreadByLeads(q: Query, s: set<Thing>)
    requires forall a, b | a in s && Leads(q, a, b) && Moves(q, b) :: b in s
    ensures Spread(q, s)
  {
    hide Leads;
    forall e | e in q.w.links && e !in q.ignored && q.w.links[e].owner.Some?
      ensures var Link(owner, bs) := q.w.links[e];
              && (NodeThing(bs) in s && Moves(q, owner.value) ==> owner.value in s)
              && (owner.value in s && !owner.value.BackendThing? && bs !in q.still ==> NodeThing(bs) in s)
    {
      LinkLeads(q, e);
    }
  }

  lemma LeadsToEnds(q: Query, a: Thing, b: Thing)
    requires Leads(q, a, b)
    ensures b in LinkEnds(q)
  {
    var e :| e in q.w.links && e !in q.ignored && q.w.links[e].owner.Some?
             && var Link(owner, bs) := q.w.links[e];
                || (a == NodeThing(bs) && b == owner.value)
                || (a == owner.value && !a.BackendThing? && b == NodeThing(bs));
  }

  /** Exactly when a successful change brings everything connected into the new context: `there` are
      the nodes, jobs and backends that are in it before, and no link leads from one of those that is
      connected to something that is neither there nor reached. */
  lemma EverythingArrivesIff(q: Query, there: set<Thing>)
    requires forall n :: NodeThing(n) in there <==> n in q.still
    ensures (forall t :: Connected(q, t) ==> Affected(q, t) || t in there) <==>
            (forall a, b :: Leads(q, a, b) && Connected(q, a) && a in there ==> Affected(q, b) || b in there)
  {
    if forall t :: Connected(q, t) ==> Affected(q, t) || t in there {
      forall a, b | Leads(q, a, b) && Connected(q, a) && a in there ensures Affected(q, b) || b in there {
        ConnectedLead(q, a, b);
      }
    }
    if forall a, b :: Leads(q, a, b) && Connected(q, a) && a in there ==> Affected(q, b) || b in there {
      var c := set t | t in LinkEnds(q) && Connected(q, t) && (Affected(q, t) || t in there);
      forall a, b | a in c && Leads(NoStill(q), a, b) && Moves(NoStill(q), b) ensures b in c {
        assert Leads(q, a, b);
        LeadsToEnds(q, a, b);
        ConnectedLead(q, a, b);
        if Affected(q, a) && Moves(q, b) { AffectedLead(q, a, b); }
      }
      SpreadByLeads(NoStill(q), c);
      assert q.root in c;
    }
  }

  /** In particular, if no connected node is in the new context yet, the change reaches everything
      connected and nothing else. */
  lemma UniformMovesAll(q: Query)
    requires forall n :: Connected(q, NodeThing(n)) ==> n !in q.still
    ensures forall t :: Affected(q, t) <==> Connected(q, t)
  {
    assert Connected(q, q.root);
    forall t | Affected(q, t) ensures Connected(q, t) {
      forall s: set<Thing> | Spread(NoStill(q), s) && q.root in s ensures t in s { assert Spread(q, s); }
    }
    forall t | Connected(q, t) ensures Affected(q, t) {
      forall s: set<Thing> | Spread(q, s) && q.root in s ensures t in s {
        var c := set x | x in s && Connected(q, x);
        UniformSpread(q, s, c);
        assert t in c;
      }
    }
  }

  lemma UniformSpread(q: Query, s: set<Thing>, c: set<Thing>)
    requires forall n :: Connected(q, NodeThing(n)) ==> n !in q.still
    requires Spread(q, s) && forall x :: x in c <==> x in s && Connected(q, x)
    ensures Spread(NoStill(q), c)
  {}

  /** Without that, connected nodes can stay behind: with 0 over 1 over 2 and 1 in the new context
      already, a change that starts at 0 does not reach 2. */
  lemma MixedContextsStayBehind()
    ensures var q := Query(Wiring(map[0 := Link(Some(NodeThing(0)), 1), 1 := Link(Some(NodeThing(1)), 2)], {}),
                           NodeThing(0), {}, {1});
            NobodyObjects(q) && Connected(q, NodeThing(2)) && !Affected(q, NodeThing(2))
  {
    var q := Query(Wiring(map[0 := Link(Some(NodeThing(0)), 1), 1 := Link(Some(NodeThing(1)), 2)], {}),
                   NodeThing(0), {}, {1});
    assert Spread(q, {NodeThing(0)});
    forall s: set<Thing> | Spread(NoStill(q), s) && NodeThing(0) in s ensures NodeThing(2) in s {
      assert 0 in q.w.links && 1 in q.w.links;
    }
  }

  // --- contexts shared along links ---

  ghost predicate Known(w: Wiring, c: map<Thing, Ctx>) {
    forall e | e in w.links ::
      NodeThing(w.links[e].bs) in c && (w.links[e].owner.Some? ==> w.links[e].owner.value in c)
  }

  /** Both ends of every link are in one context. A backend has one root. */
  ghost predicate Uniform(w: Wiring, c: map<Thing, Ctx>) {
    && Known(w, c)
    && (forall e | e in w.links && w.links[e].owner.Some? :: c[w.links[e].owner.value] == c[NodeThing(w.links[e].bs)])
    && forall e, f | e in w.links && f in w.links && w.links[e].owner == w.links[f].owner
                     && w.links[e].owner.Some? && w.links[e].owner.value.BackendThing? :: e == f
  }

  /** The question a call asks. */
  ghost function Ask(w: Wiring, c: map<Thing, Ctx>, to: Ctx, root: Thing, ignored: set<EdgeId>): Query {
    Query(w, root, ignored, set t | t in c && t.NodeThing? && c[t] == to :: t.n)
  }

  /** What the call leaves, if it succeeds. */
  ghost function Moved(c: map<Thing, Ctx>, q: Query, to: Ctx): map<Thing, Ctx> {
    map t | t in c :: if Affected(q, t) then to else c[t]
  }

  lemma StillIs(w: Wiring, c: map<Thing, Ctx>, to: Ctx, root: Thing, ignored: set<EdgeId>)
    ensures forall n :: n in Ask(w, c, to, root, ignored).still <==> NodeThing(n) in c && c[NodeThing(n)] == to
  {
    forall n | NodeThing(n) in c && c[NodeThing(n)] == to ensures n in Ask(w, c, to, root, ignored).still {
      var t := NodeThing(n);
      assert t in c && t.NodeThing? && c[t] == to && t.n == n;
    }
  }

  /** Everything connected shares the context of the root. */
  lemma ConnectedShares(q: Query, c: map<Thing, Ctx>, t: Thing)
    requires Uniform(q.w, c) && q.root in c && Connected(q, t)
    ensures t in c && c[t] == c[q.root]
  {
    var s := set x | x in c && c[x] == c[q.root];
    assert Spread(NoStill(q), s);
  }

  /** Under uniform contexts a real change reaches exactly everything connected. */
  lemma UniformReach(w: Wiring, c: map<Thing, Ctx>, to: Ctx, root: Thing, ignored: set<EdgeId>)
    requires Uniform(w, c) && root in c && c[root] != to
    ensures var q := Ask(w, c, to, root, ignored); forall t :: Affected(q, t) <==> Connected(q, t)
  {
    var q := Ask(w, c, to, root, ignored);
    StillIs(w, c, to, root, ignored);
    forall n | Connected(q, NodeThing(n)) ensures n !in q.still { ConnectedShares(q, c, NodeThing(n)); }
    UniformMovesAll(q);
  }

  /** A backend is reached only through its root. */
  lemma BackendReached(q: Query, c: map<Thing, Ctx>, e: EdgeId)
    requires Uniform(q.w, c) && e in q.w.links && q.w.links[e].owner.Some? && q.w.links[e].owner.value.BackendThing?
    requires Connected(q, q.w.links[e].owner.value) && q.root != q.w.links[e].owner.value
    ensures Connected(q, NodeThing(q.w.links[e].bs))
  {
    var b := q.w.links[e].owner.value;
    forall s: set<Thing> | Spread(NoStill(q), s) && q.root in s ensures NodeThing(q.w.links[e].bs) in s {
      if NodeThing(q.w.links[e].bs) !in s { assert Spread(NoStill(q), s - {b}); }
    }
  }

  /** A change keeps the contexts uniform. */
  lemma MoveKeepsUniform(w: Wiring, c: map<Thing, Ctx>, to: Ctx, root: Thing, ignored: set<EdgeId>)
    requires Uniform(w, c) && root in c && ignored !! w.links.Keys
    requires root.BackendThing? ==> forall e | e in w.links :: w.links[e].owner != Some(root)
    ensures Uniform(w, Moved(c, Ask(w, c, to, root, ignored), to))
  {
    var q := Ask(w, c, to, root, ignored);
    if c[root] == to {
      NothingToMove(w, c, to, root, ignored);
    } else {
      UniformReach(w, c, to, root, ignored);
      forall e | e in w.links && w.links[e].owner.Some?
        ensures Connected(q, w.links[e].owner.value) <==> Connected(q, NodeThing(w.links[e].bs))
      {
        if Connected(q, NodeThing(w.links[e].bs)) { AffectedOwner(NoStill(q), e); }
        if Connected(q, w.links[e].owner.value) {
          if w.links[e].owner.value.BackendThing? { BackendReached(q, c, e); } else { AffectedTarget(NoStill(q), e); }
        }
      }
    }
  }

  /** A change into the context where everything is. */
  lemma NothingToMove(w: Wiring, c: map<Thing, Ctx>, to: Ctx, root: Thing, ignored: set<EdgeId>)
    requires Uniform(w, c) && root in c && c[root] == to
    ensures Moved(c, Ask(w, c, to, root, ignored), to) == c
  {
    var q := Ask(w, c, to, root, ignored);
    forall t | t in c && Affected(q, t) ensures c[t] == to {
      var s := set x | x in c && c[x] == to;
      assert Spread(q, s);
    }
    assert Moved(c, q, to) == c;
  }

  // --- moving everything connected, and back ---

  /** Everything connected to the root moves. */
  ghost function Shift(w: Wiring, c: map<Thing, Ctx>, root: Thing, to: Ctx): map<Thing, Ctx> {
    map t | t in c :: if Connected(Query(w, root, {}, {}), t) then to else c[t]
  }

  /** Everybody connected to the root is willing to move, the root included. */
  ghost predicate Agreed(w: Wiring, root: Thing) {
    NobodyObjects(Query(w, root, {}, {})) && (root.BackendThing? ==> root.b in w.flexible)
  }

  lemma IgnoringNothing(w: Wiring, root: Thing, ignored: set<EdgeId>, still: set<NodeId>, t: Thing)
    requires ignored !! w.links.Keys
    ensures Affected(Query(w, root, ignored, still), t) <==> Affected(Query(w, root, {}, still), t)
  {
    forall s: set<Thing> ensures Spread(Query(w, root, ignored, still), s) <==> Spread(Query(w, root, {}, still), s) {}
  }

  lemma MoveShifts(w: Wiring, c: map<Thing, Ctx>, to: Ctx, root: Thing, ignored: set<EdgeId>)
    requires Uniform(w, c) && root in c && c[root] != to && ignored !! w.links.Keys
    ensures var q := Ask(w, c, to, root, ignored);
            && Moved(c, q, to) == Shift(w, c, root, to)
            && (NobodyObjects(q) <==> NobodyObjects(Query(w, root, {}, {})))
  {
    var q := Ask(w, c, to, root, ignored);
    UniformReach(w, c, to, root, ignored);
    forall t ensures Affected(q, t) <==> Connected(Query(w, root, {}, {}), t) {
      IgnoringNothing(w, root, ignored, {}, t);
    }
  }

  /** Moving there and back changes nothing, and the contexts are uniform in between. */
  lemma ShiftBack(w: Wiring, c: map<Thing, Ctx>, root: Thing, to: Ctx)
    requires Uniform(w, c) && root in c && c[root] != to
    requires root.BackendThing? ==> forall e | e in w.links :: w.links[e].owner != Some(root)
    ensures var m := Shift(w, c, root, to);
            Uniform(w, m) && root in m && m[root] == to && Shift(w, m, root, c[root]) == c
  {
    var q := Query(w, root, {}, {});
    MoveShifts(w, c, to, root, {});
    MoveKeepsUniform(w, c, to, root, {});
    var m := Shift(w, c, root, to);
    forall t | t in c && Connected(q, t) ensures c[t] == c[root] { ConnectedShares(q, c, t); }
    assert Connected(q, root);
    assert Shift(w, m, root, c[root]) == c;
  }

  /** What lies in another context is not connected, and a shift leaves it alone. */
  lemma ShiftLeaves(w: Wiring, c: map<Thing, Ctx>, root: Thing, to: Ctx, t: Thing)
    requires Uniform(w, c) && root in c && t in c && c[t] != c[root]
    ensures Shift(w, c, root, to)[t] == c[t]
  {
    var q := Query(w, root, {}, {});
    if Connected(q, t) { ConnectedShares(q, c, t); }
  }
}
