/** The permissions that the edges of the block graph carry after an operation when the drivers use
    bdrv_default_perms (engine/qemu-wasm/block.c), read off the final graph: an edge by its role, and
    by what the other users of its owner need and share. */
module ChildPerms {
  import opened Options
  import opened Permissions
  import opened BlockGraph
  import opened GraphSearch
  import opened PermRefresh
  import opened GraphOps
  import opened Loosening

  ghost predicate SomeoneNeeds(g: Graph, n: NodeId, p: Perm) {
    exists e :: e in Parents(g, n) && p in g.edges[e].need.perm
  }

  ghost predicate EveryoneShares(g: Graph, n: NodeId, p: Perm) {
    forall e | e in Parents(g, n) :: p in g.edges[e].need.shared
  }

  /** The edge `c` from `n` needs what the users of `n` need: all of it through a filter, only
      consistent reads for copy-on-write, and for storage also what a format driver needs to write
      its metadata and to grow its data. */
  ghost predicate NeedsByRole(g: Graph, n: NodeId, c: EdgeId)
    requires n in g.nodes && c in g.edges
  {
    var role, f, perm := g.edges[c].role, g.nodes[n].flags, g.edges[c].need.perm;
    if role.filtered then forall p: Perm :: p in perm <==> SomeoneNeeds(g, n, p)
    else if role.cow then forall p: Perm :: p in perm <==> p == ConsistentRead && SomeoneNeeds(g, n, p)
    else
      var writesMetadata := role.metadata && f.rdwr && !f.inactive;
      var writesData := role.data && (SomeoneNeeds(g, n, Write) || SomeoneNeeds(g, n, WriteUnchanged));
      && (ConsistentRead in perm <==> SomeoneNeeds(g, n, ConsistentRead) || (role.metadata && !f.noIo))
      && (WriteUnchanged in perm <==> SomeoneNeeds(g, n, WriteUnchanged))
      && (Write in perm <==> SomeoneNeeds(g, n, Write) || writesMetadata || writesData)
      && (Resize in perm <==> SomeoneNeeds(g, n, Resize) || writesMetadata || writesData)
  }

  /** The edge `c` from `n` shares what all users of `n` share, less what its role protects; an
      inactive owner protects nothing. A target opened with force-share takes everything. */
  ghost predicate SharesByRole(g: Graph, n: NodeId, c: EdgeId)
    requires n in g.nodes && c in g.edges && g.edges[c].bs.Some? && g.edges[c].bs.value in g.nodes
  {
    var role, f, shared := g.edges[c].role, g.nodes[n].flags, g.edges[c].need.shared;
    if g.nodes[g.edges[c].bs.value].forceShare then forall p: Perm :: p in shared
    else if role.filtered then forall p: Perm :: p in shared <==> EveryoneShares(g, n, p)
    else if role.cow then
      && ConsistentRead in shared && WriteUnchanged in shared
      && (Write in shared <==> f.inactive || EveryoneShares(g, n, Write))
      && (Resize in shared <==> f.inactive || EveryoneShares(g, n, Write))
    else
      && (ConsistentRead in shared <==> EveryoneShares(g, n, ConsistentRead))
      && (WriteUnchanged in shared <==> EveryoneShares(g, n, WriteUnchanged))
      && (Write in shared <==> f.inactive || (!role.metadata && EveryoneShares(g, n, Write)))
      && (Resize in shared <==> f.inactive || (!role.metadata && !role.data && EveryoneShares(g, n, Resize)))
  }

  lemma CumulativeIs(g: Graph, n: NodeId, p: Perm)
    ensures p in Cumulative(g, n).perm <==> SomeoneNeeds(g, n, p)
    ensures p in Cumulative(g, n).shared <==> EveryoneShares(g, n, p)
  {
    AllPerms();
  }

  /** A settled node's edges carry the permissions of their roles. */
  lemma SettledByRole(env: Env, g: Graph, n: NodeId, c: EdgeId)
    requires DefaultDrivers(env, g) && WellFormed(g) && n in g.nodes && g.nodes[n].drv && Settled(env, g, n)
    requires c in Children(g, n) && ValidRole(g.edges[c].role)
    ensures NeedsByRole(g, n, c) && SharesByRole(g, n, c)
  {
    hide Cumulative, SomeoneNeeds, EveryoneShares, DefaultPerms;
    AllPerms();
    forall p: Perm { CumulativeIs(g, n, p); }
    PolicyTable(g.edges[c].role, g.nodes[n].flags, Cumulative(g, n));
  }

  /** Every edge that `n` owns carries the permissions of its role. */
  ghost predicate NodeByRole(g: Graph, n: NodeId) {
    forall c | c in Children(g, n) && n in g.nodes && ValidRole(g.edges[c].role) && g.edges[c].bs.value in g.nodes ::
      NeedsByRole(g, n, c) && SharesByRole(g, n, c)
  }

  /** The loop of bdrv_node_refresh_perm over the children of a node brings that about. */
  lemma SetChildrenByRole(env: Env, g: Graph, n: NodeId)
    requires DefaultDrivers(env, g) && WellFormed(g) && n in g.nodes && g.nodes[n].drv && !Linked(g, n, n)
    ensures NodeByRole(SetChildren(env, g, n), n)
  {
    hide DefaultDrivers, NeedsByRole, SharesByRole, Cumulative, Conflict;
    var h := SetChildren(env, g, n);
    assert SameParents(g, h, n);
    SameParentsSame(g, h, n);
    assert Settled(env, h, n);
    SameDrivers(env, g, h);
    forall c | c in Children(h, n) && ValidRole(h.edges[c].role) { SettledByRole(env, h, n, c); }
  }

  // --- operations ---

  /** Every edge in the subtree of `root` carries the permissions of its role. */
  ghost predicate SubtreeByRole(g: Graph, root: NodeId) {
    forall n, c | c in Children(g, n) && n in g.nodes && g.nodes[n].drv && Reaches(g, root, n)
                  && g.edges[c].bs.value in g.nodes ::
      NeedsByRole(g, n, c) && SharesByRole(g, n, c)
  }

  /** The nodes below which an operation refreshes permissions. */
  ghost function Refreshes(g: Graph, op: Op): set<NodeId>
    requires Allowed(g, op)
  {
    match op
    case RootAttach(_, child, _, _, _) => {child}
    case Attach(_, parent, _, _) => {parent}
    case SetPerm(e, _) => {g.edges[e].bs.value}
    case Unref(e) => if g.edges[e].bs.Some? then {g.edges[e].bs.value} else {}
    case SetBacking(_, bs, _) => {bs}
    case ReplaceNode(from, to, _) => {from, to}
    case Append(_, bsNew, _) => {bsNew}
  }

  lemma SameLinksReach(g: Graph, h: Graph, a: NodeId, b: NodeId)
    requires SameLinks(g, h) && Reaches(h, a, b)
    ensures Reaches(g, a, b)
  {
    forall s: set<NodeId> | Closed(g, s) && a in s ensures b in s { assert Closed(h, s); }
  }

  lemma RefreshedByRole(env: Env, h: Graph, roots: set<NodeId>, r: Graph, root: NodeId)
    requires DefaultDrivers(env, r) && forall e | e in r.edges && r.edges[e].bs.Some? :: ValidRole(r.edges[e].role)
    requires WellFormed(r) && Refreshed(env, h, Subtrees(h, roots), r) && root in roots
    ensures SubtreeByRole(r, root)
  {
    hide DefaultDrivers, NeedsByRole, SharesByRole, Reaches, Conflict, ChecksPass, Settled;
    forall n, c | c in Children(r, n) && n in r.nodes && r.nodes[n].drv && Reaches(r, root, n) && r.edges[c].bs.value in r.nodes
      ensures NeedsByRole(r, n, c) && SharesByRole(r, n, c)
    {
      SameLinksReach(h, r, root, n);
      assert ConsistentNode(env, r, n);
      SettledByRole(env, r, n, c);
    }
  }

  /** Dropping an edge that leads nowhere. */
  lemma DropByRole(t: Graph, e: EdgeId, root: NodeId)
    requires SubtreeByRole(t, root) && e in t.edges && t.edges[e].bs.None?
    ensures SubtreeByRole(DropEdge(t, e), root)
  {
    var r := DropEdge(t, e);
    forall n, c | c in Children(r, n) && n in r.nodes && r.nodes[n].drv && Reaches(r, root, n) && r.edges[c].bs.value in r.nodes
      ensures NeedsByRole(r, n, c) && SharesByRole(r, n, c)
    {
      DropReach(t, e, root, n);
      assert c in Children(t, n);
      DropUsers(t, e, n);
      DropEdgeByRole(t, e, n, c);
    }
  }

  lemma DropEdgeByRole(t: Graph, e: EdgeId, n: NodeId, c: EdgeId)
    requires n in t.nodes && c in t.edges && c != e && t.edges[c].bs.Some? && t.edges[c].bs.value in t.nodes
    requires NeedsByRole(t, n, c) && SharesByRole(t, n, c)
    requires forall p: Perm :: SomeoneNeeds(DropEdge(t, e), n, p) == SomeoneNeeds(t, n, p)
    requires forall p: Perm :: EveryoneShares(DropEdge(t, e), n, p) == EveryoneShares(t, n, p)
    ensures NeedsByRole(DropEdge(t, e), n, c) && SharesByRole(DropEdge(t, e), n, c)
  {
    hide SomeoneNeeds, EveryoneShares;
  }

  lemma DropReach(t: Graph, e: EdgeId, a: NodeId, b: NodeId)
    requires Reaches(DropEdge(t, e), a, b)
    ensures Reaches(t, a, b)
  {
    forall s: set<NodeId> | Closed(t, s) && a in s ensures b in s { assert Closed(DropEdge(t, e), s); }
  }

  lemma DropUsers(t: Graph, e: EdgeId, n: NodeId)
    requires e in t.edges && t.edges[e].bs.None?
    ensures forall p: Perm :: SomeoneNeeds(DropEdge(t, e), n, p) == SomeoneNeeds(t, n, p)
    ensures forall p: Perm :: EveryoneShares(DropEdge(t, e), n, p) == EveryoneShares(t, n, p)
  {
    assert Parents(DropEdge(t, e), n) == Parents(t, n);
  }

  /** After every successful operation the edges below the nodes it is about carry exactly the
      permissions that their roles and the users of their owners call for. Taking a user away may
      instead leave all permissions as they were. */
  lemma StepSetsPermissions(env: Env, g: Graph, op: Op, r: Graph, root: NodeId)
    requires Inv(g) && Allowed(g, op) && Step(env, g, op, true, r) && DefaultPolicy(env, r) && root in Refreshes(g, op)
    ensures SubtreeByRole(r, root) || (op.Unref? && r == DropEdge(g, op.e))
  {
    hide DefaultDrivers, SubtreeByRole, Refreshed, Inv, Reaches, Movable, NewEdge, BackingEdit;
    StepKeeps(env, g, op, true, r);
    InvForm(r);
    match op
    case RootAttach(e, child, role, need, stay) =>
      RefreshedByRole(env, AddEdge(g, e, Edge(None, Some(child), role, need, false, stay)), {child}, r, root);
    case Attach(e, parent, child, role) =>
      RefreshedByRole(env, AddEdge(g, e, NewEdge(env, g, parent, child, role)), {parent}, r, root);
    case SetPerm(e, need) => RefreshedByRole(env, SetNeed(g, e, need), {g.edges[e].bs.value}, r, root);
    case Unref(e) =>
      var h := DropEdge(g, e);
      var ok :| Transact(env, h, h, {g.edges[e].bs.value}, ok, r);
      if ok { RefreshedByRole(env, h, {g.edges[e].bs.value}, r, root); }
    case SetBacking(e, bs, backing) => SetBackingPermissions(env, g, op, r);
    case ReplaceNode(from, to, _) => RefreshedByRole(env, Redirect(g, Movable(g, from, to), to), {from, to}, r, root);
    case Append(e, bsNew, bsTop) =>
      var h := AddEdge(g, e, NewEdge(env, g, bsNew, bsTop, BackingRole(g.nodes[bsNew])));
      RefreshedByRole(env, Redirect(h, Movable(h, bsTop, bsNew), bsNew), {bsNew}, r, root);
  }

  lemma InvForm(g: Graph)
    requires Inv(g)
    ensures WellFormed(g)
  {}

  lemma SetBackingPermissions(env: Env, g: Graph, op: Op, r: Graph)
    requires op.SetBacking? && Inv(g) && Allowed(g, op) && Step(env, g, op, true, r) && DefaultPolicy(env, r)
    ensures SubtreeByRole(r, op.bs)
  {
    hide DefaultDrivers, SubtreeByRole, Reaches, Inv, BackingEdit, Refreshed;
    var SetBacking(e, bs, backing) := op;
    var was: Option<EdgeId> :| OldBacking(g, bs, was) && StepSetBacking(env, g, e, bs, backing, was, true, r);
    var h := BackingEdit(env, g, e, bs, backing, was);
    var t :| Transact(env, g, h, {bs}, true, t) && r == if was.Some? then DropEdge(t, was.value) else t;
    BackingEditSound(env, g, e, bs, backing, was);
    BackingEditLinks(env, g, op, was, h, t);
    SameDrivers(env, r, t);
    forall c | c in t.edges && t.edges[c].bs.Some? ensures ValidRole(t.edges[c].role) {
      assert c in r.edges && r.edges[c] == t.edges[c];
    }
    RefreshedByRole(env, h, {bs}, t, bs);
    if was.Some? { DropByRole(t, was.value, bs); }
  }

  lemma BackingEditLinks(env: Env, g: Graph, op: Op, was: Option<EdgeId>, h: Graph, t: Graph)
    requires op.SetBacking? && Allowed(g, op) && OldBacking(g, op.bs, was)
    requires h == BackingEdit(env, g, op.e, op.bs, op.backing, was) && Refreshed(env, h, Subtrees(h, {op.bs}), t)
    ensures WellFormed(h) ==> WellFormed(t)
    ensures was.Some? ==> was.value in t.edges && t.edges[was.value].bs.None?
  {
    hide Consistent, Subtrees, NewEdge;
  }

  lemma SameDrivers(env: Env, g: Graph, h: Graph)
    requires DefaultDrivers(env, g) && h.nodes == g.nodes
    ensures DefaultDrivers(env, h)
  {}

  // --- nobody else's permissions change ---

  /** A node with a driver in the subtree of one of `roots` owns the edge. */
  ghost predicate OwnedBelow(g: Graph, c: EdgeId, roots: set<NodeId>)
    requires c in g.edges
  {
    g.edges[c].parent.Some? &&
    var p := g.edges[c].parent.value;
    p in g.nodes && g.nodes[p].drv && exists root :: root in roots && Reaches(g, root, p)
  }

  lemma RefreshedElsewhere(env: Env, h: Graph, roots: set<NodeId>, r: Graph, c: EdgeId)
    requires Refreshed(env, h, Subtrees(h, roots), r) && c in h.edges && r.edges[c].need != h.edges[c].need
    ensures OwnedBelow(r, c, roots)
  {
    hide Reaches, Consistent;
    assert Owned(h, c, Subtrees(h, roots));
    var p := h.edges[c].parent.value;
    var root :| root in roots && Reaches(h, root, p);
    SameLinksReach(r, h, root, p);
  }

  lemma RefreshedKeys(env: Env, h: Graph, s: set<NodeId>, r: Graph)
    requires Refreshed(env, h, s, r)
    ensures r.edges.Keys == h.edges.Keys
  {}

  /** The need of an edge that was there before changes only if the operation sets it, or if it is
      owned below the nodes that the operation refreshes. */
  lemma StepChangesNoOthers(env: Env, g: Graph, op: Op, r: Graph, c: EdgeId)
    requires Allowed(g, op) && Step(env, g, op, true, r) && c in g.edges && c in r.edges
    requires r.edges[c].need != g.edges[c].need
    ensures OwnedBelow(r, c, Refreshes(g, op)) || (op.SetPerm? && op.e == c)
  {
    hide Refreshed, Reaches, Movable, NewEdge, OwnedBelow;
    match op
    case RootAttach(e, child, role, need, stay) =>
      RefreshedElsewhere(env, AddEdge(g, e, Edge(None, Some(child), role, need, false, stay)), {child}, r, c);
    case Attach(e, parent, child, role) =>
      RefreshedElsewhere(env, AddEdge(g, e, NewEdge(env, g, parent, child, role)), {parent}, r, c);
    case SetPerm(e, need) => if c != e { RefreshedElsewhere(env, SetNeed(g, e, need), {g.edges[e].bs.value}, r, c); }
    case Unref(e) =>
      if g.edges[e].bs.Some? {
        RefreshedKeys(env, DropEdge(g, e), Subtrees(DropEdge(g, e), {g.edges[e].bs.value}), r);
        RefreshedElsewhere(env, DropEdge(g, e), {g.edges[e].bs.value}, r, c);
      }
    case SetBacking(e, bs, backing) => SetBackingElsewhere(env, g, op, r, c);
    case ReplaceNode(from, to, _) =>
      RefreshedElsewhere(env, Redirect(g, Movable(g, from, to), to), {from, to}, r, c);
    case Append(e, bsNew, bsTop) =>
      var h := AddEdge(g, e, NewEdge(env, g, bsNew, bsTop, BackingRole(g.nodes[bsNew])));
      RefreshedElsewhere(env, Redirect(h, Movable(h, bsTop, bsNew), bsNew), {bsNew}, r, c);
  }

  lemma SetBackingElsewhere(env: Env, g: Graph, op: Op, r: Graph, c: EdgeId)
    requires op.SetBacking? && Allowed(g, op) && Step(env, g, op, true, r) && c in g.edges && c in r.edges
    requires r.edges[c].need != g.edges[c].need
    ensures OwnedBelow(r, c, {op.bs})
  {
    hide Refreshed, Reaches, NewEdge;
    var SetBacking(e, bs, backing) := op;
    var was: Option<EdgeId> :| OldBacking(g, bs, was) && StepSetBacking(env, g, e, bs, backing, was, true, r);
    var h := BackingEdit(env, g, e, bs, backing, was);
    var t :| Transact(env, g, h, {bs}, true, t) && r == if was.Some? then DropEdge(t, was.value) else t;
    BackingEditLinks(env, g, op, was, h, t);
    RefreshedElsewhere(env, h, {bs}, t, c);
    var p := t.edges[c].parent.value;
    if was.Some? { DropKeepsReach(t, was.value, bs, p); }
  }

  lemma DropKeepsReach(t: Graph, e: EdgeId, a: NodeId, b: NodeId)
    requires e in t.edges && t.edges[e].bs.None? && Reaches(t, a, b)
    ensures Reaches(DropEdge(t, e), a, b)
  {
    var r := DropEdge(t, e);
    forall s: set<NodeId> | Closed(r, s) && a in s ensures b in s {
      assert forall c | c in t.edges && c != e :: r.edges[c] == t.edges[c];
      assert Closed(t, s);
    }
  }
}
