/** Block permissions and the default child-permission policy (engine/qemu-wasm/block.c and
    include/block/block-common.h). BLK_PERM_ALL is exactly the four permissions, and
    DEFAULT_PERM_PASSTHROUGH is all of them. */
module Permissions {

  datatype Perm = ConsistentRead | Write | WriteUnchanged | Resize

  type Perms = set<Perm>

  const ALL: Perms := {ConsistentRead, Write, WriteUnchanged, Resize}

  lemma AllPerms()
    ensures forall p: Perm :: p in ALL
  {
    forall p: Perm ensures p in ALL {
      match p case ConsistentRead => case Write => case WriteUnchanged => case Resize =>
    }
  }

  /** BdrvChildRole bits. */
  datatype Role = Role(data: bool, metadata: bool, filtered: bool, cow: bool, primary: bool)

  /** The open flags the policy looks at: BDRV_O_RDWR, BDRV_O_INACTIVE, BDRV_O_NO_IO. */
  datatype Flags = Flags(rdwr: bool, inactive: bool, noIo: bool)

  /** A pair of what a parent needs and what it shares. */
  datatype Need = Need(perm: Perms, shared: Perms)

  predicate Writable(f: Flags) { f.rdwr && !f.inactive }

  predicate ValidRole(r: Role) {
    && (r.filtered ==> !r.data && !r.metadata && !r.cow)
    && (r.cow ==> !r.data && !r.metadata)
    && (r.filtered || r.cow || r.data || r.metadata)
  }

  function FilterPerms(n: Need): Need { Need(n.perm * ALL, n.shared * ALL) }

  function CowPerms(f: Flags, n: Need): Need {
    var shared := if Write in n.shared then {Write, Resize} else {};
    var shared := shared + {ConsistentRead, WriteUnchanged};
    Need(n.perm * {ConsistentRead}, if f.inactive then shared + {Write, Resize} else shared)
  }

  function StoragePerms(r: Role, f: Flags, n: Need): Need {
    var Need(perm, shared) := FilterPerms(n);
    var perm := if r.metadata && Writable(f) then perm + {Write, Resize} else perm;
    var perm := if r.metadata && !f.noIo then perm + {ConsistentRead} else perm;
    var shared := if r.metadata then shared - {Write, Resize} else shared;
    var shared := if r.data then shared - {Resize} else shared;
    var perm := if r.data && WriteUnchanged in perm then perm + {Write} else perm;
    var perm := if r.data && Write in perm then perm + {Resize} else perm;
    Need(perm, if f.inactive then shared + {Write, Resize} else shared)
  }

  function DefaultPerms(r: Role, f: Flags, n: Need): Need
    requires ValidRole(r)
  {
    if r.filtered then FilterPerms(n) else if r.cow then CowPerms(f, n) else StoragePerms(r, f, n)
  }

  /** `a` asks for no more than `b` and shares no less. */
  predicate Looser(a: Need, b: Need) { a.perm <= b.perm && b.shared <= a.shared }

  /** Loosening a node's users loosens what the default policy asks of its children. */
  lemma DefaultPermsMonotone(r: Role, f: Flags, a: Need, b: Need)
    requires ValidRole(r) && Looser(a, b)
    ensures Looser(DefaultPerms(r, f, a), DefaultPerms(r, f, b))
  {}

  /** What a format driver's children can count on: a metadata child is never shared for writing
      or resizing while the node is active, a data child is never shared for resizing, and a
      driver that may write its data child may also grow it. */
  lemma StorageProtects(r: Role, f: Flags, n: Need)
    requires ValidRole(r) && (r.data || r.metadata) && !f.inactive
    ensures var c := DefaultPerms(r, f, n);
            && (r.metadata ==> c.shared !! {Write, Resize})
            && Resize !in c.shared
            && (r.metadata && f.rdwr ==> Write in c.perm)
            && (Write in c.perm ==> Resize in c.perm || !r.data)
            && n.perm <= c.perm
  {
    AllPerms();
  }

  /** The policy as a table, permission by permission. A backing file is only ever read, and shared
      for changes exactly when the user of the overlay tolerates them. Storage adds what a format
      driver needs for itself: its metadata, and the size of its data. */
  lemma PolicyTable(r: Role, f: Flags, n: Need)
    requires ValidRole(r)
    ensures var c, own := DefaultPerms(r, f, n), r.metadata && Writable(f);
            if r.filtered then c == n
            else if r.cow then
              && c.perm <= {ConsistentRead} && (ConsistentRead in c.perm <==> ConsistentRead in n.perm)
              && {ConsistentRead, WriteUnchanged} <= c.shared
              && (Write in c.shared <==> Write in n.shared || f.inactive)
              && (Resize in c.shared <==> Write in n.shared || f.inactive)
            else
              && (ConsistentRead in c.perm <==> ConsistentRead in n.perm || (r.metadata && !f.noIo))
              && (WriteUnchanged in c.perm <==> WriteUnchanged in n.perm)
              && (Write in c.perm <==> Write in n.perm || own || (r.data && WriteUnchanged in n.perm))
              && (Resize in c.perm <==> Resize in n.perm || own || (r.data && (Write in n.perm || WriteUnchanged in n.perm)))
              && (ConsistentRead in c.shared <==> ConsistentRead in n.shared)
              && (WriteUnchanged in c.shared <==> WriteUnchanged in n.shared)
              && (Write in c.shared <==> f.inactive || (Write in n.shared && !r.metadata))
              && (Resize in c.shared <==> f.inactive || (Resize in n.shared && !r.metadata && !r.data))
  {
    AllPerms();
  }
}
