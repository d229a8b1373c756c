/**
 The four-level page tables of every process, as they lie in physical memory, and the flat map
 they stand for.

 A table page is named by a `Node`: its process, its level (4 is the PML4, 1 holds the leaves)
 and the prefix of virtual page numbers it covers.  The invariant says which frame holds each
 node and that each frame has exactly one owner, so a table page can be neither shared between
 two trees nor mapped as user memory.  All of it is stated one entry at a time.
 */
module PageTree {
  import opened FlatCow

  type Table = seq<Entry>

  datatype Node = Node(pid: Pid, level: nat, prefix: nat)

  /** A `vm_area_struct` and the page that holds it. */
  datatype Area = Area(start: nat, end: nat, frame: Frame)

  datatype Owner = Unused | Kernel | TableOf(node: Node) | User | AreaOf(pid: Pid)

  datatype VM = VM(
    free: seq<Frame>,
    refs: seq<int>,
    tables: seq<Table>,
    roots: map<Pid, Frame>,
    areas: map<Pid, seq<Area>>,
    nodes: map<Node, Frame>,
    leaves: LeafMap,
    owner: seq<Owner>)

  function Pages(s: seq<Area>): set<Frame> {
    set k | 0 <= k < |s| :: s[k].frame
  }

  /** The heap is the second area; only its end moves. */
  function SetEnd(s: seq<Area>, end: nat): seq<Area>
    requires |s| >= 2
  {
    s[1 := s[1].(end := end)]
  }

  const ZERO := Entry(0, false, false, false)

  function ZeroTable(): (t: Table)
    ensures |t| == 512 && forall i | 0 <= i < 512 :: t[i] == ZERO
  {
    seq(512, _ => ZERO)
  }

  function Top(p: Pid): Node { Node(p, 4, 0) }

  function Up(n: Node): Node { Node(n.pid, n.level + 1, n.prefix / 512) }

  function Down(n: Node, i: nat): Node
    requires n.level > 0
  {
    Node(n.pid, n.level - 1, n.prefix * 512 + i)
  }

  /** Slot 511 of a PML4 is the kernel half, shared by all processes. */
  predicate UserSlot(n: Node, i: nat) {
    i < 512 && !(n.level == 4 && i == 511)
  }

  function Home(l: Leaf): Node { Node(l.pid, 1, l.vpn / 512) }

  function LeafAt(n: Node, i: nat): Leaf { Leaf(n.pid, n.prefix * 512 + i) }

  // ----- the invariant of the trees -----

  ghost predicate Shape(v: VM) {
    && |v.refs| == |v.tables| == |v.owner|
    && (forall f | 0 <= f < |v.tables| :: |v.tables[f]| == 512)
  }

  ghost predicate IsNode(n: Node) {
    1 <= n.level <= 4 && (n.level == 4 ==> n.prefix == 0) && (n.level == 3 ==> n.prefix < 511)
  }

  ghost predicate NodeMap(nodes: map<Node, Frame>, owner: seq<Owner>) {
    && (forall n <- nodes ::
          && IsNode(n) && (n.level < 4 ==> Up(n) in nodes)
          && nodes[n] < |owner| && owner[nodes[n]] == TableOf(n))
    && (forall f | 0 <= f < |owner| && owner[f].TableOf? ::
          owner[f].node in nodes && nodes[owner[f].node] == f)
  }

  ghost predicate NodesOk(v: VM) {
    NodeMap(v.nodes, v.owner)
  }

  lemma NodeAdded(nodes: map<Node, Frame>, owner: seq<Owner>, d: Node, f: Frame)
    requires NodeMap(nodes, owner) && d !in nodes && IsNode(d) && (d.level < 4 ==> Up(d) in nodes)
    requires f < |owner| && !owner[f].TableOf?
    ensures NodeMap(nodes[d := f], owner[f := TableOf(d)])
  {
  }

  lemma NodeRemoved(nodes: map<Node, Frame>, owner: seq<Owner>, d: Node)
    requires NodeMap(nodes, owner) && d in nodes && forall m <- nodes | m.level < 4 :: Up(m) != d
    ensures nodes[d] < |owner| && NodeMap(nodes - {d}, owner[nodes[d] := Kernel])
  {
    var owner' := owner[nodes[d] := Kernel];
    forall n <- nodes - {d}
      ensures nodes[n] < |owner'| && owner'[nodes[n]] == TableOf(n)
    {
    }
  }

  ghost predicate At(v: VM, n: Node) {
    n in v.nodes && v.nodes[n] < |v.tables| && |v.tables[v.nodes[n]]| == 512
  }

  ghost function EntryAt(v: VM, n: Node, i: nat): Entry
    requires At(v, n) && i < 512
  {
    v.tables[v.nodes[n]][i]
  }

  /** Upper levels: an entry is present exactly when the node below it exists; it points to it with
      flags 7, so that nothing but the leaf restricts an access. */
  ghost predicate LinkOk(v: VM, n: Node, i: nat)
    requires At(v, n) && i < 512
  {
    var e := EntryAt(v, n, i);
    n.level > 1 && UserSlot(n, i) ==>
      && (e.present <==> Down(n, i) in v.nodes)
      && e == if Down(n, i) in v.nodes then Fresh(v.nodes[Down(n, i)]) else ZERO
  }

  ghost predicate LinksOk(v: VM)
    requires Shape(v) && NodesOk(v)
  {
    forall n, i | n in v.nodes && 0 <= i < 512 :: LinkOk(v, n, i)
  }

  /** Lowest level: the present entries are the leaves of the flat map. */
  ghost predicate LeafOk(v: VM, n: Node, i: nat)
    requires At(v, n) && i < 512
  {
    var e := EntryAt(v, n, i);
    n.level == 1 ==>
      && (e.present <==> LeafAt(n, i) in v.leaves)
      && (if e.present then e == v.leaves[LeafAt(n, i)] else e == ZERO)
  }

  ghost predicate LeafTablesOk(v: VM)
    requires Shape(v) && NodesOk(v)
  {
    && (forall n, i | n in v.nodes && 0 <= i < 512 :: LeafOk(v, n, i))
    && (forall l <- v.leaves ::
          && Home(l) in v.nodes && v.leaves[l].present
          && v.leaves[l].frame < |v.owner| && v.owner[v.leaves[l].frame] == User)
  }

  ghost predicate RootsOk(v: VM) {
    && (forall p <- v.roots :: Top(p) in v.nodes && v.nodes[Top(p)] == v.roots[p])
    && (forall n <- v.nodes :: n.pid in v.roots)
  }

  /** Each record of a VMA list lies in a page of its own. */
  ghost predicate AreasOk(v: VM) {
    && v.areas.Keys <= v.roots.Keys
    && (forall p, k | p in v.areas && 0 <= k < |v.areas[p]| ::
          v.areas[p][k].frame < |v.owner| && v.owner[v.areas[p][k].frame] == AreaOf(p))
    && (forall p, j, k | p in v.areas && 0 <= j < k < |v.areas[p]| ::
          v.areas[p][j].frame != v.areas[p][k].frame)
    && (forall f | 0 <= f < |v.owner| && v.owner[f].AreaOf? ::
          v.owner[f].pid in v.areas && f in Pages(v.areas[v.owner[f].pid]))
  }

  ghost predicate FreeOk(v: VM) {
    forall f | 0 <= f < |v.owner| :: v.owner[f] == Unused <==> f in v.free
  }

  ghost predicate TreeInv(v: VM) {
    Shape(v) && NodesOk(v) && LinksOk(v) && LeafTablesOk(v) && RootsOk(v) && AreasOk(v) && FreeOk(v)
  }

  /** The count of a user frame is the number of leaves that map it, over all address spaces;
      every other page in use is referred to once. */
  ghost predicate RefInv(v: VM)
    requires Shape(v)
  {
    && (forall f | 0 <= f < |v.owner| && v.owner[f] == User ::
          v.refs[f] == |Sharers(v.leaves, f)| && v.refs[f] >= 1)
    && (forall f | 0 <= f < |v.owner| && (v.owner[f].TableOf? || v.owner[f].AreaOf?) :: v.refs[f] == 1)
  }

  ghost predicate Inv(v: VM) {
    TreeInv(v) && RefInv(v) && LeavesOk(v.leaves)
  }

  // ----- single updates of the trees -----

  function SetEntry(t: seq<Table>, f: Frame, i: nat, e: Entry): seq<Table>
    requires f < |t| && i < |t[f]|
  {
    t[f := t[f][i := e]]
  }

  /** Clearing an entry that is clear already changes nothing. */
  lemma ClearedTwice(t: seq<Table>, f: Frame, i: nat)
    requires f < |t| && i < |t[f]| && t[f][i] == ZERO
    ensures SetEntry(t, f, i, ZERO) == t
  {
    assert t[f][i := ZERO] == t[f];
  }

  predicate InTree(o: Owner) {
    o.Kernel? || o.TableOf? || o.User?
  }

  /** A page that changes hands among kernel, tables and user memory leaves the rest alone. */
  lemma OwnerMoved(v: VM, v': VM, f: Frame, o: Owner)
    requires AreasOk(v) && FreeOk(v) && f < |v.owner| && InTree(v.owner[f]) && InTree(o)
    requires v'.owner == v.owner[f := o] && v'.free == v.free
    requires v'.areas == v.areas && v.roots.Keys <= v'.roots.Keys
    ensures AreasOk(v') && FreeOk(v')
  {
  }

  lemma SameOwners(v: VM, v': VM)
    requires AreasOk(v) && FreeOk(v)
    requires v'.roots == v.roots && v'.areas == v.areas && v'.owner == v.owner && v'.free == v.free
    ensures AreasOk(v') && FreeOk(v')
  {
  }

  lemma SameNodes(v: VM, v': VM, f: Frame, o: Owner)
    requires NodesOk(v) && f < |v.owner| && !v.owner[f].TableOf? && !o.TableOf?
    requires v'.owner == v.owner[f := o] && v'.nodes == v.nodes
    ensures NodesOk(v')
  {
  }

  lemma RefMoved(v: VM, v': VM, f: Frame, o: Owner)
    requires Shape(v) && Shape(v') && RefInv(v) && f < |v.owner| && !v.owner[f].User? && !o.User?
    requires v'.owner == v.owner[f := o] && v'.leaves == v.leaves
    requires v'.refs == v.refs || v'.refs == v.refs[f := 1]
    requires o.TableOf? || o.AreaOf? ==> v'.refs[f] == 1
    ensures RefInv(v')
  {
  }

  /** `allocate_page`. */
  ghost function Taken(v: VM): VM
    requires Shape(v) && v.free != [] && v.free[0] < |v.refs|
  {
    var f := v.free[0];
    v.(free := v.free[1..], refs := v.refs[f := 1], owner := v.owner[f := Kernel])
  }

  lemma TakenTables(v: VM)
    requires Shape(v) && NodesOk(v) && LinksOk(v) && LeafTablesOk(v)
    requires v.free != [] && v.free[0] < |v.refs| && v.owner[v.free[0]] == Unused
    ensures var v' := Taken(v); Shape(v') && NodesOk(v') && LinksOk(v') && LeafTablesOk(v')
  {
    SameNodes(v, Taken(v), v.free[0], Kernel);
    SameTables(v, Taken(v));
  }

  lemma TakenOk(v: VM)
    requires TreeInv(v) && v.free != [] && v.free[0] < |v.owner| && v.free[0] !in v.free[1..]
    ensures v.owner[v.free[0]] == Unused && TreeInv(Taken(v))
    ensures RefInv(v) ==> RefInv(Taken(v))
  {
    var v' := Taken(v);
    TakenFree(v);
    TakenTables(v);
    if RefInv(v) { RefMoved(v, v', v.free[0], Kernel); }
  }

  lemma TakenFree(v: VM)
    requires Shape(v) && AreasOk(v) && FreeOk(v) && v.free != [] && v.free[0] < |v.refs| && v.free[0] !in v.free[1..]
    ensures v.owner[v.free[0]] == Unused && AreasOk(Taken(v)) && FreeOk(Taken(v))
  {
    assert v.free[0] in v.free;
    assert forall f | f in v.free :: f == v.free[0] || f in v.free[1..];
  }

  /** The tree conditions look only at tables, nodes, leaves and the owners in use. */
  lemma SameTables(v: VM, v': VM)
    requires Shape(v) && NodesOk(v) && LinksOk(v) && LeafTablesOk(v) && Shape(v') && NodesOk(v')
    requires v'.tables == v.tables && v'.nodes == v.nodes && v'.leaves == v.leaves
    requires |v'.owner| == |v.owner|
    requires forall l <- v.leaves :: v'.owner[v.leaves[l].frame] == User
    ensures LinksOk(v') && LeafTablesOk(v')
  {
    forall n, i | n in v'.nodes && 0 <= i < 512
      ensures LinkOk(v', n, i) && LeafOk(v', n, i)
    {
      assert LinkOk(v, n, i) && LeafOk(v, n, i);
    }
  }

  /** A cleared page `f` becomes the table below entry `i` of node `n`. */
  ghost function Linked(v: VM, n: Node, i: nat, f: Frame): VM
    requires At(v, n) && n.level > 1 && i < 512 && f < |v.owner| && f < |v.tables|
  {
    v.(tables := SetEntry(v.tables, v.nodes[n], i, Fresh(f))[f := ZeroTable()],
       nodes := v.nodes[Down(n, i) := f],
       owner := v.owner[f := TableOf(Down(n, i))])
  }

  lemma DownUp(n: Node, i: nat)
    requires n.level > 0 && i < 512
    ensures Up(Down(n, i)) == n
  {
  }

  lemma DownInjective(n: Node, i: nat, m: Node, j: nat)
    requires n.level > 0 && m.level > 0 && i < 512 && j < 512 && Down(n, i) == Down(m, j)
    ensures n == m && i == j
  {
    DownUp(n, i);
    DownUp(m, j);
  }

  lemma LeafHome(n: Node, j: nat)
    requires j < 512 && n.level == 1
    ensures Home(LeafAt(n, j)) == n && LeafAt(n, j).vpn % 512 == j
  {
  }

  lemma Located(v: VM, m: Node, j: nat)
    requires Shape(v) && NodesOk(v) && LinksOk(v) && LeafTablesOk(v) && m in v.nodes && j < 512
    ensures At(v, m) && v.nodes[m] < |v.owner| && v.owner[v.nodes[m]] == TableOf(m) && 1 <= m.level <= 4
    ensures LinkOk(v, m, j) && LeafOk(v, m, j)
  {
  }

  /** What the invariant says of one entry. */
  lemma EntryOk(v: VM, m: Node, j: nat)
    requires TreeInv(v) && m in v.nodes && j < 512
    ensures At(v, m) && 1 <= m.level <= 4 && LinkOk(v, m, j) && LeafOk(v, m, j)
  {
    hide NodesOk, LinksOk, LeafTablesOk, RootsOk, AreasOk, FreeOk;
    Located(v, m, j);
  }

  lemma LinkedEntry(v: VM, n: Node, i: nat, f: Frame, m: Node, j: nat)
    requires At(v, n) && n.level > 1 && i < 512 && f < |v.owner| && f < |v.tables| && v.nodes[n] != f
    requires At(v, m) && j < 512 && v.nodes[m] != f && (v.nodes[m] == v.nodes[n] ==> m == n)
    requires LinkOk(v, m, j) && LeafOk(v, m, j) && Down(n, i) !in v.nodes
    ensures var v' := Linked(v, n, i, f); At(v', m) && LinkOk(v', m, j) && LeafOk(v', m, j)
  {
    if m.level > 1 && Down(m, j) == Down(n, i) { DownInjective(m, j, n, i); }
  }

  lemma LinkedNodes(v: VM, n: Node, i: nat, f: Frame)
    requires Shape(v) && NodesOk(v) && n in v.nodes && n.level > 1 && UserSlot(n, i)
    requires f < |v.owner| && v.owner[f] == Kernel && Down(n, i) !in v.nodes
    ensures var v' := Linked(v, n, i, f); Shape(v') && NodesOk(v')
  {
    hide ZeroTable, NodeMap;
    DownUp(n, i);
    NodeMapAt(v, n);
    NodeAdded(v.nodes, v.owner, Down(n, i), f);
  }

  lemma NodeMapAt(v: VM, n: Node)
    requires NodesOk(v) && n in v.nodes
    ensures IsNode(n) && v.nodes[n] < |v.owner| && v.owner[v.nodes[n]] == TableOf(n)
  {
  }

  lemma LinkedTables(v: VM, n: Node, i: nat, f: Frame)
    requires Shape(v) && NodesOk(v) && LinksOk(v) && LeafTablesOk(v) && n in v.nodes && n.level > 1 && UserSlot(n, i)
    requires f < |v.owner| && v.owner[f] == Kernel && Down(n, i) !in v.nodes
    requires Shape(Linked(v, n, i, f)) && NodesOk(Linked(v, n, i, f))
    ensures LinksOk(Linked(v, n, i, f)) && LeafTablesOk(Linked(v, n, i, f))
  {
    hide NodesOk, LinkOk, LeafOk;
    Located(v, n, i);
    var v' := Linked(v, n, i, f);
    forall m, j | m in v'.nodes && 0 <= j < 512
      ensures At(v', m) && LinkOk(v', m, j) && LeafOk(v', m, j)
    {
      if m == Down(n, i) {
        LinkedBelow(v, n, i, f, j);
      } else {
        Located(v, m, j);
        LinkedEntry(v, n, i, f, m, j);
      }
    }
  }

  /** Neither tables nor leaves are below a node that did not exist. */
  lemma LinkedBelow(v: VM, n: Node, i: nat, f: Frame, j: nat)
    requires NodesOk(v) && At(v, n) && n.level > 1 && i < 512 && f < |v.owner| && f < |v.tables| && j < 512
    requires Down(n, i) !in v.nodes && forall l <- v.leaves :: Home(l) in v.nodes
    ensures var v' := Linked(v, n, i, f); var d := Down(n, i); At(v', d) && LinkOk(v', d, j) && LeafOk(v', d, j)
  {
    var d := Down(n, i);
    if d.level > 1 { DownUp(d, j); } else { LeafHome(d, j); }
  }

  lemma LinkedOk(v: VM, n: Node, i: nat, f: Frame)
    requires TreeInv(v) && n in v.nodes && n.level > 1 && UserSlot(n, i)
    requires f < |v.owner| && v.owner[f] == Kernel && !EntryAt(v, n, i).present
    ensures TreeInv(Linked(v, n, i, f))
    ensures RefInv(v) && v.refs[f] == 1 ==> RefInv(Linked(v, n, i, f))
  {
    var v' := Linked(v, n, i, f);
    assert LinkOk(v, n, i);
    LinkedNodes(v, n, i, f);
    LinkedTables(v, n, i, f);
    OwnerMoved(v, v', f, TableOf(Down(n, i)));
    if RefInv(v) && v.refs[f] == 1 { RefMoved(v, v', f, TableOf(Down(n, i))); }
  }

  /** A leaf is written, its frame now being user memory. */
  ghost function Mapped(v: VM, l: Leaf, e: Entry): VM
    requires At(v, Home(l)) && e.frame < |v.owner|
  {
    v.(tables := SetEntry(v.tables, v.nodes[Home(l)], l.vpn % 512, e),
       leaves := v.leaves[l := e],
       owner := v.owner[e.frame := User])
  }

  lemma MappedEntry(v: VM, l: Leaf, e: Entry, m: Node, j: nat)
    requires At(v, Home(l)) && e.frame < |v.owner| && e.present
    requires At(v, m) && j < 512 && (v.nodes[m] == v.nodes[Home(l)] ==> m == Home(l))
    requires LinkOk(v, m, j) && LeafOk(v, m, j)
    ensures var v' := Mapped(v, l, e); At(v', m) && LinkOk(v', m, j) && LeafOk(v', m, j)
  {
    if m.level == 1 { LeafHome(m, j); }
  }

  lemma MappedTables(v: VM, l: Leaf, e: Entry)
    requires Shape(v) && NodesOk(v) && LinksOk(v) && LeafTablesOk(v) && Home(l) in v.nodes && e.present
    requires e.frame < |v.owner| && v.owner[e.frame] in {User, Kernel}
    ensures var v' := Mapped(v, l, e); Shape(v') && NodesOk(v') && LinksOk(v') && LeafTablesOk(v')
  {
    hide NodesOk, LinkOk, LeafOk;
    Located(v, Home(l), 0);
    var v' := Mapped(v, l, e);
    SameNodes(v, v', e.frame, User);
    Located(v, Home(l), 0);
    forall m, j | m in v'.nodes && 0 <= j < 512
      ensures At(v', m) && LinkOk(v', m, j) && LeafOk(v', m, j)
    {
      Located(v, m, j);
      MappedEntry(v, l, e, m, j);
    }
  }

  lemma MappedOk(v: VM, l: Leaf, e: Entry)
    requires TreeInv(v) && Home(l) in v.nodes && e.present
    requires e.frame < |v.owner| && v.owner[e.frame] in {User, Kernel}
    ensures TreeInv(Mapped(v, l, e))
  {
    MappedTables(v, l, e);
    OwnerMoved(v, Mapped(v, l, e), e.frame, User);
  }

  /** A leaf entry is cleared. */
  ghost function Unmapped(v: VM, l: Leaf): VM
    requires At(v, Home(l))
  {
    v.(tables := SetEntry(v.tables, v.nodes[Home(l)], l.vpn % 512, ZERO),
       leaves := v.leaves - {l})
  }

  lemma UnmappedEntry(v: VM, l: Leaf, m: Node, j: nat)
    requires At(v, Home(l))
    requires At(v, m) && j < 512 && (v.nodes[m] == v.nodes[Home(l)] ==> m == Home(l))
    requires LinkOk(v, m, j) && LeafOk(v, m, j)
    ensures var v' := Unmapped(v, l); At(v', m) && LinkOk(v', m, j) && LeafOk(v', m, j)
  {
    if m.level == 1 { LeafHome(m, j); }
  }

  lemma UnmappedTables(v: VM, l: Leaf)
    requires Shape(v) && NodesOk(v) && LinksOk(v) && LeafTablesOk(v) && Home(l) in v.nodes
    ensures var v' := Unmapped(v, l); Shape(v') && NodesOk(v') && LinksOk(v') && LeafTablesOk(v')
  {
    hide LinkOk, LeafOk;
    var v' := Unmapped(v, l);
    assert NodesOk(v');
    forall m, j | m in v'.nodes && 0 <= j < 512
      ensures At(v', m) && LinkOk(v', m, j) && LeafOk(v', m, j)
    {
      Located(v, m, j);
      UnmappedEntry(v, l, m, j);
    }
  }

  lemma UnmappedOk(v: VM, l: Leaf)
    requires TreeInv(v) && Home(l) in v.nodes
    ensures TreeInv(Unmapped(v, l))
  {
    hide LinksOk, LeafTablesOk, AreasOk, FreeOk;
    UnmappedTables(v, l);
    SameOwners(v, Unmapped(v, l));
  }

  /** The emptied table below entry `i` of `n` is unlinked; its page is in kernel hands. */
  ghost function Unlinked(v: VM, n: Node, i: nat): VM
    requires At(v, n) && n.level > 1 && i < 512 && At(v, Down(n, i)) && v.nodes[Down(n, i)] < |v.owner|
  {
    v.(tables := SetEntry(v.tables, v.nodes[n], i, ZERO),
       nodes := v.nodes - {Down(n, i)},
       owner := v.owner[v.nodes[Down(n, i)] := Kernel])
  }

  /** Nothing hangs below a table without present entries. */
  lemma EmptyTable(v: VM, d: Node)
    requires Shape(v) && NodesOk(v) && LinksOk(v) && LeafTablesOk(v)
    requires d in v.nodes && forall j | 0 <= j < 512 && UserSlot(d, j) :: !EntryAt(v, d, j).present
    ensures forall m <- v.nodes | m.level < 4 :: Up(m) != d
    ensures forall l <- v.leaves :: Home(l) != d
  {
    forall m <- v.nodes | m.level < 4
      ensures Up(m) != d
    {
      if Up(m) == d { NothingBelow(v, d, m); }
    }
    forall l <- v.leaves
      ensures Home(l) != d
    {
      if Home(l) == d { LeafBelow(v, d, l); }
    }
  }

  lemma LeafBelow(v: VM, d: Node, l: Leaf)
    requires At(v, d) && l in v.leaves && Home(l) == d && LeafOk(v, d, l.vpn % 512)
    ensures EntryAt(v, d, l.vpn % 512).present
  {
    assert LeafAt(d, l.vpn % 512) == l;
  }

  lemma NothingBelow(v: VM, d: Node, m: Node)
    requires At(v, d) && m in v.nodes && 1 <= m.level < 4 && Up(m) == d && (m.level == 3 ==> m.prefix < 511)
    requires LinkOk(v, d, m.prefix % 512)
    ensures UserSlot(d, m.prefix % 512) && EntryAt(v, d, m.prefix % 512).present
  {
    assert m == Down(d, m.prefix % 512);
  }

  lemma UnlinkedEntry(v: VM, n: Node, i: nat, m: Node, j: nat)
    requires At(v, n) && n.level > 1 && i < 512 && At(v, Down(n, i)) && v.nodes[Down(n, i)] < |v.owner|
    requires At(v, m) && j < 512 && (v.nodes[m] == v.nodes[n] ==> m == n) && m != Down(n, i)
    requires LinkOk(v, m, j) && LeafOk(v, m, j)
    ensures var v' := Unlinked(v, n, i); At(v', m) && LinkOk(v', m, j) && LeafOk(v', m, j)
  {
    if m.level > 1 && Down(m, j) == Down(n, i) { DownInjective(m, j, n, i); }
  }

  lemma UnlinkedNodes(v: VM, n: Node, i: nat)
    requires Shape(v) && NodesOk(v) && n in v.nodes && n.level > 1 && UserSlot(n, i) && Down(n, i) in v.nodes
    requires forall m <- v.nodes | m.level < 4 :: Up(m) != Down(n, i)
    ensures var v' := Unlinked(v, n, i); Shape(v') && NodesOk(v')
  {
    hide NodeMap;
    NodeMapAt(v, n);
    NodeRemoved(v.nodes, v.owner, Down(n, i));
  }

  lemma UnlinkedRoots(v: VM, n: Node, i: nat)
    requires RootsOk(v) && At(v, n) && 1 < n.level <= 4 && i < 512
    requires At(v, Down(n, i)) && v.nodes[Down(n, i)] < |v.owner|
    ensures RootsOk(Unlinked(v, n, i))
  {
    assert forall p: Pid :: Top(p) != Down(n, i);
  }

  lemma UnlinkedTables(v: VM, n: Node, i: nat)
    requires Shape(v) && NodesOk(v) && LinksOk(v) && LeafTablesOk(v)
    requires n in v.nodes && n.level > 1 && UserSlot(n, i) && Down(n, i) in v.nodes && At(v, n) && At(v, Down(n, i))
    requires v.nodes[Down(n, i)] < |v.owner| && forall l <- v.leaves :: Home(l) != Down(n, i)
    requires Shape(Unlinked(v, n, i)) && NodesOk(Unlinked(v, n, i))
    ensures LinksOk(Unlinked(v, n, i)) && LeafTablesOk(Unlinked(v, n, i))
  {
    hide NodesOk, LinkOk, LeafOk;
    Located(v, n, i);
    Located(v, Down(n, i), 0);
    var v' := Unlinked(v, n, i);
    forall m, j | m in v'.nodes && 0 <= j < 512
      ensures At(v', m) && LinkOk(v', m, j) && LeafOk(v', m, j)
    {
      Located(v, m, j);
      UnlinkedEntry(v, n, i, m, j);
    }
  }

  lemma UnlinkedOk(v: VM, n: Node, i: nat)
    requires TreeInv(v) && n in v.nodes && n.level > 1 && UserSlot(n, i) && Down(n, i) in v.nodes
    requires forall j | 0 <= j < 512 :: !EntryAt(v, Down(n, i), j).present
    ensures TreeInv(Unlinked(v, n, i))
    ensures RefInv(v) ==> RefInv(Unlinked(v, n, i))
  {
    var v' := Unlinked(v, n, i);
    EmptyTable(v, Down(n, i));
    UnlinkedNodes(v, n, i);
    UnlinkedRoots(v, n, i);
    UnlinkedTables(v, n, i);
    OwnerMoved(v, v', v.nodes[Down(n, i)], Kernel);
    if RefInv(v) { RefMoved(v, v', v.nodes[Down(n, i)], Kernel); }
  }

  // ----- roots -----

  /** A cleared page becomes the PML4 of process `p`. */
  ghost function Rooted(v: VM, p: Pid, f: Frame): VM
    requires f < |v.tables| && f < |v.owner|
  {
    v.(tables := v.tables[f := ZeroTable()],
       nodes := v.nodes[Top(p) := f],
       roots := v.roots[p := f],
       owner := v.owner[f := TableOf(Top(p))])
  }

  lemma RootedNodes(v: VM, p: Pid, f: Frame)
    requires Shape(v) && NodesOk(v) && Top(p) !in v.nodes && f < |v.owner| && v.owner[f] == Kernel
    ensures var v' := Rooted(v, p, f); Shape(v') && NodesOk(v')
  {
  }

  lemma RootedEntry(v: VM, p: Pid, f: Frame, m: Node, j: nat)
    requires f < |v.tables| && f < |v.owner| && m != Top(p) && m.level <= 4
    requires At(v, m) && v.nodes[m] != f && j < 512 && LinkOk(v, m, j) && LeafOk(v, m, j)
    ensures var v' := Rooted(v, p, f); At(v', m) && LinkOk(v', m, j) && LeafOk(v', m, j)
  {
    assert m.level > 0 ==> Down(m, j) != Top(p);
  }

  /** The new PML4 is empty, and no table or leaf is below it. */
  lemma RootedTop(v: VM, p: Pid, f: Frame, j: nat)
    requires f < |v.tables| && f < |v.owner| && j < 512 && Down(Top(p), j) !in v.nodes
    ensures var v' := Rooted(v, p, f); At(v', Top(p)) && LinkOk(v', Top(p), j) && LeafOk(v', Top(p), j)
  {
  }

  lemma RootedTables(v: VM, p: Pid, f: Frame)
    requires Shape(v) && NodesOk(v) && LinksOk(v) && LeafTablesOk(v) && Top(p) !in v.nodes
    requires f < |v.owner| && v.owner[f] == Kernel && forall n <- v.nodes :: n.pid != p
    ensures var v' := Rooted(v, p, f); Shape(v') && NodesOk(v') && LinksOk(v') && LeafTablesOk(v')
  {
    var v' := Rooted(v, p, f);
    RootedNodes(v, p, f);
    forall m, j | m in v'.nodes && 0 <= j < 512
      ensures LinkOk(v', m, j) && LeafOk(v', m, j)
    {
      if m == Top(p) { RootedTop(v, p, f, j); } else { RootedEntry(v, p, f, m, j); }
    }
  }

  lemma RootedOk(v: VM, p: Pid, f: Frame)
    requires TreeInv(v) && p !in v.roots && f < |v.owner| && v.owner[f] == Kernel
    ensures TreeInv(Rooted(v, p, f))
    ensures RefInv(v) && v.refs[f] == 1 ==> RefInv(Rooted(v, p, f))
  {
    hide NodesOk, LinksOk, LeafTablesOk, AreasOk, FreeOk, RefInv;
    var v' := Rooted(v, p, f);
    RootedTables(v, p, f);
    assert RootsOk(v');
    OwnerMoved(v, v', f, TableOf(Top(p)));
    if RefInv(v) && v.refs[f] == 1 { RefMoved(v, v', f, TableOf(Top(p))); }
  }

  /** The kernel half of a PML4 is filled in. */
  ghost function KernelSlot(v: VM, p: Pid, e: Entry): VM
    requires At(v, Top(p))
  {
    v.(tables := SetEntry(v.tables, v.nodes[Top(p)], 511, e))
  }

  lemma KernelSlotEntry(v: VM, p: Pid, e: Entry, m: Node, j: nat)
    requires At(v, Top(p)) && At(v, m) && (v.nodes[m] == v.nodes[Top(p)] ==> m == Top(p))
    requires j < 512 && LinkOk(v, m, j) && LeafOk(v, m, j)
    ensures var v' := KernelSlot(v, p, e); At(v', m) && LinkOk(v', m, j) && LeafOk(v', m, j)
  {
  }

  lemma KernelSlotOk(v: VM, p: Pid, e: Entry)
    requires TreeInv(v) && p in v.roots
    ensures TreeInv(KernelSlot(v, p, e))
  {
    hide NodesOk, LinksOk, LeafTablesOk, AreasOk, FreeOk;
    NodeMapAt(v, Top(p));
    KernelSlotTables(v, p, e);
    SameOwners(v, KernelSlot(v, p, e));
  }

  lemma KernelSlotTables(v: VM, p: Pid, e: Entry)
    requires Shape(v) && NodesOk(v) && LinksOk(v) && LeafTablesOk(v) && Top(p) in v.nodes
    ensures var v' := KernelSlot(v, p, e); Shape(v') && NodesOk(v') && LinksOk(v') && LeafTablesOk(v')
  {
    var v' := KernelSlot(v, p, e);
    forall m, j | m in v'.nodes && 0 <= j < 512
      ensures LinkOk(v', m, j) && LeafOk(v', m, j)
    {
      KernelSlotEntry(v, p, e, m, j);
    }
  }

  /** The emptied PML4 of `p` goes back to the kernel. */
  ghost function Uprooted(v: VM, p: Pid): VM
    requires At(v, Top(p)) && v.nodes[Top(p)] < |v.owner|
  {
    v.(nodes := v.nodes - {Top(p)}, roots := v.roots - {p}, owner := v.owner[v.nodes[Top(p)] := Kernel])
  }

  lemma UprootedNodes(v: VM, p: Pid)
    requires Shape(v) && NodesOk(v) && Top(p) in v.nodes
    requires forall n <- v.nodes :: n.pid == p ==> n == Top(p)
    ensures var v' := Uprooted(v, p); Shape(v') && NodesOk(v')
  {
  }

  lemma UprootedEntry(v: VM, p: Pid, m: Node, j: nat)
    requires At(v, Top(p)) && v.nodes[Top(p)] < |v.owner| && m != Top(p) && m.level <= 4
    requires At(v, m) && j < 512 && LinkOk(v, m, j) && LeafOk(v, m, j)
    ensures var v' := Uprooted(v, p); At(v', m) && LinkOk(v', m, j) && LeafOk(v', m, j)
  {
    assert m.level > 0 ==> Down(m, j) != Top(p);
  }

  lemma UprootedTables(v: VM, p: Pid)
    requires Shape(v) && NodesOk(v) && LinksOk(v) && LeafTablesOk(v) && Top(p) in v.nodes
    requires forall n <- v.nodes :: n.pid == p ==> n == Top(p)
    ensures var v' := Uprooted(v, p); Shape(v') && NodesOk(v') && LinksOk(v') && LeafTablesOk(v')
  {
    hide NodesOk, LinkOk, LeafOk;
    Located(v, Top(p), 0);
    var v' := Uprooted(v, p);
    UprootedNodes(v, p);
    forall m, j | m in v'.nodes && 0 <= j < 512
      ensures At(v', m) && LinkOk(v', m, j) && LeafOk(v', m, j)
    {
      Located(v, m, j);
      UprootedEntry(v, p, m, j);
    }
  }

  /** Every lower table hangs, directly or not, below an entry of the PML4. */
  lemma UnderRoot(v: VM, n: Node) returns (b: Node)
    requires NodesOk(v) && n in v.nodes && n.level < 4
    ensures b in v.nodes && b.level == 3 && Up(b) == Top(n.pid)
  {
    b := n;
    if b.level < 3 { b := Up(b); }
    if b.level < 3 { b := Up(b); }
  }

  /** An empty PML4 means an empty address space. */
  lemma EmptyRoot(v: VM, p: Pid)
    requires TreeInv(v) && p in v.roots && forall j | 0 <= j < 511 :: !EntryAt(v, Top(p), j).present
    ensures forall n <- v.nodes :: n.pid == p ==> n == Top(p)
    ensures Absent(v.leaves, p)
  {
    EmptyTable(v, Top(p));
    forall n <- v.nodes | n.pid == p
      ensures n.level == 4
    {
      if n.level < 4 { var top := UnderRoot(v, n); }
    }
    forall l <- v.leaves
      ensures l.pid != p
    {
      assert Home(l) in v.nodes;
    }
  }

  lemma UprootedBooks(v: VM, p: Pid)
    requires NodesOk(v) && RootsOk(v) && AreasOk(v) && FreeOk(v) && p in v.roots && p !in v.areas && At(v, Top(p))
    requires forall n <- v.nodes :: n.pid == p ==> n == Top(p)
    ensures var v' := Uprooted(v, p); RootsOk(v') && AreasOk(v') && FreeOk(v')
  {
    hide RootsOk, AreasOk, FreeOk;
    UprootedRoots(v, p);
    UprootedAreas(v, p);
  }

  lemma UprootedRoots(v: VM, p: Pid)
    requires RootsOk(v) && p in v.roots && At(v, Top(p)) && v.nodes[Top(p)] < |v.owner|
    requires forall n <- v.nodes :: n.pid == p ==> n == Top(p)
    ensures RootsOk(Uprooted(v, p))
  {
  }

  lemma UprootedAreas(v: VM, p: Pid)
    requires AreasOk(v) && FreeOk(v) && p in v.roots && p !in v.areas && At(v, Top(p))
    requires v.nodes[Top(p)] < |v.owner| && v.owner[v.nodes[Top(p)]].TableOf?
    ensures AreasOk(Uprooted(v, p)) && FreeOk(Uprooted(v, p))
  {
  }

  lemma UprootedOk(v: VM, p: Pid)
    requires TreeInv(v) && p in v.roots && p !in v.areas
    requires forall j | 0 <= j < 511 :: !EntryAt(v, Top(p), j).present
    ensures TreeInv(Uprooted(v, p))
    ensures RefInv(v) ==> RefInv(Uprooted(v, p))
  {
    hide LinksOk, LeafTablesOk, AreasOk, FreeOk, RefInv;
    var v' := Uprooted(v, p);
    EmptyRoot(v, p);
    UprootedTables(v, p);
    UprootedBooks(v, p);
    if RefInv(v) { RefMoved(v, v', v.nodes[Top(p)], Kernel); }
  }

  // ----- giving pages back -----

  /** `free` of a page with one reference. */
  ghost function Returned(v: VM, f: Frame): VM
    requires f < |v.owner|
  {
    v.(free := [f] + v.free, owner := v.owner[f := Unused])
  }

  lemma ReturnedBooks(v: VM, f: Frame)
    requires RootsOk(v) && AreasOk(v) && FreeOk(v) && f < |v.owner| && InTree(v.owner[f])
    ensures RootsOk(Returned(v, f)) && AreasOk(Returned(v, f)) && FreeOk(Returned(v, f))
  {
  }

  lemma ReturnedTables(v: VM, f: Frame)
    requires Shape(v) && NodesOk(v) && LinksOk(v) && LeafTablesOk(v) && f < |v.owner|
    requires v.owner[f] == Kernel || f !in Frames(v.leaves)
    requires NodesOk(Returned(v, f))
    ensures LinksOk(Returned(v, f)) && LeafTablesOk(Returned(v, f))
  {
    hide NodesOk, LinksOk;
    forall l <- v.leaves
      ensures v.leaves[l].frame != f
    {
      assert v.leaves[l].frame in Frames(v.leaves);
    }
    SameTables(v, Returned(v, f));
  }

  lemma ReturnedOk(v: VM, f: Frame)
    requires TreeInv(v) && f < |v.owner| && (v.owner[f] == Kernel || (v.owner[f] == User && f !in Frames(v.leaves)))
    ensures TreeInv(Returned(v, f))
    ensures RefInv(v) && v.owner[f] == Kernel ==> RefInv(Returned(v, f))
  {
    hide NodesOk, LinksOk, LeafTablesOk, RootsOk, AreasOk, FreeOk, RefInv;
    var v' := Returned(v, f);
    SameNodes(v, v', f, Unused);
    ReturnedBooks(v, f);
    ReturnedTables(v, f);
    if RefInv(v) && v.owner[f] == Kernel { RefMoved(v, v', f, Unused); }
  }

  /** `free` of a page that another leaf still maps. */
  ghost function Decremented(v: VM, f: Frame): VM
    requires f < |v.refs|
  {
    v.(refs := v.refs[f := v.refs[f] - 1])
  }

  lemma DecrementedOk(v: VM, f: Frame)
    requires TreeInv(v) && f < |v.refs|
    ensures TreeInv(Decremented(v, f))
  {
    SameTables(v, Decremented(v, f));
  }

  /** A leaf goes away and its frame loses one reference. */
  ghost function Dropped(v: VM, l: Leaf): VM
    requires At(v, Home(l)) && l in v.leaves && v.leaves[l].frame < |v.refs| && v.leaves[l].frame < |v.owner|
  {
    var f := v.leaves[l].frame;
    if v.refs[f] > 1 then Decremented(Unmapped(v, l), f) else Returned(Unmapped(v, l), f)
  }

  lemma SharersWithout(m: LeafMap, l: Leaf, f: Frame)
    requires l in m
    ensures Sharers(m - {l}, f) == Sharers(m, f) - {l}
    ensures |Sharers(m - {l}, f)| == |Sharers(m, f)| - if m[l].frame == f then 1 else 0
  {
    assert Sharers(m - {l}, f) == Sharers(m, f) - {l};
    if m[l].frame == f { assert l in Sharers(m, f); }
  }

  lemma DroppedRefs(v: VM, l: Leaf)
    requires Shape(v) && RefInv(v) && At(v, Home(l)) && l in v.leaves
    requires v.leaves[l].frame < |v.owner| && v.owner[v.leaves[l].frame] == User
    ensures var v' := Dropped(v, l); Shape(v') && RefInv(v')
  {
    forall f
      ensures |Sharers(v.leaves - {l}, f)| == |Sharers(v.leaves, f)| - if v.leaves[l].frame == f then 1 else 0
    {
      SharersWithout(v.leaves, l, f);
    }
  }

  lemma DroppedOk(v: VM, l: Leaf)
    requires At(v, Home(l)) && l in v.leaves && v.leaves[l].frame < |v.refs| == |v.owner|
    requires TreeInv(v) && RefInv(v)
    ensures Shape(Dropped(v, l)) && TreeInv(Dropped(v, l)) && RefInv(Dropped(v, l))
  {
    hide TreeInv, RefInv, Shape;
    var f := v.leaves[l].frame;
    LeafFrame(v, l);
    UnmappedOk(v, l);
    DroppedRefs(v, l);
    if v.refs[f] > 1 {
      DecrementedOk(Unmapped(v, l), f);
    } else {
      LastSharer(v, l);
      ReturnedOk(Unmapped(v, l), f);
    }
  }

  lemma LeafFrame(v: VM, l: Leaf)
    requires TreeInv(v) && l in v.leaves
    ensures Shape(v) && Home(l) in v.nodes && v.leaves[l].frame < |v.owner| && v.owner[v.leaves[l].frame] == User
  {
    hide NodesOk, LinksOk, RootsOk, AreasOk, FreeOk;
  }

  /** A frame with one reference has no other leaf. */
  lemma LastSharer(v: VM, l: Leaf)
    requires Shape(v) && RefInv(v) && l in v.leaves && v.leaves[l].frame < |v.owner|
    requires v.owner[v.leaves[l].frame] == User && v.refs[v.leaves[l].frame] <= 1
    ensures v.leaves[l].frame !in Frames(v.leaves - {l})
  {
    var f := v.leaves[l].frame;
    var rest := v.leaves - {l};
    SharersWithout(v.leaves, l, f);
    assert forall k <- rest | rest[k].frame == f :: k in Sharers(rest, f);
  }

  // ----- VMA lists -----

  ghost function Listed(v: VM, p: Pid, s: seq<Area>): VM {
    v.(areas := v.areas[p := s])
  }

  /** A record at either end of a list. */
  predicate OneMore(s0: seq<Area>, s: seq<Area>, a: Area) {
    s == s0 + [a] || s == [a] + s0
  }

  /** A page in kernel hands becomes a record of the list of `p`, which is now `s`. */
  ghost function AreaAdded(v: VM, p: Pid, a: Area, s: seq<Area>): VM
    requires a.frame < |v.owner|
  {
    Listed(v, p, s).(owner := v.owner[a.frame := AreaOf(p)])
  }

  lemma AreaAddedOk(v: VM, p: Pid, a: Area, s: seq<Area>)
    requires TreeInv(v) && p in v.areas && a.frame < |v.owner| && v.owner[a.frame] == Kernel
    requires OneMore(v.areas[p], s, a)
    ensures TreeInv(AreaAdded(v, p, a, s))
    ensures RefInv(v) && v.refs[a.frame] == 1 ==> RefInv(AreaAdded(v, p, a, s))
  {
    hide NodesOk, LinksOk, AreasOk, FreeOk, RefInv, OneMore;
    var v' := AreaAdded(v, p, a, s);
    SameNodes(v, v', a.frame, AreaOf(p));
    SameTables(v, v');
    AreaAddedAreas(v, p, a, s);
    if RefInv(v) && v.refs[a.frame] == 1 { RefMoved(v, v', a.frame, AreaOf(p)); }
  }

  lemma AreaAddedAreas(v: VM, p: Pid, a: Area, s: seq<Area>)
    requires AreasOk(v) && FreeOk(v) && p in v.areas && a.frame < |v.owner| && v.owner[a.frame] == Kernel
    requires OneMore(v.areas[p], s, a)
    ensures AreasOk(AreaAdded(v, p, a, s)) && FreeOk(AreaAdded(v, p, a, s))
  {
    hide Pages, OneMore;
    RecordsOf(v, p);
    PagesAdded(v.areas[p], s, a, v.owner, p);
  }

  /** A list may be exchanged for one whose records lie in the same pages. */
  lemma RelistedAreas(v: VM, p: Pid, s: seq<Area>)
    requires AreasOk(v) && p in v.areas && |s| == |v.areas[p]|
    requires forall k | 0 <= k < |s| :: s[k].frame == v.areas[p][k].frame
    ensures AreasOk(Listed(v, p, s))
  {
    hide Pages;
    SamePages(v.areas[p], s);
  }

  lemma SamePages(s: seq<Area>, s': seq<Area>)
    requires |s'| == |s| && forall k | 0 <= k < |s| :: s'[k].frame == s[k].frame
    ensures Pages(s') == Pages(s)
  {
  }

  /** The records of a list, apart from the rest of the invariant. */
  ghost predicate Records(o: seq<Owner>, s: seq<Area>, p: Pid) {
    && (forall k | 0 <= k < |s| :: s[k].frame < |o| && o[s[k].frame] == AreaOf(p))
    && (forall j, k | 0 <= j < k < |s| :: s[j].frame != s[k].frame)
  }

  lemma RecordsOf(v: VM, p: Pid)
    requires AreasOk(v) && p in v.areas
    ensures Records(v.owner, v.areas[p], p)
  {
  }

  lemma PagesAdded(s0: seq<Area>, s: seq<Area>, a: Area, o: seq<Owner>, p: Pid)
    requires OneMore(s0, s, a) && Records(o, s0, p) && a.frame < |o| && o[a.frame] == Kernel
    ensures Pages(s) == Pages(s0) + {a.frame} && Records(o[a.frame := AreaOf(p)], s, p)
  {
    hide Records, Pages;
    if s == s0 + [a] {
      PagesConcat(s0, [a]);
      RecordsLast(s0, a, o, p);
    } else {
      PagesConcat([a], s0);
      RecordsFirst(s0, a, o, p);
    }
    PagesOne(a);
  }

  lemma PagesOne(a: Area)
    ensures Pages([a]) == {a.frame}
  {
    assert [a][0] == a;
  }

  lemma PagesConcat(s: seq<Area>, t: seq<Area>)
    ensures Pages(s + t) == Pages(s) + Pages(t)
  {
    var r := s + t;
    assert forall k | 0 <= k < |s| :: r[k] == s[k];
    assert forall k | 0 <= k < |t| :: r[|s| + k] == t[k];
  }

  lemma RecordsLast(s0: seq<Area>, a: Area, o: seq<Owner>, p: Pid)
    requires Records(o, s0, p) && a.frame < |o| && o[a.frame] == Kernel
    ensures Records(o[a.frame := AreaOf(p)], s0 + [a], p)
  {
  }

  lemma RecordsFirst(s0: seq<Area>, a: Area, o: seq<Owner>, p: Pid)
    requires Records(o, s0, p) && a.frame < |o| && o[a.frame] == Kernel
    ensures Records(o[a.frame := AreaOf(p)], [a] + s0, p)
  {
    var s := [a] + s0;
    assert forall k | 0 < k < |s| :: s[k] == s0[k - 1];
  }

  /** The first record of the list of `p` is handed back to the kernel. */
  ghost function AreaRemoved(v: VM, p: Pid): VM
    requires p in v.areas && v.areas[p] != [] && v.areas[p][0].frame < |v.owner|
  {
    Listed(v, p, v.areas[p][1..]).(owner := v.owner[v.areas[p][0].frame := Kernel])
  }

  lemma AreaRemovedAreas(v: VM, p: Pid)
    requires AreasOk(v) && FreeOk(v) && p in v.areas && v.areas[p] != []
    ensures AreasOk(AreaRemoved(v, p)) && FreeOk(AreaRemoved(v, p))
  {
    hide Pages;
    PagesCut(v.areas[p]);
    var v' := AreaRemoved(v, p);
    var s := v.areas[p];
    assert forall k | 0 <= k < |s| - 1 :: v'.areas[p][k] == s[k + 1];
  }

  lemma PagesCut(s: seq<Area>)
    requires s != []
    ensures Pages(s) == Pages(s[1..]) + {s[0].frame}
  {
    hide Pages;
    assert s == [s[0]] + s[1..];
    PagesConcat([s[0]], s[1..]);
    PagesOne(s[0]);
  }

  lemma AreaRemovedTables(v: VM, p: Pid)
    requires Shape(v) && NodesOk(v) && LinksOk(v) && LeafTablesOk(v)
    requires p in v.areas && v.areas[p] != [] && v.areas[p][0].frame < |v.owner|
    requires v.owner[v.areas[p][0].frame] == AreaOf(p)
    ensures var v' := AreaRemoved(v, p); Shape(v') && NodesOk(v') && LinksOk(v') && LeafTablesOk(v')
  {
    var v' := AreaRemoved(v, p);
    SameNodes(v, v', v.areas[p][0].frame, Kernel);
    SameTables(v, v');
  }

  lemma AreaRemovedOk(v: VM, p: Pid)
    requires TreeInv(v) && p in v.areas && v.areas[p] != []
    ensures TreeInv(AreaRemoved(v, p))
    ensures RefInv(v) ==> RefInv(AreaRemoved(v, p))
  {
    AreaRemovedTables(v, p);
    AreaRemovedAreas(v, p);
    if RefInv(v) { RefMoved(v, AreaRemoved(v, p), v.areas[p][0].frame, Kernel); }
  }
}
