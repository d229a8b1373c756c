/**
 What the routines of `Machine` may change, as relations between two states of memory, and
 the facts that let a routine use the invariant one entry at a time.
 */
module MemorySpec {
  import opened FlatCow
  import opened PageTree
  import opened PageWalk
  import opened PageShare

  // ----- reading the invariant -----

  lemma ShapeOf(v: VM)
    requires TreeInv(v)
    ensures Shape(v)
    ensures forall l <- v.leaves :: v.leaves[l].frame < |v.owner| && v.owner[v.leaves[l].frame] == User
  {
  }

  /** An entry of an upper table. */
  lemma LinkAt(v: VM, n: Node, i: nat)
    requires TreeInv(v) && n in v.nodes && i < 512
    ensures Shape(v) && At(v, n) && v.nodes[n] < |v.owner| && v.owner[v.nodes[n]] == TableOf(n)
    ensures 1 <= n.level <= 4 && n.pid in v.roots
    ensures LinkOk(v, n, i)
  {
  }

  /** An entry of a lowest table, and the leaf it stands for. */
  lemma LeafEntryAt(v: VM, n: Node, i: nat)
    requires TreeInv(v) && n in v.nodes && n.level == 1 && i < 512
    ensures Shape(v) && At(v, n) && v.nodes[n] < |v.owner|
    ensures LeafOk(v, n, i)
    ensures Home(LeafAt(n, i)) == n && LeafAt(n, i).vpn % 512 == i
    ensures LeafAt(n, i) in v.leaves ==>
              var f := v.leaves[LeafAt(n, i)].frame; f < |v.owner| && v.owner[f] == User
  {
    assert LeafOk(v, n, i);
    LeafHome(n, i);
  }

  lemma RootAt(v: VM, p: Pid)
    requires TreeInv(v) && p in v.roots
    ensures At(v, Top(p)) && v.nodes[Top(p)] == v.roots[p] < |v.owner| && v.owner[v.roots[p]] == TableOf(Top(p))
  {
  }

  lemma PathsUp(v: VM, p: Pid, a: nat)
    requires TreeInv(v) && IsUser(a) && OnPath(p, a, 1) in v.nodes
    ensures OnPath(p, a, 2) in v.nodes && OnPath(p, a, 3) in v.nodes && Top(p) in v.nodes
  {
    PathUp(v, p, a, 2);
    PathUp(v, p, a, 3);
    PathUp(v, p, a, 4);
    assert OnPath(p, a, 4) == Top(p);
  }

  /** The tables of a mapped page exist. */
  lemma MappedHome(v: VM, p: Pid, a: nat)
    requires TreeInv(v) && LeafOf(p, a) in v.leaves
    ensures OnPath(p, a / 4096 * 4096, 1) in v.nodes
  {
    hide NodesOk, LinksOk, RootsOk, AreasOk, FreeOk, LeafOk;
    PathLeaf(p, a);
    PathLeaf(p, a / 4096 * 4096);
  }

  lemma TwoTables(v: VM, n: Node, m: Node)
    requires TreeInv(v) && n in v.nodes && m in v.nodes && n != m
    ensures v.nodes[n] != v.nodes[m]
  {
    assert TableOf(n) != TableOf(m);
  }

  lemma NewFrame(v: VM, f: Frame)
    requires TreeInv(v) && f < |v.owner| && v.owner[f] != User
    ensures f !in Frames(v.leaves)
  {
  }

  // ----- more tables -----

  /** `v'` has more tables for `p` than `v`, made of free pages. */
  ghost predicate MoreTables(v: VM, v': VM, p: Pid) {
    && v'.areas == v.areas && v'.roots == v.roots
    && |v'.owner| == |v.owner|
    && (forall n <- v.nodes :: n in v'.nodes && v'.nodes[n] == v.nodes[n])
    && (forall n <- v'.nodes :: n in v.nodes || n.pid == p)
    && (forall f | 0 <= f < |v.owner| && v.owner[f] != Unused :: v'.owner[f] == v.owner[f])
    && (forall f | 0 <= f < |v.owner| && v.owner[f] == Unused :: v'.owner[f] == Unused || v'.owner[f].TableOf?)
  }

  /** ... and nothing else is different. */
  ghost predicate Extends(v: VM, v': VM, p: Pid) {
    && MoreTables(v, v', p)
    && v'.leaves == v.leaves
    && |v.owner| == |v.refs| == |v'.refs|
    && (forall f | 0 <= f < |v.owner| && v.owner[f] != Unused :: v'.refs[f] == v.refs[f])
  }

  lemma ExtendsSelf(v: VM, p: Pid)
    requires TreeInv(v)
    ensures Extends(v, v, p)
  {
  }

  lemma ExtendsTrans(u: VM, v: VM, w: VM, p: Pid)
    requires Extends(u, v, p) && Extends(v, w, p)
    ensures Extends(u, w, p)
  {
  }

  lemma MoreTablesTrans(u: VM, v: VM, w: VM, p: Pid)
    requires MoreTables(u, v, p) && MoreTables(v, w, p)
    ensures MoreTables(u, w, p)
  {
  }

  lemma ExtendsMore(v: VM, w: VM, p: Pid)
    requires Extends(v, w, p)
    ensures MoreTables(v, w, p) && w.leaves == v.leaves
  {
  }

  /** Sharing leaves makes no difference to the tables there are. */
  lemma SameMore(v: VM, w: VM, p: Pid)
    requires w == v.(refs := w.refs, tables := w.tables, leaves := w.leaves)
    ensures MoreTables(v, w, p)
  {
  }

  lemma MoreRoots(v: VM, w: VM, p: Pid)
    requires MoreTables(v, w, p)
    ensures w.roots == v.roots
  {
  }

  lemma MoreTablesKeeps(v: VM, w: VM, p: Pid, n: Node)
    requires MoreTables(v, w, p) && n in v.nodes
    ensures n in w.nodes && w.nodes[n] == v.nodes[n]
  {
  }

  /** Below a cleared table there is nothing. */
  lemma ClearedBelow(v: VM, n: Node)
    requires TreeInv(v) && n in v.nodes && 1 <= n.level < 4 && v.nodes[n] < |v.tables|
    requires v.tables[v.nodes[n]] == ZeroTable()
    ensures n.level > 1 ==> forall j | 0 <= j < 512 :: Down(n, j) !in v.nodes
  {
    hide TreeInv;
    if n.level > 1 {
      forall j | 0 <= j < 512
        ensures Down(n, j) !in v.nodes
      {
        LinkAt(v, n, j);
      }
    }
  }

  lemma BeforeOne(x: nat)
    ensures Before(1, x) == x * 512 && Before(1, x + 1) == (x + 1) * 512
  {
  }

  /** An absent entry stands for a range that the process does not map. */
  lemma AbsentBelow(v: VM, m: LeafMap, n: Node, c: Pid, i: nat)
    requires TreeInv(v) && n in v.nodes && n.level > 1 && UserSlot(n, i) && Down(n, i) !in v.nodes
    requires n.pid != c && Absent(m, c)
    requires v.leaves == ShareBelow(m, n.pid, c, Before(n.level - 1, n.prefix * 512 + i))
    ensures v.leaves == ShareBelow(m, n.pid, c, Before(n.level - 1, n.prefix * 512 + i + 1))
  {
    hide TreeInv, ShareBelow, Before;
    var x := n.prefix * 512 + i;
    var b, b' := Before(n.level - 1, x), Before(n.level - 1, x + 1);
    LinkAt(v, n, i);
    BeforeMonotone(n.level - 1, x);
    forall l <- m | l.pid == n.pid
      ensures !(b <= l.vpn < b')
    {
      ShareKeys(m, n.pid, c, b, l.vpn);
      if b <= l.vpn < b' {
        MappedBelow(v, n.pid, n.level - 1, x, l.vpn);
      }
    }
    ShareGap(m, n.pid, c, b, b');
  }

  lemma BeforeMonotone(level: nat, x: nat)
    ensures Before(level, x) <= Before(level, x + 1)
  {
  }

  lemma AttachExtends(v: VM, n: Node, i: nat)
    requires TreeInv(v) && v.free != [] && v.free[0] < |v.owner| && Shape(v) && At(v, n)
    requires n in v.nodes && n.level > 1 && i < 512 && Down(n, i) !in v.nodes
    ensures Extends(v, Linked(Taken(v), n, i, v.free[0]), n.pid)
  {
    hide NodesOk, LinksOk, LeafTablesOk, RootsOk, AreasOk, ZeroTable, At;
    assert v.free[0] in v.free;
  }

  lemma KernelSlotExtends(v: VM, p: Pid, e: Entry)
    requires TreeInv(v) && RefInv(v) && p in v.roots
    ensures var w := KernelSlot(v, p, e); TreeInv(w) && RefInv(w) && Extends(v, w, p)
  {
    KernelSlotOk(v, p, e);
  }

  // ----- the kernel half -----

  /** Slot 511 of the PML4 of process `p`. */
  ghost function Half(v: VM, p: Pid): Entry {
    if At(v, Top(p)) then EntryAt(v, Top(p), 511) else ZERO
  }

  /** Every process sees the kernel as before. */
  ghost predicate HalvesKept(v: VM, v': VM) {
    forall p <- v.roots :: p in v'.roots && Half(v', p) == Half(v, p)
  }

  lemma HalvesTrans(u: VM, v: VM, w: VM)
    requires HalvesKept(u, v) && HalvesKept(v, w)
    ensures HalvesKept(u, w)
  {
  }

  lemma HalvesSame(v: VM, w: VM)
    requires w.nodes == v.nodes && w.roots == v.roots && w.tables == v.tables
    ensures HalvesKept(v, w)
  {
  }

  lemma SameHalf(v: VM, w: VM, p: Pid)
    requires w.nodes == v.nodes && w.tables == v.tables
    ensures Half(w, p) == Half(v, p)
  {
  }

  /** Writes to tables below the top, at `a` and `b`, do not touch it. */
  lemma LowerWrites(v: VM, w: VM, a: Node, b: Node)
    requires TreeInv(v) && a in v.nodes && b in v.nodes && a.level < 4 && b.level < 4
    requires w.nodes == v.nodes && w.roots == v.roots && |w.tables| == |v.tables|
    requires forall f | 0 <= f < |v.tables| && f != v.nodes[a] && f != v.nodes[b] :: w.tables[f] == v.tables[f]
    ensures HalvesKept(v, w)
  {
    hide TreeInv;
    forall p <- v.roots
      ensures Half(w, p) == Half(v, p)
    {
      RootAt(v, p);
      TwoTables(v, Top(p), a);
      TwoTables(v, Top(p), b);
    }
  }

  /** Attaching a table below a user slot does not touch it either. */
  lemma LinkedHalves(v: VM, n: Node, i: nat, f: Frame)
    requires TreeInv(v) && n in v.nodes && n.level > 1 && UserSlot(n, i)
    requires At(v, n) && f < |v.owner| && f < |v.tables| && v.owner[f] == Kernel
    ensures HalvesKept(v, Linked(v, n, i, f))
  {
    hide TreeInv;
    forall p <- v.roots
      ensures Half(Linked(v, n, i, f), p) == Half(v, p)
    {
      LinkAt(v, n, i);
      RootAt(v, p);
      if n != Top(p) { TwoTables(v, Top(p), n); }
    }
  }

  lemma RootedHalf(v: VM, c: Pid, p: Pid)
    requires TreeInv(v) && v.free != [] && v.free[0] < |v.owner| && v.owner[v.free[0]] == Unused
    requires Shape(v) && p in v.roots && p != c
    ensures Half(Rooted(Taken(v), c, v.free[0]), p) == Half(v, p)
  {
    hide TreeInv;
    RootAt(v, p);
  }

  lemma KernelSlotHalf(v: VM, p: Pid, e: Entry)
    requires TreeInv(v) && p in v.roots && At(v, Top(p))
    ensures HalfSet(v, KernelSlot(v, p, e), p, e)
  {
    hide TreeInv;
    forall q <- v.roots | q != p
      ensures Half(KernelSlot(v, p, e), q) == Half(v, q)
    {
      RootAt(v, q);
      RootAt(v, p);
      TwoTables(v, Top(q), Top(p));
    }
  }

  /** The PML4 of `p` has the kernel half `e`, and every other process the one it had. */
  ghost predicate HalfSet(v: VM, v': VM, p: Pid, e: Entry) {
    Half(v', p) == e && forall q <- v.roots | q != p :: Half(v', q) == Half(v, q)
  }

  lemma HalfSetKept(v: VM, u: VM, w: VM, p: Pid, e: Entry)
    requires HalfSet(v, u, p, e) && HalvesKept(u, w) && u.roots == v.roots && p in u.roots
    ensures HalfSet(v, w, p, e)
  {
  }

  /** Leaf `l` now maps `phy`, a page that was in kernel hands, at the cost of tables only. */
  ghost predicate Grew(v: VM, v': VM, l: Leaf, phy: Frame) {
    && phy < |v'.owner| && phy < |v.owner| && v.owner[phy] == Kernel && v'.owner[phy] == User
    && v'.leaves == v.leaves[l := Fresh(phy)]
    && Extends(v, v'.(leaves := v.leaves, owner := v'.owner[phy := Kernel]), l.pid)
  }

  lemma GrewLeaf(v: VM, w: VM, l: Leaf, phy: Frame)
    requires Grew(v, w, l, phy)
    ensures w.leaves == v.leaves[l := Fresh(phy)] && w.areas == v.areas && w.roots == v.roots
  {
  }

  lemma GrewCount(v: VM, w: VM, l: Leaf, phy: Frame)
    requires Grew(v, w, l, phy) && l in v.leaves && v.leaves[l].frame < |v.owner| == |v.refs|
    requires v.owner[v.leaves[l].frame] == User
    ensures v.leaves[l].frame < |w.refs| && v.leaves[l].frame < |w.owner|
    ensures w.refs[v.leaves[l].frame] == v.refs[v.leaves[l].frame] && w.owner[v.leaves[l].frame] == User
  {
    var w' := w.(leaves := v.leaves, owner := w.owner[phy := Kernel]);
    assert w'.owner[v.leaves[l].frame] == User;
  }

  lemma FrameCount(v: VM, l: Leaf)
    requires TreeInv(v) && RefInv(v) && l in v.leaves
    ensures v.leaves[l].frame < |v.refs| == |v.owner| && v.owner[v.leaves[l].frame] == User
    ensures v.refs[v.leaves[l].frame] == |Sharers(v.leaves, v.leaves[l].frame)| >= 1
  {
  }

  lemma MarkedLeaf(m: LeafMap, l: Leaf)
    requires LeavesOk(m) && l in m
    ensures m[l].present && m[l].cow == !m[l].writable
  {
  }

  lemma CountedLocal(u: VM, v: VM, w: VM, p: Pid)
    requires Local(u, v, p) && w == v.(refs := w.refs)
    ensures Local(u, w, p)
  {
  }

  /** Counts are right for the leaves `m`, except perhaps that of `x`. */
  ghost predicate RefsBut(v: VM, m: LeafMap, x: Frame)
    requires Shape(v)
  {
    && (forall f | 0 <= f < |v.owner| && v.owner[f] == User && f != x ::
          v.refs[f] == |Sharers(m, f)| && v.refs[f] >= 1)
    && (forall f | 0 <= f < |v.owner| && (v.owner[f].TableOf? || v.owner[f].AreaOf?) :: v.refs[f] == 1)
  }

  ghost predicate SameCount(v: VM, w: VM, f: Frame) {
    f < |v.refs| && f < |w.refs| && w.refs[f] == v.refs[f]
  }

  lemma MappedGrew(v: VM, u: VM, l: Leaf, phy: Frame)
    requires Shape(u) && At(u, Home(l)) && phy < |u.owner|
    requires TreeInv(u) && RefInv(u) && Extends(v, u, l.pid) && phy < |v.owner| && v.owner[phy] == Kernel
    ensures phy < |u.owner| && u.owner[phy] == Kernel && SameCount(v, u, phy)
    ensures var w := Mapped(u, l, Fresh(phy));
            Shape(w) && TreeInv(w) && Grew(v, w, l, phy) && RefsBut(w, v.leaves, phy)
  {
    hide LinksOk, LeafTablesOk, RootsOk, AreasOk, FreeOk, Grew, RefsBut;
    MappedOk(u, l, Fresh(phy));
    MappedExtends(v, u, l, phy);
    MappedRefs(v, u, l, phy);
  }

  lemma MappedExtends(v: VM, u: VM, l: Leaf, phy: Frame)
    requires At(u, Home(l)) && Extends(v, u, l.pid) && phy < |v.owner| && v.owner[phy] == Kernel
    ensures Grew(v, Mapped(u, l, Fresh(phy)), l, phy)
  {
  }

  lemma MappedRefs(v: VM, u: VM, l: Leaf, phy: Frame)
    requires Shape(u) && RefInv(u) && At(u, Home(l)) && v.leaves == u.leaves && phy < |u.owner|
    ensures var w := Mapped(u, l, Fresh(phy)); Shape(w) && RefsBut(w, v.leaves, phy)
  {
  }

  /** Mapping an absent page keeps the counts right. */
  lemma GrewAbsent(v: VM, w: VM, l: Leaf, phy: Frame)
    requires Shape(w) && RefsBut(w, v.leaves, phy) && Grew(v, w, l, phy) && phy < |w.refs|
    requires l !in v.leaves && phy !in Frames(v.leaves) && w.refs[phy] == 1
    ensures RefInv(w)
  {
    hide Extends;
    var m, m' := v.leaves, w.leaves;
    assert forall k <- m :: m[k].frame in Frames(m);
    assert Sharers(m', phy) == {l};
    forall f | f != phy
      ensures Sharers(m', f) == Sharers(m, f)
    {
    }
  }

  /** Remapping a page that had two sharers, and dropping one reference to its old frame. */
  lemma GrewCopy(v: VM, w: VM, l: Leaf, phy: Frame)
    requires Shape(w) && RefsBut(w, v.leaves, phy) && Grew(v, w, l, phy) && phy < |w.refs|
    requires l in v.leaves && phy !in Frames(v.leaves) && w.refs[phy] == 1
    requires v.leaves[l].frame < |w.refs| && w.refs[v.leaves[l].frame] == 2
    ensures RefInv(Decremented(w, v.leaves[l].frame))
  {
    hide Extends;
    var m, m' := v.leaves, w.leaves;
    assert forall k <- m :: m[k].frame in Frames(m);
    assert Sharers(m', phy) == {l};
    forall f | f != phy
      ensures Sharers(m', f) == Sharers(m, f) - {l}
    {
    }
    assert l in Sharers(m, m[l].frame);
  }

  /** The same for a page taken from the free list: what is left to do is to drop the reference. */
  lemma CopiedOk(v: VM, w: VM, l: Leaf, phy: Frame)
    requires Shape(v) && v.free != [] && phy == v.free[0] < |v.owner| && v.owner[phy] == Unused
    requires Shape(w) && phy < |w.refs| && w.refs[phy] == 1
    requires l in v.leaves && |Sharers(v.leaves, v.leaves[l].frame)| == 2
    requires TreeInv(v) && RefInv(v) && LeavesOk(v.leaves) && TreeInv(Taken(v))
    requires TreeInv(w) && RefsBut(w, v.leaves, phy) && Grew(Taken(v), w, l, phy)
    ensures var add := v.leaves[l].frame;
            && add < |w.owner| == |w.refs| && w.owner[add] == User && w.refs[add] == 2
            && Shape(Decremented(w, add)) && RefInv(Decremented(w, add)) && phy !in Frames(v.leaves)
    ensures w.leaves == v.leaves[l := Fresh(phy)] && LeavesOk(w.leaves) && w.roots == v.roots && w.areas == v.areas
    ensures Local(v, w, l.pid)
  {
    hide TreeInv, RefInv, LeavesOk, RefsBut, Grew, Sharers, Frames, Local;
    var u := Taken(v);
    FrameCount(v, l);
    ShapeOf(u);
    NewFrame(u, phy);
    GrewCount(u, w, l, phy);
    GrewCopy(u, w, l, phy);
    GrewLeaf(u, w, l, phy);
    RemapOk(v.leaves, l, phy);
    TakenGrewLocal(v, w, l);
  }

  /** Taking a frame over changes no count. */
  lemma ReclaimRefs(v: VM, w: VM, l: Leaf)
    requires Shape(v) && Shape(w) && RefInv(v) && l in v.leaves
    requires w.leaves == v.leaves[l := Unmarked(v.leaves[l])] && w.owner == v.owner && w.refs == v.refs
    ensures RefInv(w)
  {
    forall f
      ensures Sharers(w.leaves, f) == Sharers(v.leaves, f)
    {
    }
  }

  // ----- how many pages a fork takes -----

  ghost function TablesOf(v: VM, p: Pid): set<Node> {
    set n | n in v.nodes && n.pid == p
  }

  function Twin(n: Node, c: Pid): Node { n.(pid := c) }

  /** Every table of `c` is the twin of a table of `p`. */
  ghost predicate Mirror(v: VM, p: Pid, c: Pid) {
    forall n <- v.nodes | n.pid == c :: Twin(n, p) in v.nodes
  }

  /** Every page that left the free list became a table. */
  ghost predicate PagesToTables(v: VM, w: VM) {
    |w.free| + |w.nodes| == |v.free| + |v.nodes|
  }

  /** Pages ran out while `c` was given twins of the tables of `p`, before the last one. */
  ghost predicate Starved(v: VM, w: VM, p: Pid, c: Pid) {
    && w.free == [] && PagesToTables(v, w) && Mirror(w, p, c)
    && (forall n <- v.nodes :: n in w.nodes) && (forall n <- w.nodes :: n in v.nodes || n.pid == c)
    && (exists n <- w.nodes :: n.pid == p && Twin(n, c) !in w.nodes)
  }

  lemma PagesSame(v: VM, w: VM)
    requires w.free == v.free && w.nodes == v.nodes
    ensures PagesToTables(v, w)
  {
  }

  lemma PagesTrans(u: VM, v: VM, w: VM)
    requires PagesToTables(u, v) && PagesToTables(v, w)
    ensures PagesToTables(u, w)
  {
  }

  lemma MirrorSame(v: VM, w: VM, p: Pid, c: Pid)
    requires Mirror(v, p, c) && w.nodes == v.nodes
    ensures Mirror(w, p, c)
  {
  }

  /** A process with an empty PML4 has one table. */
  lemma OnlyTop(v: VM, u: VM, p: Pid, c: Pid)
    requires TreeInv(v) && p in v.roots && c in v.roots && p != c && u.nodes == v.nodes && u.free == v.free
    requires forall j | 0 <= j < 512 :: Down(Top(c), j) !in v.nodes
    ensures Mirror(u, p, c) && |TablesOf(u, c)| == 1 && TablesOf(u, p) == TablesOf(v, p)
  {
    hide TreeInv;
    RootAt(v, p);
    RootAt(v, c);
    forall j | 0 <= j < 511
      ensures !EntryAt(v, Top(c), j).present
    {
      LinkAt(v, Top(c), j);
    }
    EmptyRoot(v, c);
    assert TablesOf(u, c) == {Top(c)};
    assert Twin(Top(c), p) == Top(p);
  }

  lemma SomeTable(v: VM, p: Pid)
    requires TreeInv(v) && p in v.roots
    ensures |TablesOf(v, p)| >= 1
  {
    hide TreeInv;
    RootAt(v, p);
    assert Top(p) in TablesOf(v, p);
  }

  lemma RootedTablesOf(v: VM, c: Pid, p: Pid)
    requires Shape(v) && v.free != [] && v.free[0] < |v.owner| && p != c
    ensures TablesOf(Rooted(Taken(v), c, v.free[0]), p) == TablesOf(v, p)
  {
  }

  /** At most `k` pages left the free list, and at most as many tables were made. */
  ghost predicate AtMost(v: VM, w: VM, k: nat) {
    |w.free| + k >= |v.free| && |w.nodes| <= |v.nodes| + k
  }

  /** A store needs a page and three tables where nothing is mapped, and a page where the frame has two
      sharers. */
  ghost function StoreNeeds(v: VM, l: Leaf): nat {
    if l !in v.leaves then 4 else if |Sharers(v.leaves, v.leaves[l].frame)| == 2 then 1 else 0
  }

  /** A store to a mapped page makes no table. */
  ghost predicate StoreSpent(v: VM, w: VM, l: Leaf) {
    if l in v.leaves then w.nodes == v.nodes else AtMost(v, w, 4)
  }

  lemma StoreSpentSame(v: VM, w: VM, l: Leaf)
    requires w.free == v.free && w.nodes == v.nodes
    ensures StoreSpent(v, w, l)
  {
  }

  lemma AtMostMore(u: VM, v: VM, w: VM, j: nat, k: nat)
    requires AtMost(u, v, j) && AtMost(v, w, k)
    ensures AtMost(u, w, j + k)
  {
  }

  lemma AtMostSame(v: VM, w: VM)
    requires w.free == v.free && w.nodes == v.nodes
    ensures AtMost(v, w, 0)
  {
  }

  /** A page may need three tables. */
  function PageCost(pages: nat): nat { 4 * pages }

  /** No more left the free list than `i` pages may need. */
  ghost predicate Spent(v: VM, w: VM, i: nat) {
    AtMost(v, w, PageCost(i))
  }

  /** There were fewer free pages than `count` pages may need. */
  ghost predicate Short(v: VM, count: nat) {
    |v.free| < PageCost(count)
  }

  lemma NoPageYet(v: VM)
    ensures Spent(v, v, 0)
  {
  }

  lemma OnePageMore(u: VM, v: VM, w: VM, i: nat)
    requires Spent(u, v, i) && AtMost(v, w, 4)
    ensures Spent(u, w, i + 1)
  {
  }

  lemma OnePageShort(u: VM, v: VM, i: nat, count: nat)
    requires Spent(u, v, i) && |v.free| < 4 && i < count
    ensures Short(u, count)
  {
  }

  lemma ShortOfMore(v: VM, i: nat, count: nat)
    requires Short(v, i) && i <= count
    ensures Short(v, count)
  {
  }

  lemma SpentSame(u: VM, v: VM, w: VM, i: nat)
    requires Spent(u, v, i) && w.free == v.free && w.nodes == v.nodes
    ensures Spent(u, w, i)
  {
  }

  lemma SpentMore(u: VM, v: VM, w: VM, j: nat, count: nat)
    requires AtMost(u, v, j) && Spent(v, w, count)
    ensures AtMost(u, w, j + PageCost(count))
  {
  }

  lemma ShortMore(u: VM, v: VM, j: nat, count: nat)
    requires AtMost(u, v, j) && Short(v, count)
    ensures |u.free| < j + PageCost(count)
  {
  }

  lemma RecordAtMost(v: VM, w: VM)
    requires |w.free| + 1 == |v.free| && w.nodes == v.nodes
    ensures AtMost(v, w, 1)
  {
  }

  lemma TooFew(u: VM, v: VM, j: nat, k: nat)
    requires AtMost(u, v, j) && |v.free| < k
    ensures |u.free| < j + k
  {
  }

  lemma RootedAtMost(v: VM, c: Pid)
    requires Shape(v) && v.free != [] && v.free[0] < |v.owner|
    ensures AtMost(v, Rooted(Taken(v), c, v.free[0]), 1)
  {
    OneTable(v, Rooted(Taken(v), c, v.free[0]), Top(c), v.free[0]);
  }

  lemma OneTable(v: VM, w: VM, d: Node, f: Frame)
    requires v.free != [] && w.free == v.free[1..] && w.nodes == v.nodes[d := f]
    ensures AtMost(v, w, 1)
  {
    assert w.nodes.Keys == v.nodes.Keys + {d};
    assert |w.nodes| == |w.nodes.Keys| && |v.nodes| == |v.nodes.Keys|;
  }

  lemma StarvedTrans(u: VM, v: VM, w: VM, p: Pid, c: Pid)
    requires MoreTables(u, v, c) && PagesToTables(u, v) && Starved(v, w, p, c)
    ensures Starved(u, w, p, c)
  {
  }

  lemma StarvedNow(v: VM, pn: Node, cn: Node, i: nat)
    requires v.free == [] && Mirror(v, pn.pid, cn.pid) && pn.level > 0 && cn == Twin(pn, cn.pid)
    requires Down(pn, i) in v.nodes && Down(cn, i) !in v.nodes
    ensures Starved(v, v, pn.pid, cn.pid)
  {
    assert Twin(Down(pn, i), cn.pid) == Down(cn, i);
  }

  lemma AttachedMirror(v: VM, w: VM, pn: Node, cn: Node, i: nat, f: Frame)
    requires Mirror(v, pn.pid, cn.pid) && pn.level > 0 && cn == Twin(pn, cn.pid) && pn.pid != cn.pid
    requires Down(pn, i) in v.nodes && Down(cn, i) !in v.nodes && v.free != [] && w.free == v.free[1..]
    requires w.nodes == v.nodes[Down(cn, i) := f]
    ensures Mirror(w, pn.pid, cn.pid) && PagesToTables(v, w)
  {
    assert Twin(Down(cn, i), pn.pid) == Down(pn, i);
    assert w.nodes.Keys == v.nodes.Keys + {Down(cn, i)};
    assert |w.nodes| == |w.nodes.Keys| && |v.nodes| == |v.nodes.Keys|;
  }

  lemma {:induction false} TwinsOf(s: set<Node>, p: Pid, c: Pid)
    requires forall n <- s :: n.pid == c
    ensures |set n | n in s :: Twin(n, p)| == |s|
  {
    if s != {} {
      var x :| x in s;
      TwinsOf(s - {x}, p, c);
      assert (set n | n in s :: Twin(n, p)) == (set n | n in s - {x} :: Twin(n, p)) + {Twin(x, p)};
      forall n <- s - {x}
        ensures Twin(n, p) != Twin(x, p)
      {
        assert n == Twin(Twin(n, p), c) && x == Twin(Twin(x, p), c);
      }
    }
  }

  lemma SubsetCount(s: set<Node>, t: set<Node>)
    requires s <= t
    ensures |s| <= |t| && (s != t ==> |s| < |t|)
  {
    assert t == s + (t - s);
    assert s != t ==> t - s != {};
  }

  lemma MirrorCount(v: VM, p: Pid, c: Pid)
    requires Mirror(v, p, c)
    ensures |TablesOf(v, c)| <= |TablesOf(v, p)|
    ensures (exists n <- v.nodes :: n.pid == p && Twin(n, c) !in v.nodes) ==> |TablesOf(v, c)| < |TablesOf(v, p)|
  {
    var s := TablesOf(v, c);
    var t := set n | n in s :: Twin(n, p);
    TwinsOf(s, p, c);
    SubsetCount(t, TablesOf(v, p));
    if m :| m in v.nodes && m.pid == p && Twin(m, c) !in v.nodes {
      forall n <- s
        ensures Twin(n, p) != m
      {
        assert Twin(Twin(n, p), c) == n;
      }
      assert m in TablesOf(v, p) && m !in t;
    }
  }

  /** Tables of other processes stay, so the pages went to `c`. */
  lemma TablesGrown(v: VM, w: VM, c: Pid)
    requires (forall n <- v.nodes :: n in w.nodes) && (forall n <- w.nodes :: n in v.nodes || n.pid == c)
    ensures |w.nodes| - |v.nodes| == |TablesOf(w, c)| - |TablesOf(v, c)|
    ensures forall p | p != c :: TablesOf(w, p) == TablesOf(v, p)
  {
    assert w.nodes.Keys - TablesOf(w, c) == v.nodes.Keys - TablesOf(v, c);
    assert |w.nodes.Keys - TablesOf(w, c)| == |w.nodes| - |TablesOf(w, c)|;
    assert |v.nodes.Keys - TablesOf(v, c)| == |v.nodes| - |TablesOf(v, c)|;
  }

  /** If pages run out, there were fewer than the tables still to make. */
  lemma StarvedMeansFew(v: VM, w: VM, p: Pid, c: Pid)
    requires Starved(v, w, p, c) && p != c
    ensures w.free == [] && |v.free| + |TablesOf(v, c)| < |TablesOf(v, p)|
  {
    TablesGrown(v, w, c);
    MirrorCount(w, p, c);
  }

  lemma ForkCost(v: VM, w: VM, p: Pid, c: Pid)
    requires MoreTables(v, w, c) && PagesToTables(v, w) && Mirror(w, p, c) && p != c
    ensures |w.free| + |TablesOf(v, p)| >= |v.free| + |TablesOf(v, c)|
  {
    TablesGrown(v, w, c);
    MirrorCount(w, p, c);
  }

  // ----- pages that may be added -----

  /** User pages that `p` does not map. */
  ghost predicate Mappable(m: LeafMap, p: Pid, vpns: seq<nat>) {
    forall x <- vpns :: IsUser(x * 4096) && Leaf(p, x) !in m
  }

  lemma NextMappable(m: LeafMap, p: Pid, vpn: nat, count: nat)
    requires count > 0 && Mappable(m, p, PagesFrom(vpn, count))
    ensures IsUser(vpn * 4096) && Leaf(p, vpn) !in m
  {
    assert PagesFrom(vpn, count)[0] == vpn;
  }

  lemma StillMappable(m: LeafMap, m': LeafMap, p: Pid, vpn: nat, count: nat)
    requires count > 0 && Mappable(m, p, PagesFrom(vpn, count)) && m'.Keys == m.Keys + {Leaf(p, vpn)}
    ensures Mappable(m', p, PagesFrom(vpn + 1, count - 1))
  {
    hide IsUser;
    forall x <- PagesFrom(vpn + 1, count - 1)
      ensures IsUser(x * 4096) && Leaf(p, x) !in m'
    {
      assert PagesFrom(vpn, count)[x - vpn] == x;
    }
  }

  lemma PageLeaf(p: Pid, vpn: nat)
    ensures LeafOf(p, vpn * 4096) == Leaf(p, vpn)
  {
  }

  lemma UserPage(a: nat)
    ensures IsUser(a / 4096 * 4096) <==> IsUser(a)
  {
  }

  lemma NoPages(p: Pid, vpn: nat)
    ensures AddsPages([], p, PagesFrom(vpn, 0)) && LeavesAt(p, PagesFrom(vpn, 0)) == {}
  {
  }

  lemma MorePages(es: seq<Event>, p: Pid, vpn: nat, i: nat, e: Event)
    requires AddsPages(es, p, PagesFrom(vpn, i)) && e.Grown? && e.leaf == Leaf(p, vpn + i)
    ensures AddsPages(es + [e], p, PagesFrom(vpn, i + 1))
    ensures LeavesAt(p, PagesFrom(vpn, i + 1)) == LeavesAt(p, PagesFrom(vpn, i)) + {Leaf(p, vpn + i)}
  {
    assert PagesFrom(vpn, i + 1) == PagesFrom(vpn, i) + [vpn + i];
    LeavesAtConcat(p, PagesFrom(vpn, i), [vpn + i]);
  }

  // ----- fewer tables and leaves -----

  /** Part of what hangs below node `n` is gone; its pages are free. */
  ghost predicate Shrunk(v: VM, v': VM, n: Node) {
    && v'.areas == v.areas && v'.roots == v.roots
    && |v'.owner| == |v.owner| && |v'.tables| == |v.tables|
    && n in v'.nodes
    && (forall m <- v'.nodes :: m in v.nodes && v'.nodes[m] == v.nodes[m])
    && (forall m <- v.nodes :: m in v'.nodes || (m.pid == n.pid && m.level < n.level))
    && (forall l <- v'.leaves :: l in v.leaves && v'.leaves[l] == v.leaves[l])
    && (forall l <- v.leaves :: l in v'.leaves || l.pid == n.pid)
    && (forall f | 0 <= f < |v.owner| ::
          v'.owner[f] == v.owner[f] || (v'.owner[f] == Unused && (v.owner[f].TableOf? || v.owner[f].User?)))
    && (forall m <- v'.nodes | m.level > n.level ::
          v'.nodes[m] < |v'.tables| && v'.tables[v'.nodes[m]] == v.tables[v'.nodes[m]])
  }

  lemma ShrunkSelf(v: VM, n: Node)
    requires TreeInv(v) && n in v.nodes
    ensures Shrunk(v, v, n)
  {
  }

  lemma ShrunkTrans(u: VM, v: VM, w: VM, n: Node)
    requires Shrunk(u, v, n) && Shrunk(v, w, n)
    ensures Shrunk(u, w, n)
  {
  }

  lemma DroppedShrunk(v: VM, l: Leaf)
    requires Shape(v) && NodesOk(v) && l in v.leaves && Home(l) in v.nodes
    requires v.leaves[l].frame < |v.owner| && v.owner[v.leaves[l].frame] == User
    ensures Shrunk(v, Dropped(v, l), Home(l))
  {
    hide NodesOk;
    UpperTables(v, Home(l));
    TableOwners(v, Home(l), Home(l));
    var w := Dropped(v, l);
    assert w.nodes == v.nodes && w.leaves == v.leaves - {l};
  }

  lemma UpperTables(v: VM, n: Node)
    requires NodesOk(v) && n in v.nodes
    ensures forall m <- v.nodes | m.level > n.level :: v.nodes[m] != v.nodes[n] && v.nodes[m] < |v.owner|
  {
  }

  /** One table `d` below `n` goes, and the table of `n` may be written. */
  lemma TableGone(v: VM, w: VM, n: Node, d: Node, t: Table)
    requires NodesOk(v) && n in v.nodes && d in v.nodes && d.pid == n.pid && d.level < n.level
    requires w.areas == v.areas && w.roots == v.roots && w.leaves == v.leaves && |v.tables| == |v.owner|
    requires w.nodes == v.nodes - {d}
    requires w.owner == v.owner[v.nodes[d] := Unused] && w.tables == v.tables[v.nodes[n] := t]
    ensures Shrunk(v, w, n)
  {
    hide NodesOk;
    UpperTables(v, n);
    TableOwners(v, n, d);
  }

  lemma TableOwners(v: VM, n: Node, d: Node)
    requires NodesOk(v) && n in v.nodes && d in v.nodes
    ensures v.nodes[n] < |v.owner| && v.nodes[d] < |v.owner| && v.owner[v.nodes[d]] == TableOf(d)
  {
  }

  lemma UnlinkedShrunk(v: VM, n: Node, i: nat)
    requires Shape(v) && NodesOk(v) && n in v.nodes && n.level > 1 && i < 512 && Down(n, i) in v.nodes
    ensures Shrunk(v, Returned(Unlinked(v, n, i), v.nodes[Down(n, i)]), n)
  {
    hide Shrunk;
    var d := Down(n, i);
    var w := Returned(Unlinked(v, n, i), v.nodes[d]);
    assert w.owner == v.owner[v.nodes[d] := Unused];
    TableGone(v, w, n, d, v.tables[v.nodes[n]][i := ZERO]);
  }

  lemma FreedTableOk(v: VM, n: Node, i: nat)
    requires TreeInv(v) && RefInv(v) && n in v.nodes && n.level > 1 && UserSlot(n, i) && Down(n, i) in v.nodes
    requires At(v, n) && At(v, Down(n, i)) && forall j | 0 <= j < 512 :: !EntryAt(v, Down(n, i), j).present
    ensures var w := Returned(Unlinked(v, n, i), v.nodes[Down(n, i)]);
            TreeInv(w) && RefInv(w) && Shrunk(v, w, n)
  {
    hide TreeInv, RefInv, Shrunk;
    LinkAt(v, n, i);
    LinkAt(v, Down(n, i), 0);
    UnlinkedOk(v, n, i);
    ReturnedOk(Unlinked(v, n, i), v.nodes[Down(n, i)]);
    NodesOf(v);
    UnlinkedShrunk(v, n, i);
  }

  lemma DroppedGoes(v: VM, l: Leaf)
    requires TreeInv(v) && l in v.leaves
    ensures Shrunk(v, Dropped(v, l), Home(l))
  {
    DroppedShrunk(v, l);
  }

  lemma NodesOf(v: VM)
    requires TreeInv(v)
    ensures Shape(v) && NodesOk(v)
  {
  }

  lemma CountOf(v: VM, n: Node)
    requires TreeInv(v) && RefInv(v) && n in v.nodes
    ensures v.nodes[n] < |v.refs| == |v.owner| && v.refs[v.nodes[n]] == 1
  {
  }

  /** Emptying a child leaves the parent's table as it was. */
  lemma ShrunkAbove(v: VM, w: VM, n: Node, i: nat)
    requires TreeInv(v) && n in v.nodes && n.level > 1 && i < 512 && Shrunk(v, w, Down(n, i))
    ensures Shrunk(v, w, n) && n in w.nodes && w.nodes[n] == v.nodes[n] && Down(n, i) in w.nodes
    ensures w.nodes[n] < |w.tables| == |v.tables| && w.tables[w.nodes[n]] == v.tables[v.nodes[n]]
  {
  }

  // ----- effects on one process -----

  lemma LeafBounds(v: VM)
    requires TreeInv(v)
    ensures forall l <- v.leaves :: l.vpn < Before(3, 511)
  {
    hide TreeInv;
    forall l <- v.leaves
      ensures l.vpn < Before(3, 511)
    {
      LeafBound(v, l);
    }
  }

  /** A process without a PML4 has no tables, no leaves and no VMA list. */
  lemma NoProcess(v: VM, c: Pid)
    requires TreeInv(v) && c !in v.roots
    ensures Absent(v.leaves, c) && c !in v.areas && forall n <- v.nodes :: n.pid != c
  {
  }

  /** Only the tables, VMA records and leaves of process `p` are different; the kernel holds the
      same pages. */
  ghost predicate Local(v: VM, v': VM, p: Pid) {
    && |v'.owner| == |v.owner|
    && (forall q | q != p :: q in v.roots <==> q in v'.roots)
    && (forall q | q != p :: q in v.areas <==> q in v'.areas)
    && (forall q <- v.areas | q != p :: v'.areas[q] == v.areas[q])
    && (forall n: Node | n.pid != p :: n in v.nodes <==> n in v'.nodes)
    && (forall f | 0 <= f < |v.owner| :: v.owner[f] == Kernel <==> v'.owner[f] == Kernel)
  }

  lemma LocalTrans(u: VM, v: VM, w: VM, p: Pid)
    requires Local(u, v, p) && Local(v, w, p)
    ensures Local(u, w, p)
  {
  }

  lemma MoreIsLocal(v: VM, w: VM, p: Pid)
    requires MoreTables(v, w, p)
    ensures Local(v, w, p)
  {
  }

  /** A free page is taken and mapped. */
  lemma TakenGrewLocal(v: VM, w: VM, l: Leaf)
    requires TreeInv(v) && v.free != [] && v.free[0] < |v.owner|
    requires TreeInv(w) && Grew(Taken(v), w, l, v.free[0])
    ensures Local(v, w, l.pid)
  {
    hide NodesOk, LinksOk, LeafTablesOk, RootsOk, AreasOk;
    var phy := v.free[0];
    assert phy in v.free;
    var w' := w.(leaves := v.leaves, owner := w.owner[phy := Kernel]);
    forall f | 0 <= f < |v.owner|
      ensures v.owner[f] == Kernel <==> w.owner[f] == Kernel
    {
      assert f != phy ==> w'.owner[f] == w.owner[f];
    }
  }

  lemma RootedIsLocal(v: VM, c: Pid)
    requires Shape(v) && v.free != [] && v.free[0] < |v.owner| && v.owner[v.free[0]] == Unused && c !in v.roots
    ensures Local(v, Rooted(Taken(v), c, v.free[0]), c)
  {
  }

  lemma AreaAddedIsLocal(v: VM, c: Pid, a: Area, s: seq<Area>)
    requires Shape(v) && v.free != [] && v.free[0] < |v.owner| && v.owner[v.free[0]] == Unused
    requires c in v.areas && a.frame == v.free[0]
    ensures Local(v, AreaAdded(Taken(v), c, a, s), c)
  {
  }

  /** The VMA lists have no bearing on the tables. */
  lemma ListedTables(v: VM, c: Pid, s: seq<Area>)
    requires Shape(v) && NodesOk(v) && LinksOk(v) && LeafTablesOk(v)
    ensures var w := Listed(v, c, s); Shape(w) && NodesOk(w) && LinksOk(w) && LeafTablesOk(w)
  {
    SameTables(v, Listed(v, c, s));
  }

  lemma ListedRefs(v: VM, c: Pid, s: seq<Area>)
    requires Shape(v) && RefInv(v)
    ensures RefInv(Listed(v, c, s))
  {
  }

  lemma ListedAreas(v: VM, c: Pid)
    requires AreasOk(v) && c in v.roots && c !in v.areas
    ensures AreasOk(Listed(v, c, [])) && Local(v, Listed(v, c, []), c)
  {
  }

  lemma EndMovedAreas(v: VM, p: Pid, end: nat)
    requires AreasOk(v) && p in v.areas && |v.areas[p]| >= 2
    ensures var w := Listed(v, p, SetEnd(v.areas[p], end)); AreasOk(w) && Local(v, w, p)
  {
    hide AreasOk;
    RelistedAreas(v, p, SetEnd(v.areas[p], end));
  }

  lemma EndMovedOk(v: VM, p: Pid, end: nat)
    requires TreeInv(v) && RefInv(v) && p in v.areas && |v.areas[p]| >= 2
    ensures var w := Listed(v, p, SetEnd(v.areas[p], end)); TreeInv(w) && RefInv(w) && Local(v, w, p)
  {
    hide LinksOk, LeafTablesOk, NodesOk, AreasOk, RefInv, Local;
    var s := SetEnd(v.areas[p], end);
    ListedTables(v, p, s);
    ListedRefs(v, p, s);
    EndMovedAreas(v, p, end);
  }

  lemma EmptyListOk(v: VM, c: Pid)
    requires TreeInv(v) && RefInv(v) && c in v.roots && c !in v.areas
    ensures var w := Listed(v, c, []); TreeInv(w) && RefInv(w) && Local(v, w, c)
  {
    hide LinksOk, LeafTablesOk, NodesOk, AreasOk, RefInv, Local;
    ListedTables(v, c, []);
    ListedRefs(v, c, []);
    ListedAreas(v, c);
  }

  lemma ShrunkIsLocal(v: VM, w: VM, n: Node)
    requires Shrunk(v, w, n)
    ensures Local(v, w, n.pid)
  {
  }

  lemma LocalSelf(v: VM, p: Pid)
    ensures Local(v, v, p)
  {
  }

  /** Emptying the PML4 of `p` removes exactly the leaves of `p`. */
  lemma ShrunkDrops(v: VM, w: VM, p: Pid)
    requires Shrunk(v, w, Top(p)) && TreeInv(w) && p in w.roots
    requires At(w, Top(p)) && forall j | 0 <= j < 511 :: !EntryAt(w, Top(p), j).present
    ensures w.leaves == Drop(v.leaves, p)
  {
    hide TreeInv;
    EmptyRoot(w, p);
  }

  lemma AreaFreedOk(v: VM, p: Pid)
    requires TreeInv(v) && RefInv(v) && p in v.areas && v.areas[p] != []
    ensures var f := v.areas[p][0].frame;
            f < |v.owner| == |v.refs| && v.owner[f] == AreaOf(p) && v.refs[f] == 1
    ensures var w := Returned(AreaRemoved(v, p), v.areas[p][0].frame);
            TreeInv(w) && RefInv(w) && Local(v, w, p)
  {
    hide LinksOk, LeafTablesOk, RootsOk, FreeOk, NodesOk;
    AreaRemovedOk(v, p);
    ReturnedOk(AreaRemoved(v, p), v.areas[p][0].frame);
  }

  lemma UnlistedOk(v: VM, p: Pid)
    requires TreeInv(v) && RefInv(v) && p in v.areas && v.areas[p] == []
    ensures var w := v.(areas := v.areas - {p}); TreeInv(w) && RefInv(w) && Local(v, w, p)
  {
    hide LinksOk, LeafTablesOk, NodesOk, AreasOk, RefInv;
    var w := v.(areas := v.areas - {p});
    UnlistedTables(v, w);
    UnlistedAreas(v, p);
  }

  lemma UnlistedTables(v: VM, w: VM)
    requires Shape(v) && NodesOk(v) && LinksOk(v) && LeafTablesOk(v) && RefInv(v) && w == v.(areas := w.areas)
    ensures Shape(w) && NodesOk(w) && LinksOk(w) && LeafTablesOk(w) && RefInv(w)
  {
    SameTables(v, w);
  }

  lemma UnlistedAreas(v: VM, p: Pid)
    requires AreasOk(v) && p in v.areas && v.areas[p] == []
    ensures AreasOk(v.(areas := v.areas - {p}))
  {
    assert Pages([]) == {};
  }

  lemma FreedRootOk(v: VM, p: Pid)
    requires TreeInv(v) && RefInv(v) && p in v.roots && p !in v.areas && At(v, Top(p))
    requires forall j | 0 <= j < 511 :: !EntryAt(v, Top(p), j).present
    ensures v.nodes[Top(p)] == v.roots[p] < |v.owner| == |v.refs| && v.refs[v.roots[p]] == 1
    ensures var w := Returned(Uprooted(v, p), v.nodes[Top(p)]);
            TreeInv(w) && RefInv(w) && Local(v, w, p)
  {
    hide TreeInv, RefInv, Local;
    RootAt(v, p);
    CountOf(v, Top(p));
    UprootedOk(v, p);
    ReturnedOk(Uprooted(v, p), v.nodes[Top(p)]);
    UprootedLocal(v, p);
  }

  lemma UprootedLocal(v: VM, p: Pid)
    requires At(v, Top(p)) && v.nodes[Top(p)] < |v.owner| && v.owner[v.nodes[Top(p)]].TableOf?
    ensures Local(v, Returned(Uprooted(v, p), v.nodes[Top(p)]), p)
  {
  }
}
