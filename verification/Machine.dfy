/**
 Physical memory with the page tables of all processes in it, and the kernel routines that
 change them in place: page-table extension, copy-on-write fork, the page-fault handler, heap
 growth and teardown.
 */
module Machine {
  import opened Wrappers
  import opened PagePool
  import opened FlatCow
  import opened PageTree
  import opened PageWalk
  import opened PageShare
  import opened MemorySpec
  import opened Translation
  import opened ProgramImage
  import opened Conservation

  /** How a page fault or a user store ends: the access goes through, the process is killed, or
      the kernel halts. */
  datatype Outcome = Done | SegFault | OutOfMemory | TooManySharers

  /** What must become of a store by `p` to `a`, comparison by comparison.  An unmapped page is added
      between the two ends of the stack area and nowhere else.  A page that is read-only since a fork
      can be written strictly inside any area and in the first page of the stack. */
  ghost predicate Judged(v: VM, p: Pid, a: nat, o: Outcome) {
    && p in v.areas && v.areas[p] != []
    && var list, l := v.areas[p], LeafOf(p, a);
       if l !in v.leaves then
         if list[0].end < a < list[0].start then o == Done || (o == OutOfMemory && |v.free| < 4) else o == SegFault
       else if v.leaves[l].writable then o == Done
       else if (exists k | 0 <= k < |list| :: list[k].start < a < list[k].end) ||
               list[0].end < a < list[0].start + 4096 then
         var sharers := |Sharers(v.leaves, v.leaves[l].frame)|;
         if sharers == 1 then o == Done
         else if sharers == 2 then o == Done || (o == OutOfMemory && v.free == [])
         else o == TooManySharers
       else o == SegFault
  }

  lemma JudgedOk(v: VM, p: Pid, a: nat, o: Outcome)
    requires p in v.areas && v.areas[p] != []
    requires o == SegFault <==> Refused(v.leaves, LeafOf(p, a)) && NoAccess(v.leaves, v.areas[p], p, a)
    requires o == TooManySharers <==>
             Refused(v.leaves, LeafOf(p, a)) && InBounds(v.areas[p], a) && Crowded(v.leaves, LeafOf(p, a))
    requires o == OutOfMemory ==> Refused(v.leaves, LeafOf(p, a)) && |v.free| < StoreNeeds(v, LeafOf(p, a))
    ensures Judged(v, p, a, o)
  {
    var l := LeafOf(p, a);
    if l in v.leaves { assert l in Sharers(v.leaves, v.leaves[l].frame); }
  }

  class Memory {
    const pool: Pool
    /** The frame of the kernel's page-directory-pointer table, shared by all processes. */
    const kernelHalf: Frame
    /** Each frame read as a table of 512 entries, and as a page of 4096 bytes. */
    var tables: seq<Table>
    var bytes: seq<Page>
    /** Fields `pml4e` and `vm` of each process. */
    var roots: map<Pid, Frame>
    var areas: map<Pid, seq<Area>>
    /** Where each table lies, the flat map the tables stand for, and the owner of each page. */
    ghost var nodes: map<Node, Frame>
    ghost var leaves: LeafMap
    ghost var owner: seq<Owner>

    ghost function V(): VM
      reads this, pool, pool.list
    {
      VM(pool.order, pool.Refs(), tables, roots, areas, nodes, leaves, owner)
    }

    ghost function Contents(): Flat
      reads this
    {
      Flat(leaves, bytes)
    }

    ghost predicate Booted()
      reads this, pool, pool.list
    {
      && pool.Valid()
      && |tables| == |bytes| == |owner| == pool.list.Length
      && (forall f | 0 <= f < |bytes| :: |bytes[f]| == 4096)
      && (forall f | 0 <= f < |owner| && owner[f] != Kernel :: pool.Managed(f))
    }

    ghost predicate Sound()
      reads this, pool, pool.list
    {
      Booted() && TreeInv(V()) && RefInv(V())
    }

    /** The invariant of every reachable state. */
    ghost predicate Valid()
      reads this, pool, pool.list
    {
      Sound() && LeavesOk(leaves)
    }

    /** Memory after boot, with arbitrary contents and no user process yet; the free pages are whole
        pages of memory. */
    constructor (pool: Pool, kernelHalf: Frame, tables: seq<Table>, bytes: seq<Page>)
      requires pool.Valid() && |tables| == |bytes| == pool.list.Length
      requires forall f | 0 <= f < |tables| && pool.list[f].free :: pool.Managed(f)
      requires forall f | 0 <= f < |tables| :: |tables[f]| == 512 && |bytes[f]| == 4096
      ensures Valid() && this.pool == pool && this.kernelHalf == kernelHalf
      ensures this.tables == tables && this.bytes == bytes
      ensures roots == map[] && areas == map[] && leaves == map[]
    {
      this.pool, this.kernelHalf, this.tables, this.bytes := pool, kernelHalf, tables, bytes;
      roots, areas, nodes, leaves := map[], map[], map[], map[];
      owner := seq(pool.list.Length, f requires 0 <= f < pool.list.Length reads pool.list =>
                     if pool.list[f].free then Unused else Kernel);
    }

    // ----- pages -----

    /** `allocate_page`, and `allocate_page_for_process` with the direct map in place. */
    method Take() returns (r: Option<Frame>)
      requires Sound()
      modifies pool, pool.list, this`owner
      ensures Sound()
      ensures r.None? ==> V() == old(V()) && pool.order == []
      ensures r.Some? ==>
                && old(pool.order) != [] && r.value == old(pool.order)[0] < |old(owner)|
                && old(owner)[r.value] == Unused
                && V() == Taken(old(V()))
                && pool.Managed(r.value)
      ensures forall f :: old(pool.Managed(f)) ==> pool.Managed(f)
    {
      hide TreeInv, RefInv, Pool.Valid;
      ghost var v := V();
      ShapeOf(v);
      var a := pool.Allocate();
      if a.None? {
        assert pool.Refs() == v.refs;
        return None;
      }
      var f := a.value / 4096;
      owner := owner[f := Kernel];
      TakenOk(v);
      return Some(f);
    }

    // ----- page-table extension -----

    /** Puts a cleared table below entry `i` of the table in `f`. */
    method Attach(f: Frame, i: nat, ghost n: Node) returns (r: Option<Frame>)
      requires Sound() && n in nodes && nodes[n] == f && n.level > 1 && UserSlot(n, i)
      requires Down(n, i) !in nodes
      modifies pool, pool.list, this`owner, this`tables, this`nodes
      ensures forall g :: old(pool.Managed(g)) ==> pool.Managed(g)
      ensures r.None? ==> Sound() && V() == old(V()) && pool.order == []
      ensures r.Some? ==>
                && Sound() && Extends(old(V()), V(), n.pid) && HalvesKept(old(V()), V())
                && old(pool.order) != [] && pool.order == old(pool.order)[1..]
                && nodes == old(nodes)[Down(n, i) := r.value]
                && r.value < |tables| && tables[r.value] == ZeroTable()
    {
      hide TreeInv, RefInv, Pool.Valid, Pool.Managed, Extends, HalvesKept;
      ghost var v := V();
      var a := Take();
      if a.None? {
        return None;
      }
      var g := a.value;
      ghost var u := V();
      LinkAt(v, n, i);
      LinkAt(u, n, i);
      tables := tables[f := tables[f][i := Fresh(g)]];
      tables := tables[g := ZeroTable()];
      nodes := nodes[Down(n, i) := g];
      owner := owner[g := TableOf(Down(n, i))];
      LinkedOk(u, n, i, g);
      AttachExtends(v, n, i);
      HalvesSame(v, u);
      LinkedHalves(u, n, i, g);
      HalvesTrans(v, u, V());
      return Some(g);
    }

    /** Follows entry `i` of the table in `f`, attaching a table there if there is none.  A table
        just attached has no present entry, so below it this always attaches. */
    method Descend(f: Frame, i: nat, ghost n: Node) returns (r: Option<Frame>)
      requires Sound() && n in nodes && nodes[n] == f && n.level > 1 && UserSlot(n, i)
      modifies pool, pool.list, this`owner, this`tables, this`nodes
      ensures forall g :: old(pool.Managed(g)) ==> pool.Managed(g)
      ensures r.None? ==> old(pool.order) == [] == pool.order
      ensures r.Some? ==>
                && Sound() && Extends(old(V()), V(), n.pid) && HalvesKept(old(V()), V())
                && Down(n, i) in nodes && nodes[Down(n, i)] == r.value
                && AtMost(old(V()), V(), 1)
      ensures Down(n, i) in old(nodes) ==> r.Some? && nodes == old(nodes)
    {
      hide TreeInv, RefInv, Pool.Valid, Pool.Managed, Extends, HalvesKept;
      LinkAt(V(), n, i);
      if tables[f][i].present {
        HalvesSame(V(), V());
        ExtendsSelf(V(), n.pid);
        return Some(tables[f][i].frame);
      }
      ghost var v := V();
      r := Attach(f, i, n);
      if r.Some? {
        OneTable(v, V(), Down(n, i), r.value);
      }
    }

    /** `init_pages_for_process`: maps the page at `a` of process `p` to the frame `phy`. */
    method InitPages(p: Pid, a: nat, phy: Frame) returns (ok: bool)
      requires Sound() && p in roots && IsUser(a)
      requires phy < |owner| && owner[phy] == Kernel && pool.Managed(phy)
      modifies pool, pool.list, this`owner, this`tables, this`nodes, this`leaves
      ensures forall g :: old(pool.Managed(g)) ==> pool.Managed(g)
      ensures !ok ==> pool.order == [] && |old(pool.order)| < 3
      ensures ok ==> AtMost(old(V()), V(), 3)
      ensures ok ==>
                && Booted() && TreeInv(V()) && RefsBut(V(), old(leaves), phy)
                && Grew(old(V()), V(), LeafOf(p, a), phy)
                && V().refs[phy] == old(V()).refs[phy]
                && HalfSet(old(V()), V(), p, Fresh(kernelHalf))
                && PageSet(old(V()), V(), p, a, phy)
      ensures OnPath(p, a, 1) in old(nodes) ==> ok && nodes == old(nodes)
    {
      hide AtMost, TreeInv, RefInv, Pool.Valid, Pool.Managed, Extends, Grew, RefsBut, HalvesKept, HalfSet, PageSet;
      ghost var v := V();
      RootAt(v, p);
      var root := roots[p];
      tables := tables[root := tables[root][511 := Fresh(kernelHalf)]];
      KernelSlotExtends(v, p, Fresh(kernelHalf));
      KernelSlotHalf(v, p, Fresh(kernelHalf));
      ghost var v4 := V();
      var p1 := FindTable(p, a);
      if p1.None? {
        return false;
      }
      ghost var v1 := V();
      ExtendsTrans(v, v4, v1, p);
      SetLeaf(p, a, p1.value, phy, v);
      AtMostSame(v, v4);
      AtMostMore(v, v4, v1, 0, 3);
      AtMostSame(v1, V());
      AtMostMore(v, v1, V(), 3, 0);
      HalvesTrans(v4, v1, V());
      HalfSetKept(v, v4, V(), p, Fresh(kernelHalf));
      InitPagesIsUpdate(v, V(), p, a, phy);
      return true;
    }

    /** The three descents of `init_pages_for_process`, to the lowest table on the path of `a`. */
    method FindTable(p: Pid, a: nat) returns (p1: Option<Frame>)
      requires Sound() && p in roots && IsUser(a)
      modifies pool, pool.list, this`owner, this`tables, this`nodes
      ensures forall g :: old(pool.Managed(g)) ==> pool.Managed(g)
      ensures p1.None? ==> pool.order == [] && |old(pool.order)| < 3
      ensures p1.Some? ==>
                && Sound() && Extends(old(V()), V(), p) && HalvesKept(old(V()), V()) && AtMost(old(V()), V(), 3)
                && OnPath(p, a, 1) in nodes && nodes[OnPath(p, a, 1)] == p1.value
      ensures OnPath(p, a, 1) in old(nodes) ==> p1.Some? && nodes == old(nodes)
    {
      hide AtMost, TreeInv, RefInv, Pool.Valid, Pool.Managed, Extends, HalvesKept;
      ghost var v4 := V();
      RootAt(v4, p);
      if OnPath(p, a, 1) in nodes { PathsUp(v4, p, a); }
      PathDown(p, a, 4);
      var p3 := Descend(roots[p], Index(a, 4), Top(p));
      if p3.None? {
        return None;
      }
      ghost var v3 := V();
      PathDown(p, a, 3);
      var p2 := Descend(p3.value, Index(a, 3), OnPath(p, a, 3));
      if p2.None? {
        TooFew(v4, v3, 1, 1);
        return None;
      }
      ghost var v2 := V();
      PathDown(p, a, 2);
      p1 := Descend(p2.value, Index(a, 2), OnPath(p, a, 2));
      AtMostMore(v4, v3, v2, 1, 1);
      if p1.None? {
        TooFew(v4, v2, 2, 1);
        return;
      }
      AtMostMore(v4, v2, V(), 2, 1);
      ExtendsTrans(v4, v3, v2, p);
      ExtendsTrans(v4, v2, V(), p);
      HalvesTrans(v4, v3, v2);
      HalvesTrans(v4, v2, V());
    }

    /** The last step of `init_pages_for_process`: the leaf entry is written. */
    method SetLeaf(p: Pid, a: nat, pt: Frame, phy: Frame, ghost v: VM)
      requires Sound() && Extends(v, V(), p) && OnPath(p, a, 1) in nodes && nodes[OnPath(p, a, 1)] == pt
      requires phy < |v.owner| && v.owner[phy] == Kernel && pool.Managed(phy)
      modifies this`owner, this`tables, this`leaves
      ensures Booted() && TreeInv(V()) && RefsBut(V(), v.leaves, phy) && Grew(v, V(), LeafOf(p, a), phy)
      ensures |V().refs| == |v.refs| && V().refs[phy] == v.refs[phy]
      ensures HalvesKept(old(V()), V())
    {
      hide TreeInv, RefInv, Pool.Valid, Pool.Managed, MoreTables, Grew, RefsBut, HalvesKept;
      ghost var u, l := V(), LeafOf(p, a);
      PathLeaf(p, a);
      LinkAt(u, Home(l), Index(a, 1));
      MappedGrew(v, u, l, phy);
      tables := tables[pt := tables[pt][Index(a, 1) := Fresh(phy)]];
      leaves := leaves[l := Fresh(phy)];
      owner := owner[phy := User];
      LowerWrites(u, V(), Home(l), Home(l));
    }

    /** `getPTE`: the lowest table on the path of `a`; every table above it has to exist. */
    method GetPte(p: Pid, a: nat) returns (f: Frame)
      requires Sound() && IsUser(a) && OnPath(p, a, 1) in nodes && p in roots
      ensures f == nodes[OnPath(p, a, 1)]
    {
      hide TreeInv, RefInv, Pool.Valid, Pool.Managed;
      ghost var v := V();
      PathsUp(v, p, a);
      RootAt(v, p);
      LinkAt(v, Top(p), Index(a, 4));
      PathDown(p, a, 4);
      var p3 := tables[roots[p]][Index(a, 4)].frame;
      LinkAt(v, OnPath(p, a, 3), Index(a, 3));
      PathDown(p, a, 3);
      var p2 := tables[p3][Index(a, 3)].frame;
      LinkAt(v, OnPath(p, a, 2), Index(a, 2));
      PathDown(p, a, 2);
      f := tables[p2][Index(a, 2)].frame;
    }

    // ----- fork -----

    /** A cleared PML4 for process `c`. */
    method NewRoot(c: Pid) returns (r: Option<Frame>)
      requires Sound() && c !in roots
      modifies pool, pool.list, this`owner, this`tables, this`nodes, this`roots
      ensures r.None? ==> old(pool.order) == [] == pool.order
      ensures r.Some? ==>
                && old(pool.order) != [] && r.value == old(pool.order)[0] < |old(owner)|
                && old(owner)[r.value] == Unused
                && Sound() && V() == Rooted(Taken(old(V())), c, r.value)
    {
      hide TreeInv, RefInv, Pool.Valid, Pool.Managed;
      var a := Take();
      if a.None? {
        return None;
      }
      var f := a.value;
      ghost var u := V();
      ShapeOf(u);
      tables := tables[f := ZeroTable()];
      nodes := nodes[Top(c) := f];
      roots := roots[c := f];
      owner := owner[f := TableOf(Top(c))];
      RootedOk(u, c, f);
      return Some(f);
    }

    /** One present leaf of `copytables`: count the frame, then mark the parent's entry read-only
        and copy-on-write and give the child the same entry. */
    method ShareEntry(pt: Frame, ct: Frame, l: nat, ghost pn: Node, ghost cn: Node)
      requires Sound() && pn in nodes && cn in nodes && nodes[pn] == pt && nodes[cn] == ct && l < 512
      requires pn.level == cn.level == 1 && pn.pid != cn.pid
      requires LeafAt(pn, l) in leaves && LeafAt(cn, l) !in leaves
      modifies pool.list, this`tables, this`leaves
      ensures Sound() && HalvesKept(old(V()), V())
      ensures var e := CowMarked(old(leaves)[LeafAt(pn, l)]);
              leaves == old(leaves)[LeafAt(pn, l) := e][LeafAt(cn, l) := e]
      ensures forall g :: old(pool.Managed(g)) ==> pool.Managed(g)
    {
      hide TreeInv, RefInv, Pool.Valid, HalvesKept;
      ghost var v := V();
      LeafEntryAt(v, pn, l);
      LeafEntryAt(v, cn, l);
      TwoTables(v, pn, cn);
      var f := tables[pt][l].frame;
      ghost var e := CowMarked(leaves[LeafAt(pn, l)]);
      pool.IncRefCount(f * 4096);
      tables := tables[pt := tables[pt][l := CowMarked(tables[pt][l])]];
      tables := tables[ct := tables[ct][l := tables[pt][l]]];
      leaves := leaves[LeafAt(pn, l) := e][LeafAt(cn, l) := e];
      SharedEntryOk(v, V(), LeafAt(pn, l), LeafAt(cn, l));
      LowerWrites(v, V(), pn, cn);
    }

    /** The innermost loop of `copytables`: shares every page mapped by one lowest table. */
    method CopyLeaves(pt: Frame, ct: Frame, ghost pn: Node, ghost cn: Node, ghost m: LeafMap)
      requires Sound() && pn in nodes && cn in nodes && nodes[pn] == pt && nodes[cn] == ct
      requires pn.level == cn.level == 1 && pn.prefix == cn.prefix && pn.pid != cn.pid
      requires Absent(m, cn.pid) && leaves == ShareBelow(m, pn.pid, cn.pid, Before(1, pn.prefix))
      modifies pool.list, this`tables, this`leaves
      ensures Sound() && HalvesKept(old(V()), V())
      ensures leaves == ShareBelow(m, pn.pid, cn.pid, Before(1, pn.prefix + 1))
      ensures forall g :: old(pool.Managed(g)) ==> pool.Managed(g)
    {
      hide TreeInv, RefInv, Pool.Valid, Pool.Managed, ShareBelow, Absent, HalvesKept;
      ghost var p, c := pn.pid, cn.pid;
      ghost var v0 := V();
      TwoTables(v0, pn, cn);
      HalvesSame(v0, v0);
      for l := 0 to 512
        invariant Sound() && HalvesKept(v0, V())
        invariant leaves == ShareBelow(m, p, c, pn.prefix * 512 + l)
        invariant forall g :: old(pool.Managed(g)) ==> pool.Managed(g)
      {
        ghost var vpn := pn.prefix * 512 + l;
        ghost var v := V();
        LeafEntryAt(v, pn, l);
        LeafEntryAt(v, cn, l);
        ShareKeys(m, p, c, vpn, vpn);
        if tables[pt][l].present {
          ShareEntry(pt, ct, l, pn, cn);
          HalvesTrans(v0, v, V());
          ShareStep(m, p, c, vpn);
        } else {
          SharePassed(m, p, c, vpn);
        }
      }
    }

    /** The three outer loops of `copytables`, one call for each level: gives the child a table for
        every table of the parent below `pn`, in address order. */
    method CopyTable(level: nat, pt: Frame, ct: Frame, ghost pn: Node, ghost cn: Node, ghost m: LeafMap)
      returns (ok: bool)
      requires Sound() && pn in nodes && cn in nodes && nodes[pn] == pt && nodes[cn] == ct
      requires pn.level == cn.level == level > 1 && pn.prefix == cn.prefix && pn.pid != cn.pid
      requires forall j | 0 <= j < 512 :: Down(cn, j) !in nodes
      requires Absent(m, cn.pid) && Mirror(V(), pn.pid, cn.pid)
      requires leaves == ShareBelow(m, pn.pid, cn.pid, Before(level - 1, pn.prefix * 512))
      modifies pool, pool.list, this`owner, this`tables, this`nodes, this`leaves
      ensures !ok ==> Starved(old(V()), V(), pn.pid, cn.pid)
      ensures ok ==> PagesToTables(old(V()), V()) && Mirror(V(), pn.pid, cn.pid)
      ensures ok ==>
                && Sound() && MoreTables(old(V()), V(), cn.pid) && HalvesKept(old(V()), V())
                && (forall n <- nodes :: n in old(nodes) || n.level < level)
                && leaves == ShareBelow(m, pn.pid, cn.pid,
                                        Before(level - 1, pn.prefix * 512 + if level == 4 then 511 else 512))
      decreases level
    {
      hide TreeInv, RefInv, Pool.Valid, Pool.Managed, ShareBelow, Absent, Extends, MoreTables, Before, HalvesKept,
        Mirror, PagesToTables, Starved;
      ghost var p, c := pn.pid, cn.pid;
      ghost var v0 := V();
      SameMore(v0, v0, c);
      HalvesSame(v0, v0);
      PagesSame(v0, v0);
      LinkAt(v0, pn, 0);
      for i := 0 to if level == 4 then 511 else 512
        invariant Sound() && MoreTables(v0, V(), c) && HalvesKept(v0, V())
        invariant PagesToTables(v0, V()) && Mirror(V(), p, c)
        invariant pn in nodes && cn in nodes && nodes[pn] == pt && nodes[cn] == ct
        invariant forall n <- nodes :: n in old(nodes) || n.level < level
        invariant forall j | i <= j < 512 :: Down(cn, j) !in nodes
        invariant leaves == ShareBelow(m, p, c, Before(level - 1, pn.prefix * 512 + i))
      {
        ghost var v := V();
        LinkAt(v, pn, i);
        if tables[pt][i].present {
          ok := CopyBelow(level, pt, ct, i, pn, cn, m);
          if !ok {
            StarvedTrans(v0, v, V(), p, c);
            return;
          }
          PagesTrans(v0, v, V());
          MoreTablesTrans(v0, v, V(), c);
          HalvesTrans(v0, v, V());
          MoreTablesKeeps(v, V(), c, pn);
          MoreTablesKeeps(v, V(), c, cn);
        } else {
          AbsentBelow(v, m, pn, c, i);
        }
      }
      return true;
    }

    /** One present entry of an outer loop of `copytables`. */
    method CopyBelow(level: nat, pt: Frame, ct: Frame, i: nat, ghost pn: Node, ghost cn: Node, ghost m: LeafMap)
      returns (ok: bool)
      requires Sound() && pn in nodes && cn in nodes && nodes[pn] == pt && nodes[cn] == ct
      requires pn.level == cn.level == level > 1 && pn.prefix == cn.prefix && pn.pid != cn.pid
      requires UserSlot(pn, i) && Down(pn, i) in nodes && Down(cn, i) !in nodes
      requires Absent(m, cn.pid) && Mirror(V(), pn.pid, cn.pid)
      requires leaves == ShareBelow(m, pn.pid, cn.pid, Before(level - 1, pn.prefix * 512 + i))
      modifies pool, pool.list, this`owner, this`tables, this`nodes, this`leaves
      ensures !ok ==> Starved(old(V()), V(), pn.pid, cn.pid)
      ensures ok ==> PagesToTables(old(V()), V()) && Mirror(V(), pn.pid, cn.pid)
      ensures ok ==>
                && Sound() && MoreTables(old(V()), V(), cn.pid) && HalvesKept(old(V()), V())
                && (forall n <- nodes :: n in old(nodes) || n == Down(cn, i) || n.level < level - 1)
                && leaves == ShareBelow(m, pn.pid, cn.pid, Before(level - 1, pn.prefix * 512 + i + 1))
      decreases level, 0
    {
      hide TreeInv, RefInv, Pool.Valid, Pool.Managed, ShareBelow, Absent, Extends, MoreTables, Before, HalvesKept,
        Mirror, PagesToTables, Starved;
      ghost var p, c := pn.pid, cn.pid;
      ghost var v := V();
      LinkAt(v, pn, i);
      LinkAt(v, Down(pn, i), 0);
      var a := Attach(ct, i, cn);
      if a.None? {
        StarvedNow(v, pn, cn, i);
        return false;
      }
      ghost var u := V();
      AttachedMirror(v, u, pn, cn, i, a.value);
      ExtendsMore(v, u, c);
      MoreTablesKeeps(v, u, c, pn);
      MoreTablesKeeps(v, u, c, Down(pn, i));
      ClearedBelow(u, Down(cn, i));
      LinkAt(u, pn, i);
      var child := tables[pt][i].frame;
      if level == 2 {
        BeforeOne(pn.prefix * 512 + i);
        CopyLeaves(child, a.value, Down(pn, i), Down(cn, i), m);
        SameMore(u, V(), c);
        PagesSame(u, V());
        MirrorSame(u, V(), p, c);
      } else {
        BeforeStep(level - 1, pn.prefix * 512 + i);
        ok := CopyTable(level - 1, child, a.value, Down(pn, i), Down(cn, i), m);
        if !ok {
          StarvedTrans(v, u, V(), p, c);
          return;
        }
      }
      PagesTrans(v, u, V());
      MoreTablesTrans(v, u, V(), c);
      HalvesTrans(v, u, V());
      return true;
    }

    /** `copytables`: the child's cleared PML4 gets a table tree of its own whose leaves name the
        parent's frames, and both sides become read-only and copy-on-write. */
    method CopyTables(p: Pid, c: Pid) returns (ok: bool)
      requires Sound() && p in roots && c in roots && p != c && Absent(leaves, c)
      requires forall j | 0 <= j < 512 :: Down(Top(c), j) !in nodes
      modifies pool, pool.list, this`owner, this`tables, this`nodes, this`leaves
      ensures !ok ==> pool.order == [] && |old(pool.order)| + 1 < |TablesOf(old(V()), p)|
      ensures ok ==> |pool.order| + |TablesOf(old(V()), p)| >= |old(pool.order)| + 1
      ensures ok ==>
                && Sound() && MoreTables(old(V()), V(), c)
                && leaves == Share(old(leaves), p, c)
                && HalfSet(old(V()), V(), c, Half(old(V()), p))
                && Twinned(old(V()), V(), p, c) && CountsAdded(old(V()), V(), p)
    {
      hide TreeInv, RefInv, Pool.Valid, Pool.Managed, ShareBelow, Share, Extends, MoreTables, HalvesKept, HalfSet,
        Twinned, CountsAdded, Mirror, PagesToTables, Starved, TablesOf;
      ghost var v, m := V(), leaves;
      RootAt(v, p);
      RootAt(v, c);
      var p4, c4 := roots[p], roots[c];
      ghost var e := tables[p4][511];
      tables := tables[c4 := tables[c4][511 := tables[p4][511]]];
      KernelSlotExtends(v, c, e);
      KernelSlotHalf(v, c, e);
      ghost var u := V();
      ExtendsMore(v, u, c);
      ShareNone(m, p, c);
      OnlyTop(v, u, p, c);
      ok := CopyTable(4, p4, c4, Top(p), Top(c), m);
      if !ok {
        StarvedMeansFew(u, V(), p, c);
      }
      if ok {
        ForkCost(u, V(), p, c);
        MoreTablesTrans(v, u, V(), c);
        LeafBounds(v);
        ShareAll(m, p, c, Before(3, 511));
        HalfSetKept(v, u, V(), c, e);
        MoreRoots(v, V(), c);
        CopyTablesTranslation(v, V(), p, c);
        CopyCounts(v, V(), p, c);
      }
    }

    /** `copytask`: a PML4, the shared tables and a copy of the VMA list for process `c`. */
    method CopyTask(p: Pid, c: Pid) returns (ok: bool)
      requires Valid() && p in roots && p in areas && c !in roots
      modifies pool, pool.list, this`owner, this`tables, this`nodes, this`roots, this`areas, this`leaves
      ensures !ok ==> pool.order == [] && |old(pool.order)| < |TablesOf(old(V()), p)| + |old(areas)[p]|
      ensures ok ==> |pool.order| + |TablesOf(old(V()), p)| + |old(areas)[p]| >= |old(pool.order)|
      ensures ok ==>
                && Valid() && Local(old(V()), V(), c)
                && Apply(old(Contents()), Forked(p, c)) == Some(Contents())
                && p in roots && p in areas && areas[p] == old(areas)[p]
                && c in roots && c in areas && |areas[c]| == |areas[p]|
                && (forall k | 0 <= k < |areas[c]| :: areas[c][k] == areas[p][k].(frame := areas[c][k].frame))
                && Half(V(), c) == Half(old(V()), p)
    {
      hide TreeInv, RefInv, Pool.Valid, Pool.Managed, Share, MoreTables, Local, LeavesOk, TablesOf;
      ghost var v := V();
      NoProcess(v, c);
      SomeTable(v, p);
      var r := NewRoot(c);
      if r.None? {
        return false;
      }
      ghost var v1 := V();
      ShapeOf(v);
      RootedTablesOf(v, c, p);
      RootedIsLocal(v, c);
      RootedHalf(v, c, p);
      ok := CopyTables(p, c);
      if !ok {
        return;
      }
      ghost var v2 := V();
      MoreIsLocal(v1, v2, c);
      LocalTrans(v, v1, v2, c);
      ShareOk(v.leaves, p, c);
      ok := CopyAreas(p, c);
      if ok {
        LocalTrans(v, v2, V(), c);
        HalvesSame(v2, V());
      }
    }

    /** The VMA loop of `copytask`, one fresh page for each record. */
    method CopyAreas(p: Pid, c: Pid) returns (ok: bool)
      requires Sound() && p in areas && p != c && c in roots && c !in areas
      modifies pool, pool.list, this`owner, this`areas
      ensures !ok ==> pool.order == [] && |old(pool.order)| < |old(areas)[p]|
      ensures ok ==>
                && Sound() && Local(old(V()), V(), c) && |pool.order| + |old(areas)[p]| == |old(pool.order)|
                && areas.Keys == old(areas).Keys + {c} && areas[p] == old(areas)[p]
                && |areas[c]| == |areas[p]|
                && forall k | 0 <= k < |areas[c]| :: areas[c][k] == areas[p][k].(frame := areas[c][k].frame)
    {
      hide TreeInv, RefInv, Pool.Valid, Pool.Managed, Local;
      ghost var v := V();
      var list := areas[p];
      areas := areas[c := []];
      EmptyListOk(v, c);
      for k := 0 to |list|
        invariant Sound() && Local(v, V(), c) && c in areas && c in roots
        invariant areas.Keys == old(areas).Keys + {c} && areas[p] == list && |areas[c]| == k
        invariant |pool.order| + k == |old(pool.order)|
        invariant forall j | 0 <= j < k :: areas[c][j] == list[j].(frame := areas[c][j].frame)
      {
        ghost var u := V();
        ok := AddArea(c, list[k], false);
        if !ok {
          return;
        }
        LocalTrans(v, u, V(), c);
      }
      return true;
    }

    ghost function NewPage(list: seq<Area>, front: bool): Frame {
      if list == [] then 0 else if front then list[0].frame else list[|list| - 1].frame
    }

    static function With(list: seq<Area>, a: Area, front: bool): seq<Area> {
      if front then [a] + list else list + [a]
    }

    /** One turn of that loop: a copy of the record `a`, in a page of its own, goes to the end of
        the list of `c`; `create_process` puts its records at the front. */
    method AddArea(c: Pid, a: Area, front: bool) returns (ok: bool)
      requires Sound() && c in areas
      modifies pool, pool.list, this`owner, this`areas
      ensures !ok ==> old(pool.order) == [] == pool.order
      ensures ok ==>
                && Sound() && Local(old(V()), V(), c) && |pool.order| + 1 == |old(pool.order)|
                && c in areas && areas == old(areas)[c := areas[c]]
                && areas[c] == With(old(areas)[c], a.(frame := NewPage(areas[c], front)), front)
    {
      hide TreeInv, RefInv, Pool.Valid, Pool.Managed, Local;
      ghost var u := V();
      ShapeOf(u);
      var t := Take();
      if t.None? {
        return false;
      }
      var b := a.(frame := t.value);
      ghost var w := V();
      areas := areas[c := With(areas[c], b, front)];
      owner := owner[b.frame := AreaOf(c)];
      AreaAddedOk(w, c, b, areas[c]);
      AreaAddedIsLocal(u, c, b, areas[c]);
      return true;
    }

    // ----- teardown -----

    /** A page in use may be freed. */
    lemma InUse(f: Frame)
      requires Booted() && TreeInv(V()) && f < |owner| && owner[f] != Unused
      ensures f < pool.list.Length && !pool.list[f].free && !pool.FreedTwice(f * 4096)
    {
      hide NodesOk, LinksOk, LeafTablesOk, RootsOk, AreasOk, RefInv;
    }

    /** `free` of a page in use. */
    method FreePage(f: Frame)
      requires Booted() && TreeInv(V()) && f < |owner| && owner[f] != Unused && pool.Managed(f)
      modifies pool, pool.list
      ensures pool.Valid() && forall g :: old(pool.Managed(g)) ==> pool.Managed(g)
      ensures f < |old(V()).refs|
      ensures if old(V()).refs[f] > 1
              then pool.order == old(pool.order) && V().refs == old(V()).refs[f := old(V()).refs[f] - 1]
              else pool.order == [f] + old(pool.order) && V().refs == old(V()).refs
    {
      hide TreeInv, RefInv, Pool.Valid, Pool.FreedTwice, Pool.Chained;
      InUse(f);
      pool.Free(f * 4096);
    }

    /** One present leaf of `dealloc_pml4`: its frame loses a reference, or is freed with the last. */
    method DropEntry(f: Frame, i: nat, ghost n: Node)
      requires Sound() && n in nodes && nodes[n] == f && n.level == 1 && i < 512 && LeafAt(n, i) in leaves
      modifies pool, pool.list, this`owner, this`tables, this`leaves
      ensures Sound() && Shrunk(old(V()), V(), n)
      ensures tables == SetEntry(old(tables), f, i, ZERO)
    {
      hide TreeInv, RefInv, Pool.Valid, Pool.Managed, Shrunk;
      ghost var v, l := V(), LeafAt(n, i);
      LeafEntryAt(v, n, i);
      var g := tables[f][i].frame;
      DroppedOk(v, l);
      DroppedGoes(v, l);
      FreePage(g);
      tables := tables[f := tables[f][i := ZERO]];
      leaves := leaves - {l};
      if v.refs[g] <= 1 {
        owner := owner[g := Unused];
      }
      assert V() == Dropped(v, l);
    }

    /** The innermost loop of `dealloc_pml4`. */
    method DeallocLeaves(f: Frame, ghost n: Node)
      requires Sound() && n in nodes && nodes[n] == f && n.level == 1
      modifies pool, pool.list, this`owner, this`tables, this`leaves
      ensures Sound() && Shrunk(old(V()), V(), n)
      ensures At(V(), n) && forall j | 0 <= j < 512 :: !EntryAt(V(), n, j).present
    {
      hide TreeInv, RefInv, Pool.Valid, Pool.Managed, Shrunk;
      ghost var v := V();
      ShrunkSelf(v, n);
      LeafEntryAt(v, n, 0);
      for i := 0 to 512
        invariant Sound() && Shrunk(v, V(), n) && At(V(), n)
        invariant forall j | 0 <= j < i :: !tables[f][j].present
      {
        ghost var u := V();
        LeafEntryAt(u, n, i);
        if tables[f][i].present {
          DropEntry(f, i, n);
          ShrunkTrans(v, u, V(), n);
        }
        ClearedTwice(tables, f, i);
        tables := tables[f := tables[f][i := ZERO]];
      }
    }

    /** The outer loops of `dealloc_pml4`, one call for each level: empties the table in `f`,
        freeing every table below it. */
    method DeallocTable(level: nat, f: Frame, ghost n: Node)
      requires Sound() && n in nodes && nodes[n] == f && n.level == level > 1
      modifies pool, pool.list, this`owner, this`tables, this`leaves, this`nodes
      ensures Sound() && Shrunk(old(V()), V(), n)
      ensures n in nodes && nodes[n] == f && At(V(), n)
      ensures forall j | 0 <= j < 512 && UserSlot(n, j) :: !EntryAt(V(), n, j).present
      decreases level
    {
      hide TreeInv, RefInv, Pool.Valid, Pool.Managed, Shrunk;
      ghost var v := V();
      ShrunkSelf(v, n);
      LinkAt(v, n, 0);
      for i := 0 to if level == 4 then 511 else 512
        invariant Sound() && Shrunk(v, V(), n)
        invariant n in nodes && nodes[n] == f && At(V(), n)
        invariant forall j | 0 <= j < i :: !tables[f][j].present
      {
        ghost var u := V();
        LinkAt(u, n, i);
        if tables[f][i].present {
          DeallocBelow(level, f, i, n);
          ShrunkTrans(v, u, V(), n);
        }
        ClearedTwice(tables, f, i);
        tables := tables[f := tables[f][i := ZERO]];
      }
    }

    /** One present entry of an outer loop: the table below is emptied, unlinked and freed. */
    method DeallocBelow(level: nat, f: Frame, i: nat, ghost n: Node)
      requires Sound() && n in nodes && nodes[n] == f && n.level == level > 1 && UserSlot(n, i)
      requires Down(n, i) in nodes
      modifies pool, pool.list, this`owner, this`tables, this`leaves, this`nodes
      ensures Sound() && Shrunk(old(V()), V(), n)
      ensures n in nodes && nodes[n] == f && f < |old(tables)| && |old(tables)[f]| == 512
      ensures f < |tables| && tables[f] == old(tables)[f][i := ZERO]
      decreases level, 0
    {
      hide TreeInv, RefInv, Pool.Valid, Pool.Managed, Shrunk;
      ghost var v, d := V(), Down(n, i);
      LinkAt(v, n, i);
      LinkAt(v, d, 0);
      var child := tables[f][i].frame;
      if level == 2 {
        DeallocLeaves(child, d);
      } else {
        DeallocTable(level - 1, child, d);
      }
      ghost var u := V();
      ShrunkAbove(v, u, n, i);
      LinkAt(u, d, 0);
      FreeTable(f, i, child, n);
      ShrunkTrans(v, u, V(), n);
    }

    /** Frees the emptied table in `child` and clears the entry that points to it. */
    method FreeTable(f: Frame, i: nat, child: Frame, ghost n: Node)
      requires Sound() && n in nodes && nodes[n] == f && n.level > 1 && UserSlot(n, i)
      requires Down(n, i) in nodes && nodes[Down(n, i)] == child
      requires At(V(), Down(n, i)) && forall j | 0 <= j < 512 :: !EntryAt(V(), Down(n, i), j).present
      modifies pool, pool.list, this`owner, this`tables, this`nodes
      ensures Sound() && Shrunk(old(V()), V(), n)
      ensures n in nodes && nodes[n] == f && f < |old(tables)| && |old(tables)[f]| == 512
      ensures f < |tables| && tables[f] == old(tables)[f][i := ZERO]
    {
      hide TreeInv, RefInv, Pool.Valid, Pool.Managed, Shrunk;
      ghost var v := V();
      LinkAt(v, n, i);
      LinkAt(v, Down(n, i), 0);
      FreedTableOk(v, n, i);
      CountOf(v, Down(n, i));
      FreePage(child);
      tables := tables[f := tables[f][i := ZERO]];
      nodes := nodes - {Down(n, i)};
      owner := owner[child := Kernel][child := Unused];
    }

    /** `dealloc_pml4`: the address space of `p` is emptied; its PML4 page remains. */
    method DeallocPml4(p: Pid)
      requires Sound() && p in roots
      modifies pool, pool.list, this`owner, this`tables, this`leaves, this`nodes
      ensures Sound() && Shrunk(old(V()), V(), Top(p))
      ensures leaves == Drop(old(leaves), p) && Emptied(old(V()), V(), p) && CountsDropped(old(V()), V(), p)
      ensures At(V(), Top(p)) && forall j | 0 <= j < 511 :: !EntryAt(V(), Top(p), j).present
    {
      hide TreeInv, RefInv, Pool.Valid, Pool.Managed, Shrunk, Emptied, CountsDropped, Drop;
      ghost var v := V();
      RootAt(v, p);
      DeallocTable(4, roots[p], Top(p));
      ShrunkDrops(v, V(), p);
      DeallocTranslation(v, V(), p);
      DeallocCounts(v, V(), p);
    }

    /** The first loop of `removeProcess`: every VMA record is freed. */
    method FreeAreas(p: Pid)
      requires Sound() && p in areas
      modifies pool, pool.list, this`owner, this`areas
      ensures Sound() && Local(old(V()), V(), p) && p !in areas
    {
      hide TreeInv, RefInv, Pool.Valid, Pool.Managed, Local;
      ghost var v := V();
      LocalSelf(v, p);
      while areas[p] != []
        invariant Sound() && Local(v, V(), p) && p in areas
        decreases |areas[p]|
      {
        ghost var u := V();
        FreeArea(p);
        LocalTrans(v, u, V(), p);
      }
      ghost var u := V();
      areas := areas - {p};
      UnlistedOk(u, p);
      LocalTrans(v, u, V(), p);
    }

    /** One turn of that loop: the first record of the list goes back to the pool. */
    method FreeArea(p: Pid)
      requires Sound() && p in areas && areas[p] != []
      modifies pool, pool.list, this`owner, this`areas
      ensures Sound() && Local(old(V()), V(), p) && areas == old(areas)[p := old(areas)[p][1..]]
    {
      hide TreeInv, RefInv, Pool.Valid, Pool.Managed, Local;
      ghost var u := V();
      var f := areas[p][0].frame;
      AreaFreedOk(u, p);
      FreePage(f);
      areas := areas[p := areas[p][1..]];
      owner := owner[f := Kernel][f := Unused];
    }

    /** `removeProcess`: VMA records, the address space and the PML4 all go back to the pool. */
    method RemoveProcess(p: Pid)
      requires Valid() && p in roots && p in areas
      modifies pool, pool.list, this`owner, this`areas, this`tables, this`leaves, this`nodes, this`roots
      ensures Valid() && Local(old(V()), V(), p)
      ensures p !in roots && p !in areas
      ensures Apply(old(Contents()), TornDown(p)) == Some(Contents())
    {
      hide TreeInv, RefInv, Pool.Valid, Pool.Managed, Shrunk, Local, LeavesOk, Drop;
      ghost var v := V();
      FreeAreas(p);
      ghost var u := V();
      DeallocPml4(p);
      ghost var w := V();
      ShrunkIsLocal(u, w, Top(p));
      LocalTrans(v, u, w, p);
      DropKeepsOk(v.leaves, p);
      FreeRoot(p);
      LocalTrans(v, w, V(), p);
    }

    /** The last step of `removeProcess`: the emptied PML4 is freed. */
    method FreeRoot(p: Pid)
      requires Sound() && p in roots && p !in areas
      requires At(V(), Top(p)) && forall j | 0 <= j < 511 :: !EntryAt(V(), Top(p), j).present
      modifies pool, pool.list, this`owner, this`nodes, this`roots
      ensures Sound() && Local(old(V()), V(), p) && roots == old(roots) - {p}
    {
      hide TreeInv, RefInv, Pool.Valid, Pool.Managed, Local;
      ghost var v := V();
      RootAt(v, p);
      FreedRootOk(v, p);
      var f := roots[p];
      FreePage(f);
      nodes := nodes - {Top(p)};
      roots := roots - {p};
      owner := owner[f := Kernel][f := Unused];
    }

    // ----- page faults and user accesses -----

    /** The VMA list of process `p`. */
    function List(p: Pid): seq<Area>
      reads this`areas
    {
      if p in areas then areas[p] else []
    }

    /** Bounds checks of `isr14` as the handler makes them, walking the list. */
    method CheckBounds(list: seq<Area>, a: nat) returns (flag: bool)
      requires list != []
      ensures flag == InBounds(list, a)
    {
      flag := false;
      if list[0].start + 4096 > a && list[0].end < a {
        flag := true;
      }
      if !flag {
        var k := 0;
        while k < |list|
          invariant 0 <= k <= |list|
          invariant forall j | 0 <= j < k :: !(list[j].start < a < list[j].end)
        {
          if list[k].start < a && list[k].end > a {
            flag := true;
            break;
          }
          k := k + 1;
        }
      }
    }

    /** A fresh frame for an absent page of `p` (stack or heap); its old bytes stay in it. */
    method MapFresh(p: Pid, a: nat) returns (ok: bool)
      requires Valid() && p in roots && IsUser(a) && LeafOf(p, a) !in leaves
      modifies pool, pool.list, this`owner, this`tables, this`nodes, this`leaves
      ensures !ok ==> pool.order == [] && |old(pool.order)| < 4
      ensures ok ==> AtMost(old(V()), V(), 4)
      ensures ok ==>
                && Valid() && Local(old(V()), V(), p)
                && LeafOf(p, a) in leaves && leaves[LeafOf(p, a)].frame < |bytes|
                && leaves == old(leaves)[LeafOf(p, a) := Fresh(leaves[LeafOf(p, a)].frame)]
                && leaves[LeafOf(p, a)].frame !in Frames(old(leaves))
                && Half(V(), p) == Fresh(kernelHalf)
    {
      hide TreeInv, RefInv, Pool.Valid, Pool.Managed, Grew, RefsBut, Local, LeavesOk, Frames, Half, PageSet;
      ghost var v, l := V(), LeafOf(p, a);
      var t := Take();
      if t.None? {
        return false;
      }
      ghost var u := V();
      ok := InitPages(p, a, t.value);
      if ok {
        ShapeOf(V());
        ShapeOf(u);
        NewFrame(u, t.value);
        GrewAbsent(u, V(), l, t.value);
        GrewLeaf(u, V(), l, t.value);
        RemapOk(v.leaves, l, t.value);
        TakenGrewLocal(v, V(), l);
      }
    }

    /** `free` of a frame with two references. */
    method ReleaseShared(f: Frame)
      requires Booted() && TreeInv(V()) && f < |owner| && f < |V().refs| && owner[f] == User && V().refs[f] == 2
      requires RefInv(Decremented(V(), f))
      modifies pool, pool.list
      ensures Sound() && V() == Decremented(old(V()), f)
    {
      hide TreeInv, RefInv, Pool.Valid, Pool.Managed;
      DecrementedOk(V(), f);
      FreePage(f);
    }

    /** The two-sharer case of `isr14`: a private copy of the page, the old frame losing a reference. */
    method CopyPage(p: Pid, a: nat, add: Frame) returns (ok: bool)
      requires Valid() && p in roots && IsUser(a) && LeafOf(p, a) in leaves
      requires leaves[LeafOf(p, a)].frame == add && |Sharers(leaves, add)| == 2
      modifies pool, pool.list, this`owner, this`tables, this`nodes, this`leaves, this`bytes
      ensures !ok ==> pool.order == [] == old(pool.order)
      ensures ok ==>
                && Valid() && Local(old(V()), V(), p) && old(pool.order) != [] && nodes == old(nodes)
                && Unshare(old(Contents()), LeafOf(p, a), old(pool.order)[0]) == Some(Contents())
                && LeafOf(p, a) in leaves && leaves[LeafOf(p, a)].writable
    {
      hide TreeInv, RefInv, Pool.Valid, Pool.Managed, Grew, RefsBut, Local, LeavesOk, Sharers, Frames, Unshare,
        AtMost, HalfSet, PageSet;
      ghost var v, l := V(), LeafOf(p, a);
      ghost var s := Contents();
      ShapeOf(v);
      FrameCount(v, l);
      var t := Take();
      if t.None? {
        return false;
      }
      bytes := bytes[t.value := bytes[add]];
      MappedHome(V(), p, a);
      ok := InitPages(p, a / 4096 * 4096, t.value);
      if ok {
        ghost var w := V();
        ShapeOf(w);
        CopiedOk(v, w, l, t.value);
        ReleaseShared(add);
        CountedLocal(v, w, V(), p);
        CopyIsUnshare(s, l, t.value);
      }
    }

    /** The one-sharer case of `isr14`: the frame is taken over. */
    method Reclaim(p: Pid, a: nat, k: Frame, ghost spare: Frame)
      requires Valid() && IsUser(a) && OnPath(p, a, 1) in nodes && nodes[OnPath(p, a, 1)] == k
      requires LeafOf(p, a) in leaves && |Sharers(leaves, leaves[LeafOf(p, a)].frame)| == 1
      modifies this`tables, this`leaves
      ensures Valid() && Local(old(V()), V(), p)
      ensures LeafOf(p, a) in leaves && leaves[LeafOf(p, a)].writable
      ensures Unshare(old(Contents()), LeafOf(p, a), spare) == Some(Contents())
    {
      hide TreeInv, RefInv, Pool.Valid, Pool.Managed, Local, LeavesOk;
      ghost var v, l := V(), LeafOf(p, a);
      PathLeaf(p, a);
      LeafEntryAt(v, OnPath(p, a, 1), Index(a, 1));
      ghost var e := leaves[l];
      tables := tables[k := tables[k][Index(a, 1) := Unmarked(tables[k][Index(a, 1)])]];
      leaves := leaves[l := Unmarked(e)];
      assert owner == owner[e.frame := User];
      MappedOk(v, l, Unmarked(e));
      ShapeOf(V());
      ReclaimRefs(v, V(), l);
      ReclaimOk(v.leaves, l);
      SameMore(v, V(), p);
      MoreIsLocal(v, V(), p);
    }

    /** The frame that the next allocation will return, if there is one. */
    ghost function Spare(free: seq<Frame>): Frame {
      if free == [] then 0 else free[0]
    }

    /** The copy-on-write branch of `isr14`: two sharers, one, or more. */
    method CowFault(p: Pid, a: nat, k: Frame, add: Frame) returns (o: Outcome)
      requires Valid() && p in roots && IsUser(a) && OnPath(p, a, 1) in nodes && nodes[OnPath(p, a, 1)] == k
      requires LeafOf(p, a) in leaves && leaves[LeafOf(p, a)].frame == add
      modifies pool, pool.list, this`owner, this`tables, this`nodes, this`leaves, this`bytes
      ensures o != SegFault && (o == TooManySharers <==> Crowded(old(leaves), LeafOf(p, a)))
      ensures o == OutOfMemory ==> pool.order == [] && |old(pool.order)| < StoreNeeds(old(V()), LeafOf(p, a))
      ensures o == TooManySharers ==> Valid() && V() == old(V()) && bytes == old(bytes)
      ensures o == Done ==> nodes == old(nodes)
      ensures o == Done ==> Faulted(old(Contents()), Contents(), LeafOf(p, a), Spare(old(pool.order)))
      ensures o == Done ==> Valid() && Local(old(V()), V(), p)
    {
      hide TreeInv, RefInv, Pool.Valid, Pool.Managed, Local, LeavesOk, Unshare, Sharers, Frames;
      ghost var v := V();
      FrameCount(v, LeafOf(p, a));
      var i := pool.GetRefCount(add * 4096);
      if i == 2 {
        var ok := CopyPage(p, a, add);
        return if ok then Done else OutOfMemory;
      } else if i == 1 {
        Reclaim(p, a, k, Spare(v.free));
        return Done;
      } else {
        return TooManySharers;
      }
    }

    /** `isr14` for a write by process `p` to address `a` that the hardware refused. */
    method PageFault(p: Pid, a: nat) returns (o: Outcome)
      requires Valid() && p in roots && List(p) != []
      requires IsUser(a) && (InBounds(List(p), a) ==> OnPath(p, a, 1) in nodes)
      requires Refused(leaves, LeafOf(p, a))
      modifies pool, pool.list, this`owner, this`tables, this`nodes, this`leaves, this`bytes
      ensures o == SegFault <==> NoAccess(old(leaves), List(p), p, a)
      ensures o == TooManySharers <==> InBounds(List(p), a) && Crowded(old(leaves), LeafOf(p, a))
      ensures o == OutOfMemory ==> pool.order == [] && |old(pool.order)| < StoreNeeds(old(V()), LeafOf(p, a))
      ensures o == Done ==> StoreSpent(old(V()), V(), LeafOf(p, a))
      ensures o == SegFault || o == TooManySharers ==> Valid() && V() == old(V()) && bytes == old(bytes)
      ensures o == Done ==>
                Faulted(old(Contents()), Contents(), LeafOf(p, a), Spare(old(pool.order)))
      ensures o == Done ==> Valid() && Local(old(V()), V(), p)
    {
      hide TreeInv, RefInv, Pool.Valid, Pool.Managed, Local, LeavesOk, Unshare, Sharers, Frames, InBounds, LinkOk;
      ghost var v, l := V(), LeafOf(p, a);
      var flag := CheckBounds(areas[p], a);
      if !flag {
        return SegFault;
      }
      PathLeaf(p, a);
      LeafEntryAt(v, OnPath(p, a, 1), Index(a, 1));
      var k := GetPte(p, a);
      var e := tables[k][Index(a, 1)];
      if l in leaves {
        MarkedLeaf(leaves, l);
      }
      if e.cow {
        o := CowFault(p, a, k, e.frame);
      } else if areas[p][0].start > a && areas[p][0].end < a {
        var ok := MapFresh(p, a / 4096 * 4096);
        return if ok then Done else OutOfMemory;
      } else {
        return SegFault;
      }
    }

    /** The frame of a store: the hardware walk, and the fault and a second walk if it is refused. */
    method Access(p: Pid, a: nat) returns (o: Outcome, f: Frame)
      requires Valid() && p in roots && List(p) != []
      requires IsUser(a) && (InBounds(List(p), a) ==> OnPath(p, a, 1) in nodes)
      modifies pool, pool.list, this`owner, this`tables, this`nodes, this`leaves, this`bytes
      ensures o == SegFault <==> Refused(old(leaves), LeafOf(p, a)) && NoAccess(old(leaves), List(p), p, a)
      ensures o == TooManySharers <==>
                && Refused(old(leaves), LeafOf(p, a)) && InBounds(List(p), a)
                && Crowded(old(leaves), LeafOf(p, a))
      ensures o == OutOfMemory ==>
                && Refused(old(leaves), LeafOf(p, a))
                && pool.order == [] && |old(pool.order)| < StoreNeeds(old(V()), LeafOf(p, a))
      ensures o == SegFault || o == TooManySharers ==> Valid() && V() == old(V()) && bytes == old(bytes)
      ensures o == Done ==>
                && Valid() && Local(old(V()), V(), p) && StoreSpent(old(V()), V(), LeafOf(p, a))
                && LeafOf(p, a) in leaves && leaves[LeafOf(p, a)].writable && f == leaves[LeafOf(p, a)].frame
                && (if Refused(old(leaves), LeafOf(p, a))
                    then Faulted(old(Contents()), Contents(), LeafOf(p, a), Spare(old(pool.order)))
                    else Contents() == old(Contents()))
    {
      hide TreeInv, RefInv, Pool.Valid, Pool.Managed, Local, LeavesOk, Frames, Faulted, Walk, InBounds, NoAccess,
        Crowded, StoreNeeds, StoreSpent;
      ghost var v, l, s := V(), LeafOf(p, a), Contents();
      StoreSpentSame(v, v, l);
      WalkIsFlat(v, p, a);
      var e := Walk(tables, roots[p], 4, a);
      LocalSelf(v, p);
      o, f := Done, 0;
      if e.None? || !e.value.writable {
        o := PageFault(p, a);
        if o != Done {
          return;
        }
        FaultedWritable(s, Contents(), l, Spare(v.free));
        WalkIsFlat(V(), p, a);
        e := Walk(tables, roots[p], 4, a);
      }
      f := e.value.frame;
    }

    /** A store instruction in user mode: the walk, the fault if it is refused, the retry. */
    method Store(p: Pid, a: nat, x: int) returns (o: Outcome, ghost es: seq<Event>)
      requires Valid() && p in roots && List(p) != []
      requires IsUser(a) && (InBounds(List(p), a) ==> OnPath(p, a, 1) in nodes)
      modifies pool, pool.list, this`owner, this`tables, this`nodes, this`leaves, this`bytes
      ensures Judged(old(V()), p, a, o)
      ensures o == SegFault <==> Refused(old(leaves), LeafOf(p, a)) && NoAccess(old(leaves), List(p), p, a)
      ensures o == TooManySharers <==>
                && Refused(old(leaves), LeafOf(p, a)) && InBounds(List(p), a)
                && Crowded(old(leaves), LeafOf(p, a))
      ensures o == OutOfMemory ==> pool.order == [] && |old(pool.order)| < StoreNeeds(old(V()), LeafOf(p, a))
      ensures o == SegFault || o == TooManySharers ==> Valid() && V() == old(V()) && bytes == old(bytes)
      ensures o == Done ==> StoreSpent(old(V()), V(), LeafOf(p, a))
      ensures o == Done ==> StoreEvents(old(Contents()), LeafOf(p, a), a % 4096, x, es)
      ensures o == Done ==> Run(old(Contents()), es) == Some(Contents())
      ensures o == Done ==> Valid() && Local(old(V()), V(), p)
    {
      hide TreeInv, RefInv, Pool.Valid, Pool.Managed, Local, LeavesOk, Faulted, StoreEvents, Run, InBounds, NoAccess,
        Crowded, StoreNeeds, StoreSpent, Judged;
      ghost var v, l, s := V(), LeafOf(p, a), Contents();
      es := [];
      var f;
      o, f := Access(p, a);
      JudgedOk(v, p, a, o);
      if o == Done {
        ShapeOf(V());
        es := StoreRuns(s, Contents(), l, a % 4096, x, Spare(v.free));
        bytes := bytes[f := bytes[f][a % 4096 := x]];
      }
    }

    // ----- pages for the heap and for a new process -----

    /** A fresh page of `p` at `a` is one event. */
    method AddPage(p: Pid, a: nat) returns (ok: bool, ghost e: Event)
      requires Valid() && p in roots && IsUser(a) && LeafOf(p, a) !in leaves
      modifies pool, pool.list, this`owner, this`tables, this`nodes, this`leaves
      ensures !ok ==> pool.order == [] && |old(pool.order)| < 4
      ensures ok ==> AtMost(old(V()), V(), 4)
      ensures ok ==>
                && Valid() && Local(old(V()), V(), p) && Half(V(), p) == Fresh(kernelHalf)
                && leaves.Keys == old(leaves).Keys + {LeafOf(p, a)}
                && e.Grown? && e.leaf == LeafOf(p, a)
                && Apply(old(Contents()), e) == Some(Contents())
    {
      hide AtMost, TreeInv, RefInv, Pool.Valid, Pool.Managed, Local, LeavesOk, Frames, Apply, Half;
      ghost var s, l := Contents(), LeafOf(p, a);
      e := TornDown(p);
      ok := MapFresh(p, a);
      if ok {
        ghost var f := leaves[l].frame;
        GrownApply(s, Contents(), l, f);
        e := Grown(l, f, bytes[f]);
      }
    }

    /** The kernel's `malloc` system call: adds pages to the heap, the second VMA, and returns where
        they start. */
    method GrowHeap(p: Pid, n: int) returns (r: Option<nat>, ghost es: seq<Event>)
      requires Valid() && p in roots && |List(p)| >= 2
      requires Mappable(leaves, p, PagesFrom(List(p)[1].end / 4096, HeapPages(n)))
      modifies pool, pool.list, this`owner, this`tables, this`nodes, this`leaves, this`areas
      ensures r.None? ==> pool.order == [] && Short(old(V()), HeapPages(n))
      ensures r.Some? ==> Spent(old(V()), V(), HeapPages(n))
      ensures r.Some? ==>
                && p in areas && r.value == old(List(p))[1].end
                && areas[p] == SetEnd(old(List(p)), r.value + HeapPages(n) * 4096)
                && GrownBy(n, r.value, areas[p][1].end)
                && HeapGrown(old(leaves), old(List(p)), leaves, areas[p], p)
      ensures r.Some? ==>
                && AddsPages(es, p, PagesFrom(r.value / 4096, HeapPages(n)))
                && Run(old(Contents()), es) == Some(Contents())
      ensures r.Some? ==> Valid() && Local(old(V()), V(), p)
    {
      hide Spent, Short, Pool.Valid, TreeInv, RefInv, Local, LeavesOk, Run, Mappable, AddsPages, GrownBy, HeapGrown;
      ghost var s := Contents();
      var ret := areas[p][1].end;
      r := None;
      var ok;
      ok, es := GrowPages(p, HeapPages(n));
      if ok {
        r := Some(ret);
        AddedKeys(s, es, p, PagesFrom(ret / 4096, HeapPages(n)));
        HeapIsGrown(s.leaves, old(areas)[p], leaves, p, HeapPages(n));
        GrowthIs(n, ret);
      }
    }

    /** The loop of that call. */
    method GrowPages(p: Pid, count: nat) returns (ok: bool, ghost es: seq<Event>)
      requires Valid() && p in roots && |List(p)| >= 2
      requires Mappable(leaves, p, PagesFrom(List(p)[1].end / 4096, count))
      modifies pool, pool.list, this`owner, this`tables, this`nodes, this`leaves, this`areas
      ensures !ok ==> pool.order == [] && Short(old(V()), count)
      ensures ok ==> Spent(old(V()), V(), count)
      ensures ok ==> p in areas && areas[p] == SetEnd(old(List(p)), old(List(p))[1].end + count * 4096)
      ensures ok ==>
                && AddsPages(es, p, PagesFrom(old(List(p))[1].end / 4096, count))
                && Run(old(Contents()), es) == Some(Contents())
      ensures ok ==> Valid() && Local(old(V()), V(), p)
    {
      hide AtMost, Spent, Short, TreeInv, RefInv, Pool.Valid, Pool.Managed, Local, LeavesOk, Frames, Run, Apply,
        Mappable, AddsPages, IsUser;
      ghost var v, s, ret := V(), Contents(), areas[p][1].end;
      es := [];
      LocalSelf(v, p);
      NoPageYet(v);
      RunNothing(s);
      NoPages(p, ret / 4096);
      assert SetEnd(areas[p], ret) == areas[p];
      for i := 0 to count
        invariant Valid() && Local(v, V(), p) && p in roots && p in areas && Spent(v, V(), i)
        invariant areas[p] == SetEnd(old(areas)[p], ret + i * 4096) && |areas[p]| >= 2
        invariant AddsPages(es, p, PagesFrom(ret / 4096, i)) && Run(s, es) == Some(Contents())
        invariant Mappable(leaves, p, PagesFrom(ret / 4096 + i, count - i))
      {
        ghost var m := leaves;
        UserPage(areas[p][1].end);
        NextMappable(m, p, ret / 4096 + i, count - i);
        assert LeafOf(p, areas[p][1].end) == Leaf(p, ret / 4096 + i);
        ghost var e: Event;
        ok, e := GrowPage(p, v, i);
        if !ok {
          ShortOfMore(v, i + 1, count);
          return;
        }
        StillMappable(m, leaves, p, ret / 4096 + i, count - i);
        MorePages(es, p, ret / 4096, i, e);
        RunMore(s, es, e);
        es := es + [e];
      }
      return true, es;
    }

    /** One turn of that loop: a page is mapped at the end of the heap, and the end moves up. */
    method GrowPage(p: Pid, ghost v: VM, ghost i: nat) returns (ok: bool, ghost e: Event)
      requires Valid() && p in roots && p in areas && |areas[p]| >= 2 && IsUser(areas[p][1].end)
      requires LeafOf(p, areas[p][1].end) !in leaves && Local(v, V(), p) && Spent(v, V(), i)
      modifies pool, pool.list, this`owner, this`tables, this`nodes, this`leaves, this`areas
      ensures !ok ==> pool.order == [] && Short(v, i + 1)
      ensures ok ==>
                && Valid() && Local(v, V(), p) && Spent(v, V(), i + 1)
                && areas == old(areas)[p := SetEnd(old(areas)[p], old(areas)[p][1].end + 4096)]
                && leaves.Keys == old(leaves).Keys + {LeafOf(p, old(areas)[p][1].end)}
                && e.Grown? && e.leaf == LeafOf(p, old(areas)[p][1].end)
                && Apply(old(Contents()), e) == Some(Contents())
    {
      hide AtMost, Spent, Short, TreeInv, RefInv, Pool.Valid, Pool.Managed, Local, LeavesOk, Frames, Apply, Half,
        LeafOf, IsUser, SetEnd;
      ghost var u := V();
      var end := areas[p][1].end;
      ok, e := AddPage(p, end);
      if ok {
        ghost var w := V();
        areas := areas[p := SetEnd(areas[p], end + 4096)];
        EndMovedOk(w, p, end + 4096);
        OnePageMore(v, u, w, i);
        SpentSame(v, w, V(), i + 1);
        LocalTrans(v, u, w, p);
        LocalTrans(v, w, V(), p);
      } else {
        OnePageShort(v, u, i, i + 1);
      }
    }

    /** A fresh page of `p`, by its number; the `i`-th since the state `v`. */
    method AddPageAt(p: Pid, vpn: nat, ghost v: VM, ghost i: nat) returns (ok: bool, ghost e: Event)
      requires Valid() && p in roots && IsUser(vpn * 4096) && Leaf(p, vpn) !in leaves
      requires Local(v, V(), p) && Spent(v, V(), i)
      modifies pool, pool.list, this`owner, this`tables, this`nodes, this`leaves
      ensures !ok ==> pool.order == [] && Short(v, i + 1)
      ensures ok ==>
                && Valid() && Local(v, V(), p) && Spent(v, V(), i + 1)
                && leaves.Keys == old(leaves).Keys + {Leaf(p, vpn)}
                && e.Grown? && e.leaf == Leaf(p, vpn)
                && Apply(old(Contents()), e) == Some(Contents())
    {
      hide AtMost, Spent, Short, TreeInv, RefInv, Pool.Valid, Pool.Managed, Local, LeavesOk, Apply, Half, IsUser,
        LeafOf;
      ghost var u := V();
      PageLeaf(p, vpn);
      ok, e := AddPage(p, vpn * 4096);
      if ok {
        LocalTrans(v, u, V(), p);
        OnePageMore(v, u, V(), i);
      } else {
        OnePageShort(v, u, i, i + 1);
      }
    }

    /** A record at the front of the list of `p`; `j` pages may have been taken since the state `v`. */
    method AddRecord(p: Pid, a: Area, ghost v: VM, ghost j: nat) returns (ok: bool)
      requires Valid() && p in areas && a.frame == 0 && Local(v, V(), p) && AtMost(v, V(), j)
      modifies pool, pool.list, this`owner, this`areas
      ensures !ok ==> pool.order == [] && |v.free| < j + 1
      ensures ok ==>
                && Valid() && Local(v, V(), p) && AtMost(v, V(), j + 1)
                && p in areas && Plain(areas[p]) == [a] + Plain(old(areas)[p])
    {
      hide AtMost, TreeInv, RefInv, Pool.Valid, Pool.Managed, Local, LeavesOk;
      ghost var u := V();
      ok := AddArea(p, a, true);
      if ok {
        RecordAtMost(u, V());
        AtMostMore(v, u, V(), j, 1);
        LocalTrans(v, u, V(), p);
      } else {
        TooFew(v, u, j, 1);
      }
    }

    /** The page loop of `create_process`: pages for one segment, from `vpn` on. */
    method LoadPages(p: Pid, vpn: nat, count: nat) returns (ok: bool, ghost es: seq<Event>)
      requires Valid() && p in roots
      requires Mappable(leaves, p, PagesFrom(vpn, count))
      modifies pool, pool.list, this`owner, this`tables, this`nodes, this`leaves
      ensures !ok ==> pool.order == [] && Short(old(V()), count)
      ensures ok ==> Spent(old(V()), V(), count)
      ensures ok ==>
                && Valid() && Local(old(V()), V(), p)
                && leaves.Keys == old(leaves).Keys + LeavesAt(p, PagesFrom(vpn, count))
                && AddsPages(es, p, PagesFrom(vpn, count))
                && Run(old(Contents()), es) == Some(Contents())
    {
      hide AtMost, Spent, Short, TreeInv, RefInv, Pool.Valid, Pool.Managed, Local, LeavesOk, Run, Apply, Half,
        Mappable, AddsPages, IsUser, LeavesAt, PagesFrom;
      ghost var v, s := V(), Contents();
      es := [];
      LocalSelf(v, p);
      NoPageYet(v);
      RunNothing(s);
      NoPages(p, vpn);
      for i := 0 to count
        invariant Valid() && Local(v, V(), p) && p in roots && Spent(v, V(), i)
        invariant leaves.Keys == old(leaves).Keys + LeavesAt(p, PagesFrom(vpn, i))
        invariant AddsPages(es, p, PagesFrom(vpn, i)) && Run(s, es) == Some(Contents())
        invariant Mappable(leaves, p, PagesFrom(vpn + i, count - i))
      {
        ghost var m := leaves;
        NextMappable(m, p, vpn + i, count - i);
        ghost var e: Event;
        ok, e := AddPageAt(p, vpn + i, v, i);
        if !ok {
          ShortOfMore(v, i + 1, count);
          return;
        }
        RunMore(s, es, e);
        MorePages(es, p, vpn, i, e);
        es := es + [e];
        StillMappable(m, leaves, p, vpn + i, count - i);
      }
      return true, es;
    }

    /** One loadable segment of `create_process`: a VMA record at the front of the list, and pages. */
    method LoadSegment(p: Pid, g: Segment, ghost v: VM, ghost j: nat) returns (ok: bool, ghost es: seq<Event>)
      requires Valid() && p in roots && p in areas && Mappable(leaves, p, PagesOf(g))
      requires Local(v, V(), p) && AtMost(v, V(), j)
      modifies pool, pool.list, this`owner, this`areas, this`tables, this`nodes, this`leaves
      ensures !ok ==> pool.order == [] && Lacking(v, WithSegment(j, g))
      ensures ok ==>
                && Valid() && Local(v, V(), p) && AtMost(v, V(), WithSegment(j, g)) && p in areas
                && Plain(areas[p]) == [SegmentArea(g)] + Plain(old(areas)[p])
                && leaves.Keys == old(leaves).Keys + LeavesAt(p, PagesOf(g))
                && AddsPages(es, p, PagesOf(g))
                && Run(old(Contents()), es) == Some(Contents())
    {
      hide AtMost, Spent, Short, Lacking, WithSegment, TreeInv, RefInv, Pool.Valid, Pool.Managed, Local, LeavesOk, Run,
        LeavesAt, AddsPages, Mappable, PagesFrom, Plain, SegmentPages, Memory.Booted;
      es := [];
      ok := AddRecord(p, SegmentArea(g), v, j);
      if ok {
        ghost var u := V();
        ok, es := LoadPages(p, g.vaddr / 4096, SegmentPages(g));
        if ok {
          LocalTrans(v, u, V(), p);
          SegmentSpent(v, u, V(), j, g);
        } else {
          SegmentShort(v, u, j, g);
        }
      } else {
        RecordShort(v, j, g);
      }
    }

    /** What `create_process` does to memory: a PML4, the segments from the last to the first, the
        heap, and the stack with its first page.  What the image puts into the pages is left to
        later stores. */
    method Spawn(p: Pid, segs: seq<Segment>) returns (ok: bool, ghost es: seq<Event>)
      requires Valid() && p !in roots && GoodImage(segs)
      modifies pool, pool.list, this`owner, this`areas, this`tables, this`nodes, this`leaves, this`roots
      ensures !ok ==> pool.order == [] && |old(pool.order)| < SpawnPages(segs, 0) + 6
      ensures ok ==> AtMost(old(V()), V(), SpawnPages(segs, 0) + 6)
      ensures ok ==>
                && Valid() && Local(old(V()), V(), p) && p in roots && p in areas
                && Plain(areas[p]) == FirstAreas(segs) && Half(V(), p) == Fresh(kernelHalf)
                && LaidOut(areas[p], segs) && ImageMapped(old(leaves), leaves, p, segs)
                && AddsPages(es, p, Image(segs)) && Run(old(Contents()), es) == Some(Contents())
    {
      hide AtMost, PageCost, SpawnPages, TreeInv, RefInv, Pool.Valid, Pool.Managed, Local, LeavesOk, Run, Apply, Half,
        LeavesAt, Loaded, GoodImage, AddsPages, Absent, LaidOut, ImageMapped, FirstAreas;
      ghost var v, s := V(), Contents();
      es := [];
      SpawnAtLeast(segs, |segs|);
      ok := StartProcess(p);
      if !ok {
        return;
      }
      ok, es := LoadSegments(p, segs, v);
      if !ok {
        return;
      }
      StackFits(segs, p, s.leaves, leaves);
      ghost var e: Event;
      ok, e := StackAndHeap(p, v, SpawnPages(segs, 0));
      if ok {
        RunMore(s, es, e);
        AddsOne(es, p, Loaded(segs, 0), e);
        es := es + [e];
        AddedKeys(s, es, p, Image(segs));
        ImageIsMapped(s.leaves, leaves, p, segs);
        FirstList(areas[p], segs);
      }
    }

    /** The loop of `create_process` over the program headers, from the last to the first. */
    method LoadSegments(p: Pid, segs: seq<Segment>, ghost v: VM) returns (ok: bool, ghost es: seq<Event>)
      requires Valid() && p in roots && p in areas && areas[p] == [] && GoodImage(segs) && Absent(leaves, p)
      requires Local(v, V(), p) && AtMost(v, V(), 1)
      modifies pool, pool.list, this`owner, this`areas, this`tables, this`nodes, this`leaves
      ensures !ok ==> pool.order == [] && |v.free| < SpawnPages(segs, 0) + 6
      ensures ok ==>
                && Valid() && Local(v, V(), p) && p in areas && AtMost(v, V(), SpawnPages(segs, 0))
                && Plain(areas[p]) == SegmentAreas(segs, 0)
                && leaves.Keys == old(leaves).Keys + LeavesAt(p, Loaded(segs, 0))
                && AddsPages(es, p, Loaded(segs, 0)) && Run(old(Contents()), es) == Some(Contents())
    {
      hide AtMost, PageCost, SpawnPages, TreeInv, RefInv, Pool.Valid, Pool.Managed, Local, LeavesOk, Run,
        LeavesAt, Loaded, GoodImage, AddsPages, Mappable, PagesOf, Absent;
      ghost var s := Contents();
      es := [];
      SpawnAtLeast(segs, |segs|);
      RunNothing(s);
      NothingLoaded(p, segs);
      var i := |segs|;
      while i > 0
        invariant 0 <= i <= |segs|
        invariant Valid() && Local(v, V(), p) && p in roots && p in areas && AtMost(v, V(), SpawnPages(segs, i))
        invariant Plain(areas[p]) == SegmentAreas(segs, i)
        invariant leaves.Keys == old(leaves).Keys + LeavesAt(p, Loaded(segs, i))
        invariant AddsPages(es, p, Loaded(segs, i)) && Run(s, es) == Some(Contents())
      {
        i := i - 1;
        SegmentFits(segs, i, p, old(leaves), leaves);
        SpawnStep(segs, i);
        ghost var ds: seq<Event>;
        ok, ds := LoadSegment(p, segs[i], v, SpawnPages(segs, i + 1));
        if !ok {
          return;
        }
        MoreLoaded(segs, i, p, es, ds);
        RunConcat(s, es, ds);
        es := es + ds;
      }
      return true, es;
    }

    /** The first steps of `create_process`: an empty address space and an empty list. */
    method StartProcess(p: Pid) returns (ok: bool)
      requires Valid() && p !in roots
      modifies pool, pool.list, this`owner, this`areas, this`tables, this`nodes, this`roots
      ensures !ok ==> pool.order == [] == old(pool.order)
      ensures ok ==> AtMost(old(V()), V(), 1)
      ensures ok ==>
                && Valid() && Local(old(V()), V(), p) && p in roots && p in areas && areas[p] == []
                && Absent(leaves, p)
    {
      hide TreeInv, RefInv, Pool.Valid, Pool.Managed, Local, LeavesOk, Absent;
      ghost var v := V();
      NoProcess(v, p);
      ShapeOf(v);
      var r := NewRoot(p);
      if r.None? {
        return false;
      }
      ghost var u := V();
      RootedIsLocal(v, p);
      RootedAtMost(v, p);
      areas := areas[p := []];
      EmptyListOk(u, p);
      LocalTrans(v, u, V(), p);
      return true;
    }

    /** The last steps of `create_process`: the heap's record, a page of stack, the stack's record. */
    method StackAndHeap(p: Pid, ghost v: VM, ghost j: nat) returns (ok: bool, ghost e: Event)
      requires Valid() && p in roots && p in areas && Leaf(p, STACK / 4096) !in leaves
      requires Local(v, V(), p) && AtMost(v, V(), j)
      modifies pool, pool.list, this`owner, this`areas, this`tables, this`nodes, this`leaves
      ensures !ok ==> pool.order == [] && |v.free| < j + 6
      ensures ok ==>
                && Valid() && Local(v, V(), p) && AtMost(v, V(), j + 6) && p in areas
                && Plain(areas[p]) == [StackArea(), HeapArea()] + Plain(old(areas)[p])
                && Half(V(), p) == Fresh(kernelHalf)
                && e.Grown? && e.leaf == Leaf(p, STACK / 4096)
                && Apply(old(Contents()), e) == Some(Contents())
    {
      hide AtMost, TreeInv, RefInv, Pool.Valid, Pool.Managed, Local, LeavesOk, Apply, Half;
      e := TornDown(p);
      ok := AddRecord(p, HeapArea(), v, j);
      if !ok {
        return;
      }
      ghost var u := V();
      ok, e := AddPage(p, STACK);
      if !ok {
        TooFew(v, u, j + 1, 4);
        return;
      }
      ghost var w := V();
      AtMostMore(v, u, w, j + 1, 4);
      LocalTrans(v, u, w, p);
      ok := AddRecord(p, StackArea(), v, j + 5);
      if ok {
        SameHalf(w, V(), p);
      }
    }

    // ----- whole runs -----

    lemma TableCheck(q: Pid, a: nat)
      requires Sound() && q in roots
      ensures IsUser(a) && HasTables(tables, roots[q], 4, a) ==> OnPath(q, a, 1) in nodes
    {
      if IsUser(a) {
        assert OnPath(q, a, 4) == Top(q);
        HasTablesFrom(V(), q, a, 4);
      }
    }

    ghost function Now(): Snapshot
      reads this, pool, pool.list
    {
      Snapshot(V(), bytes)
    }

    lemma GoodNow()
      requires Valid()
      ensures Good(Now())
    {
      hide TreeInv, RefInv, LeavesOk;
      assert Distinct(pool.order);
    }
  }
}
