/**
 How many pages the kernel needs.  Each process books the pages it would hold if nothing were
 shared: its tables, its VMA records and one frame for each page it has mapped.  Sharing never
 needs more than that, so pages run out only where the bookings exceed what there is.
 */
module Budget {
  import opened Wrappers
  import opened FlatCow
  import opened PageTree
  import opened PageWalk
  import opened PageShare
  import opened MemorySpec
  import opened ProgramImage
  import opened Conservation
  import opened EagerCopy

  // ----- bookings -----

  /** The pages booked for each process. */
  type Sizes = map<Pid, nat>

  ghost function Pick(sz: Sizes): Pid
    requires sz != map[]
    ensures Pick(sz) in sz
  {
    var p :| p in sz;
    p
  }

  ghost function Total(sz: Sizes): nat {
    if sz == map[] then 0 else sz[Pick(sz)] + Total(sz - {Pick(sz)})
  }

  function SizeOf(sz: Sizes, p: Pid): nat { if p in sz then sz[p] else 0 }

  /** The bookings after an operation.  A new page is booked with the three tables it may need; a fork
      books the child what is booked for the parent; a store to a mapped page books nothing. */
  ghost function Booked(e: Eager, sz: Sizes, op: Op): Sizes {
    match op
    case Spawn(p, segs) => sz[p := SpawnPages(segs, 0) + 6]
    case Fork(p, c) => sz[c := SizeOf(sz, p)]
    case Write(p, a, _) =>
      if LeafOf(p, a) !in e.view && p in e.lists && InStack(e.lists[p], a) then sz[p := SizeOf(sz, p) + 4] else sz
    case Grow(p, n) => sz[p := SizeOf(sz, p) + PageCost(HeapPages(n))]
    case Reap(p) => sz - {p}
  }

  /** The bookings after a run of the reference machine. */
  ghost function Bookings(e: Eager, sz: Sizes, ops: seq<Op>, fills: seq<seq<Page>>): Sizes
    requires |fills| == |ops|
  {
    if ops == [] then sz
    else
      var n := |ops| - 1;
      Booked(RunOpsEager(e, ops[..n], fills[..n]), Bookings(e, sz, ops[..n], fills[..n]), ops[n])
  }

  lemma BookingsMore(e: Eager, sz: Sizes, ops: seq<Op>, fills: seq<seq<Page>>, op: Op, fill: seq<Page>)
    requires |fills| == |ops|
    ensures Bookings(e, sz, ops + [op], fills + [fill]) ==
            Booked(RunOpsEager(e, ops, fills), Bookings(e, sz, ops, fills), op)
  {
    hide Booked;
    assert (ops + [op])[..|ops|] == ops && (fills + [fill])[..|ops|] == fills;
  }

  lemma {:induction false} TotalLess(sz: Sizes, p: Pid)
    requires p in sz
    ensures Total(sz) == sz[p] + Total(sz - {p})
    decreases |sz|
  {
    var q := Pick(sz);
    if q != p {
      TotalLess(sz - {q}, p);
      TotalLess(sz - {p}, q);
      assert sz - {q} - {p} == sz - {p} - {q};
    }
  }

  lemma TotalSet(sz: Sizes, p: Pid, n: nat)
    ensures Total(sz[p := n]) == Total(sz) - SizeOf(sz, p) + n
  {
    hide Total;
    TotalLess(sz[p := n], p);
    assert sz[p := n] - {p} == sz - {p};
    if p in sz { TotalLess(sz, p); } else { assert sz - {p} == sz; }
  }

  // ----- what a process holds -----

  ghost function AreasFor(v: VM, p: Pid): seq<Area> { if p in v.areas then v.areas[p] else [] }

  /** The pages of `p` if it shared none. */
  ghost function Weight(v: VM, p: Pid): nat {
    |TablesOf(v, p)| + |AreasFor(v, p)| + |LeavesOf(v.leaves, p)|
  }

  ghost function Weights(v: VM): Sizes {
    map p | p in v.roots :: Weight(v, p)
  }

  ghost predicate Within(v: VM, sz: Sizes) {
    sz.Keys == v.roots.Keys && forall p <- sz :: Weight(v, p) <= sz[p]
  }

  lemma WithinWeights(v: VM)
    ensures Within(v, Weights(v))
  {
  }

  /** The pages that are not the kernel's own. */
  ghost function Capacity(v: VM): int { |v.owner| - |KernelPages(v.owner)| }

  ghost function AreaPagesOf(o: seq<Owner>, p: Pid): set<Frame> { set f | 0 <= f < |o| && o[f] == AreaOf(p) }

  /** Each VMA record lies in a page of its own. */
  lemma {:induction false} PagesCount(list: seq<Area>)
    requires forall j, k | 0 <= j < k < |list| :: list[j].frame != list[k].frame
    ensures |Pages(list)| == |list|
  {
    if list != [] {
      var n := |list| - 1;
      PagesCount(list[..n]);
      assert Pages(list) == Pages(list[..n]) + {list[n].frame};
      assert list[n].frame !in Pages(list[..n]);
    }
  }

  lemma AreasCounted(v: VM, p: Pid)
    requires AreasOk(v)
    ensures |AreaPagesOf(v.owner, p)| == |AreasFor(v, p)|
  {
    assert AreaPagesOf(v.owner, p) == Pages(AreasFor(v, p));
    PagesCount(AreasFor(v, p));
  }

  /** Things that each belong to one process. */
  ghost function Owned<T(!new)>(items: map<T, Pid>, p: Pid): set<T> { set x | x in items && items[x] == p }

  ghost function Unowned<T(!new)>(items: map<T, Pid>, p: Pid): map<T, Pid> {
    map x | x in items && items[x] != p :: items[x]
  }

  lemma UnownedCount<T(!new)>(items: map<T, Pid>, p: Pid)
    ensures |Unowned(items, p)| == |items| - |Owned(items, p)|
    ensures forall q | q != p :: Owned(Unowned(items, p), q) == Owned(items, q)
  {
    assert Unowned(items, p).Keys == items.Keys - Owned(items, p);
    assert |items.Keys - Owned(items, p)| == |items.Keys| - |Owned(items, p)|;
  }

  lemma {:induction false} OwnedTotal<T(!new)>(items: map<T, Pid>, sz: Sizes)
    requires (forall x <- items :: items[x] in sz) && forall p <- sz :: sz[p] == |Owned(items, p)|
    ensures |items| == Total(sz)
    decreases |sz|
  {
    hide Owned;
    if sz != map[] {
      var p := Pick(sz);
      UnownedCount(items, p);
      OwnedTotal(Unowned(items, p), sz - {p});
    } else {
      assert items == map[];
    }
  }

  lemma {:induction false} TotalSum(a: Sizes, b: Sizes, c: Sizes, sz: Sizes)
    requires a.Keys == b.Keys == c.Keys == sz.Keys && forall p <- sz :: a[p] + b[p] + c[p] <= sz[p]
    ensures Total(a) + Total(b) + Total(c) <= Total(sz)
    decreases |sz|
  {
    if sz != map[] {
      var p := Pick(sz);
      TotalLess(a, p);
      TotalLess(b, p);
      TotalLess(c, p);
      TotalSum(a - {p}, b - {p}, c - {p}, sz - {p});
    }
  }

  lemma TablesTotal(v: VM, keys: set<Pid>)
    requires forall n <- v.nodes :: n.pid in keys
    ensures |v.nodes| == Total(map p | p in keys :: |TablesOf(v, p)|)
  {
    var items := map n | n in v.nodes :: n.pid;
    forall p <- keys
      ensures Owned(items, p) == TablesOf(v, p)
    {
    }
    OwnedTotal(items, map p | p in keys :: |TablesOf(v, p)|);
    assert items.Keys == v.nodes.Keys;
  }

  lemma LeavesTotal(v: VM, keys: set<Pid>)
    requires forall l <- v.leaves :: l.pid in keys
    ensures |v.leaves| == Total(map p | p in keys :: |LeavesOf(v.leaves, p)|)
  {
    var items := map l | l in v.leaves :: l.pid;
    forall p <- keys
      ensures Owned(items, p) == LeavesOf(v.leaves, p)
    {
    }
    OwnedTotal(items, map p | p in keys :: |LeavesOf(v.leaves, p)|);
    assert items.Keys == v.leaves.Keys;
  }

  lemma AreasTotal(v: VM, keys: set<Pid>)
    requires AreasOk(v) && v.areas.Keys <= keys
    ensures |AreaPages(v.owner)| == Total(map p | p in keys :: |AreasFor(v, p)|)
  {
    var items := map f | f in AreaPages(v.owner) :: v.owner[f].pid;
    forall p <- keys
      ensures |Owned(items, p)| == |AreasFor(v, p)|
    {
      assert Owned(items, p) == AreaPagesOf(v.owner, p);
      AreasCounted(v, p);
    }
    OwnedTotal(items, map p | p in keys :: |AreasFor(v, p)|);
    assert items.Keys == AreaPages(v.owner);
  }

  /** All that is held is no more than all that is booked. */
  lemma HoldingsBound(v: VM, sz: Sizes)
    requires TreeInv(v) && Within(v, sz)
    ensures |v.nodes| + |v.leaves| + |AreaPages(v.owner)| <= Total(sz)
  {
    hide TreeInv, Total, TablesOf, LeavesOf, AreasFor, AreaPages;
    HoldersKnown(v);
    AreasOf(v);
    var keys := v.roots.Keys;
    TablesTotal(v, keys);
    LeavesTotal(v, keys);
    AreasTotal(v, keys);
    TotalSum(map p | p in keys :: |TablesOf(v, p)|, map p | p in keys :: |AreasFor(v, p)|,
             map p | p in keys :: |LeavesOf(v.leaves, p)|, sz);
  }

  lemma HoldersKnown(v: VM)
    requires TreeInv(v)
    ensures (forall n <- v.nodes :: n.pid in v.roots) && (forall l <- v.leaves :: l.pid in v.roots)
    ensures v.areas.Keys <= v.roots.Keys
  {
    hide TreeInv;
    forall n <- v.nodes
      ensures n.pid in v.roots
    {
      if n.pid !in v.roots { NoProcess(v, n.pid); }
    }
    forall l <- v.leaves
      ensures l.pid in v.roots
    {
      if l.pid !in v.roots { NoProcess(v, l.pid); }
    }
    AreasOf(v);
  }

  // ----- frames -----

  lemma {:induction false} FramesFewer(m: LeafMap)
    ensures |Frames(m)| <= |m|
    decreases |m|
  {
    if m != map[] {
      var l :| l in m;
      var rest := m - {l};
      FramesFewer(rest);
      FramesMinus(m, l);
      assert rest.Keys == m.Keys - {l} && |rest.Keys| == |m.Keys| - 1;
    }
  }

  lemma FramesMinus(m: LeafMap, l: Leaf)
    requires l in m
    ensures Frames(m) == Frames(m - {l}) + {m[l].frame}
  {
    var rest := m - {l};
    forall f | f in Frames(m)
      ensures f in Frames(rest) + {m[l].frame}
    {
      var k :| k in m && m[k].frame == f;
      assert k == l || k in rest;
    }
  }

  /** A frame with two sharers saves a page. */
  lemma SharedSaves(m: LeafMap, l: Leaf)
    requires l in m && |Sharers(m, m[l].frame)| == 2
    ensures |Frames(m)| < |m|
  {
    var rest := m - {l};
    FramesFewer(rest);
    FramesMinus(m, l);
    assert rest.Keys == m.Keys - {l} && |rest.Keys| == |m.Keys| - 1;
    var two := Sharers(m, m[l].frame);
    assert |two - {l}| == 1;
    var k :| k in two - {l};
    assert k in rest && rest[k].frame == m[l].frame;
    assert Frames(m) == Frames(rest);
  }

  /** Without processes every page that is not the kernel's is free. */
  lemma AllFree(s: Snapshot)
    requires Good(s) && s.vm.roots == map[]
    ensures |s.vm.free| == Capacity(s.vm)
  {
    hide TreeInv, RefInv, LeavesOk, Frames, Distinct;
    Accounting(s.vm);
    HoldingsBound(s.vm, map[]);
    FramesFewer(s.vm.leaves);
  }

  /** Free pages and bookings together make up the capacity, and more where a frame is shared. */
  lemma Room(s: Snapshot, sz: Sizes)
    requires Good(s) && Within(s.vm, sz)
    ensures Capacity(s.vm) <= |s.vm.free| + Total(sz)
    ensures forall l <- s.vm.leaves | |Sharers(s.vm.leaves, s.vm.leaves[l].frame)| == 2 ::
              Capacity(s.vm) < |s.vm.free| + Total(sz)
  {
    hide TreeInv, RefInv, LeavesOk, Within, Frames, Sharers, Distinct;
    var v := s.vm;
    Accounting(v);
    HoldingsBound(v, sz);
    FramesFewer(v.leaves);
    forall l <- v.leaves | |Sharers(v.leaves, v.leaves[l].frame)| == 2
      ensures Capacity(v) < |v.free| + Total(sz)
    {
      SharedSaves(v.leaves, l);
    }
  }

  // ----- an operation on one process -----

  /** Only the leaves of `p` are different. */
  ghost predicate OnlyLeavesOf(m: LeafMap, m': LeafMap, p: Pid) {
    forall l: Leaf | l.pid != p :: l in m <==> l in m'
  }

  lemma SameWeight(v: VM, w: VM, p: Pid, q: Pid)
    requires Local(v, w, p) && OnlyLeavesOf(v.leaves, w.leaves, p) && q != p
    ensures Weight(w, q) == Weight(v, q)
  {
    assert TablesOf(w, q) == TablesOf(v, q);
    assert LeavesOf(w.leaves, q) == LeavesOf(v.leaves, q);
  }

  lemma SameCapacity(v: VM, w: VM, p: Pid)
    requires Local(v, w, p)
    ensures KernelPages(w.owner) == KernelPages(v.owner) && Capacity(w) == Capacity(v)
  {
  }

  lemma AreasChange(v: VM, w: VM, p: Pid)
    requires AreasOk(v) && AreasOk(w) && Local(v, w, p)
    ensures |AreaPages(w.owner)| - |AreaPages(v.owner)| == |AreasFor(w, p)| - |AreasFor(v, p)|
  {
    var a, b := AreaPagesOf(v.owner, p), AreaPagesOf(w.owner, p);
    AreasCounted(v, p);
    AreasCounted(w, p);
    OtherAreas(v, w, p);
    assert |AreaPages(v.owner) - a| == |AreaPages(v.owner)| - |a|;
    assert |AreaPages(w.owner) - b| == |AreaPages(w.owner)| - |b|;
  }

  /** A record of another process stays where it is. */
  lemma AreaStays(v: VM, w: VM, p: Pid, x: Frame)
    requires AreasOk(v) && AreasOk(w) && Local(v, w, p)
    requires x < |v.owner| && v.owner[x].AreaOf? && v.owner[x].pid != p
    ensures x < |w.owner| && w.owner[x] == v.owner[x]
  {
    var q := v.owner[x].pid;
    assert x in Pages(v.areas[q]);
    assert w.areas[q] == v.areas[q];
    var k :| 0 <= k < |w.areas[q]| && w.areas[q][k].frame == x;
  }

  lemma LocalBack(v: VM, w: VM, p: Pid)
    requires Local(v, w, p)
    ensures Local(w, v, p)
  {
  }

  lemma OtherAreas(v: VM, w: VM, p: Pid)
    requires AreasOk(v) && AreasOk(w) && Local(v, w, p)
    ensures AreaPages(v.owner) - AreaPagesOf(v.owner, p) == AreaPages(w.owner) - AreaPagesOf(w.owner, p)
    ensures AreaPagesOf(v.owner, p) <= AreaPages(v.owner) && AreaPagesOf(w.owner, p) <= AreaPages(w.owner)
  {
    hide AreasOk, Local;
    LocalBack(v, w, p);
    forall x | x in AreaPages(v.owner) - AreaPagesOf(v.owner, p)
      ensures x in AreaPages(w.owner) - AreaPagesOf(w.owner, p)
    {
      AreaStays(v, w, p, x);
    }
    forall x | x in AreaPages(w.owner) - AreaPagesOf(w.owner, p)
      ensures x in AreaPages(v.owner) - AreaPagesOf(v.owner, p)
    {
      AreaStays(w, v, p, x);
    }
  }

  lemma TablesChange(v: VM, w: VM, p: Pid)
    requires Local(v, w, p)
    ensures |w.nodes| - |v.nodes| == |TablesOf(w, p)| - |TablesOf(v, p)|
  {
    assert w.nodes.Keys - TablesOf(w, p) == v.nodes.Keys - TablesOf(v, p);
    assert |w.nodes.Keys - TablesOf(w, p)| == |w.nodes| - |TablesOf(w, p)|;
    assert |v.nodes.Keys - TablesOf(v, p)| == |v.nodes| - |TablesOf(v, p)|;
  }

  /** Where the pages went that are no longer free: no page leaks. */
  lemma FreeChange(s: Snapshot, t: Snapshot, p: Pid)
    requires Good(s) && Good(t) && Local(s.vm, t.vm, p)
    ensures |s.vm.free| - |t.vm.free| ==
            (|TablesOf(t.vm, p)| - |TablesOf(s.vm, p)|) + (|AreasFor(t.vm, p)| - |AreasFor(s.vm, p)|)
            + (|Frames(t.vm.leaves)| - |Frames(s.vm.leaves)|)
  {
    hide TreeInv, RefInv, LeavesOk, Local, Frames, Distinct, TablesOf, AreasFor;
    Accounting(s.vm);
    Accounting(t.vm);
    SameCapacity(s.vm, t.vm, p);
    TablesChange(s.vm, t.vm, p);
    AreasOf(s.vm);
    AreasOf(t.vm);
    AreasChange(s.vm, t.vm, p);
    SameOwnerCount(s.vm, t.vm, p);
  }

  lemma SameOwnerCount(v: VM, w: VM, p: Pid)
    requires Local(v, w, p)
    ensures |w.owner| == |v.owner|
  {
  }

  // ----- what the operations do to the leaves -----

  /** Every new leaf of `p` has a new frame. */
  ghost predicate NewFrames(m: LeafMap, m': LeafMap, p: Pid) {
    && OnlyLeavesOf(m, m', p)
    && |Frames(m')| - |Frames(m)| == |LeavesOf(m', p)| - |LeavesOf(m, p)|
  }

  lemma GrownFrames(m: LeafMap, l: Leaf, f: Frame)
    requires l !in m && f !in Frames(m)
    ensures NewFrames(m, m[l := Fresh(f)], l.pid)
  {
    var m' := m[l := Fresh(f)];
    assert LeavesOf(m', l.pid) == LeavesOf(m, l.pid) + {l};
    assert m' - {l} == m;
    FramesMinus(m', l);
  }

  lemma {:induction false} AddedFrames(s: Flat, es: seq<Event>, p: Pid, vpns: seq<nat>)
    requires AddsPages(es, p, vpns) && Run(s, es).Some?
    ensures NewFrames(s.leaves, Run(s, es).value.leaves, p)
    decreases |es|
  {
    hide Frames, LeavesOf;
    if es != [] {
      var n := |es| - 1;
      AddedFrames(s, es[..n], p, vpns[..n]);
      var t := Run(s, es[..n]).value;
      GrownFrames(t.leaves, es[n].leaf, es[n].spare);
    }
  }

  /** A store: a mapped page stays the only change, an unmapped one gets a new frame. */
  lemma StoredLeaves(s: Flat, t: Flat, l: Leaf, offset: nat, x: int, es: seq<Event>)
    requires StoreEvents(s, l, offset, x, es) && Run(s, es) == Some(t)
    ensures l in s.leaves ==> t.leaves.Keys == s.leaves.Keys
    ensures l !in s.leaves ==> NewFrames(s.leaves, t.leaves, l.pid)
  {
    hide Frames, LeavesOf, NewFrames, Sharers;
    if l in s.leaves {
      assert es[..0] == [];
    } else {
      var g := es[..1];
      assert g[..0] == [] && Run(s, g) == Apply(s, g[0]);
      assert Run(s, es) == Apply(Run(s, g).value, es[1]);
      GrownFrames(s.leaves, l, es[0].spare);
    }
  }

  /** A fork: no new frame, and as many leaves for the child as the parent has. */
  lemma SharedFrames(m: LeafMap, p: Pid, c: Pid)
    requires p != c && Absent(m, c)
    ensures Frames(Share(m, p, c)) == Frames(m)
  {
    var m' := Share(m, p, c);
    forall f | f in Frames(m)
      ensures f in Frames(m')
    {
      var l :| l in m && m[l].frame == f;
      assert m'[l].frame == f;
    }
    forall f | f in Frames(m')
      ensures f in Frames(m)
    {
      var l :| l in m' && m'[l].frame == f;
      assert l in m || m[Leaf(p, l.vpn)].frame == f;
    }
  }

  lemma SharedLeaves(m: LeafMap, p: Pid, c: Pid)
    requires p != c && Absent(m, c)
    ensures OnlyLeavesOf(m, Share(m, p, c), c) && |LeavesOf(Share(m, p, c), c)| == |LeavesOf(m, p)|
  {
    assert LeavesOf(Share(m, p, c), c) == set l | l in LeavesOf(m, p) :: Leaf(c, l.vpn);
    TwinCount(LeavesOf(m, p), p, c);
  }

  lemma {:induction false} TwinCount(s: set<Leaf>, p: Pid, c: Pid)
    requires forall l <- s :: l.pid == p
    ensures |set l | l in s :: Leaf(c, l.vpn)| == |s|
  {
    if s != {} {
      var x :| x in s;
      TwinCount(s - {x}, p, c);
      assert (set l | l in s :: Leaf(c, l.vpn)) == (set l | l in s - {x} :: Leaf(c, l.vpn)) + {Leaf(c, x.vpn)};
    }
  }

  // ----- bookings are kept -----

  lemma WithinSet(v: VM, w: VM, p: Pid, sz: Sizes, n: nat)
    requires Within(v, sz) && Local(v, w, p) && OnlyLeavesOf(v.leaves, w.leaves, p)
    requires p in w.roots && Weight(w, p) <= n
    ensures Within(w, sz[p := n])
  {
    hide Weight, OnlyLeavesOf;
    forall q <- sz[p := n]
      ensures Weight(w, q) <= sz[p := n][q]
    {
      if q != p { SameWeight(v, w, p, q); }
    }
    RootsKept(v, w, p);
  }

  lemma RootsKept(v: VM, w: VM, p: Pid)
    requires Local(v, w, p)
    ensures v.roots.Keys - {p} == w.roots.Keys - {p}
  {
    forall q | q != p
      ensures q in v.roots.Keys <==> q in w.roots.Keys
    {
      assert q in v.roots <==> q in w.roots;
    }
  }

  /** A process that has nothing weighs nothing. */
  lemma WeightBooked(v: VM, p: Pid, sz: Sizes)
    requires TreeInv(v) && Within(v, sz)
    ensures Weight(v, p) <= SizeOf(sz, p)
  {
    hide TreeInv;
    if p !in v.roots { NoWeight(v, p); }
  }

  /** Pages added to a process, new or not. */
  lemma WithinGrown(s: Snapshot, t: Snapshot, p: Pid, sz: Sizes, k: nat)
    requires Good(s) && Good(t) && Within(s.vm, sz) && Local(s.vm, t.vm, p) && p in t.vm.roots
    requires NewFrames(s.vm.leaves, t.vm.leaves, p) && AtMost(s.vm, t.vm, k)
    ensures Within(t.vm, sz[p := SizeOf(sz, p) + k])
  {
    hide TreeInv, RefInv, LeavesOk, Within, Local, Frames, Distinct, TablesOf, AreasFor, LeavesOf, OnlyLeavesOf;
    FreeChange(s, t, p);
    WeightBooked(s.vm, p, sz);
    WithinSet(s.vm, t.vm, p, sz, SizeOf(sz, p) + k);
  }

  lemma WithinStored(v: VM, w: VM, sz: Sizes)
    requires Within(v, sz) && w.nodes == v.nodes && w.areas == v.areas && w.leaves.Keys == v.leaves.Keys
    requires w.roots == v.roots
    ensures Within(w, sz)
  {
    forall p <- sz
      ensures Weight(w, p) == Weight(v, p)
    {
      assert TablesOf(w, p) == TablesOf(v, p);
      assert LeavesOf(w.leaves, p) == LeavesOf(v.leaves, p);
    }
  }

  lemma WithinForked(s: Snapshot, t: Snapshot, p: Pid, c: Pid, sz: Sizes)
    requires Good(s) && Good(t) && Within(s.vm, sz) && Local(s.vm, t.vm, c) && c in t.vm.roots
    requires p in s.vm.roots && c !in s.vm.roots && Apply(FlatOf(s), Forked(p, c)) == Some(FlatOf(t))
    requires |t.vm.free| + |TablesOf(s.vm, p)| + |AreasFor(s.vm, p)| >= |s.vm.free|
    ensures Within(t.vm, sz[c := SizeOf(sz, p)])
  {
    hide TreeInv, RefInv, LeavesOk, Within, Local, Frames, Distinct, TablesOf, AreasFor, LeavesOf, OnlyLeavesOf, Share;
    FreeChange(s, t, c);
    SharedFrames(s.vm.leaves, p, c);
    SharedLeaves(s.vm.leaves, p, c);
    NoWeight(s.vm, c);
    WeightBooked(s.vm, p, sz);
    WithinSet(s.vm, t.vm, c, sz, SizeOf(sz, p));
  }

  lemma NoWeight(v: VM, p: Pid)
    requires TreeInv(v) && p !in v.roots
    ensures |TablesOf(v, p)| == |AreasFor(v, p)| == |LeavesOf(v.leaves, p)| == 0
  {
    hide TreeInv;
    NoProcess(v, p);
    assert TablesOf(v, p) == {} && LeavesOf(v.leaves, p) == {};
  }

  lemma WithinReaped(v: VM, w: VM, p: Pid, sz: Sizes)
    requires Within(v, sz) && Local(v, w, p) && p !in w.roots && w.leaves == Drop(v.leaves, p)
    ensures Within(w, sz - {p})
  {
    hide Weight, Local;
    forall q <- sz - {p}
      ensures Weight(w, q) <= sz[q]
    {
      SameWeight(v, w, p, q);
    }
    RootsKept(v, w, p);
    assert sz.Keys - {p} == w.roots.Keys;
  }
}
