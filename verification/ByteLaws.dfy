/**
 What programs observe, byte by byte and through the page tables alone: a store is read back and
 disturbs nothing else, a child reads what its parent reads, and no other operation changes a
 byte.  Two instances follow, a store to a data segment after a fork and an arena of the
 allocator.
 */
module ByteLaws {
  import opened Wrappers
  import opened PagePool
  import opened FlatCow
  import opened PageTree
  import opened PageWalk
  import opened MemorySpec
  import opened Conservation
  import opened ProgramImage
  import opened EagerCopy
  import opened Budget
  import opened Machine
  import opened MachineRuns
  import Heap

  /** The byte at address `b` of process `q`: the walk, and the frame it leads to. */
  ghost function ByteAt(s: Snapshot, q: Pid, b: nat): Option<int> {
    if q !in s.vm.roots then None
    else
      match Walk(s.vm.tables, s.vm.roots[q], 4, b)
      case None => None
      case Some(e) =>
        if e.frame < |s.bytes| && b % 4096 < |s.bytes[e.frame]| then Some(s.bytes[e.frame][b % 4096]) else None
  }

  /** A state between two operations; pages are whole. */
  ghost predicate Sound(s: Snapshot) {
    Good(s) && Fine(s) && forall f | 0 <= f < |s.bytes| :: |s.bytes[f]| == 4096
  }

  lemma NowSound(m: Memory)
    requires m.Valid()
    ensures Sound(m.Now())
  {
    hide TreeInv, RefInv, LeavesOk, Good, Fine;
    m.GoodNow();
    NowFine(m);
  }

  /** What the walk finds is what the process is shown. */
  lemma ByteShown(s: Snapshot, q: Pid, b: nat)
    requires Sound(s) && IsUser(b)
    ensures LeafOf(q, b) in Shown(s).view ==> |Shown(s).view[LeafOf(q, b)]| == 4096
    ensures ByteAt(s, q, b) ==
            if LeafOf(q, b) in Shown(s).view then Some(Shown(s).view[LeafOf(q, b)][b % 4096]) else None
  {
    hide TreeInv, RefInv, LeavesOk, Walk, IsUser;
    if q in s.vm.roots {
      WalkIsFlat(s.vm, q, b);
    } else {
      NoProcess(s.vm, q);
    }
  }

  /** A store that is made: the byte is there, and every other byte of every process is what it was. */
  lemma StoreLaw(s: Snapshot, t: Snapshot, p: Pid, a: nat, x: int, fill: seq<Page>)
    requires Sound(s) && Sound(t) && IsUser(a) && Agrees(s, Write(p, a, x), fill, true, t)
    ensures ByteAt(t, p, a) == Some(x)
    ensures forall q: Pid, b: nat | IsUser(b) && (q, b) != (p, a) && ByteAt(s, q, b).Some? ::
              ByteAt(t, q, b) == ByteAt(s, q, b)
  {
    hide Sound, Shown, Fine, ByteAt, InStack, IsUser;
    ByteShown(t, p, a);
    AddedOne(Shown(s).view, p, a / 4096, fill);
    forall q: Pid, b: nat | IsUser(b) && (q, b) != (p, a) && ByteAt(s, q, b).Some?
      ensures ByteAt(t, q, b) == ByteAt(s, q, b)
    {
      ByteShown(s, q, b);
      ByteShown(t, q, b);
      OtherByte(p, a, q, b);
    }
  }

  lemma OtherByte(p: Pid, a: nat, q: Pid, b: nat)
    requires (q, b) != (p, a)
    ensures LeafOf(q, b) != LeafOf(p, a) || b % 4096 != a % 4096
  {
  }

  /** A fork: the child reads what the parent reads, at every address, and everybody else, the parent
      included, what they read before. */
  lemma ForkLaw(s: Snapshot, t: Snapshot, p: Pid, c: Pid)
    requires Sound(s) && Sound(t) && Agrees(s, Fork(p, c), [], true, t) && c !in s.vm.roots
    ensures forall b: nat | IsUser(b) :: ByteAt(t, c, b) == ByteAt(s, p, b)
    ensures forall q: Pid, b: nat | q != c && IsUser(b) :: ByteAt(t, q, b) == ByteAt(s, q, b)
  {
    hide Sound, Shown, Fine, ByteAt, IsUser;
    forall b: nat | IsUser(b)
      ensures ByteAt(t, c, b) == ByteAt(s, p, b)
    {
      ByteShown(t, c, b);
      ByteShown(s, p, b);
      ByteShown(s, c, b);
      Childless(s, c, b);
      assert LeafOf(c, b) == Leaf(c, b / 4096) && LeafOf(p, b) == Leaf(p, b / 4096);
    }
    forall q: Pid, b: nat | q != c && IsUser(b)
      ensures ByteAt(t, q, b) == ByteAt(s, q, b)
    {
      ByteShown(t, q, b);
      ByteShown(s, q, b);
    }
  }

  lemma Childless(s: Snapshot, c: Pid, b: nat)
    requires Sound(s) && c !in s.vm.roots
    ensures LeafOf(c, b) !in Shown(s).view
  {
    hide TreeInv, RefInv, LeavesOk;
    NoProcess(s.vm, c);
  }

  /** A reap: the process reads nothing more, and everybody else what they read before. */
  lemma ReapLaw(s: Snapshot, t: Snapshot, p: Pid)
    requires Sound(s) && Sound(t) && Agrees(s, Reap(p), [], true, t)
    ensures forall q: Pid, b: nat | IsUser(b) :: ByteAt(t, q, b) == if q == p then None else ByteAt(s, q, b)
  {
    hide Sound, Shown, Fine, ByteAt, IsUser;
    forall q: Pid, b: nat | IsUser(b)
      ensures ByteAt(t, q, b) == if q == p then None else ByteAt(s, q, b)
    {
      ByteShown(t, q, b);
      ByteShown(s, q, b);
    }
  }

  /** Heap growth and a new program change no byte that could be read. */
  lemma GrowthLaw(s: Snapshot, t: Snapshot, op: Op, fill: seq<Page>)
    requires Sound(s) && Sound(t) && Agrees(s, op, fill, true, t)
    requires op.Grow? || (op.Spawn? && op.pid !in s.vm.roots)
    ensures forall q: Pid, b: nat | IsUser(b) && ByteAt(s, q, b).Some? :: ByteAt(t, q, b) == ByteAt(s, q, b)
  {
    hide Sound, Shown, Fine, ByteAt, IsUser, GoodImage, Image, FirstAreas, HeapPages;
    var p := op.pid;
    var vpns := if op.Grow? then PagesFrom(Shown(s).lists[p][1].end / 4096, HeapPages(op.size)) else Image(op.segs);
    forall q: Pid, b: nat | IsUser(b) && ByteAt(s, q, b).Some?
      ensures ByteAt(t, q, b) == ByteAt(s, q, b)
    {
      ByteShown(t, q, b);
      ByteShown(s, q, b);
      if op.Spawn? { Childless(s, p, b); }
      AddedElsewhere(Shown(s).view, p, vpns, fill, LeafOf(q, b));
    }
  }

  lemma {:induction false} AddedElsewhere(v: View, p: Pid, vpns: seq<nat>, fill: seq<Page>, l: Leaf)
    requires l in v && (l.pid == p ==> l.vpn !in vpns)
    ensures l in Added(v, p, vpns, fill) && Added(v, p, vpns, fill)[l] == v[l]
    decreases |vpns|
  {
    if vpns != [] { AddedElsewhere(v, p, vpns[..|vpns| - 1], fill, l); }
  }

  /** A new program can read every byte of its segments, and of the pages around them and the first
      page of its stack, and nothing else. */
  lemma SpawnLaw(v: VM, t: Snapshot, p: Pid, segs: seq<Segment>, a: nat)
    requires Sound(t) && IsUser(a) && TreeInv(v) && p !in v.roots && ImageMapped(v.leaves, t.vm.leaves, p, segs)
    ensures ByteAt(t, p, a).Some? <==>
            || a / 4096 == 0x100F_FFFF_0000 / 4096
            || exists j | 0 <= j < |segs| ::
                 segs[j].vaddr / 4096 <= a / 4096 && a / 4096 * 4096 < segs[j].vaddr + segs[j].memsz
    ensures forall j | 0 <= j < |segs| && segs[j].vaddr <= a < segs[j].vaddr + segs[j].memsz :: ByteAt(t, p, a).Some?
  {
    hide TreeInv, Sound, ByteAt, IsUser, LoopMaps;
    NoProcess(v, p);
    ByteShown(t, p, a);
    ShownKeys(t, LeafOf(p, a));
    assert Leaf(p, a / 4096) == LeafOf(p, a);
    LoopsMap(segs, a / 4096);
    forall j | 0 <= j < |segs| && segs[j].vaddr <= a < segs[j].vaddr + segs[j].memsz
      ensures ByteAt(t, p, a).Some?
    {
      assert segs[j].vaddr / 4096 <= a / 4096;
    }
  }

  lemma ShownKeys(t: Snapshot, l: Leaf)
    requires Sound(t)
    ensures Fine(t) && (l in Shown(t).view <==> l in t.vm.leaves)
  {
  }

  lemma LoopsMap(segs: seq<Segment>, x: nat)
    ensures (exists j | 0 <= j < |segs| :: LoopMaps(segs[j], x)) <==>
            exists j | 0 <= j < |segs| :: segs[j].vaddr / 4096 <= x && x * 4096 < segs[j].vaddr + segs[j].memsz
  {
    if j :| 0 <= j < |segs| && LoopMaps(segs[j], x) { assert segs[j].vaddr / 4096 <= x; }
    if j :| 0 <= j < |segs| && segs[j].vaddr / 4096 <= x && x * 4096 < segs[j].vaddr + segs[j].memsz {
      assert LoopMaps(segs[j], x);
    }
  }

  // ----- a data segment after a fork -----

  /** No more pages than this are taken by a new program, a fork of it and one store. */
  ghost function ForkedStorePages(segs: seq<Segment>): nat {
    2 * (SpawnPages(segs, 0) + 6) + |segs| + 3
  }

  /** A page of a segment is mapped, and a byte strictly inside the segment is in bounds. */
  lemma SegmentByte(v: VM, w: VM, p: Pid, segs: seq<Segment>, j: nat, a: nat)
    requires p in w.areas && LaidOut(w.areas[p], segs) && ImageMapped(v.leaves, w.leaves, p, segs)
    requires j < |segs| && segs[j].vaddr < a < segs[j].vaddr + segs[j].memsz
    ensures LeafOf(p, a) in w.leaves && |w.areas[p]| == |segs| + 2
    ensures w.areas[p][j + 2].start < a < w.areas[p][j + 2].end
  {
    assert LoopMaps(segs[j], a / 4096);
    assert Leaf(p, a / 4096) in w.leaves;
  }


  lemma {:induction false} AddedWritable(s: Flat, es: seq<Event>, p: Pid, vpns: seq<nat>, l: Leaf)
    requires AddsPages(es, p, vpns) && Run(s, es).Some? && l !in s.leaves && l in Run(s, es).value.leaves
    ensures Run(s, es).value.leaves[l].writable
    decreases |es|
  {
    if es != [] {
      var n := |es| - 1;
      if l in Run(s, es[..n]).value.leaves { AddedWritable(s, es[..n], p, vpns[..n], l); }
    }
  }

  /** After the fork the page has two sharers, parent and child, and neither can write it. */
  lemma TwoSharers(s: Flat, t: Flat, p: Pid, c: Pid, l: Leaf)
    requires LeavesOk(s.leaves) && l in s.leaves && l.pid == p && s.leaves[l].writable
    requires Apply(s, Forked(p, c)) == Some(t)
    ensures l in t.leaves && !t.leaves[l].writable && |Sharers(t.leaves, t.leaves[l].frame)| == 2
  {
    hide Share;
    ForkTwins(s, t, p, c, l);
    ShareSharers(s.leaves, p, c, s.leaves[l].frame);
    assert Sharers(t.leaves, s.leaves[l].frame) == {l, Leaf(c, l.vpn)};
  }

  /** A new program and a child of it. */
  method SpawnAndFork(m: Memory, p: Pid, c: Pid, segs: seq<Segment>, j: nat, a: nat) returns (short: bool)
    requires m.Valid() && Settled(m.V()) && p !in m.roots && c !in m.roots && p != c && GoodImage(segs)
    requires j < |segs| && segs[j].vaddr < a < segs[j].vaddr + segs[j].memsz
    modifies m, m.pool, m.pool.list
    ensures short ==> |old(m.pool.order)| < ForkedStorePages(segs)
    ensures !short ==>
              && m.Valid() && Settled(m.V()) && p in m.roots && |m.List(p)| == |segs| + 2
              && m.List(p)[j + 2].start < a < m.List(p)[j + 2].end
              && LeafOf(p, a) in m.leaves && !m.leaves[LeafOf(p, a)].writable
              && |Sharers(m.leaves, m.leaves[LeafOf(p, a)].frame)| == 2
              && |m.pool.order| + ForkedStorePages(segs) > |old(m.pool.order)|
  {
    hide TreeInv, RefInv, LeavesOk, Pool.Valid, Pool.Managed, Local, Agrees, Fine, GoodImage, AtMost, Apply, TablesOf,
      Paid, Run, AddsPages, SpawnPages, FirstAreas, LaidOut, ImageMapped, Half, Sharers, LeafOf;
    ghost var v, f := m.V(), m.Contents();
    NoProcess(v, p);
    NoTables(v, p);
    var ok, es := m.Spawn(p, segs);
    if !ok {
      return true;
    }
    ghost var v1, f1 := m.V(), m.Contents();
    SegmentByte(v, v1, p, segs, j, a);
    LeafHere(v, p, a);
    AddedWritable(f, es, p, Image(segs), LeafOf(p, a));
    StaysSettled(v, v1, p);
    TablesAtMost(v, v1, p, SpawnPages(segs, 0) + 6);
    OthersSame(v, v1, c, p);
    short := DoFork(m, p, c);
    if !short {
      TwoSharers(f1, m.Contents(), p, c, LeafOf(p, a));
      OthersSame(v1, m.V(), p, c);
    }
  }

  lemma LeafHere(v: VM, p: Pid, a: nat)
    requires Absent(v.leaves, p)
    ensures LeafOf(p, a) !in v.leaves && LeafOf(p, a).pid == p
  {
  }

  /** A program forks and then stores to a byte inside one of its segments: the store goes through, the
      program reads it back, and the child still reads what was there.  It happens whenever enough
      pages are free. */
  method SegmentStoreAfterFork(m: Memory, p: Pid, c: Pid, segs: seq<Segment>, j: nat, a: nat, x: int)
    returns (short: bool, o: Outcome, ghost s: Snapshot)
    requires m.Valid() && Settled(m.V()) && p !in m.roots && c !in m.roots && p != c && GoodImage(segs)
    requires j < |segs| && segs[j].vaddr < a < segs[j].vaddr + segs[j].memsz && IsUser(a)
    modifies m, m.pool, m.pool.list
    ensures short ==> |old(m.pool.order)| < ForkedStorePages(segs)
    ensures !short ==>
              && m.Valid() && o == Done && ByteAt(m.Now(), p, a) == Some(x)
              && forall q: Pid, b: nat | IsUser(b) && (q, b) != (p, a) && ByteAt(s, q, b).Some? ::
                   ByteAt(m.Now(), q, b) == ByteAt(s, q, b)
  {
    hide TreeInv, RefInv, LeavesOk, Pool.Valid, Pool.Managed, Local, Agrees, Fine, GoodImage, SpawnPages, Sharers, Paid,
      Run, StoreEvents, HasTables, NoAccess, Crowded, ByteAt, Sound, IsUser;
    o, s := Done, m.Now();
    short := SpawnAndFork(m, p, c, segs, j, a);
    if short {
      return;
    }
    s := m.Now();
    NowSound(m);
    Tables(m, p, a);
    ghost var fill: seq<Page>;
    ghost var es: seq<Event>;
    o, fill, es := DoWrite(m, p, a, x);
    if o == OutOfMemory {
      return true, o, s;
    }
    NowSound(m);
    StoreLaw(s, m.Now(), p, a, x, fill);
  }

  lemma Tables(m: Memory, p: Pid, a: nat)
    requires m.Valid() && p in m.roots && IsUser(a) && LeafOf(p, a) in m.leaves
    ensures HasTables(m.tables, m.roots[p], 4, a)
  {
    hide TreeInv, RefInv, LeavesOk, Pool.Valid, IsUser, HasTables;
    RootAt(m.V(), p);
    LeafHasTables(m.V(), p, a, 1);
    assert OnPath(p, a, 4) == Top(p);
    HasTablesFrom(m.V(), p, a, 4);
  }

  // ----- the allocator's arenas -----

  /** `sbrk` by the allocator `h` of process `p` and the system call behind it move the same end: the
      arena that the allocator takes possession of is mapped, all of it. */
  method GrowArena(m: Memory, h: Heap.Allocator, p: Pid, nu: nat) returns (halted: bool, start: nat)
    requires m.Valid() && Settled(m.V()) && CoveredIn(m.V(), Grow(p, nu * 16))
    requires m.areas[p][1].end == h.brk * 16 && h.brk % 256 == 0
    modifies m, m.pool, m.pool.list, h`brk
    ensures halted ==> m.pool.order == [] && h.brk == old(h.brk)
    ensures !halted ==>
              && m.Valid() && Settled(m.V()) && p in m.areas && |m.areas[p]| >= 2
              && start == old(h.brk) && m.areas[p][1].end == h.brk * 16 && h.brk % 256 == 0 && h.brk > start + nu
              && forall u | start <= u < h.brk :: LeafOf(p, u * 16) in m.leaves
  {
    hide TreeInv, RefInv, LeavesOk, Pool.Valid, Pool.Managed, Local, Agrees, Fine, Paid, Clear, AtMost;
    ghost var v := m.V();
    start := h.brk;
    ghost var fill: seq<Page>;
    halted, fill := DoGrow(m, p, nu * 16);
    if !halted {
      start := h.Sbrk(nu);
      SameGrowth(nu, v.areas[p][1].end, m.areas[p][1].end);
      forall u | start <= u < h.brk
        ensures LeafOf(p, u * 16) in m.leaves
      {
        ArenaUnit(start, h.brk, u);
        assert Leaf(p, u * 16 / 4096) in m.leaves;
      }
    }
  }

  /** The two say the same number of bytes. */
  lemma SameGrowth(nu: nat, from: nat, to: nat)
    requires GrownBy(nu * 16, from, to)
    ensures to - from == 16 * ((nu / 256 + 1) * 256)
  {
    assert (to - from) / 4096 * 4096 == to - from;
  }

  lemma ArenaUnit(start: nat, end: nat, u: nat)
    requires start <= u < end && start % 256 == 0 && end % 256 == 0
    ensures start * 16 / 4096 <= u * 16 / 4096 < end * 16 / 4096
  {
  }
}
