/**
 VMA lists: the checks that `isr14` makes against them, how far the heap grows, and what
 `create_process` lays out for a new program.
 */
module ProgramImage {
  import opened Wrappers
  import opened FlatCow
  import opened PageTree
  import opened PageWalk
  import opened MemorySpec

  /** The two bounds checks that open `isr14`; the first VMA is the stack, which grows down. */
  predicate InBounds(list: seq<Area>, a: nat) {
    list != [] &&
    (|| (list[0].start + 4096 > a && list[0].end < a)
     || (exists k | 0 <= k < |list| :: list[k].start < a < list[k].end))
  }

  /** The part of the stack area that may still be unmapped. */
  predicate InStack(list: seq<Area>, a: nat) {
    list != [] && list[0].start > a > list[0].end
  }

  /** A refused access that `isr14` does not let through: out of bounds, or to a page that is not
      mapped and not in the stack. */
  ghost predicate NoAccess(m: LeafMap, list: seq<Area>, p: Pid, a: nat) {
    !InBounds(list, a) || (LeafOf(p, a) !in m && !InStack(list, a))
  }

  /** How often the loop of the kernel's `malloc` runs: division truncates toward zero. */
  function HeapPages(n: int): nat {
    if n >= 0 then n / 4096 + 1 else if n > -4096 then 1 else 0
  }

  lemma PlainBounds(list: seq<Area>, a: nat)
    ensures InBounds(Plain(list), a) <==> InBounds(list, a)
    ensures InStack(Plain(list), a) <==> InStack(list, a)
  {
    var r := Plain(list);
    if k :| 0 <= k < |list| && list[k].start < a < list[k].end {
      assert r[k].start < a < r[k].end;
    }
    if k :| 0 <= k < |r| && r[k].start < a < r[k].end {
      assert list[k].start < a < list[k].end;
    }
  }

  // ----- the layout of a new process -----

  const STACK: nat := 0x100F_FFFF_0000
  const HEAP: nat := 0x4B0F_FFFF_0000

  function StackArea(): Area { Area(STACK, 0x100F_FEFF_0000, 0) }

  function HeapArea(): Area { Area(HEAP, HEAP, 0) }

  /** A loadable program segment. */
  datatype Segment = Segment(vaddr: nat, memsz: nat)

  function SegmentArea(g: Segment): Area { Area(g.vaddr, g.vaddr + g.memsz, 0) }

  /** Pages from the one that holds `vaddr` to the one before the end. */
  function SegmentPages(g: Segment): nat {
    (g.vaddr + g.memsz + 4095) / 4096 - g.vaddr / 4096
  }

  function PagesOf(g: Segment): seq<nat> { PagesFrom(g.vaddr / 4096, SegmentPages(g)) }

  /** A VMA list as a program sees it, without the pages its records lie in. */
  function Plain(list: seq<Area>): (r: seq<Area>)
    ensures |r| == |list| && forall k | 0 <= k < |r| :: r[k] == list[k].(frame := 0)
  {
    seq(|list|, k requires 0 <= k < |list| => list[k].(frame := 0))
  }

  function SegmentAreas(segs: seq<Segment>, i: nat): (r: seq<Area>)
    requires i <= |segs|
    ensures |r| == |segs| - i && forall k | 0 <= k < |r| :: r[k] == SegmentArea(segs[i + k])
  {
    seq(|segs| - i, k requires 0 <= k < |segs| - i => SegmentArea(segs[i + k]))
  }

  function FirstAreas(segs: seq<Segment>): seq<Area> {
    [StackArea(), HeapArea()] + SegmentAreas(segs, 0)
  }

  /** The pages of the segments from `i` on, in the order in which they are mapped. */
  function Loaded(segs: seq<Segment>, i: nat): seq<nat>
    requires i <= |segs|
    decreases |segs| - i
  {
    if i == |segs| then []
    else Loaded(segs, i + 1) + PagesOf(segs[i])
  }

  /** A record and the pages of a segment, on top of `j` pages. */
  function WithSegment(j: nat, g: Segment): nat { j + 1 + PageCost(SegmentPages(g)) }

  ghost predicate Lacking(v: VM, k: nat) { |v.free| < k }

  lemma SegmentSpent(u: VM, v: VM, w: VM, j: nat, g: Segment)
    requires AtMost(u, v, j + 1) && Spent(v, w, SegmentPages(g))
    ensures AtMost(u, w, WithSegment(j, g))
  {
    hide AtMost, Spent, SegmentPages;
    SpentMore(u, v, w, j + 1, SegmentPages(g));
  }

  lemma SegmentShort(u: VM, v: VM, j: nat, g: Segment)
    requires AtMost(u, v, j + 1) && Short(v, SegmentPages(g))
    ensures Lacking(u, WithSegment(j, g))
  {
    hide AtMost, Short, SegmentPages;
    ShortMore(u, v, j + 1, SegmentPages(g));
  }

  lemma RecordShort(u: VM, j: nat, g: Segment)
    requires |u.free| < j + 1
    ensures Lacking(u, WithSegment(j, g))
  {
  }

  /** No more pages than this are taken for a PML4 and for the segments from `i` on, with their
      records and tables. */
  function SpawnPages(segs: seq<Segment>, i: nat): nat
    requires i <= |segs|
    decreases |segs| - i
  {
    if i == |segs| then 1 else WithSegment(SpawnPages(segs, i + 1), segs[i])
  }

  lemma {:induction false} SpawnAtLeast(segs: seq<Segment>, i: nat)
    requires i <= |segs|
    ensures 1 <= SpawnPages(segs, i) <= SpawnPages(segs, 0) && SpawnPages(segs, |segs|) == 1
    decreases i
  {
    hide PageCost, SegmentPages;
    if i > 0 { SpawnAtLeast(segs, i - 1); }
    SpawnSome(segs, i);
  }

  lemma {:induction false} SpawnSome(segs: seq<Segment>, i: nat)
    requires i <= |segs|
    ensures SpawnPages(segs, i) >= 1
    decreases |segs| - i
  {
    if i < |segs| { SpawnSome(segs, i + 1); }
  }

  lemma SpawnStep(segs: seq<Segment>, i: nat)
    requires i < |segs|
    ensures SpawnPages(segs, i) == WithSegment(SpawnPages(segs, i + 1), segs[i])
    ensures SpawnPages(segs, i) <= SpawnPages(segs, 0)
  {
    hide PageCost, SegmentPages;
    SpawnAtLeast(segs, i);
  }

  function Image(segs: seq<Segment>): seq<nat> {
    Loaded(segs, 0) + [STACK / 4096]
  }

  /** Segments below the kernel half that share no page with each other or with the stack. */
  predicate GoodImage(segs: seq<Segment>) {
    Distinct(Image(segs)) && forall x <- Image(segs) :: IsUser(x * 4096)
  }

  lemma NothingLoaded(p: Pid, segs: seq<Segment>)
    ensures Loaded(segs, |segs|) == [] && LeavesAt(p, []) == {} && AddsPages([], p, [])
  {
  }

  lemma {:induction false} LoadedPrefix(segs: seq<Segment>, i: nat)
    requires i <= |segs|
    ensures Loaded(segs, i) <= Loaded(segs, 0)
    decreases i
  {
    if i > 0 {
      LoadedPrefix(segs, i - 1);
    }
  }

  lemma DistinctParts(a: seq<nat>, b: seq<nat>, all: seq<nat>)
    requires Distinct(all) && a + b <= all
    ensures forall x <- b :: x !in a && x in all
  {
    forall x <- b
      ensures x !in a && x in all
    {
      var k :| 0 <= k < |b| && b[k] == x;
      assert all[|a| + k] == (a + b)[|a| + k] == x;
      assert forall j | 0 <= j < |a| :: all[j] == (a + b)[j] == a[j];
    }
  }

  lemma Fits(all: seq<nat>, a: seq<nat>, b: seq<nat>, p: Pid, m: LeafMap, m': LeafMap)
    requires Distinct(all) && (forall x <- all :: IsUser(x * 4096)) && a + b <= all
    requires Absent(m, p) && m'.Keys == m.Keys + LeavesAt(p, a)
    ensures Mappable(m', p, b)
  {
    DistinctParts(a, b, all);
  }

  /** The pages of the next segment are user pages that are not mapped yet. */
  lemma SegmentFits(segs: seq<Segment>, i: nat, p: Pid, m: LeafMap, m': LeafMap)
    requires i < |segs| && GoodImage(segs) && Absent(m, p)
    requires m'.Keys == m.Keys + LeavesAt(p, Loaded(segs, i + 1))
    ensures Mappable(m', p, PagesOf(segs[i]))
  {
    hide PagesOf, IsUser, LeavesAt, Mappable, Absent;
    LoadedPrefix(segs, i);
    Fits(Image(segs), Loaded(segs, i + 1), PagesOf(segs[i]), p, m, m');
  }

  lemma StackFits(segs: seq<Segment>, p: Pid, m: LeafMap, m': LeafMap)
    requires GoodImage(segs) && Absent(m, p) && m'.Keys == m.Keys + LeavesAt(p, Loaded(segs, 0))
    ensures Leaf(p, STACK / 4096) !in m'
  {
    hide IsUser, LeavesAt, Absent, Loaded;
    Fits(Image(segs), Loaded(segs, 0), [STACK / 4096], p, m, m');
    assert STACK / 4096 in [STACK / 4096];
  }

  lemma MoreLoaded(segs: seq<Segment>, i: nat, p: Pid, es: seq<Event>, ds: seq<Event>)
    requires i < |segs| && AddsPages(es, p, Loaded(segs, i + 1)) && AddsPages(ds, p, PagesOf(segs[i]))
    ensures AddsPages(es + ds, p, Loaded(segs, i))
    ensures SegmentAreas(segs, i) == [SegmentArea(segs[i])] + SegmentAreas(segs, i + 1)
    ensures LeavesAt(p, Loaded(segs, i)) == LeavesAt(p, Loaded(segs, i + 1)) + LeavesAt(p, PagesOf(segs[i]))
  {
    hide PagesOf, SegmentArea, AddsPages, LeavesAt, SegmentAreas;
    LeavesAtConcat(p, Loaded(segs, i + 1), PagesOf(segs[i]));
    AddsConcat(es, ds, p, Loaded(segs, i + 1), PagesOf(segs[i]));
    AreasFrom(segs, i);
  }

  lemma AreasFrom(segs: seq<Segment>, i: nat)
    requires i < |segs|
    ensures SegmentAreas(segs, i) == [SegmentArea(segs[i])] + SegmentAreas(segs, i + 1)
  {
  }

  lemma AddsConcat(es: seq<Event>, ds: seq<Event>, p: Pid, a: seq<nat>, b: seq<nat>)
    requires AddsPages(es, p, a) && AddsPages(ds, p, b)
    ensures AddsPages(es + ds, p, a + b)
  {
  }

  lemma AddsOne(es: seq<Event>, p: Pid, vpns: seq<nat>, e: Event)
    requires AddsPages(es, p, vpns) && e.Grown? && e.leaf.pid == p
    ensures AddsPages(es + [e], p, vpns + [e.leaf.vpn])
  {
  }

  // ----- what the layout amounts to, address by address -----

  /** The loop over a segment runs from the page that holds `vaddr` while the address is below the end. */
  predicate LoopMaps(g: Segment, x: nat) {
    g.vaddr / 4096 <= x && x * 4096 < g.vaddr + g.memsz
  }

  lemma PagesOfSegment(g: Segment, x: nat)
    ensures x in PagesOf(g) <==> LoopMaps(g, x)
  {
    assert x in PagesOf(g) <==> g.vaddr / 4096 <= x < g.vaddr / 4096 + SegmentPages(g) by {
      if g.vaddr / 4096 <= x < g.vaddr / 4096 + SegmentPages(g) {
        assert PagesOf(g)[x - g.vaddr / 4096] == x;
      }
    }
  }

  lemma {:induction false} PagesLoaded(segs: seq<Segment>, i: nat, x: nat)
    requires i <= |segs|
    ensures x in Loaded(segs, i) <==> exists j | i <= j < |segs| :: LoopMaps(segs[j], x)
    decreases |segs| - i
  {
    hide LoopMaps, PagesOf;
    if i < |segs| {
      PagesLoaded(segs, i + 1, x);
      PagesOfSegment(segs[i], x);
      assert x in Loaded(segs, i) <==> x in Loaded(segs, i + 1) || x in PagesOf(segs[i]);
    }
  }

  /** After `create_process` the pages of `p` are those of the segments and the first stack page. */
  ghost predicate ImageMapped(m: LeafMap, m': LeafMap, p: Pid, segs: seq<Segment>) {
    forall q: Pid, x: nat :: Leaf(q, x) in m' <==>
      Leaf(q, x) in m ||
      (q == p && (x == 0x1_00FF_FFF0 || exists j | 0 <= j < |segs| :: LoopMaps(segs[j], x)))
  }

  lemma ImageIsMapped(m: LeafMap, m': LeafMap, p: Pid, segs: seq<Segment>)
    requires m'.Keys == m.Keys + LeavesAt(p, Image(segs))
    ensures ImageMapped(m, m', p, segs)
  {
    forall q: Pid, x: nat
      ensures Leaf(q, x) in m' <==>
              Leaf(q, x) in m ||
              (q == p && (x == 0x1_00FF_FFF0 || exists j | 0 <= j < |segs| :: LoopMaps(segs[j], x)))
    {
      hide Loaded, LoopMaps;
      PagesLoaded(segs, 0, x);
      assert Leaf(q, x) in m' <==> Leaf(q, x) in m || Leaf(q, x) in LeavesAt(p, Image(segs));
      assert x in Image(segs) <==> x in Loaded(segs, 0) || x == 0x1_00FF_FFF0;
    }
  }

  /** Its VMA list: stack, heap, then the segments in the order of the program headers. */
  ghost predicate LaidOut(list: seq<Area>, segs: seq<Segment>) {
    && |list| == |segs| + 2
    && list[0].start == 0x100F_FFFF_0000 && list[0].end == 0x100F_FEFF_0000
    && list[1].start == list[1].end == 0x4B0F_FFFF_0000
    && forall j | 0 <= j < |segs| ::
         list[j + 2].start == segs[j].vaddr && list[j + 2].end == segs[j].vaddr + segs[j].memsz
  }

  lemma FirstList(list: seq<Area>, segs: seq<Segment>)
    requires Plain(list) == [StackArea(), HeapArea()] + SegmentAreas(segs, 0)
    ensures Plain(list) == FirstAreas(segs) && LaidOut(list, segs)
  {
    forall j | 0 <= j < |segs|
      ensures list[j + 2].start == segs[j].vaddr && list[j + 2].end == segs[j].vaddr + segs[j].memsz
    {
      assert Plain(list)[j + 2] == SegmentAreas(segs, 0)[j];
    }
    assert Plain(list)[0] == StackArea() && Plain(list)[1] == HeapArea();
  }

  /** Heap growth by `n` bytes: whole pages, more than asked for and at most one page more. */
  ghost predicate GrownBy(n: int, from: nat, to: nat) {
    && from <= to
    && (n >= 0 ==> (to - from) % 4096 == 0 && n < to - from <= n + 4096)
    && (-4096 < n < 0 ==> to - from == 4096)
    && (n <= -4096 ==> to == from)
  }

  lemma GrowthIs(n: int, from: nat)
    ensures GrownBy(n, from, from + HeapPages(n) * 4096)
  {
  }

  /** Only the end of the second area moves, and the pages in between are mapped. */
  ghost predicate HeapGrown(m: LeafMap, list: seq<Area>, m': LeafMap, list': seq<Area>, p: Pid) {
    && |list'| == |list| >= 2 && list'[1] == list[1].(end := list'[1].end)
    && (forall k | 0 <= k < |list| && k != 1 :: list'[k] == list[k])
    && forall q: Pid, x: nat :: Leaf(q, x) in m' <==>
         Leaf(q, x) in m || (q == p && list[1].end / 4096 <= x < list'[1].end / 4096)
  }

  lemma HeapIsGrown(m: LeafMap, list: seq<Area>, m': LeafMap, p: Pid, count: nat)
    requires |list| >= 2 && m'.Keys == m.Keys + LeavesAt(p, PagesFrom(list[1].end / 4096, count))
    ensures HeapGrown(m, list, m', SetEnd(list, list[1].end + count * 4096), p)
  {
    var from := list[1].end / 4096;
    assert (list[1].end + count * 4096) / 4096 == from + count;
    forall q: Pid, x: nat
      ensures Leaf(q, x) in m' <==> Leaf(q, x) in m || (q == p && from <= x < from + count)
    {
      assert Leaf(q, x) in m' <==> Leaf(q, x) in m || Leaf(q, x) in LeavesAt(p, PagesFrom(from, count));
      if from <= x < from + count { assert PagesFrom(from, count)[x - from] == x; }
    }
  }

  /** The leaves after pages have been added. */
  lemma {:induction false} AddedKeys(s: Flat, es: seq<Event>, p: Pid, vpns: seq<nat>)
    requires AddsPages(es, p, vpns) && Run(s, es).Some?
    ensures Run(s, es).value.leaves.Keys == s.leaves.Keys + LeavesAt(p, vpns)
    decreases |es|
  {
    if es != [] {
      var n := |es| - 1;
      AddedKeys(s, es[..n], p, vpns[..n]);
      LeavesAtConcat(p, vpns[..n], [vpns[n]]);
      assert vpns == vpns[..n] + [vpns[n]];
      OneLeafAt(p, vpns[n]);
    }
  }

  lemma OneLeafAt(p: Pid, x: nat)
    ensures LeavesAt(p, [x]) == {Leaf(p, x)}
  {
    assert [x][0] == x;
  }
}
