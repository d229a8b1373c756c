/**
 Fork, exit and wait conserve memory: whatever parent and child write in between, reaping the
 child leaves as many free pages as there were before the fork, less only the pages by which
 the parent itself grew.
 */
module Conservation {
  import opened Wrappers
  import opened FlatCow
  import opened PageTree
  import opened PageShare
  import opened MemorySpec

  // ----- the flat machine: a family keeps its frames to itself -----

  /** The leaves of the processes other than `p` and `c`. */
  ghost function Others(m: LeafMap, p: Pid, c: Pid): LeafMap {
    map l | l in m && l.pid != p && l.pid != c :: m[l]
  }

  ghost predicate InFamily(l: Leaf, p: Pid, c: Pid) { l.pid == p || l.pid == c }

  /** The pages of `p` whose frames are also mapped outside the family of `p` and `c`. */
  ghost function Outer(m: LeafMap, p: Pid, c: Pid): set<Leaf> {
    set l | l in m && l.pid == p && m[l].frame in Frames(Others(m, p, c))
  }

  /** While `c` lives, a frame mapped both inside and outside the family is mapped by both `p` and
      `c`, so that it has three sharers and no store to it can succeed. */
  ghost predicate Bound(m: LeafMap, p: Pid, c: Pid) {
    forall l <- m | InFamily(l, p, c) && m[l].frame in Frames(Others(m, p, c)) ::
      && Leaf(p, l.vpn) in m && Leaf(c, l.vpn) in m
      && m[Leaf(p, l.vpn)].frame == m[Leaf(c, l.vpn)].frame == m[l].frame
  }

  /** What the family does between fork and exit: stores, and pages added to its members. */
  ghost predicate Touches(e: Event, p: Pid, c: Pid) {
    match e
    case Stored(l, _, _, _) => InFamily(l, p, c)
    case Grown(l, _, _) => InFamily(l, p, c)
    case _ => false
  }

  /** The family changes nothing outside itself, nor what `p` shares with the outside. */
  ghost predicate Kept(m: LeafMap, m': LeafMap, p: Pid, c: Pid) {
    Others(m', p, c) == Others(m, p, c) && Outer(m', p, c) == Outer(m, p, c)
  }

  lemma OthersFrames(m: LeafMap, p: Pid, c: Pid)
    ensures Frames(Others(m, p, c)) <= Frames(m)
  {
    var rest := Others(m, p, c);
    forall f | f in Frames(rest)
      ensures f in Frames(m)
    {
      var l :| l in rest && rest[l].frame == f;
      assert l in m;
    }
  }

  lemma ThreeSharers(m: LeafMap, l: Leaf, p: Pid, c: Pid)
    requires Bound(m, p, c) && p != c && l in m && InFamily(l, p, c) && m[l].frame in Frames(Others(m, p, c))
    ensures |Sharers(m, m[l].frame)| >= 3
  {
    var rest := Others(m, p, c);
    var k :| k in rest && rest[k].frame == m[l].frame;
    var three := {k, Leaf(p, l.vpn), Leaf(c, l.vpn)};
    assert three <= Sharers(m, m[l].frame);
    Subset(three, Sharers(m, m[l].frame));
  }

  lemma Subset(s: set<Leaf>, t: set<Leaf>)
    requires s <= t
    ensures |s| <= |t|
  {
    assert t == s + (t - s);
  }

  lemma RemapKeeps(m: LeafMap, l: Leaf, e: Entry, p: Pid, c: Pid)
    requires Bound(m, p, c) && InFamily(l, p, c) && (l in m ==> m[l].frame !in Frames(Others(m, p, c)))
    requires e.frame !in Frames(m) || (l in m && e.frame == m[l].frame)
    ensures Bound(m[l := e], p, c) && Kept(m, m[l := e], p, c)
  {
    hide Frames;
    OthersFrames(m, p, c);
    assert Others(m[l := e], p, c) == Others(m, p, c);
  }

  lemma ShareKeeps(m: LeafMap, p: Pid, c: Pid)
    requires p != c && Absent(m, c)
    ensures Bound(Share(m, p, c), p, c) && Kept(m, Share(m, p, c), p, c)
  {
    hide Frames;
    assert Others(Share(m, p, c), p, c) == Others(m, p, c);
  }

  lemma DropKeeps(m: LeafMap, p: Pid, c: Pid)
    requires p != c
    ensures Kept(m, Drop(m, c), p, c)
  {
    hide Frames;
    assert Others(Drop(m, c), p, c) == Others(m, p, c);
  }

  lemma StoreKeeps(s: Flat, l: Leaf, spare: Frame, p: Pid, c: Pid)
    requires p != c && Bound(s.leaves, p, c) && l in s.leaves && InFamily(l, p, c) && Unshare(s, l, spare).Some?
    ensures var m := Unshare(s, l, spare).value.leaves; Bound(m, p, c) && Kept(s.leaves, m, p, c)
  {
    hide Bound, Kept, Frames;
    if s.leaves[l].frame in Frames(Others(s.leaves, p, c)) { ThreeSharers(s.leaves, l, p, c); }
    RemapKeeps(s.leaves, l, Unshare(s, l, spare).value.leaves[l], p, c);
  }

  lemma EventKeeps(s: Flat, e: Event, p: Pid, c: Pid)
    requires p != c && Bound(s.leaves, p, c) && Touches(e, p, c) && Apply(s, e).Some?
    ensures var m := Apply(s, e).value.leaves; Bound(m, p, c) && Kept(s.leaves, m, p, c)
  {
    hide Bound, Frames, Unshare;
    match e
    case Stored(l, _, _, spare) =>
      if !s.leaves[l].writable { StoreKeeps(s, l, spare, p, c); }
    case Grown(l, spare, _) => RemapKeeps(s.leaves, l, Fresh(spare), p, c);
  }

  lemma {:induction false} RunKeeps(s: Flat, es: seq<Event>, p: Pid, c: Pid)
    requires p != c && Bound(s.leaves, p, c) && Run(s, es).Some? && forall e <- es :: Touches(e, p, c)
    ensures var m := Run(s, es).value.leaves; Bound(m, p, c) && Kept(s.leaves, m, p, c)
  {
    hide Bound, Others, Outer, Apply;
    if es != [] {
      var init := es[..|es| - 1];
      RunKeeps(s, init, p, c);
      EventKeeps(Run(s, init).value, es[|es| - 1], p, c);
    }
  }

  /** One frame for each leaf of an injective set of leaves. */
  lemma {:induction false} FramesOf(m: LeafMap, s: set<Leaf>)
    requires s <= m.Keys && forall k, l | k in s && l in s && m[k].frame == m[l].frame :: k == l
    ensures |set l | l in s :: m[l].frame| == |s|
  {
    if s != {} {
      var x :| x in s;
      FramesOf(m, s - {x});
      var fs := set l | l in s - {x} :: m[l].frame;
      assert (set l | l in s :: m[l].frame) == fs + {m[x].frame};
      assert m[x].frame !in fs;
    }
  }

  ghost function FramesFor(m: LeafMap, p: Pid): set<Frame> {
    set l | l in LeavesOf(m, p) :: m[l].frame
  }

  lemma FramesUnion(m: LeafMap, p: Pid, c: Pid)
    requires Absent(m, c)
    ensures Frames(m) == Frames(Others(m, p, c)) + FramesFor(m, p)
  {
    var rest := Others(m, p, c);
    forall f | f in Frames(m)
      ensures f in Frames(rest) + FramesFor(m, p)
    {
      var l :| l in m && m[l].frame == f;
      assert l in LeavesOf(m, p) || l in rest;
    }
    forall f | f in Frames(rest)
      ensures f in Frames(m)
    {
      var l :| l in rest && rest[l].frame == f;
      assert l in m;
    }
  }

  lemma FramesCommon(m: LeafMap, p: Pid, c: Pid)
    ensures Frames(Others(m, p, c)) * FramesFor(m, p) == set l | l in Outer(m, p, c) :: m[l].frame
  {
  }

  lemma UnionCount(s: set<Frame>, t: set<Frame>)
    ensures |s + t| == |s| + |t| - |s * t|
  {
    assert s + t == s + (t - s * t);
    assert |t - s * t| == |t| - |s * t|;
  }

  lemma FramesSplit(m: LeafMap, p: Pid, c: Pid)
    requires LeavesOk(m) && Absent(m, c)
    ensures |Frames(m)| == |Frames(Others(m, p, c))| + |LeavesOf(m, p)| - |Outer(m, p, c)|
  {
    hide Absent, Frames;
    FramesUnion(m, p, c);
    FramesCommon(m, p, c);
    UnionCount(Frames(Others(m, p, c)), FramesFor(m, p));
    FramesOf(m, LeavesOf(m, p));
    FramesOf(m, Outer(m, p, c));
  }

  // ----- whole states -----

  /** Memory between two kernel operations. */
  datatype Snapshot = Snapshot(vm: VM, bytes: seq<Page>)

  ghost predicate Good(s: Snapshot) {
    && Inv(s.vm) && Distinct(s.vm.free) && forall f <- s.vm.free :: f < |s.vm.owner|
  }

  ghost function FlatOf(s: Snapshot): Flat { Flat(s.vm.leaves, s.bytes) }

  /** One operation on process `q`: events of the flat machine, and no other process affected. */
  datatype Move = Move(q: Pid, es: seq<Event>)

  ghost predicate Moves(s: Snapshot, t: Snapshot, m: Move, p: Pid, c: Pid) {
    && (m.q == p || m.q == c)
    && Local(s.vm, t.vm, m.q)
    && (m.q == p ==> p in s.vm.areas && p in t.vm.areas && Pages(t.vm.areas[p]) == Pages(s.vm.areas[p]))
    && Run(FlatOf(s), m.es) == Some(FlatOf(t))
  }

  /** Everything outside `c` that the accounting depends on. */
  ghost predicate SameBooks(v: VM, w: VM, p: Pid, c: Pid) {
    && |w.owner| == |v.owner|
    && (forall q | q != c :: q in v.areas <==> q in w.areas)
    && (forall q <- v.areas | q != c :: Pages(w.areas[q]) == Pages(v.areas[q]))
    && (forall n: Node | n.pid != p && n.pid != c :: n in v.nodes <==> n in w.nodes)
    && (forall f | 0 <= f < |v.owner| :: v.owner[f] == Kernel <==> w.owner[f] == Kernel)
  }

  lemma MoveBooks(u: VM, s: Snapshot, t: Snapshot, m: Move, p: Pid, c: Pid)
    requires p != c && SameBooks(u, s.vm, p, c) && Moves(s, t, m, p, c)
    ensures SameBooks(u, t.vm, p, c)
  {
    hide Run;
    var v, w := s.vm, t.vm;
    forall q <- u.areas | q != c
      ensures q in w.areas && Pages(w.areas[q]) == Pages(u.areas[q])
    {
      assert q in v.areas;
    }
  }

  /** A fork of `c` by `p`, and what the two then do. */
  ghost predicate IsRound(trace: seq<Snapshot>, moves: seq<Move>, p: Pid, c: Pid) {
    && |trace| == |moves| + 1 && |moves| >= 1 && moves[0] == Move(c, [Forked(p, c)])
    && (forall j | 0 <= j < |moves| :: Moves(trace[j], trace[j + 1], moves[j], p, c))
    && (forall j | 0 < j < |moves| :: forall e <- moves[j].es :: Touches(e, p, c))
  }

  lemma {:induction false} RoundKeeps(trace: seq<Snapshot>, moves: seq<Move>, p: Pid, c: Pid)
    requires p != c && IsRound(trace, moves, p, c) && Absent(trace[0].vm.leaves, c)
    ensures var z := trace[|moves|].vm;
            && Bound(z.leaves, p, c) && Kept(trace[0].vm.leaves, z.leaves, p, c)
            && SameBooks(trace[0].vm, z, p, c)
    decreases |moves|
  {
    hide Bound, Others, Outer, SameBooks, Absent, Local, Run, Share;
    var n := |moves|;
    assert Moves(trace[n - 1], trace[n], moves[n - 1], p, c);
    if n == 1 {
      RunOne(FlatOf(trace[0]), Forked(p, c));
      ForkKeeps(FlatOf(trace[0]), FlatOf(trace[1]), p, c);
      SameBooksSelf(trace[0].vm, p, c);
    } else {
      assert IsRound(trace[..n], moves[..n - 1], p, c);
      RoundKeeps(trace[..n], moves[..n - 1], p, c);
      RunKeeps(FlatOf(trace[n - 1]), moves[n - 1].es, p, c);
    }
    MoveBooks(trace[0].vm, trace[n - 1], trace[n], moves[n - 1], p, c);
  }

  lemma ForkKeeps(s: Flat, t: Flat, p: Pid, c: Pid)
    requires p != c && Apply(s, Forked(p, c)) == Some(t)
    ensures Bound(t.leaves, p, c) && Kept(s.leaves, t.leaves, p, c)
  {
    hide Bound, Kept, Share;
    ShareKeeps(s.leaves, p, c);
  }

  lemma ReapKeeps(s: Flat, t: Flat, p: Pid, c: Pid)
    requires p != c && Apply(s, TornDown(c)) == Some(t)
    ensures Kept(s.leaves, t.leaves, p, c)
  {
    hide Kept, Drop;
    DropKeeps(s.leaves, p, c);
  }

  lemma SameBooksSelf(v: VM, p: Pid, c: Pid)
    ensures SameBooks(v, v, p, c)
  {
  }

  lemma AreaPagesSame(v: VM, w: VM, p: Pid, c: Pid)
    requires AreasOk(v) && AreasOk(w) && SameBooks(v, w, p, c) && c !in v.areas && c !in w.areas
    ensures AreaPages(v.owner) == AreaPages(w.owner) && KernelPages(v.owner) == KernelPages(w.owner)
  {
    forall x
      ensures x in AreaPages(v.owner) ==> x in AreaPages(w.owner)
      ensures x in AreaPages(w.owner) ==> x in AreaPages(v.owner)
    {
      if x in AreaPages(v.owner) {
        var q := v.owner[x].pid;
        var k :| 0 <= k < |w.areas[q]| && w.areas[q][k].frame == x;
      }
      if x in AreaPages(w.owner) {
        var q := w.owner[x].pid;
        var k :| 0 <= k < |v.areas[q]| && v.areas[q][k].frame == x;
      }
    }
  }

  /** Whatever `p` and `c` store between the fork of `c` and its reaping, the free pages lost are
      the tables and the pages that `p` has gained, and `p` shares with others what it shared. */
  lemma ForkExitWaitConserves(trace: seq<Snapshot>, moves: seq<Move>, last: Snapshot, p: Pid, c: Pid)
    requires p != c && IsRound(trace, moves, p, c)
    requires Moves(trace[|moves|], last, Move(c, [TornDown(c)]), p, c)
    requires Good(trace[0]) && Good(last)
    requires c !in trace[0].vm.roots && c !in last.vm.roots
    ensures var v, w := trace[0].vm, last.vm;
            && Outer(w.leaves, p, c) == Outer(v.leaves, p, c)
            && |w.free| == |v.free| - (|TablesOf(w, p)| - |TablesOf(v, p)|)
                                    - (|LeavesOf(w.leaves, p)| - |LeavesOf(v.leaves, p)|)
  {
    hide TreeInv, RefInv, LeavesOk, Bound, Others, Outer, SameBooks, Distinct, Run, Apply, Local;
    var v, w := trace[0].vm, last.vm;
    NoProcess(v, c);
    NoProcess(w, c);
    RoundKeeps(trace, moves, p, c);
    var z := trace[|moves|];
    MoveBooks(v, z, last, Move(c, [TornDown(c)]), p, c);
    RunOne(FlatOf(z), TornDown(c));
    ReapKeeps(FlatOf(z), FlatOf(last), p, c);
    Accounting(v);
    Accounting(w);
    FramesSplit(v.leaves, p, c);
    FramesSplit(w.leaves, p, c);
    AreasOf(v);
    AreasOf(w);
    AreaPagesSame(v, w, p, c);
    NodesSplit(v, w, p, c);
  }

  lemma AreasOf(v: VM)
    requires TreeInv(v)
    ensures AreasOk(v)
  {
  }

  lemma NodesSplit(v: VM, w: VM, p: Pid, c: Pid)
    requires SameBooks(v, w, p, c)
    requires (forall n <- v.nodes :: n.pid != c) && forall n <- w.nodes :: n.pid != c
    ensures |v.owner| == |w.owner|
    ensures |w.nodes| - |v.nodes| == |TablesOf(w, p)| - |TablesOf(v, p)|
  {
    assert v.nodes.Keys - TablesOf(v, p) == w.nodes.Keys - TablesOf(w, p);
    assert |v.nodes.Keys - TablesOf(v, p)| == |v.nodes| - |TablesOf(v, p)|;
    assert |w.nodes.Keys - TablesOf(w, p)| == |w.nodes| - |TablesOf(w, p)|;
  }

  // ----- building a round -----

  lemma BeginRound(s: Snapshot, t: Snapshot, p: Pid, c: Pid)
    requires Moves(s, t, Move(c, [Forked(p, c)]), p, c)
    ensures IsRound([s, t], [Move(c, [Forked(p, c)])], p, c)
  {
  }

  lemma AddMove(trace: seq<Snapshot>, moves: seq<Move>, t: Snapshot, m: Move, p: Pid, c: Pid)
    requires IsRound(trace, moves, p, c) && Moves(trace[|moves|], t, m, p, c)
    requires forall e <- m.es :: Touches(e, p, c)
    ensures IsRound(trace + [t], moves + [m], p, c)
  {
    hide Moves;
    var n := |moves|;
    forall j | 0 <= j < n + 1
      ensures Moves((trace + [t])[j], (trace + [t])[j + 1], (moves + [m])[j], p, c)
    {
      if j < n {
        assert Moves(trace[j], trace[j + 1], moves[j], p, c);
      }
    }
  }

  /** A fork, a store and a reap are moves of the family. */
  lemma ForkIsMove(s: Snapshot, t: Snapshot, p: Pid, c: Pid)
    requires Local(s.vm, t.vm, c) && p != c && Apply(FlatOf(s), Forked(p, c)) == Some(FlatOf(t))
    ensures Moves(s, t, Move(c, [Forked(p, c)]), p, c)
  {
    RunOne(FlatOf(s), Forked(p, c));
  }

  lemma ReapIsMove(s: Snapshot, t: Snapshot, p: Pid, c: Pid)
    requires Local(s.vm, t.vm, c) && p != c && Apply(FlatOf(s), TornDown(c)) == Some(FlatOf(t))
    ensures Moves(s, t, Move(c, [TornDown(c)]), p, c)
  {
    RunOne(FlatOf(s), TornDown(c));
  }

  lemma StoreIsMove(s: Snapshot, t: Snapshot, l: Leaf, offset: nat, value: int, es: seq<Event>, p: Pid, c: Pid)
    requires InFamily(l, p, c) && Local(s.vm, t.vm, l.pid) && t.vm.areas == s.vm.areas && p in s.vm.areas
    requires StoreEvents(FlatOf(s), l, offset, value, es) && Run(FlatOf(s), es) == Some(FlatOf(t))
    ensures Moves(s, t, Move(l.pid, es), p, c) && forall e <- es :: Touches(e, p, c)
  {
  }
}
