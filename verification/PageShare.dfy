/**
 The single step of `copytables` at a leaf, the order in which the leaves are shared, and the
 accounting of every physical page.
 */
module PageShare {
  import opened Wrappers
  import opened FlatCow
  import opened PageTree

  // ----- sharing in address order -----

  lemma ShareNone(m: LeafMap, p: Pid, c: Pid)
    ensures ShareBelow(m, p, c, 0) == m
  {
  }

  /** Nothing changes over a range that `p` does not map. */
  lemma ShareGap(m: LeafMap, p: Pid, c: Pid, b: nat, b': nat)
    requires b <= b' && forall l <- m :: l.pid == p ==> !(b <= l.vpn < b')
    ensures ShareBelow(m, p, c, b') == ShareBelow(m, p, c, b)
  {
    assert PagesBelow(m, p, b') == PagesBelow(m, p, b);
  }

  lemma ShareStep(m: LeafMap, p: Pid, c: Pid, b: nat)
    requires p != c && Absent(m, c) && Leaf(p, b) in m
    ensures var e := CowMarked(m[Leaf(p, b)]);
            ShareBelow(m, p, c, b + 1) == ShareBelow(m, p, c, b)[Leaf(p, b) := e][Leaf(c, b) := e]
  {
    hide ShareSome;
    assert PagesBelow(m, p, b + 1) == PagesBelow(m, p, b) + {Leaf(p, b)};
    ShareOneMore(m, p, c, PagesBelow(m, p, b), Leaf(p, b));
  }

  lemma ShareOneMore(m: LeafMap, p: Pid, c: Pid, s: set<Leaf>, l: Leaf)
    requires p != c && Absent(m, c) && l in m && l.pid == p && forall k <- s :: k in m && k.pid == p
    ensures var e := CowMarked(m[l]);
            ShareSome(m, p, c, s + {l}) == ShareSome(m, p, c, s)[l := e][Leaf(c, l.vpn) := e]
  {
    var twins := set k | k in s :: Leaf(c, k.vpn);
    assert (set k | k in s + {l} :: Leaf(c, k.vpn)) == twins + {Leaf(c, l.vpn)};
    assert l == Leaf(p, l.vpn);
  }

  lemma SharePassed(m: LeafMap, p: Pid, c: Pid, b: nat)
    requires Leaf(p, b) !in m
    ensures ShareBelow(m, p, c, b + 1) == ShareBelow(m, p, c, b)
  {
    ShareGap(m, p, c, b, b + 1);
  }

  lemma ShareAll(m: LeafMap, p: Pid, c: Pid, b: nat)
    requires forall l <- m :: l.pid == p ==> l.vpn < b
    ensures ShareBelow(m, p, c, b) == Share(m, p, c)
  {
    assert PagesBelow(m, p, b) == LeavesOf(m, p);
  }

  /** What is known of the keys while the sharing is under way. */
  lemma ShareKeys(m: LeafMap, p: Pid, c: Pid, b: nat, vpn: nat)
    requires p != c && Absent(m, c)
    ensures var s := ShareBelow(m, p, c, b);
            && (Leaf(p, vpn) in s <==> Leaf(p, vpn) in m)
            && (vpn >= b && Leaf(p, vpn) in m ==> s[Leaf(p, vpn)] == m[Leaf(p, vpn)])
            && (vpn >= b ==> Leaf(c, vpn) !in s)
  {
  }

  // ----- one leaf -----

  lemma SharersWith(m: LeafMap, l: Leaf, k: Leaf, e: Entry, f: Frame)
    requires l in m && k !in m && m[l].frame == e.frame
    ensures var m' := m[l := e][k := e];
            |Sharers(m', f)| == |Sharers(m, f)| + if e.frame == f then 1 else 0
  {
    var m' := m[l := e][k := e];
    if e.frame == f {
      assert Sharers(m', f) == Sharers(m, f) + {k};
    } else {
      assert Sharers(m', f) == Sharers(m, f);
    }
  }

  /** Both entries for a page become copy-on-write and the frame gains a reference. */
  lemma SharedLeafRefs(v: VM, v': VM, l: Leaf, k: Leaf, e: Entry)
    requires Shape(v) && Shape(v') && RefInv(v) && l in v.leaves && k !in v.leaves
    requires e.frame == v.leaves[l].frame && e.frame < |v.owner| && v.owner[e.frame] == User
    requires v'.leaves == v.leaves[l := e][k := e] && v'.owner == v.owner
    requires v'.refs == v.refs[e.frame := v.refs[e.frame] + 1]
    ensures RefInv(v')
  {
    forall f
      ensures |Sharers(v'.leaves, f)| == |Sharers(v.leaves, f)| + if e.frame == f then 1 else 0
    {
      SharersWith(v.leaves, l, k, e, f);
    }
  }

  lemma CountedNodes(v: VM, v': VM)
    requires NodesOk(v) && v'.nodes == v.nodes && v'.owner == v.owner
    ensures NodesOk(v')
  {
  }

  lemma CountedOk(v: VM, f: Frame, n: int)
    requires TreeInv(v) && f < |v.refs|
    ensures TreeInv(v.(refs := v.refs[f := n]))
  {
    hide NodesOk, LinksOk, AreasOk, FreeOk;
    var v' := v.(refs := v.refs[f := n]);
    CountedNodes(v, v');
    SameTables(v, v');
    SameOwners(v, v');
  }

  lemma SharedEntryOk(v: VM, v': VM, l: Leaf, k: Leaf)
    requires TreeInv(v) && RefInv(v) && l in v.leaves && k !in v.leaves && l.pid != k.pid
    requires At(v, Home(l)) && At(v, Home(k)) && v.nodes[Home(l)] != v.nodes[Home(k)]
    requires v.leaves[l].present && v.leaves[l].frame < |v.owner| == |v.refs| && v.owner[v.leaves[l].frame] == User
    requires var e := CowMarked(v.leaves[l]);
             v' == v.(refs := v.refs[e.frame := v.refs[e.frame] + 1],
                      tables := SetEntry(SetEntry(v.tables, v.nodes[Home(l)], l.vpn % 512, e),
                                         v.nodes[Home(k)], k.vpn % 512, e),
                      leaves := v.leaves[l := e][k := e])
    ensures TreeInv(v') && RefInv(v')
  {
    hide TreeInv, RefInv;
    var e := CowMarked(v.leaves[l]);
    var u := v.(refs := v.refs[e.frame := v.refs[e.frame] + 1]);
    CountedOk(v, e.frame, v.refs[e.frame] + 1);
    MappedOk(u, l, e);
    assert v.owner == v.owner[e.frame := User];
    MappedOk(Mapped(u, l, e), k, e);
    assert v' == Mapped(Mapped(u, l, e), k, e);
    SharedShapes(v, v');
    SharedLeafRefs(v, v', l, k, e);
  }

  lemma SharedShapes(v: VM, v': VM)
    requires TreeInv(v) && TreeInv(v')
    ensures Shape(v) && Shape(v')
  {
  }

  // ----- accounting -----

  ghost function Below(n: nat): (s: set<Frame>)
    ensures |s| == n && forall x: Frame :: x in s <==> x < n
  {
    if n == 0 then {} else Below(n - 1) + {n - 1}
  }

  ghost function Members(s: seq<Frame>): set<Frame> { set x | x in s }

  lemma {:induction false} DistinctCount(s: seq<Frame>)
    requires Distinct(s)
    ensures |Members(s)| == |s|
  {
    if s != [] {
      DistinctCount(s[1..]);
      assert Members(s) == {s[0]} + Members(s[1..]);
      assert s[0] !in s[1..];
    }
  }

  lemma {:induction false} InjectiveCount(m: map<Node, Frame>)
    requires forall a, b | a in m && b in m && m[a] == m[b] :: a == b
    ensures |m.Values| == |m|
  {
    if m != map[] {
      var a :| a in m;
      var rest := m - {a};
      InjectiveCount(rest);
      ValuesWithout(m, a);
    }
  }

  lemma ValuesWithout(m: map<Node, Frame>, a: Node)
    requires a in m && forall b <- m | m[b] == m[a] :: b == a
    ensures m.Values == (m - {a}).Values + {m[a]} && m[a] !in (m - {a}).Values && |m - {a}| == |m| - 1
  {
    var rest := m - {a};
    forall x | x in m.Values
      ensures x in rest.Values + {m[a]}
    {
      var b :| b in m && m[b] == x;
      if b != a { assert b in rest && rest[b] == x; }
    }
    assert rest.Keys == m.Keys - {a};
  }

  ghost function UnusedPages(o: seq<Owner>): set<Frame> { set x | 0 <= x < |o| && o[x].Unused? }

  ghost function TablePages(o: seq<Owner>): set<Frame> { set x | 0 <= x < |o| && o[x].TableOf? }

  ghost function UserPages(o: seq<Owner>): set<Frame> { set x | 0 <= x < |o| && o[x].User? }

  ghost function AreaPages(o: seq<Owner>): set<Frame> { set x | 0 <= x < |o| && o[x].AreaOf? }

  ghost function KernelPages(o: seq<Owner>): set<Frame> { set x | 0 <= x < |o| && o[x].Kernel? }

  lemma OwnersPartition(o: seq<Owner>)
    ensures |UnusedPages(o)| + |TablePages(o)| + |UserPages(o)| + |AreaPages(o)| + |KernelPages(o)| == |o|
  {
    assert Below(|o|) == UnusedPages(o) + TablePages(o) + UserPages(o) + AreaPages(o) + KernelPages(o);
    hide UnusedPages, TablePages, UserPages, AreaPages, KernelPages;
    FiveParts(UnusedPages(o), TablePages(o), UserPages(o), AreaPages(o), KernelPages(o), o);
  }

  lemma FiveParts(a: set<Frame>, b: set<Frame>, c: set<Frame>, d: set<Frame>, e: set<Frame>, o: seq<Owner>)
    requires a == UnusedPages(o) && b == TablePages(o) && c == UserPages(o) && d == AreaPages(o) && e == KernelPages(o)
    ensures |a + b + c + d + e| == |a| + |b| + |c| + |d| + |e|
  {
    assert a !! b && a + b !! c && a + b + c !! d && a + b + c + d !! e;
    hide UnusedPages, TablePages, UserPages, AreaPages, KernelPages;
    assert |a + b| == |a| + |b|;
    assert |a + b + c| == |a + b| + |c|;
    assert |a + b + c + d| == |a + b + c| + |d|;
  }

  lemma NodesCounted(v: VM)
    requires NodesOk(v)
    ensures |TablePages(v.owner)| == |v.nodes|
  {
    forall a, b | a in v.nodes && b in v.nodes && v.nodes[a] == v.nodes[b]
      ensures a == b
    {
      assert TableOf(a) == TableOf(b);
    }
    InjectiveCount(v.nodes);
    assert v.nodes.Values == TablePages(v.owner);
  }

  lemma UsersCounted(v: VM)
    requires Shape(v) && NodesOk(v) && LeafTablesOk(v) && RefInv(v)
    ensures Frames(v.leaves) == UserPages(v.owner)
  {
    forall x | x in UserPages(v.owner)
      ensures x in Frames(v.leaves)
    {
      assert |Sharers(v.leaves, x)| >= 1;
      var l :| l in Sharers(v.leaves, x);
    }
  }

  /** Every page is free, the kernel's, a table, a mapped user frame or a VMA record. */
  lemma Accounting(v: VM)
    requires TreeInv(v) && RefInv(v) && Distinct(v.free) && forall f <- v.free :: f < |v.owner|
    ensures |v.free| + |v.nodes| + |Frames(v.leaves)| + |AreaPages(v.owner)| + |KernelPages(v.owner)| == |v.owner|
  {
    DistinctCount(v.free);
    assert UnusedPages(v.owner) == Members(v.free);
    NodesCounted(v);
    UsersCounted(v);
    OwnersPartition(v.owner);
  }
}
