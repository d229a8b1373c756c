/**
 What the page-table routines do to address translation as the hardware performs it, and to the
 number of mappings of each frame.
 */
module Translation {
  import opened Wrappers
  import opened FlatCow
  import opened PageTree
  import opened PageWalk
  import opened MemorySpec

  function Translate(v: VM, p: Pid, a: nat): Option<Entry>
    requires p in v.roots
  {
    Walk(v.tables, v.roots[p], 4, a)
  }

  /** One user page of `p` translates to `phy` with flags 7; every other user page of every process
      translates as before. */
  ghost predicate PageSet(v: VM, w: VM, p: Pid, a: nat, phy: Frame) {
    forall q, b: nat | q in v.roots && IsUser(b) ::
      && q in w.roots
      && Translate(w, q, b) ==
         if q == p && b / 0x1000 == a / 0x1000 then Some(Fresh(phy)) else Translate(v, q, b)
  }

  function Marked(e: Option<Entry>): Option<Entry> {
    if e.None? then None else Some(CowMarked(e.value))
  }

  /** Every user page of `c` translates as that of `p` does, both read-only and marked, to the frame
      it had for `p`; nobody else's translation is different. */
  ghost predicate Twinned(v: VM, w: VM, p: Pid, c: Pid)
    requires p in v.roots
  {
    forall q, b: nat | q in v.roots && IsUser(b) ::
      && q in w.roots
      && Translate(w, q, b) ==
         if q == p || q == c then Marked(Translate(v, p, b)) else Translate(v, q, b)
  }

  /** Nothing translates for `p`, and everything does as before for the others. */
  ghost predicate Emptied(v: VM, w: VM, p: Pid) {
    forall q, b: nat | q in v.roots && IsUser(b) ::
      q in w.roots && Translate(w, q, b) == if q == p then None else Translate(v, q, b)
  }

  /** `init_pages_for_process` is an update of the flat map. */
  lemma InitPagesIsUpdate(v: VM, w: VM, p: Pid, a: nat, phy: Frame)
    requires TreeInv(v) && TreeInv(w) && Grew(v, w, LeafOf(p, a), phy)
    ensures PageSet(v, w, p, a, phy)
  {
    hide TreeInv, Walk;
    forall q, b: nat | q in v.roots && IsUser(b)
      ensures q in w.roots
      ensures Translate(w, q, b) ==
              if q == p && b / 0x1000 == a / 0x1000 then Some(Fresh(phy)) else Translate(v, q, b)
    {
      GrewLeaf(v, w, LeafOf(p, a), phy);
      WalkIsFlat(v, q, b);
      WalkIsFlat(w, q, b);
    }
  }

  /** `copytables` gives the child the translation of the parent. */
  lemma CopyTablesTranslation(v: VM, w: VM, p: Pid, c: Pid)
    requires TreeInv(v) && TreeInv(w) && p != c && Absent(v.leaves, c)
    requires w.leaves == Share(v.leaves, p, c) && p in v.roots && v.roots.Keys <= w.roots.Keys
    ensures Twinned(v, w, p, c)
  {
    hide TreeInv, Walk, IsUser;
    forall q, b: nat | q in v.roots && IsUser(b)
      ensures q in w.roots
      ensures Translate(w, q, b) == if q == p || q == c then Marked(Translate(v, p, b)) else Translate(v, q, b)
    {
      WalkIsFlat(v, p, b);
      WalkIsFlat(v, q, b);
      WalkIsFlat(w, q, b);
    }
  }

  /** `dealloc_pml4` empties the translation of one process. */
  lemma DeallocTranslation(v: VM, w: VM, p: Pid)
    requires TreeInv(v) && TreeInv(w) && w.leaves == Drop(v.leaves, p) && v.roots.Keys <= w.roots.Keys
    ensures Emptied(v, w, p)
  {
    hide TreeInv, Walk, IsUser;
    forall q, b: nat | q in v.roots && IsUser(b)
      ensures q in w.roots && Translate(w, q, b) == if q == p then None else Translate(v, q, b)
    {
      WalkIsFlat(v, q, b);
      WalkIsFlat(w, q, b);
    }
  }

  // ----- reference counts -----

  /** `copytables` adds to the count of a frame the number of leaves of the parent that map it. */
  lemma CopyTablesCounts(m: LeafMap, p: Pid, c: Pid, f: Frame)
    requires p != c && Absent(m, c)
    ensures |Sharers(Share(m, p, c), f)| == |Sharers(m, f)| + |Sharers(m, f) * LeavesOf(m, p)|
  {
    hide Share;
    ShareSharers(m, p, c, f);
    var mine := Sharers(m, f) * LeavesOf(m, p);
    var twins := set l | l in Sharers(m, f) && l.pid == p :: Leaf(c, l.vpn);
    TwinsCount(mine, p, c);
    assert twins == set l | l in mine :: Leaf(c, l.vpn);
    assert Sharers(m, f) !! twins;
  }

  lemma {:induction false} TwinsCount(s: set<Leaf>, p: Pid, c: Pid)
    requires forall l <- s :: l.pid == p
    ensures |set l | l in s :: Leaf(c, l.vpn)| == |s|
  {
    if s != {} {
      var x :| x in s;
      TwinsCount(s - {x}, p, c);
      var ts := set l | l in s - {x} :: Leaf(c, l.vpn);
      assert (set l | l in s :: Leaf(c, l.vpn)) == ts + {Leaf(c, x.vpn)};
      forall l <- s - {x}
        ensures l.vpn != x.vpn
      {
        assert l == Leaf(p, l.vpn) && x == Leaf(p, x.vpn);
      }
    }
  }

  /** The count of every user frame has grown by the number of leaves of `p` that map it. */
  ghost predicate CountsAdded(v: VM, w: VM, p: Pid) {
    forall f | 0 <= f < |v.owner| && v.owner[f] == User && f < |v.refs| && f < |w.refs| ::
      w.refs[f] == v.refs[f] + |Sharers(v.leaves, f) * LeavesOf(v.leaves, p)|
  }

  lemma CopyCounts(v: VM, w: VM, p: Pid, c: Pid)
    requires TreeInv(v) && RefInv(v) && TreeInv(w) && RefInv(w) && p != c && Absent(v.leaves, c)
    requires MoreTables(v, w, c) && w.leaves == Share(v.leaves, p, c)
    ensures CountsAdded(v, w, p)
  {
    hide NodesOk, LinksOk, LeafTablesOk, RootsOk, AreasOk, FreeOk, Share, Sharers, LeavesOf;
    forall f | 0 <= f < |v.owner| && v.owner[f] == User
      ensures w.refs[f] == v.refs[f] + |Sharers(v.leaves, f) * LeavesOf(v.leaves, p)|
    {
      CopyTablesCounts(v.leaves, p, c, f);
    }
  }

  /** Every user frame has lost one reference for each leaf of `p` that maps it, and is free exactly
      when there was no other. */
  ghost predicate CountsDropped(v: VM, w: VM, p: Pid) {
    forall f | 0 <= f < |v.owner| && v.owner[f] == User && f < |w.owner| && f < |v.refs| && f < |w.refs| ::
      if Sharers(v.leaves, f) <= LeavesOf(v.leaves, p) then w.owner[f] == Unused
      else w.owner[f] == User && w.refs[f] == v.refs[f] - |Sharers(v.leaves, f) * LeavesOf(v.leaves, p)|
  }

  lemma DropSharers(m: LeafMap, p: Pid, f: Frame)
    ensures Sharers(Drop(m, p), f) == Sharers(m, f) - LeavesOf(m, p)
    ensures |Sharers(Drop(m, p), f)| == |Sharers(m, f)| - |Sharers(m, f) * LeavesOf(m, p)|
    ensures Sharers(Drop(m, p), f) == {} <==> Sharers(m, f) <= LeavesOf(m, p)
  {
    assert Sharers(Drop(m, p), f) == Sharers(m, f) - LeavesOf(m, p);
    assert Sharers(m, f) == (Sharers(m, f) - LeavesOf(m, p)) + (Sharers(m, f) * LeavesOf(m, p));
  }

  /** A user frame is one that some leaf maps. */
  lemma UserIffMapped(w: VM, f: Frame)
    requires TreeInv(w) && RefInv(w) && f < |w.owner|
    ensures w.owner[f] == User <==> Sharers(w.leaves, f) != {}
    ensures w.owner[f] == User ==> f < |w.refs| && w.refs[f] == |Sharers(w.leaves, f)|
  {
    hide NodesOk, LinksOk, RootsOk, AreasOk, FreeOk;
    if l :| l in Sharers(w.leaves, f) {
      assert w.owner[w.leaves[l].frame] == User;
    }
  }

  lemma DeallocCounts(v: VM, w: VM, p: Pid)
    requires TreeInv(v) && RefInv(v) && TreeInv(w) && RefInv(w)
    requires Shrunk(v, w, Top(p)) && w.leaves == Drop(v.leaves, p)
    ensures CountsDropped(v, w, p)
  {
    hide TreeInv, RefInv, Drop, Sharers, LeavesOf;
    forall f | 0 <= f < |v.owner| && v.owner[f] == User && f < |w.owner| && f < |v.refs| && f < |w.refs|
      ensures if Sharers(v.leaves, f) <= LeavesOf(v.leaves, p) then w.owner[f] == Unused
              else w.owner[f] == User && w.refs[f] == v.refs[f] - |Sharers(v.leaves, f) * LeavesOf(v.leaves, p)|
    {
      DropSharers(v.leaves, p, f);
      UserIffMapped(v, f);
      UserIffMapped(w, f);
    }
  }

  /** Tearing the child down undoes the counts that the fork added. */
  lemma DeallocUndoesCopy(m: LeafMap, p: Pid, c: Pid, f: Frame)
    requires p != c && Absent(m, c)
    ensures Drop(Share(m, p, c), c).Keys == m.Keys
    ensures Sharers(Drop(Share(m, p, c), c), f) == Sharers(m, f)
  {
    ShareSharers(m, p, c, f);
  }
}
