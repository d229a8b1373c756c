/**
 Copy-on-write on the flat page map.

 A leaf entry is named by its process and its virtual page number, so all address spaces
 together are one finite map from `Leaf` to `Entry`.  Every event of the machine (fork, a user
 store with its fault, a page added to the stack or the heap, teardown) is an operation on
 that map and on the bytes held by each frame.  The reference machine next to it has no
 frames at all: fork copies every page at once.  The theorem of this module is that the two
 machines agree on what every process reads, over every run.
 */
module FlatCow {
  import opened Wrappers

  type Pid = nat
  type Frame = nat
  type Page = seq<int>

  /** A leaf of a page table; flags 7 is `Entry(f, true, true, false)`, bit 9 is `cow`. */
  datatype Entry = Entry(frame: Frame, present: bool, writable: bool, cow: bool)

  datatype Leaf = Leaf(pid: Pid, vpn: nat)

  type LeafMap = map<Leaf, Entry>

  datatype Flat = Flat(leaves: LeafMap, bytes: seq<Page>)

  /** What each process sees: one page of bytes for each virtual page it has mapped. */
  type View = map<Leaf, Page>

  ghost function Sharers(m: LeafMap, f: Frame): set<Leaf> {
    set l | l in m && m[l].frame == f
  }

  ghost predicate Crowded(m: LeafMap, l: Leaf) {
    l in m && |Sharers(m, m[l].frame)| > 2
  }

  /** A write to `l` that the hardware refuses. */
  ghost predicate Refused(m: LeafMap, l: Leaf) {
    l in m ==> !m[l].writable
  }

  ghost function Frames(m: LeafMap): set<Frame> {
    set l | l in m :: m[l].frame
  }

  function Fresh(f: Frame): Entry { Entry(f, true, true, false) }

  function CowMarked(e: Entry): Entry { e.(writable := false, cow := true) }

  function Unmarked(e: Entry): Entry { e.(writable := true, cow := false) }

  /** Entries are present; a writable one is the only mapping of its frame and every other one
      is marked copy-on-write; one process never maps a frame at two addresses. */
  ghost predicate LeavesOk(m: LeafMap) {
    && (forall l <- m :: m[l].present && m[l].cow == !m[l].writable)
    && (forall l <- m :: m[l].writable ==> Sharers(m, m[l].frame) == {l})
    && (forall k, l | k in m && l in m && k.pid == l.pid && m[k].frame == m[l].frame :: k == l)
  }

  ghost predicate FlatInv(s: Flat) {
    && LeavesOk(s.leaves)
    && (forall l <- s.leaves :: s.leaves[l].frame < |s.bytes|)
  }

  ghost function Seen(s: Flat): View
    requires FlatInv(s)
  {
    map l | l in s.leaves :: s.bytes[s.leaves[l].frame]
  }

  ghost predicate Absent(m: LeafMap, p: Pid) {
    forall l <- m :: l.pid != p
  }

  // ----- the four kinds of event -----

  ghost function EntryOf(m: LeafMap, l: Leaf): Entry {
    if l in m then m[l] else Fresh(0)
  }

  ghost function LeavesOf(m: LeafMap, p: Pid): set<Leaf> {
    set l | l in m && l.pid == p
  }

  ghost function PagesBelow(m: LeafMap, p: Pid, bound: nat): set<Leaf> {
    set l | l in m && l.pid == p && l.vpn < bound
  }

  /** Leaves after the pages `shared` of `p` have been shared with `c`. */
  ghost function ShareSome(m: LeafMap, p: Pid, c: Pid, shared: set<Leaf>): LeafMap {
    var twins := set l | l in shared :: Leaf(c, l.vpn);
    map l | l in m.Keys + twins ::
      if l in m then (if l in shared then CowMarked(m[l]) else m[l])
      else CowMarked(EntryOf(m, Leaf(p, l.vpn)))
  }

  ghost function ShareBelow(m: LeafMap, p: Pid, c: Pid, bound: nat): LeafMap {
    ShareSome(m, p, c, PagesBelow(m, p, bound))
  }

  ghost function Share(m: LeafMap, p: Pid, c: Pid): LeafMap {
    ShareSome(m, p, c, LeavesOf(m, p))
  }

  ghost function Drop(m: LeafMap, p: Pid): LeafMap {
    map l | l in m && l.pid != p :: m[l]
  }

  datatype Event =
    | Forked(parent: Pid, child: Pid)
    | Stored(leaf: Leaf, offset: nat, value: int, spare: Frame)
    | Grown(leaf: Leaf, spare: Frame, stale: Page)
    | TornDown(pid: Pid)

  /** Gives `l` a private copy of its page (two sharers) or takes the frame over (one). */
  ghost function Unshare(s: Flat, l: Leaf, spare: Frame): Option<Flat>
    requires l in s.leaves
  {
    var e := s.leaves[l];
    var n := |Sharers(s.leaves, e.frame)|;
    if n == 2 && spare < |s.bytes| && e.frame < |s.bytes| && spare !in Frames(s.leaves) then
      Some(Flat(s.leaves[l := Fresh(spare)], s.bytes[spare := s.bytes[e.frame]]))
    else if n == 1 then
      Some(s.(leaves := s.leaves[l := Unmarked(e)]))
    else None
  }

  ghost function Put(s: Flat, l: Leaf, offset: nat, value: int): Option<Flat>
    requires l in s.leaves
  {
    var f := s.leaves[l].frame;
    if f < |s.bytes| && offset < |s.bytes[f]| then
      Some(s.(bytes := s.bytes[f := s.bytes[f][offset := value]]))
    else None
  }

  /** After the fault handler lets an access to `l` through: an unmapped page got a spare frame, a
      mapped one was unshared. */
  ghost predicate Faulted(s: Flat, s': Flat, l: Leaf, spare: Frame) {
    && l in s'.leaves && s'.leaves[l].writable
    && if l in s.leaves then Unshare(s, l, spare) == Some(s')
       else
         && s'.leaves[l].frame < |s.bytes| && s'.leaves[l].frame !in Frames(s.leaves)
         && s' == s.(leaves := s.leaves[l := Fresh(s'.leaves[l].frame)])
  }

  /** One event of the copy-on-write machine; `None` when it halts or the event is not possible. */
  ghost function Apply(s: Flat, e: Event): Option<Flat> {
    match e
    case Forked(p, c) =>
      if p != c && Absent(s.leaves, c) then Some(s.(leaves := Share(s.leaves, p, c))) else None
    case Stored(l, off, v, spare) =>
      if l !in s.leaves then None
      else if s.leaves[l].writable then Put(s, l, off, v)
      else
        var u := Unshare(s, l, spare);
        if u.Some? && l in u.value.leaves then Put(u.value, l, off, v) else None
    case Grown(l, spare, stale) =>
      if l !in s.leaves && spare < |s.bytes| && spare !in Frames(s.leaves)
      then Some(Flat(s.leaves[l := Fresh(spare)], s.bytes[spare := stale]))
      else None
    case TornDown(p) =>
      Some(s.(leaves := Drop(s.leaves, p)))
  }

  /** The same event where every process owns its pages outright. */
  ghost function ApplyEager(v: View, e: Event): View {
    match e
    case Forked(p, c) =>
      v + (map l | l in (set k | k in v && k.pid == p :: Leaf(c, k.vpn)) && Leaf(p, l.vpn) in v ::
             v[Leaf(p, l.vpn)])
    case Stored(l, off, x, _) =>
      if l in v && off < |v[l]| then v[l := v[l][off := x]] else v
    case Grown(l, _, stale) => v[l := stale]
    case TornDown(p) => map l | l in v && l.pid != p :: v[l]
  }

  ghost function Run(s: Flat, es: seq<Event>): Option<Flat> {
    if es == [] then Some(s)
    else
      var r := Run(s, es[..|es| - 1]);
      if r.None? then None else Apply(r.value, es[|es| - 1])
  }

  /** The events of one user store: the page is added first if it was not mapped, with the bytes
      its frame happened to hold. */
  ghost predicate StoreEvents(s: Flat, l: Leaf, offset: nat, value: int, es: seq<Event>) {
    if l in s.leaves
    then |es| == 1 && es[0].Stored? && es[0] == Stored(l, offset, value, es[0].spare)
    else
      && |es| == 2 && es[0].Grown? && es[0].spare < |s.bytes|
      && es[0] == Grown(l, es[0].spare, s.bytes[es[0].spare])
      && es[1].Stored? && es[1] == Stored(l, offset, value, es[1].spare)
  }

  ghost function RunEager(v: View, es: seq<Event>): View {
    if es == [] then v else ApplyEager(RunEager(v, es[..|es| - 1]), es[|es| - 1])
  }

  lemma RunOne(s: Flat, e: Event)
    ensures Run(s, [e]) == Apply(s, e)
  {
    assert [e][..0] == [];
  }

  lemma RunNothing(s: Flat)
    ensures Run(s, []) == Some(s)
  {
  }

  /** A page mapped without touching its bytes. */
  lemma GrownApply(s: Flat, t: Flat, l: Leaf, f: Frame)
    requires l !in s.leaves && f < |s.bytes| && f !in Frames(s.leaves)
    requires t == s.(leaves := s.leaves[l := Fresh(f)])
    ensures Apply(s, Grown(l, f, s.bytes[f])) == Some(t)
  {
    assert s.bytes == s.bytes[f := s.bytes[f]];
  }

  lemma RunMore(s: Flat, es: seq<Event>, e: Event)
    requires Run(s, es).Some?
    ensures Run(s, es + [e]) == Apply(Run(s, es).value, e)
  {
    assert (es + [e])[..|es|] == es;
  }

  lemma {:induction false} RunConcat(s: Flat, es: seq<Event>, ds: seq<Event>)
    requires Run(s, es).Some?
    ensures Run(s, es + ds) == Run(Run(s, es).value, ds)
  {
    if ds == [] {
      assert es + ds == es;
    } else {
      var init := ds[..|ds| - 1];
      RunConcat(s, es, init);
      assert (es + ds)[..|es + ds| - 1] == es + init;
    }
  }

  // ----- pages added one after the other -----

  function PagesFrom(vpn: nat, count: nat): (s: seq<nat>)
    ensures |s| == count && forall i | 0 <= i < count :: s[i] == vpn + i
  {
    seq(count, i => vpn + i)
  }

  /** The events that add the pages `vpns` to `p`, in this order. */
  ghost predicate AddsPages(es: seq<Event>, p: Pid, vpns: seq<nat>) {
    |es| == |vpns| && forall k | 0 <= k < |es| :: es[k].Grown? && es[k].leaf == Leaf(p, vpns[k])
  }

  ghost function LeavesAt(p: Pid, vpns: seq<nat>): set<Leaf> {
    set x | x in vpns :: Leaf(p, x)
  }

  lemma LeavesAtConcat(p: Pid, a: seq<nat>, b: seq<nat>)
    ensures LeavesAt(p, a + b) == LeavesAt(p, a) + LeavesAt(p, b)
  {
  }

  lemma FaultedWritable(s: Flat, t: Flat, l: Leaf, spare: Frame)
    requires Faulted(s, t, l, spare)
    ensures l in t.leaves && t.leaves[l].writable
  {
  }

  /** A fault followed by the store it was taken for is a run of the flat machine. */
  lemma StoreRuns(s: Flat, t: Flat, l: Leaf, offset: nat, value: int, spare: Frame) returns (es: seq<Event>)
    requires l in t.leaves && t.leaves[l].writable && Put(t, l, offset, value).Some?
    requires s == t || Faulted(s, t, l, spare)
    requires l in s.leaves && s.leaves[l].writable ==> s == t
    ensures StoreEvents(s, l, offset, value, es) && Run(s, es) == Put(t, l, offset, value)
  {
    var e := Stored(l, offset, value, spare);
    if l in s.leaves {
      es := [e];
      RunOne(s, e);
    } else {
      var f := t.leaves[l].frame;
      var g := Grown(l, f, s.bytes[f]);
      es := [g] + [e];
      assert s.bytes == s.bytes[f := s.bytes[f]];
      RunOne(s, g);
      RunMore(s, [g], e);
    }
  }

  // ----- sharing -----

  lemma ShareSharers(m: LeafMap, p: Pid, c: Pid, f: Frame)
    requires p != c && Absent(m, c)
    ensures Sharers(Share(m, p, c), f) ==
            Sharers(m, f) + set l | l in Sharers(m, f) && l.pid == p :: Leaf(c, l.vpn)
  {
    var m' := Share(m, p, c);
    forall l | l in Sharers(m', f)
      ensures l in Sharers(m, f) || (exists k :: k in Sharers(m, f) && k.pid == p && l == Leaf(c, k.vpn))
    {
      if l !in m {
        var k :| k in m && k.pid == p && l == Leaf(c, k.vpn);
        assert k in Sharers(m, f);
      }
    }
  }

  lemma ShareOk(m: LeafMap, p: Pid, c: Pid)
    requires LeavesOk(m) && p != c && Absent(m, c)
    ensures LeavesOk(Share(m, p, c))
  {
    var m' := Share(m, p, c);
    forall l <- m'
      ensures m'[l].present && m'[l].cow == !m'[l].writable
      ensures m'[l].writable ==> Sharers(m', m'[l].frame) == {l}
    {
      ShareSharers(m, p, c, m'[l].frame);
      if m'[l].writable {
        assert l in m && l.pid != p;
        assert Sharers(m, m[l].frame) == {l};
      }
    }
    forall k, l | k in m' && l in m' && k.pid == l.pid && m'[k].frame == m'[l].frame
      ensures k == l
    {
      if k.pid == c {
        assert Leaf(p, k.vpn) in m && Leaf(p, l.vpn) in m;
        assert Leaf(p, k.vpn) == Leaf(p, l.vpn);
      }
    }
  }

  lemma ForkedIsCopy(s: Flat, p: Pid, c: Pid)
    requires FlatInv(s) && p != c && Absent(s.leaves, c)
    ensures FlatInv(s.(leaves := Share(s.leaves, p, c)))
    ensures Seen(s.(leaves := Share(s.leaves, p, c))) == ApplyEager(Seen(s), Forked(p, c))
  {
    hide LeavesOk;
    ShareOk(s.leaves, p, c);
    var s' := s.(leaves := Share(s.leaves, p, c));
    var v, v', w := Seen(s), Seen(s'), ApplyEager(Seen(s), Forked(p, c));
    forall l
      ensures l in v' <==> l in w
      ensures l in v' ==> v'[l] == w[l]
    {
      if l in v' && l !in s.leaves {
        var k :| k in s.leaves && k.pid == p && l == Leaf(c, k.vpn);
        assert k in v && k == Leaf(p, l.vpn);
      }
      if l in w && l !in v {
        var k :| k in v && k.pid == p && l == Leaf(c, k.vpn);
        assert k in s.leaves;
      }
    }
  }

  // ----- storing -----

  lemma SoleSharer(m: LeafMap, l: Leaf)
    requires l in m && |Sharers(m, m[l].frame)| == 1
    ensures Sharers(m, m[l].frame) == {l}
  {
    var s := Sharers(m, m[l].frame);
    assert |s - {l}| == 0;
  }

  /** Remapping one leaf to an unmapped frame. */
  lemma RemapOk(m: LeafMap, l: Leaf, spare: Frame)
    requires LeavesOk(m) && spare !in Frames(m)
    ensures LeavesOk(m[l := Fresh(spare)])
  {
    var m' := m[l := Fresh(spare)];
    assert forall k <- m :: m[k].frame in Frames(m);
    assert Sharers(m', spare) == {l};
    assert forall f | f != spare :: Sharers(m', f) == Sharers(m, f) - {l};
  }

  /** A sole sharer may take its frame over. */
  lemma ReclaimOk(m: LeafMap, l: Leaf)
    requires LeavesOk(m) && l in m && |Sharers(m, m[l].frame)| == 1
    ensures LeavesOk(m[l := Unmarked(m[l])])
  {
    var m' := m[l := Unmarked(m[l])];
    SoleSharer(m, l);
    forall k <- m'
      ensures m'[k].writable ==> Sharers(m', m'[k].frame) == {k}
    {
      assert Sharers(m', m'[k].frame) == Sharers(m, m[k].frame);
    }
  }

  /** A private copy shows the same bytes. */
  lemma CopySeen(s: Flat, l: Leaf, spare: Frame)
    requires FlatInv(s) && l in s.leaves && spare < |s.bytes| && spare !in Frames(s.leaves)
    ensures var s' := Flat(s.leaves[l := Fresh(spare)], s.bytes[spare := s.bytes[s.leaves[l].frame]]);
            FlatInv(s') && Seen(s') == Seen(s)
  {
    hide LeavesOk;
    RemapOk(s.leaves, l, spare);
    assert forall k <- s.leaves :: s.leaves[k].frame in Frames(s.leaves);
  }

  lemma CopyIsUnshare(s: Flat, l: Leaf, spare: Frame)
    requires l in s.leaves && s.leaves[l].frame < |s.bytes| && |Sharers(s.leaves, s.leaves[l].frame)| == 2
    requires spare < |s.bytes| && spare !in Frames(s.leaves)
    ensures Unshare(s, l, spare) ==
            Some(Flat(s.leaves[l := Fresh(spare)], s.bytes[spare := s.bytes[s.leaves[l].frame]]))
  {
  }

  lemma UnshareOk(s: Flat, l: Leaf, spare: Frame)
    requires FlatInv(s) && l in s.leaves && Unshare(s, l, spare).Some?
    ensures var s' := Unshare(s, l, spare).value;
            && FlatInv(s') && s'.leaves.Keys == s.leaves.Keys
            && s'.leaves[l].writable && Seen(s') == Seen(s)
  {
    if |Sharers(s.leaves, s.leaves[l].frame)| == 2 {
      CopySeen(s, l, spare);
    } else {
      ReclaimOk(s.leaves, l);
    }
  }

  lemma PutPrivate(s: Flat, l: Leaf, offset: nat, value: int)
    requires FlatInv(s) && l in s.leaves && s.leaves[l].writable && Put(s, l, offset, value).Some?
    ensures var s' := Put(s, l, offset, value).value;
            && FlatInv(s')
            && Seen(s') == Seen(s)[l := Seen(s)[l][offset := value]]
  {
    var f := s.leaves[l].frame;
    assert Sharers(s.leaves, f) == {l};
    assert forall k <- s.leaves :: s.leaves[k].frame == f <==> k in Sharers(s.leaves, f);
  }

  // ----- growing and tearing down -----

  lemma GrownOk(s: Flat, l: Leaf, spare: Frame, stale: Page)
    requires FlatInv(s) && l !in s.leaves && spare < |s.bytes| && spare !in Frames(s.leaves)
    ensures var s' := Flat(s.leaves[l := Fresh(spare)], s.bytes[spare := stale]);
            FlatInv(s') && Seen(s') == Seen(s)[l := stale]
  {
    RemapOk(s.leaves, l, spare);
    assert forall k <- s.leaves :: s.leaves[k].frame in Frames(s.leaves);
  }

  lemma DropKeepsOk(m: LeafMap, p: Pid)
    requires LeavesOk(m)
    ensures LeavesOk(Drop(m, p))
  {
    var m' := Drop(m, p);
    forall l <- m'
      ensures m'[l].writable ==> Sharers(m', m'[l].frame) == {l}
    {
      if m'[l].writable {
        assert Sharers(m, m[l].frame) == {l};
      }
    }
  }

  lemma DropOk(s: Flat, p: Pid)
    requires FlatInv(s)
    ensures var s' := s.(leaves := Drop(s.leaves, p));
            FlatInv(s') && Seen(s') == ApplyEager(Seen(s), TornDown(p))
  {
    DropKeepsOk(s.leaves, p);
  }

  // ----- the theorem -----

  lemma EventRefinesEager(s: Flat, e: Event)
    requires FlatInv(s) && Apply(s, e).Some?
    ensures FlatInv(Apply(s, e).value)
    ensures Seen(Apply(s, e).value) == ApplyEager(Seen(s), e)
  {
    match e
    case Forked(p, c) => ForkedIsCopy(s, p, c);
    case Stored(l, off, v, spare) =>
      if s.leaves[l].writable {
        PutPrivate(s, l, off, v);
      } else {
        UnshareOk(s, l, spare);
        PutPrivate(Unshare(s, l, spare).value, l, off, v);
      }
    case Grown(l, spare, stale) => GrownOk(s, l, spare, stale);
    case TornDown(p) => DropOk(s, p);
  }

  /** Copy-on-write refines eager copying: whatever the run, as long as the machine has not
      halted, each process reads what it would read if fork had copied all of its memory. */
  lemma {:induction false} CowRefinesEager(s: Flat, es: seq<Event>)
    requires FlatInv(s) && Run(s, es).Some?
    ensures FlatInv(Run(s, es).value)
    ensures Seen(Run(s, es).value) == RunEager(Seen(s), es)
  {
    if es != [] {
      var init := es[..|es| - 1];
      CowRefinesEager(s, init);
      EventRefinesEager(Run(s, init).value, es[|es| - 1]);
    }
  }
}
