/**
 Whole runs of the machine, from boot: any sequence of new programs, forks, user stores, heap
 growth and reaping keeps the invariant and, as far as bounds checks let it, shows each process
 what it would see if fork copied all memory.  One round of fork, exit and wait conserves the
 free pages.
 */
module MachineRuns {
  import opened Wrappers
  import opened PagePool
  import opened FlatCow
  import opened PageTree
  import opened PageWalk
  import opened MemorySpec
  import opened Conservation
  import opened ProgramImage
  import opened EagerCopy
  import opened Budget
  import opened Machine

  // ----- the machine seen as the reference machine -----

  ghost function Lists(v: VM): map<Pid, seq<Area>> {
    map p | p in v.areas :: Plain(v.areas[p])
  }

  ghost predicate Fine(s: Snapshot) {
    FlatInv(FlatOf(s))
  }

  /** What all processes see: their memory and their VMA lists. */
  ghost function Shown(s: Snapshot): Eager
    requires Fine(s)
  {
    Eager(Seen(FlatOf(s)), Lists(s.vm))
  }

  /** Between operations every process has a PML4 and a VMA list that begins with its stack. */
  ghost predicate Settled(v: VM) {
    v.roots.Keys == v.areas.Keys && forall p <- v.areas :: v.areas[p] != []
  }

  /** Pages that do not translate. */
  predicate Clear(t: seq<Table>, root: Frame, vpns: seq<nat>) {
    forall x <- vpns :: IsUser(x * 4096) && Walk(t, root, 4, x * 4096).None?
  }

  /** The operations that the model speaks of: a process number that is in use or free as it should
      be; a store below the kernel half, to an address whose tables exist if it passes the bounds
      check, since `getPTE` follows them blindly; heap growth over pages that are not mapped. */
  predicate Covered(roots: map<Pid, Frame>, areas: map<Pid, seq<Area>>, t: seq<Table>, op: Op) {
    match op
    case Spawn(p, segs) => p !in roots && GoodImage(segs)
    case Fork(p, c) => p in roots && p in areas && c !in roots
    case Write(p, a, _) =>
      && p in roots && p in areas && areas[p] != []
      && IsUser(a) && (InBounds(areas[p], a) ==> HasTables(t, roots[p], 4, a))
    case Grow(p, n) =>
      && p in roots && p in areas && |areas[p]| >= 2
      && Clear(t, roots[p], PagesFrom(areas[p][1].end / 4096, HeapPages(n)))
    case Reap(p) => p in roots && p in areas
  }

  ghost predicate CoveredIn(v: VM, op: Op) {
    Covered(v.roots, v.areas, v.tables, op)
  }

  /** A store to a mapped page that sharing has made read-only, at an address that the strict
      comparisons of `isr14` put outside every area: the first byte of an area, for example. */
  ghost predicate OnTheEdge(v: VM, op: Op) {
    op.Write? && op.pid in v.areas && LeafOf(op.pid, op.address) in v.leaves
    && !v.leaves[LeafOf(op.pid, op.address)].writable && !InBounds(v.areas[op.pid], op.address)
  }

  /** The machine does what the reference machine does: the same verdict and the same views. */
  ghost predicate Agrees(s: Snapshot, op: Op, fill: seq<Page>, made: bool, t: Snapshot) {
    Fine(s) && Fine(t) && EagerOp(Shown(s), op, fill) == (Shown(t), made)
  }

  // ----- from events to operations -----

  lemma ListsSet(v: VM, w: VM, p: Pid)
    requires Local(v, w, p) && p in w.areas
    ensures Lists(w) == Lists(v)[p := Plain(w.areas[p])]
  {
  }

  lemma ListsCut(v: VM, w: VM, p: Pid)
    requires Local(v, w, p) && p !in w.areas
    ensures Lists(w) == Lists(v) - {p}
  {
  }

  lemma StaysSettled(v: VM, w: VM, p: Pid)
    requires Settled(v) && Local(v, w, p) && (p in w.roots <==> p in w.areas) && (p in w.areas ==> w.areas[p] != [])
    ensures Settled(w)
  {
    forall q <- w.areas
      ensures w.areas[q] != []
    {
      if q != p { assert q in v.areas; }
    }
    forall q
      ensures q in w.roots <==> q in w.areas
    {
      if q != p { assert q in v.roots <==> q in w.roots; }
    }
  }

  lemma ClearIsMappable(v: VM, p: Pid, vpns: seq<nat>)
    requires TreeInv(v) && p in v.roots
    ensures Clear(v.tables, v.roots[p], vpns) <==> Mappable(v.leaves, p, vpns)
  {
    hide TreeInv, Walk, IsUser;
    forall x <- vpns | IsUser(x * 4096)
      ensures Walk(v.tables, v.roots[p], 4, x * 4096).None? <==> Leaf(p, x) !in v.leaves
    {
      WalkIsFlat(v, p, x * 4096);
      assert LeafOf(p, x * 4096) == Leaf(p, x);
    }
  }

  lemma PlainSetEnd(list: seq<Area>, end: nat)
    requires |list| >= 2
    ensures Plain(SetEnd(list, end)) == SetEnd(Plain(list), end)
  {
  }

  lemma SpawnAgrees(s: Snapshot, t: Snapshot, p: Pid, segs: seq<Segment>, es: seq<Event>)
    requires Fine(s) && p !in s.vm.areas && GoodImage(segs) && Local(s.vm, t.vm, p)
    requires p in t.vm.areas && Plain(t.vm.areas[p]) == FirstAreas(segs)
    requires AddsPages(es, p, Image(segs)) && Run(FlatOf(s), es) == Some(FlatOf(t))
    ensures Agrees(s, Spawn(p, segs), Stales(es), true, t)
  {
    hide Local, Run, FlatInv, RunEager, Seen, GoodImage, FirstAreas, Image;
    CowRefinesEager(FlatOf(s), es);
    AddedByEvents(Seen(FlatOf(s)), es, p, Image(segs), Stales(es));
    ListsSet(s.vm, t.vm, p);
  }

  lemma ForkAgrees(s: Snapshot, t: Snapshot, p: Pid, c: Pid)
    requires Fine(s) && p in s.vm.areas && c !in s.vm.areas && Local(s.vm, t.vm, c)
    requires c in t.vm.areas && Plain(t.vm.areas[c]) == Plain(s.vm.areas[p])
    requires Apply(FlatOf(s), Forked(p, c)) == Some(FlatOf(t))
    ensures Agrees(s, Fork(p, c), [], true, t)
  {
    hide Local, FlatInv, Apply, ApplyEager, Seen;
    EventRefinesEager(FlatOf(s), Forked(p, c));
    ListsSet(s.vm, t.vm, c);
  }

  lemma ReapAgrees(s: Snapshot, t: Snapshot, p: Pid)
    requires Fine(s) && p in s.vm.areas && p !in t.vm.areas && Local(s.vm, t.vm, p)
    requires Apply(FlatOf(s), TornDown(p)) == Some(FlatOf(t))
    ensures Agrees(s, Reap(p), [], true, t)
  {
    hide Local, FlatInv, Apply, ApplyEager, Seen;
    EventRefinesEager(FlatOf(s), TornDown(p));
    ListsCut(s.vm, t.vm, p);
  }

  lemma GrowAgrees(s: Snapshot, t: Snapshot, p: Pid, n: int, es: seq<Event>)
    requires Fine(s) && p in s.vm.areas && |s.vm.areas[p]| >= 2 && Local(s.vm, t.vm, p)
    requires Mappable(s.vm.leaves, p, PagesFrom(s.vm.areas[p][1].end / 4096, HeapPages(n)))
    requires p in t.vm.areas
    requires t.vm.areas[p] == SetEnd(s.vm.areas[p], s.vm.areas[p][1].end + HeapPages(n) * 4096)
    requires AddsPages(es, p, PagesFrom(s.vm.areas[p][1].end / 4096, HeapPages(n)))
    requires Run(FlatOf(s), es) == Some(FlatOf(t))
    ensures Agrees(s, Grow(p, n), Stales(es), true, t)
  {
    hide Local, Run, FlatInv, RunEager, IsUser, HeapPages;
    CowRefinesEager(FlatOf(s), es);
    AddedByEvents(Seen(FlatOf(s)), es, p, PagesFrom(s.vm.areas[p][1].end / 4096, HeapPages(n)), Stales(es));
    ListsSet(s.vm, t.vm, p);
    PlainSetEnd(s.vm.areas[p], s.vm.areas[p][1].end + HeapPages(n) * 4096);
  }

  /** A store that went through. */
  lemma StoreAgrees(s: Snapshot, t: Snapshot, p: Pid, a: nat, x: int, es: seq<Event>)
    requires Fine(s) && p in s.vm.areas && t.vm.areas == s.vm.areas
    requires LeafOf(p, a) in s.vm.leaves || InStack(s.vm.areas[p], a)
    requires StoreEvents(FlatOf(s), LeafOf(p, a), a % 4096, x, es) && Run(FlatOf(s), es) == Some(FlatOf(t))
    ensures Agrees(s, Write(p, a, x), Stales(es), true, t)
  {
    hide Run, FlatInv, RunEager, StoreEvents, Written, Added, InBounds, InStack;
    CowRefinesEager(FlatOf(s), es);
    WrittenByEvents(FlatOf(s), p, a, x, es);
    PlainBounds(s.vm.areas[p], a);
  }

  /** A store that is refused: the reference machine refuses it too, unless the page is mapped. */
  lemma RefusalAgrees(s: Snapshot, p: Pid, a: nat, x: int)
    requires Fine(s) && p in s.vm.areas && Refused(s.vm.leaves, LeafOf(p, a))
    requires NoAccess(s.vm.leaves, s.vm.areas[p], p, a)
    ensures Agrees(s, Write(p, a, x), [], false, s) <==> !OnTheEdge(s.vm, Write(p, a, x))
  {
    hide FlatInv, InBounds, Written, Added;
    PlainBounds(s.vm.areas[p], a);
    BoundsOfStack(s.vm.areas[p], a);
  }

  lemma BoundsOfStack(list: seq<Area>, a: nat)
    ensures InStack(list, a) ==> InBounds(list, a)
  {
  }

  // ----- one operation -----

  lemma NowFine(m: Memory)
    requires m.Valid()
    ensures Fine(m.Now())
  {
    hide TreeInv, RefInv, LeavesOk, Pool.Valid;
    ShapeOf(m.V());
  }

  /** No operation takes more free pages than this. */
  ghost function Needed(v: VM, op: Op): nat {
    match op
    case Spawn(_, segs) => SpawnPages(segs, 0) + 6
    case Fork(p, _) => |TablesOf(v, p)| + if p in v.areas then |v.areas[p]| else 0
    case Write(p, a, _) =>
      if LeafOf(p, a) in v.leaves || InStack(AreasFor(v, p), a) then StoreNeeds(v, LeafOf(p, a)) else 0
    case Grow(_, n) => PageCost(HeapPages(n))
    case Reap(_) => 0
  }

  /** The operation writes a frame that has more than two sharers. */
  ghost predicate Crowds(v: VM, op: Op) {
    op.Write? && Crowded(v.leaves, LeafOf(op.pid, op.address))
  }

  // ----- pages -----

  /** No page has leaked, and each process still holds no more than is booked for it. */
  ghost predicate Paid(s: Snapshot, op: Op, t: Snapshot)
    requires Fine(s)
  {
    && Capacity(t.vm) == Capacity(s.vm)
    && forall sz | Within(s.vm, sz) :: Within(t.vm, Booked(Shown(s), sz, op))
  }

  lemma GrownPaid(s: Snapshot, t: Snapshot, op: Op, p: Pid, k: nat, es: seq<Event>, vpns: seq<nat>)
    requires Fine(s) && Good(s) && Good(t) && Local(s.vm, t.vm, p) && p in t.vm.roots && AtMost(s.vm, t.vm, k)
    requires AddsPages(es, p, vpns) && Run(FlatOf(s), es) == Some(FlatOf(t))
    requires forall sz | Within(s.vm, sz) :: Booked(Shown(s), sz, op) == sz[p := SizeOf(sz, p) + k]
    ensures Paid(s, op, t)
  {
    hide Good, Local, AtMost, Run, AddsPages, Fine, Shown, Within, Booked, NewFrames;
    AddedFrames(FlatOf(s), es, p, vpns);
    SameCapacity(s.vm, t.vm, p);
    forall sz | Within(s.vm, sz)
      ensures Within(t.vm, Booked(Shown(s), sz, op))
    {
      WithinGrown(s, t, p, sz, k);
    }
  }

  /** The bookings of a new program start at nothing. */
  lemma SpawnBooked(v: VM, e: Eager, p: Pid, segs: seq<Segment>, sz: Sizes)
    requires Within(v, sz) && p !in v.roots
    ensures Booked(e, sz, Spawn(p, segs)) == sz[p := SizeOf(sz, p) + (SpawnPages(segs, 0) + 6)]
  {
  }

  lemma ForkPaid(s: Snapshot, t: Snapshot, p: Pid, c: Pid)
    requires Fine(s) && Good(s) && Good(t) && Local(s.vm, t.vm, c) && c in t.vm.roots
    requires p in s.vm.roots && c !in s.vm.roots && Apply(FlatOf(s), Forked(p, c)) == Some(FlatOf(t))
    requires |t.vm.free| + |TablesOf(s.vm, p)| + |AreasFor(s.vm, p)| >= |s.vm.free|
    ensures Paid(s, Fork(p, c), t)
  {
    hide Good, Local, Apply, Fine, Shown, Within, TablesOf, AreasFor;
    SameCapacity(s.vm, t.vm, c);
    forall sz | Within(s.vm, sz)
      ensures Within(t.vm, Booked(Shown(s), sz, Fork(p, c)))
    {
      WithinForked(s, t, p, c, sz);
    }
  }

  lemma ReapPaid(s: Snapshot, t: Snapshot, p: Pid)
    requires Fine(s) && Local(s.vm, t.vm, p) && p !in t.vm.roots && Apply(FlatOf(s), TornDown(p)) == Some(FlatOf(t))
    ensures Paid(s, Reap(p), t)
  {
    hide Local, Fine, Shown, Within;
    SameCapacity(s.vm, t.vm, p);
    forall sz | Within(s.vm, sz)
      ensures Within(t.vm, Booked(Shown(s), sz, Reap(p)))
    {
      WithinReaped(s.vm, t.vm, p, sz);
    }
  }

  /** What a store books, in terms of the machine. */
  lemma StoreBooked(s: Snapshot, p: Pid, a: nat, x: int, sz: Sizes)
    requires Fine(s) && p in s.vm.areas
    ensures Booked(Shown(s), sz, Write(p, a, x)) ==
            if LeafOf(p, a) !in s.vm.leaves && InStack(s.vm.areas[p], a) then sz[p := SizeOf(sz, p) + 4] else sz
  {
    hide FlatInv, InStack, InBounds;
    PlainBounds(s.vm.areas[p], a);
  }

  lemma StorePaid(s: Snapshot, t: Snapshot, p: Pid, a: nat, x: int, es: seq<Event>)
    requires Fine(s) && Good(s) && Good(t) && Local(s.vm, t.vm, p) && p in s.vm.roots && p in s.vm.areas
    requires t.vm.roots == s.vm.roots && t.vm.areas == s.vm.areas && StoreSpent(s.vm, t.vm, LeafOf(p, a))
    requires LeafOf(p, a) in s.vm.leaves || InStack(s.vm.areas[p], a)
    requires StoreEvents(FlatOf(s), LeafOf(p, a), a % 4096, x, es) && Run(FlatOf(s), es) == Some(FlatOf(t))
    ensures Paid(s, Write(p, a, x), t)
  {
    hide Good, Local, Run, StoreEvents, Fine, Shown, Within, Booked, NewFrames, InStack, AtMost;
    StoredLeaves(FlatOf(s), FlatOf(t), LeafOf(p, a), a % 4096, x, es);
    SameCapacity(s.vm, t.vm, p);
    forall sz | Within(s.vm, sz)
      ensures Within(t.vm, Booked(Shown(s), sz, Write(p, a, x)))
    {
      StoreBooked(s, p, a, x, sz);
      if LeafOf(p, a) in s.vm.leaves {
        WithinStored(s.vm, t.vm, sz);
      } else {
        WithinGrown(s, t, p, sz, 4);
      }
    }
  }

  lemma RefusalPaid(s: Snapshot, p: Pid, a: nat, x: int)
    requires Fine(s) && p in s.vm.areas && NoAccess(s.vm.leaves, s.vm.areas[p], p, a)
    ensures Paid(s, Write(p, a, x), s)
  {
    hide Fine, Shown, Within, Booked, InBounds, InStack, Capacity;
    BoundsOfStack(s.vm.areas[p], a);
    forall sz | Within(s.vm, sz)
      ensures Within(s.vm, Booked(Shown(s), sz, Write(p, a, x)))
    {
      StoreBooked(s, p, a, x, sz);
    }
  }

  /** Pages run out only where the bookings exceed what there is. */
  lemma Overbooked(s: Snapshot, op: Op, sz: Sizes)
    requires Fine(s) && Good(s) && Settled(s.vm) && CoveredIn(s.vm, op) && Within(s.vm, sz)
    requires |s.vm.free| < Needed(s.vm, op)
    ensures Capacity(s.vm) < Total(Booked(Shown(s), sz, op))
  {
    hide Good, Fine, Shown, Total, Capacity, Settled, TablesOf, LeavesOf, InBounds, InStack, HasTables, Clear,
      GoodImage, SpawnPages, HeapPages, Sharers;
    Room(s, sz);
    match op
    case Spawn(p, segs) => TotalSet(sz, p, SpawnPages(segs, 0) + 6);
    case Fork(p, c) => TotalSet(sz, c, SizeOf(sz, p));
    case Write(p, a, x) =>
      StoreBooked(s, p, a, x, sz);
      TotalSet(sz, p, SizeOf(sz, p) + 4);
    case Grow(p, n) => TotalSet(sz, p, SizeOf(sz, p) + PageCost(HeapPages(n)));
    case Reap(p) =>
  }

  // ----- the operations -----

  /** What the code says of an operation, in its own comparisons and constants: which stores are let
      through, how far the heap grows, and where a new program is laid out. */
  ghost predicate AsWritten(v: VM, op: Op, made: bool, w: VM) {
    match op
    case Write(p, a, _) => Judged(v, p, a, if made then Done else SegFault)
    case Grow(p, n) =>
      && p in v.areas && p in w.areas && HeapGrown(v.leaves, v.areas[p], w.leaves, w.areas[p], p)
      && GrownBy(n, v.areas[p][1].end, w.areas[p][1].end)
    case Spawn(p, segs) => p in w.areas && LaidOut(w.areas[p], segs) && ImageMapped(v.leaves, w.leaves, p, segs)
    case Fork(p, c) =>
      && p in v.areas && c in w.areas && |w.areas[c]| == |v.areas[p]|
      && forall k | 0 <= k < |v.areas[p]| ::
           w.areas[c][k].start == v.areas[p][k].start && w.areas[c][k].end == v.areas[p][k].end
    case Reap(p) => p !in w.roots && p !in w.areas
  }

  /** One operation on the machine.  It halts only when there are fewer free pages than it may need or
      when it writes a frame with too many sharers.  Otherwise it does what the reference machine
      does, exactly when it is not a store on the edge of an area to a page made read-only by
      sharing; and either way it takes no more pages than are booked for it. */
  method Perform(m: Memory, op: Op) returns (halted: bool, made: bool, ghost fill: seq<Page>)
    requires m.Valid() && Settled(m.V())
    modifies m, m.pool, m.pool.list
    ensures halted ==>
              || (m.pool.order == [] && |old(m.pool.order)| < Needed(old(m.V()), op))
              || (m.Valid() && m.Now() == old(m.Now()) && Crowds(m.V(), op))
    ensures !halted ==> m.Valid() && Settled(m.V()) && Fine(old(m.Now())) && Fine(m.Now())
    ensures !halted && CoveredIn(old(m.V()), op) ==>
              && (Agrees(old(m.Now()), op, fill, made, m.Now()) <==> !OnTheEdge(old(m.V()), op))
              && Paid(old(m.Now()), op, m.Now()) && AsWritten(old(m.V()), op, made, m.V())
    ensures !halted && !made ==> m.Now() == old(m.Now())
  {
    hide TreeInv, RefInv, LeavesOk, Pool.Valid, Local, Covered, Agrees, Settled, Fine, InBounds, Crowded, Needed,
      AtMost, Paid, Judged, HeapGrown, GrownBy, LaidOut, ImageMapped;
    ghost var s := m.Now();
    NowFine(m);
    halted, made, fill := false, false, [];
    if Covered(m.roots, m.areas, m.tables, op) {
      made := true;
      match op
      case Spawn(p, segs) => halted, fill := DoSpawn(m, p, segs);
      case Fork(p, c) => halted := DoFork(m, p, c);
      case Write(p, a, x) =>
        var o;
        ghost var es: seq<Event>;
        o, fill, es := DoWrite(m, p, a, x);
        halted, made := o == OutOfMemory || o == TooManySharers, o == Done;
      case Grow(p, n) => halted, fill := DoGrow(m, p, n);
      case Reap(p) => DoReap(m, p);
    }
  }

  method DoSpawn(m: Memory, p: Pid, segs: seq<Segment>) returns (halted: bool, ghost fill: seq<Page>)
    requires m.Valid() && Settled(m.V()) && CoveredIn(m.V(), Spawn(p, segs))
    modifies m, m.pool, m.pool.list
    ensures halted ==> m.pool.order == [] && |old(m.pool.order)| < Needed(old(m.V()), Spawn(p, segs))
    ensures !halted ==> m.Valid() && Settled(m.V()) && Fine(m.Now())
    ensures !halted ==> Agrees(old(m.Now()), Spawn(p, segs), fill, true, m.Now())
    ensures !halted ==> Paid(old(m.Now()), Spawn(p, segs), m.Now())
    ensures !halted ==> AsWritten(old(m.V()), Spawn(p, segs), true, m.V())
    ensures !halted ==> Local(old(m.V()), m.V(), p) && AtMost(old(m.V()), m.V(), Needed(old(m.V()), Spawn(p, segs)))
    ensures !halted ==> p in m.areas
  {
    hide TreeInv, RefInv, LeavesOk, Pool.Valid, Local, Agrees, Fine, GoodImage, Run, AddsPages, AtMost, SpawnPages,
      Paid, Good, Within, Booked, Shown, LaidOut, ImageMapped;
    ghost var s := m.Now();
    NowFine(m);
    m.GoodNow();
    var ok, es := m.Spawn(p, segs);
    halted, fill := !ok, Stales(es);
    if ok {
      NowFine(m);
      m.GoodNow();
      forall sz | Within(s.vm, sz)
        ensures Booked(Shown(s), sz, Spawn(p, segs)) == sz[p := SizeOf(sz, p) + (SpawnPages(segs, 0) + 6)]
      {
        SpawnBooked(s.vm, Shown(s), p, segs, sz);
      }
      GrownPaid(s, m.Now(), Spawn(p, segs), p, SpawnPages(segs, 0) + 6, es, Image(segs));
      StaysSettled(s.vm, m.V(), p);
      SpawnAgrees(s, m.Now(), p, segs, es);
    }
  }

  method DoFork(m: Memory, p: Pid, c: Pid) returns (halted: bool)
    requires m.Valid() && Settled(m.V()) && CoveredIn(m.V(), Fork(p, c))
    modifies m, m.pool, m.pool.list
    ensures halted ==> m.pool.order == [] && |old(m.pool.order)| < Needed(old(m.V()), Fork(p, c))
    ensures !halted ==> m.Valid() && Settled(m.V()) && Fine(m.Now())
    ensures !halted ==> Agrees(old(m.Now()), Fork(p, c), [], true, m.Now())
    ensures !halted ==> Paid(old(m.Now()), Fork(p, c), m.Now())
    ensures !halted ==> |m.pool.order| + Needed(old(m.V()), Fork(p, c)) >= |old(m.pool.order)|
    ensures !halted ==> AsWritten(old(m.V()), Fork(p, c), true, m.V())
    ensures !halted ==>
              && Apply(old(m.Contents()), Forked(p, c)) == Some(m.Contents()) && Local(old(m.V()), m.V(), c)
              && p in m.areas && m.areas[p] == old(m.areas)[p] && c in m.areas
  {
    hide TreeInv, RefInv, LeavesOk, Pool.Valid, Local, Agrees, Fine, Apply, TablesOf, Paid, Good;
    ghost var s := m.Now();
    NowFine(m);
    m.GoodNow();
    var ok := m.CopyTask(p, c);
    halted := !ok;
    if ok {
      NowFine(m);
      m.GoodNow();
      ForkPaid(s, m.Now(), p, c);
      assert Plain(m.areas[c]) == Plain(m.areas[p]);
      StaysSettled(s.vm, m.V(), c);
      ForkAgrees(s, m.Now(), p, c);
    }
  }

  method DoWrite(m: Memory, p: Pid, a: nat, x: int)
    returns (o: Outcome, ghost fill: seq<Page>, ghost es: seq<Event>)
    requires m.Valid() && Settled(m.V()) && CoveredIn(m.V(), Write(p, a, x))
    modifies m, m.pool, m.pool.list
    ensures o == OutOfMemory ==> m.pool.order == [] && |old(m.pool.order)| < Needed(old(m.V()), Write(p, a, x))
    ensures Judged(old(m.V()), p, a, o)
    ensures o == TooManySharers ==> Crowds(m.V(), Write(p, a, x))
    ensures o == SegFault ==>
              Refused(old(m.leaves), LeafOf(p, a)) && NoAccess(old(m.leaves), old(m.List(p)), p, a)
    ensures o == SegFault || o == TooManySharers ==> m.Valid() && Settled(m.V()) && m.Now() == old(m.Now())
    ensures o == SegFault || o == Done ==>
              && m.Valid() && Settled(m.V()) && Fine(m.Now())
              && (Agrees(old(m.Now()), Write(p, a, x), fill, o == Done, m.Now()) <==>
                  !OnTheEdge(old(m.V()), Write(p, a, x)))
              && Paid(old(m.Now()), Write(p, a, x), m.Now())
    ensures o == Done ==>
              && m.roots == old(m.roots) && m.areas == old(m.areas) && Local(old(m.V()), m.V(), p)
              && StoreEvents(old(m.Contents()), LeafOf(p, a), a % 4096, x, es)
              && Run(old(m.Contents()), es) == Some(m.Contents())
  {
    hide TreeInv, RefInv, LeavesOk, Pool.Valid, Local, Agrees, Fine, Run, StoreEvents, InBounds, InStack, HasTables,
      IsUser, Crowded, Paid, Good, StoreSpent, StoreNeeds, Judged;
    ghost var s := m.Now();
    NowFine(m);
    m.GoodNow();
    m.TableCheck(p, a);
    o, es := m.Store(p, a, x);
    fill := [];
    if o == Done {
      NowFine(m);
      StaysSettled(s.vm, m.V(), p);
      fill := Stales(es);
      StoreAgrees(s, m.Now(), p, a, x, es);
      m.GoodNow();
      StorePaid(s, m.Now(), p, a, x, es);
    } else if o == SegFault {
      RefusalAgrees(s, p, a, x);
      RefusalPaid(s, p, a, x);
    }
  }

  method DoGrow(m: Memory, p: Pid, n: int) returns (halted: bool, ghost fill: seq<Page>)
    requires m.Valid() && Settled(m.V()) && CoveredIn(m.V(), Grow(p, n))
    modifies m, m.pool, m.pool.list
    ensures halted ==> m.pool.order == [] && |old(m.pool.order)| < Needed(old(m.V()), Grow(p, n))
    ensures !halted ==> m.Valid() && Settled(m.V()) && Fine(m.Now())
    ensures !halted ==> Agrees(old(m.Now()), Grow(p, n), fill, true, m.Now())
    ensures !halted ==> Paid(old(m.Now()), Grow(p, n), m.Now())
    ensures !halted ==> AsWritten(old(m.V()), Grow(p, n), true, m.V())
    ensures !halted ==> Local(old(m.V()), m.V(), p) && AtMost(old(m.V()), m.V(), Needed(old(m.V()), Grow(p, n)))
    ensures !halted ==> p in m.areas
  {
    hide TreeInv, RefInv, LeavesOk, Pool.Valid, Local, Agrees, Fine, Run, Clear, Mappable, AddsPages, HeapPages, AtMost,
      PageCost, Paid, Good, Within, Shown, HeapGrown, GrownBy;
    ghost var s := m.Now();
    NowFine(m);
    m.GoodNow();
    ClearIsMappable(m.V(), p, PagesFrom(m.areas[p][1].end / 4096, HeapPages(n)));
    var r, es := m.GrowHeap(p, n);
    halted, fill := r.None?, Stales(es);
    if r.Some? {
      NowFine(m);
      m.GoodNow();
      GrownPaid(s, m.Now(), Grow(p, n), p, PageCost(HeapPages(n)), es,
                PagesFrom(s.vm.areas[p][1].end / 4096, HeapPages(n)));
      StaysSettled(s.vm, m.V(), p);
      GrowAgrees(s, m.Now(), p, n, es);
    }
  }

  method DoReap(m: Memory, p: Pid)
    requires m.Valid() && Settled(m.V()) && CoveredIn(m.V(), Reap(p))
    modifies m, m.pool, m.pool.list
    ensures m.Valid() && Settled(m.V()) && Fine(m.Now())
    ensures Agrees(old(m.Now()), Reap(p), [], true, m.Now()) && Paid(old(m.Now()), Reap(p), m.Now())
    ensures Apply(old(m.Contents()), TornDown(p)) == Some(m.Contents()) && Local(old(m.V()), m.V(), p) && p !in m.roots
    ensures AsWritten(old(m.V()), Reap(p), true, m.V())
  {
    hide TreeInv, RefInv, LeavesOk, Pool.Valid, Local, Agrees, Fine, Apply, Paid;
    ghost var s := m.Now();
    NowFine(m);
    m.RemoveProcess(p);
    NowFine(m);
    ReapPaid(s, m.Now(), p);
    StaysSettled(s.vm, m.V(), p);
    ReapAgrees(s, m.Now(), p);
  }

  // ----- whole runs -----

  /** An operation that the model covers and that both machines make alike. */
  ghost predicate Agreeable(v: VM, op: Op) {
    CoveredIn(v, op) && !OnTheEdge(v, op)
  }

  /** Whether the next operation is one of those: decided on the tables and the VMA list. */
  method CanAgree(m: Memory, op: Op) returns (b: bool)
    requires m.Valid()
    ensures b == Agreeable(m.V(), op)
  {
    hide TreeInv, RefInv, LeavesOk, Pool.Valid, InBounds, HasTables, Clear, GoodImage, Walk, IsUser;
    b := Covered(m.roots, m.areas, m.tables, op);
    if b && op.Write? {
      WalkIsFlat(m.V(), op.pid, op.address);
      var e := Walk(m.tables, m.roots[op.pid], 4, op.address);
      var inside := m.CheckBounds(m.areas[op.pid], op.address);
      b := e.None? || e.value.writable || inside;
    }
  }

  /** What the machine has done from `s` to `t` is what the reference machine does with the same
      operations: the same verdicts, and the same memory for every process.  No page has leaked, and
      no process holds more than is booked for it. */
  ghost predicate Refines(s: Snapshot, t: Snapshot, ops: seq<Op>, fills: seq<seq<Page>>, made: seq<bool>) {
    && Fine(s) && Fine(t) && |fills| == |ops|
    && Shown(t) == RunOpsEager(Shown(s), ops, fills) && made == Verdicts(Shown(s), ops, fills)
    && Capacity(t.vm) == Capacity(s.vm) && Within(t.vm, Bookings(Shown(s), Weights(s.vm), ops, fills))
  }

  lemma RefinesNothing(s: Snapshot)
    requires Fine(s)
    ensures Refines(s, s, [], [], [])
  {
    WithinWeights(s.vm);
  }

  lemma RefinesMore(s: Snapshot, t: Snapshot, ops: seq<Op>, fills: seq<seq<Page>>, made: seq<bool>,
                    op: Op, fill: seq<Page>, b: bool, u: Snapshot)
    requires Refines(s, t, ops, fills, made) && Agrees(t, op, fill, b, u) && Paid(t, op, u)
    ensures Refines(s, u, ops + [op], fills + [fill], made + [b])
  {
    hide Fine, Shown, EagerOp, RunOpsEager, Verdicts, Within, Capacity, Booked, Bookings;
    RunOneMore(Shown(s), ops, fills, op, fill);
    BookingsMore(Shown(s), Weights(s.vm), ops, fills, op, fill);
  }

  lemma PrefixMore(ops: seq<Op>, n: nat)
    requires n < |ops|
    ensures ops[..n + 1] == ops[..n] + [ops[n]] && ops[..0] == []
  {
  }

  /** The pages are fewer than are booked with one operation more. */
  ghost predicate TooMuch(capacity: int, e: Eager, sz: Sizes, ops: seq<Op>, n: nat, fills: seq<seq<Page>>)
    requires |fills| == n < |ops|
  {
    capacity < Total(Booked(RunOpsEager(e, ops[..n], fills), Bookings(e, sz, ops[..n], fills), ops[n]))
  }

  /** Why a run has ended early: after its first `n` operations, at `t`, the next one was one that both
      machines can make, but pages ran out in the middle of it, where memory without sharing would
      not have had room either; or it writes a crowded frame. */
  ghost predicate Halts(s: Snapshot, t: Snapshot, last: Snapshot, ops: seq<Op>, n: nat, fills: seq<seq<Page>>,
                        made: seq<bool>) {
    && n < |ops| && Refines(s, t, ops[..n], fills, made) && Agreeable(t.vm, ops[n])
    && (|| (last == t && Crowds(t.vm, ops[n]))
        || (&& last.vm.free == [] && |t.vm.free| < Needed(t.vm, ops[n])
            && TooMuch(Capacity(s.vm), Shown(s), Weights(s.vm), ops, n, fills)))
  }

  lemma HaltsNow(s: Snapshot, t: Snapshot, last: Snapshot, ops: seq<Op>, n: nat, fills: seq<seq<Page>>,
                 made: seq<bool>)
    requires n < |ops| && Refines(s, t, ops[..n], fills, made) && Agreeable(t.vm, ops[n]) && Good(t) && Settled(t.vm)
    requires (last == t && Crowds(t.vm, ops[n])) || (last.vm.free == [] && |t.vm.free| < Needed(t.vm, ops[n]))
    ensures Halts(s, t, last, ops, n, fills, made)
  {
    hide Fine, Shown, RunOpsEager, Verdicts, Within, Capacity, Booked, Bookings, CoveredIn, Needed, Crowds, Good,
      Settled, Total;
    if |t.vm.free| < Needed(t.vm, ops[n]) {
      Overbooked(t, ops[n], Bookings(Shown(s), Weights(s.vm), ops[..n], fills));
    }
  }

  /** Copy-on-write refines eager copying, on the machine itself and for any operations in any order.
      The first `n` of them, up to `t`, are made exactly as the reference machine makes them; that is
      all of them, unless the next one is outside the model or on the edge of an area, or the kernel
      halts in the middle of it. */
  method RunOps(m: Memory, ops: seq<Op>)
    returns (n: nat, halted: bool, made: seq<bool>, ghost fills: seq<seq<Page>>, ghost t: Snapshot)
    requires m.Valid() && Settled(m.V())
    modifies m, m.pool, m.pool.list
    ensures n <= |ops| && |made| == n && Refines(old(m.Now()), t, ops[..n], fills, made)
    ensures !halted ==> m.Valid() && Settled(m.V()) && m.Now() == t
    ensures !halted && n < |ops| ==> !Agreeable(t.vm, ops[n])
    ensures halted ==> Halts(old(m.Now()), t, m.Now(), ops, n, fills, made)
  {
    hide TreeInv, RefInv, LeavesOk, Pool.Valid, Settled, Refines, Fine, Agrees, CoveredIn, OnTheEdge, Crowds, Needed,
      Paid, Halts, Good;
    ghost var s := m.Now();
    n, halted, made, fills, t := 0, false, [], [], s;
    NowFine(m);
    RefinesNothing(s);
    while n < |ops|
      invariant n <= |ops| && |made| == n && m.Valid() && Settled(m.V())
      invariant t == m.Now() && Refines(s, t, ops[..n], fills, made)
    {
      var b := CanAgree(m, ops[n]);
      if !b {
        return;
      }
      m.GoodNow();
      var v;
      ghost var fill: seq<Page>;
      halted, v, fill := Perform(m, ops[n]);
      if halted {
        HaltsNow(s, t, m.Now(), ops, n, fills, made);
        return;
      }
      RefinesMore(s, t, ops[..n], fills, made, ops[n], fill, v, m.Now());
      made, fills, t := made + [v], fills + [fill], m.Now();
      PrefixMore(ops, n);
      n := n + 1;
    }
  }

  /** The same from boot: memory of arbitrary contents and no process yet.  Pages run out only where
      memory without sharing would not have had room, and when all processes have been reaped every
      page is free again. */
  method RunFromBoot(pool: Pool, kernelHalf: Frame, tables: seq<Table>, bytes: seq<Page>, ops: seq<Op>)
    returns (m: Memory, n: nat, halted: bool, made: seq<bool>, ghost fills: seq<seq<Page>>)
    requires pool.Valid() && |tables| == |bytes| == pool.list.Length
    requires forall f | 0 <= f < |tables| && pool.list[f].free :: pool.Managed(f)
    requires forall f | 0 <= f < |tables| :: |tables[f]| == 512 && |bytes[f]| == 4096
    modifies pool, pool.list
    ensures n <= |ops| && |made| == |fills| == n && made == Verdicts(Eager(map[], map[]), ops[..n], fills)
    ensures !halted ==>
              && m.Valid() && Settled(m.V()) && Fine(m.Now())
              && Shown(m.Now()) == RunOpsEager(Eager(map[], map[]), ops[..n], fills)
              && (m.roots == map[] ==> |m.pool.order| == |old(pool.order)|)
    ensures !halted && n < |ops| ==> !Agreeable(m.V(), ops[n])
    ensures halted ==>
              && n < |ops|
              && (|| TooMuch(|old(pool.order)|, Eager(map[], map[]), map[], ops, n, fills)
                  || (&& Fine(m.Now()) && Crowds(m.V(), ops[n])
                      && Shown(m.Now()) == RunOpsEager(Eager(map[], map[]), ops[..n], fills)))
  {
    hide TreeInv, RefInv, LeavesOk, Pool.Valid, Pool.Managed, RunOpsEager, Verdicts, Fine, Seen, Agreeable, Crowds,
      Booked, Bookings, Total, Within, Weight, Capacity, Good, Needed;
    m := new Memory(pool, kernelHalf, tables, bytes);
    NowFine(m);
    m.GoodNow();
    ghost var s := m.Now();
    NobodyYet(s);
    AllFree(s);
    assert Weights(s.vm) == map[];
    ghost var t: Snapshot;
    n, halted, made, fills, t := RunOps(m, ops);
    if !halted {
      m.GoodNow();
      if m.roots == map[] { AllFree(t); }
    }
  }

  lemma NobodyYet(s: Snapshot)
    requires Fine(s) && s.vm.leaves == map[] && s.vm.areas == map[]
    ensures Shown(s) == Eager(map[], map[])
  {
  }

  // ----- the edge is reached -----

  lemma EmptyImage()
    ensures GoodImage([]) && Image([]) == [STACK / 4096] && FirstAreas([]) == [StackArea(), HeapArea()]
  {
  }

  /** After a program without segments has started, its heap is empty. */
  lemma Started(s: Snapshot, fill: seq<Page>, t: Snapshot, p: Pid)
    requires Agrees(s, Spawn(p, []), fill, true, t) && forall l <- s.vm.leaves :: l.pid != p
    ensures p in t.vm.areas && Plain(t.vm.areas[p]) == [StackArea(), HeapArea()]
    ensures Mappable(t.vm.leaves, p, PagesFrom(HEAP / 4096, 1))
    ensures LeafOf(p, STACK) in t.vm.leaves && InBounds(t.vm.areas[p], STACK)
    ensures t.vm.areas.Keys == s.vm.areas.Keys + {p}
  {
    hide FlatInv, GoodImage, Image, FirstAreas;
    EmptyImage();
    assert p !in s.vm.areas by { assert p !in Shown(s).lists; }
    AddedOne(Shown(s).view, p, STACK / 4096, fill);
    assert Lists(t.vm)[p] == FirstAreas([]);
    assert Shown(t).view == Shown(s).view[Leaf(p, STACK / 4096) := Fill(fill, 0)];
    assert Leaf(p, HEAP / 4096) !in Shown(t).view && Leaf(p, STACK / 4096) in Shown(t).view;
    PlainBounds(t.vm.areas[p], STACK);
    assert Lists(t.vm).Keys == t.vm.areas.Keys && Lists(s.vm).Keys == s.vm.areas.Keys;
  }

  /** After one page of growth the first byte of the heap is mapped and still on the edge. */
  lemma HeapStarted(s: Snapshot, fill: seq<Page>, t: Snapshot, p: Pid)
    requires Agrees(s, Grow(p, 0), fill, true, t)
    requires p in s.vm.areas && Plain(s.vm.areas[p]) == [StackArea(), HeapArea()]
    ensures p in t.vm.areas && |t.vm.areas[p]| == 2
    ensures !InBounds(t.vm.areas[p], HEAP) && LeafOf(p, HEAP) in t.vm.leaves
    ensures t.vm.areas.Keys == s.vm.areas.Keys
  {
    hide FlatInv;
    AddedOne(Shown(s).view, p, HEAP / 4096, fill);
    assert PagesFrom(HEAP / 4096, 1) == [HEAP / 4096];
    var list := [StackArea(), Area(HEAP, HEAP + 4096, 0)];
    assert Lists(s.vm)[p] == [StackArea(), HeapArea()];
    assert Lists(t.vm)[p] == SetEnd([StackArea(), HeapArea()], HEAP + 4096) == list;
    PlainBounds(t.vm.areas[p], HEAP);
    assert Leaf(p, HEAP / 4096) in Shown(t).view;
    assert Lists(t.vm).Keys == t.vm.areas.Keys && Lists(s.vm).Keys == s.vm.areas.Keys;
  }

  /** A fork leaves every page of the parent read-only. */
  lemma ForkMarks(s: Flat, t: Flat, p: Pid, c: Pid, l: Leaf)
    requires Apply(s, Forked(p, c)) == Some(t) && l in s.leaves && l.pid == p
    ensures l in t.leaves && !t.leaves[l].writable
  {
  }

  /** The tables of a process that has gained at most `k`. */
  lemma TablesAtMost(v: VM, w: VM, p: Pid, k: nat)
    requires Local(v, w, p) && AtMost(v, w, k)
    ensures |TablesOf(w, p)| <= |TablesOf(v, p)| + k && |w.free| + k >= |v.free|
  {
    TablesChange(v, w, p);
  }

  lemma NoTables(v: VM, p: Pid)
    requires TreeInv(v) && p !in v.roots
    ensures TablesOf(v, p) == {}
  {
    hide TreeInv;
    NoProcess(v, p);
  }

  lemma SmallNeeds(v: VM, w: VM, p: Pid)
    ensures Needed(v, Spawn(p, [])) == 7 && Needed(w, Grow(p, 0)) == 4
  {
  }

  /** A new program, one page of heap; eleven free pages are enough. */
  method SpawnAndGrow(m: Memory, p: Pid) returns (halted: bool)
    requires m.Valid() && Settled(m.V()) && p !in m.roots
    modifies m, m.pool, m.pool.list
    ensures halted ==> |old(m.pool.order)| < 11
    ensures !halted ==>
              && m.Valid() && Settled(m.V()) && m.roots.Keys == old(m.roots.Keys) + {p}
              && p in m.areas && !InBounds(m.areas[p], HEAP) && LeafOf(p, HEAP) in m.leaves
              && |m.areas[p]| == 2 && |TablesOf(m.V(), p)| <= 11 && |m.pool.order| + 11 >= |old(m.pool.order)|
  {
    hide TreeInv, RefInv, LeavesOk, Pool.Valid, Pool.Managed, Agrees, Fine, GoodImage, Clear, Mappable, InBounds, Local,
      AtMost, Needed, TablesOf;
    ghost var v, s := m.V(), m.Now();
    EmptyImage();
    NoProcess(v, p);
    NoTables(v, p);
    SmallNeeds(v, v, p);
    ghost var fill: seq<Page>;
    halted, fill := DoSpawn(m, p, []);
    if halted {
      return;
    }
    ghost var u := m.V();
    Started(s, fill, m.Now(), p);
    TablesAtMost(v, u, p, 7);
    SmallNeeds(v, u, p);
    ClearIsMappable(u, p, PagesFrom(HEAP / 4096, 1));
    s := m.Now();
    halted, fill := DoGrow(m, p, 0);
    if !halted {
      HeapStarted(s, fill, m.Now(), p);
      TablesAtMost(u, m.V(), p, 4);
    }
  }

  /** A new program grows its heap by one page, forks, and stores to the first byte of its heap,
      where the allocator keeps a header.  The page is mapped, so the reference machine makes the
      store; the kernel ends the process.  It happens whenever 24 pages are free. */
  method HeapStartAfterFork(m: Memory, p: Pid, c: Pid, x: int) returns (halted: bool, o: Outcome, ghost s: Snapshot)
    requires m.Valid() && Settled(m.V()) && p !in m.roots && c !in m.roots && p != c
    modifies m, m.pool, m.pool.list
    ensures halted ==> |old(m.pool.order)| < 24
    ensures !halted ==>
              && m.Valid() && m.Now() == s && Fine(s) && CoveredIn(s.vm, Write(p, HEAP, x))
              && o == SegFault && EagerOp(Shown(s), Write(p, HEAP, x), []).1
              && OnTheEdge(s.vm, Write(p, HEAP, x))
  {
    hide TreeInv, RefInv, LeavesOk, Pool.Valid, Pool.Managed, Local, Run, Agrees, FlatInv, HasTables, InBounds,
      StoreEvents, Crowded, Apply, TablesOf;
    o, s := SegFault, m.Now();
    halted := SpawnAndGrow(m, p);
    if halted {
      return;
    }
    ghost var before := m.Contents();
    halted := DoFork(m, p, c);
    if halted {
      return;
    }
    s := m.Now();
    ForkMarks(before, m.Contents(), p, c, LeafOf(p, HEAP));
    ghost var es: seq<Event>;
    o, es := m.Store(p, HEAP, x);
  }

  // ----- a crowded frame is reached -----

  /** After two forks a page of the parent has three sharers and is read-only. */
  lemma TwoForksCrowd(s: Flat, t: Flat, u: Flat, p: Pid, c: Pid, d: Pid, l: Leaf)
    requires Apply(s, Forked(p, c)) == Some(t) && Apply(t, Forked(p, d)) == Some(u) && l in s.leaves && l.pid == p
    ensures l in u.leaves && !u.leaves[l].writable && Crowded(u.leaves, l)
  {
    hide Apply, LeavesOf;
    ForkTwins(s, t, p, c, l);
    ForkTwins(t, u, p, d, l);
    ForkStays(t, u, p, d, Leaf(c, l.vpn));
    NewChild(t, u, p, d, Leaf(c, l.vpn));
    var three := {l, Leaf(c, l.vpn), Leaf(d, l.vpn)};
    assert three <= Sharers(u.leaves, u.leaves[l].frame);
    Subset(three, Sharers(u.leaves, u.leaves[l].frame));
  }

  lemma ForkTwins(s: Flat, t: Flat, p: Pid, c: Pid, l: Leaf)
    requires Apply(s, Forked(p, c)) == Some(t) && l in s.leaves && l.pid == p
    ensures p != c && l in t.leaves && !t.leaves[l].writable && t.leaves[l].frame == s.leaves[l].frame
    ensures Leaf(c, l.vpn) in t.leaves && t.leaves[Leaf(c, l.vpn)].frame == s.leaves[l].frame
  {
    assert l in LeavesOf(s.leaves, p);
  }

  lemma ForkStays(s: Flat, t: Flat, p: Pid, c: Pid, l: Leaf)
    requires Apply(s, Forked(p, c)) == Some(t) && l in s.leaves
    ensures l in t.leaves && t.leaves[l].frame == s.leaves[l].frame
  {
  }

  lemma NewChild(s: Flat, t: Flat, p: Pid, c: Pid, l: Leaf)
    requires Apply(s, Forked(p, c)) == Some(t) && l in s.leaves
    ensures l.pid != c
  {
  }

  lemma ReferenceStores(s: Snapshot, p: Pid, a: nat, x: int)
    requires Fine(s) && p in s.vm.areas && LeafOf(p, a) in s.vm.leaves
    ensures EagerOp(Shown(s), Write(p, a, x), []).1
  {
    hide FlatInv;
  }

  lemma OthersSame(v: VM, w: VM, p: Pid, c: Pid)
    requires Local(v, w, c) && p != c
    ensures TablesOf(w, p) == TablesOf(v, p) && (p in w.roots <==> p in v.roots)
  {
  }

  /** A new program with two children; 25 free pages are enough. */
  method SpawnAndForkTwice(m: Memory, p: Pid, c: Pid, d: Pid) returns (short: bool)
    requires m.Valid() && Settled(m.V()) && p !in m.roots && c !in m.roots && d !in m.roots
    requires p != c && p != d && c != d
    modifies m, m.pool, m.pool.list
    ensures short ==> |old(m.pool.order)| < 25
    ensures !short ==>
              && m.Valid() && Settled(m.V()) && p in m.roots && InBounds(m.List(p), STACK)
              && LeafOf(p, STACK) in m.leaves && !m.leaves[LeafOf(p, STACK)].writable
              && Crowded(m.leaves, LeafOf(p, STACK))
  {
    hide TreeInv, RefInv, LeavesOk, Pool.Valid, Pool.Managed, Local, Agrees, Fine, GoodImage, InBounds, AtMost, Apply,
      TablesOf, Paid, Crowded;
    ghost var v, s := m.V(), m.Now();
    EmptyImage();
    NoProcess(v, p);
    NoTables(v, p);
    SmallNeeds(v, v, p);
    ghost var fill: seq<Page>;
    short, fill := DoSpawn(m, p, []);
    if short {
      return;
    }
    ghost var v1, f1 := m.V(), m.Contents();
    Started(s, fill, m.Now(), p);
    TablesAtMost(v, v1, p, 7);
    OthersSame(v, v1, c, p);
    OthersSame(v, v1, d, p);
    short := DoFork(m, p, c);
    if short {
      return;
    }
    ghost var v2, f2 := m.V(), m.Contents();
    OthersSame(v1, v2, p, c);
    OthersSame(v1, v2, d, c);
    short := DoFork(m, p, d);
    if !short {
      TwoForksCrowd(f1, f2, m.Contents(), p, c, d, LeafOf(p, STACK));
    }
  }

  /** A new program forks twice and stores to its stack: the reference machine makes the store, the
      kernel halts.  It happens whenever 25 pages are free. */
  method ForkTwiceThenStore(m: Memory, p: Pid, c: Pid, d: Pid, x: int)
    returns (short: bool, o: Outcome, ghost s: Snapshot)
    requires m.Valid() && Settled(m.V()) && p !in m.roots && c !in m.roots && d !in m.roots
    requires p != c && p != d && c != d
    modifies m, m.pool, m.pool.list
    ensures short ==> |old(m.pool.order)| < 25
    ensures !short ==>
              && m.Valid() && m.Now() == s && Fine(s) && Agreeable(s.vm, Write(p, STACK, x))
              && o == TooManySharers && EagerOp(Shown(s), Write(p, STACK, x), []).1
  {
    hide TreeInv, RefInv, LeavesOk, Pool.Valid, Pool.Managed, Fine, InBounds, Crowded, EagerOp, Run, StoreEvents,
      HasTables, NoAccess, Local;
    o, s := Done, m.Now();
    short := SpawnAndForkTwice(m, p, c, d);
    if short {
      return;
    }
    s := m.Now();
    NowFine(m);
    MappedHome(m.V(), p, STACK);
    RootAt(m.V(), p);
    assert OnPath(p, STACK, 4) == Top(p);
    HasTablesFrom(m.V(), p, STACK, 4);
    ReferenceStores(s, p, STACK, x);
    ghost var es: seq<Event>;
    o, es := m.Store(p, STACK, x);
  }

  // ----- fork, exit and wait -----

  /** A store by the child or by the parent. */
  datatype Access = Access(byChild: bool, address: nat, value: int)

  function AsOp(x: Access, p: Pid, c: Pid): Op {
    Write(if x.byChild then c else p, x.address, x.value)
  }

  /** One round of `bin/fc`: `p` forks `c`, both store what they like, `c` exits and is reaped. */
  function RoundOps(p: Pid, c: Pid, stores: seq<Access>): (ops: seq<Op>)
    ensures |ops| == |stores| + 2 && ops[0] == Fork(p, c) && ops[|stores| + 1] == Reap(c)
    ensures forall i | 0 <= i < |stores| :: ops[i + 1] == AsOp(stores[i], p, c)
  {
    [Fork(p, c)] + seq(|stores|, i requires 0 <= i < |stores| => AsOp(stores[i], p, c)) + [Reap(c)]
  }

  /** The moves of a round so far, from `s` to `t`. */
  ghost predicate Round(trace: seq<Snapshot>, moves: seq<Move>, p: Pid, c: Pid, s: Snapshot, t: Snapshot) {
    IsRound(trace, moves, p, c) && trace[0] == s && trace[|moves|] == t
  }

  lemma RoundIs(trace: seq<Snapshot>, moves: seq<Move>, p: Pid, c: Pid, s: Snapshot, t: Snapshot)
    ensures Round(trace, moves, p, c, s, t) <==> IsRound(trace, moves, p, c) && trace[0] == s && trace[|moves|] == t
    ensures IsRound(trace, moves, p, c) ==> |trace| == |moves| + 1
  {
  }

  /** One store of a round. */
  method StoreMove(m: Memory, op: Op, p: Pid, c: Pid, ghost trace0: seq<Snapshot>, ghost moves0: seq<Move>,
                   ghost start: Snapshot)
    returns (o: Outcome, ghost fill: seq<Page>, ghost trace: seq<Snapshot>, ghost moves: seq<Move>)
    requires m.Valid() && Settled(m.V()) && p in m.areas && c in m.areas && op.Write? && (op.pid == p || op.pid == c)
    requires CoveredIn(m.V(), op) && Round(trace0, moves0, p, c, start, m.Now())
    modifies m, m.pool, m.pool.list
    ensures o == OutOfMemory ==> m.pool.order == [] && |old(m.pool.order)| < Needed(old(m.V()), op)
    ensures o == TooManySharers ==> m.Valid() && m.Now() == old(m.Now()) && Crowds(m.V(), op)
    ensures o == SegFault || o == Done ==>
              && m.Valid() && Settled(m.V()) && p in m.areas && c in m.areas
              && (Agrees(old(m.Now()), op, fill, o == Done, m.Now()) <==> !OnTheEdge(old(m.V()), op))
              && Paid(old(m.Now()), op, m.Now())
              && Round(trace, moves, p, c, start, m.Now())
  {
    hide TreeInv, RefInv, LeavesOk, Pool.Valid, Pool.Managed, Local, Run, StoreEvents, Moves, Touches, Fine, Agrees,
      OnTheEdge, Crowds, CoveredIn, NoAccess, Needed, Paid;
    ghost var t, es := m.Now(), [];
    trace, moves := trace0, moves0;
    o, fill, es := DoWrite(m, op.pid, op.address, op.value);
    if o == Done {
      StoreIsMove(t, m.Now(), LeafOf(op.pid, op.address), op.address % 4096, op.value, es, p, c);
      AddMove(trace, moves, m.Now(), Move(op.pid, es), p, c);
      trace, moves := trace + [m.Now()], moves + [Move(op.pid, es)];
    }
  }

  /** The stores of a round, after the fork. */
  method RoundStores(m: Memory, p: Pid, c: Pid, stores: seq<Access>, ghost start: Snapshot,
                     ghost trace0: seq<Snapshot>, ghost moves0: seq<Move>)
    returns (n: nat, halted: bool, made: seq<bool>, ghost fills: seq<seq<Page>>,
             ghost trace: seq<Snapshot>, ghost moves: seq<Move>, ghost t: Snapshot)
    requires m.Valid() && Settled(m.V()) && p in m.areas && c in m.areas && Round(trace0, moves0, p, c, start, m.Now())
    requires Refines(start, m.Now(), RoundOps(p, c, stores)[..1], [[]], [true])
    modifies m, m.pool, m.pool.list
    ensures 1 <= n <= |stores| + 1 && |made| == n && Refines(start, t, RoundOps(p, c, stores)[..n], fills, made)
    ensures !halted ==>
              && m.Valid() && Settled(m.V()) && c in m.areas && Round(trace, moves, p, c, start, t) && m.Now() == t
    ensures !halted && n < |stores| + 1 ==> !Agreeable(t.vm, RoundOps(p, c, stores)[n])
    ensures halted ==> Halts(start, t, m.Now(), RoundOps(p, c, stores), n, fills, made)
  {
    hide TreeInv, RefInv, LeavesOk, Pool.Valid, Pool.Managed, Refines, Fine, Agrees, OnTheEdge, Crowds, CoveredIn,
      RoundOps, Round, Needed, Paid, Halts, Good;
    ghost var ops := RoundOps(p, c, stores);
    n, halted, made, fills, trace, moves, t := 1, false, [true], [[]], trace0, moves0, m.Now();
    for i := 0 to |stores|
      invariant n == i + 1 && |made| == n && m.Valid() && Settled(m.V()) && p in m.areas && c in m.areas
      invariant Refines(start, t, ops[..n], fills, made) && Round(trace, moves, p, c, start, t) && t == m.Now()
    {
      var op := AsOp(stores[i], p, c);
      var b := CanAgree(m, op);
      if !b {
        return;
      }
      m.GoodNow();
      var o;
      ghost var fill: seq<Page>;
      o, fill, trace, moves := StoreMove(m, op, p, c, trace, moves, start);
      if o == OutOfMemory || o == TooManySharers {
        HaltsNow(start, t, m.Now(), ops, n, fills, made);
        halted := true;
        return;
      }
      RefinesMore(start, t, ops[..n], fills, made, op, fill, o == Done, m.Now());
      made, fills, t := made + [o == Done], fills + [fill], m.Now();
      PrefixMore(ops, n);
      n := n + 1;
    }
  }

  lemma ForkAgreeable(v: VM, p: Pid, c: Pid)
    requires Settled(v) && p in v.roots && c !in v.roots
    ensures Agreeable(v, Fork(p, c))
  {
  }

  /** The round on the machine.  All of it is made as the reference machine makes it, unless a store
      is outside the model or on the edge of an area or the kernel halts; and when it is over, the
      pages that are no longer free are the tables and pages that the parent has gained. */
  method ForkExitWait(m: Memory, p: Pid, c: Pid, stores: seq<Access>)
    returns (n: nat, halted: bool, made: seq<bool>, ghost fills: seq<seq<Page>>, ghost t: Snapshot)
    requires m.Valid() && Settled(m.V()) && p in m.roots && c !in m.roots
    modifies m, m.pool, m.pool.list
    ensures n <= |stores| + 2 && |made| == n && Refines(old(m.Now()), t, RoundOps(p, c, stores)[..n], fills, made)
    ensures !halted ==> m.Valid() && Settled(m.V()) && m.Now() == t
    ensures !halted && n < |stores| + 2 ==> !Agreeable(t.vm, RoundOps(p, c, stores)[n])
    ensures halted ==> Halts(old(m.Now()), t, m.Now(), RoundOps(p, c, stores), n, fills, made)
    ensures !halted && n == |stores| + 2 ==>
              && c !in m.roots && Outer(m.leaves, p, c) == old(Outer(m.leaves, p, c))
              && |m.pool.order| == old(|m.pool.order|)
                                   - (|TablesOf(m.V(), p)| - old(|TablesOf(m.V(), p)|))
                                   - (|LeavesOf(m.leaves, p)| - old(|LeavesOf(m.leaves, p)|))
  {
    hide TreeInv, RefInv, LeavesOk, Pool.Valid, Pool.Managed, Local, Run, Apply, Outer, StoreEvents, Moves, IsRound,
      Touches, Refines, Fine, Agrees, OnTheEdge, Crowds, Needed, TablesOf, LeavesOf, RoundOps, InBounds, HasTables,
      Round, Paid, Halts, Good;
    ghost var start, ops := m.Now(), RoundOps(p, c, stores);
    m.GoodNow();
    NowFine(m);
    RefinesNothing(start);
    n, made, fills, t := 0, [], [], start;
    PrefixMore(ops, 0);
    ForkAgreeable(m.V(), p, c);
    halted := DoFork(m, p, c);
    if halted {
      HaltsNow(start, t, m.Now(), ops, n, fills, made);
      return;
    }
    ForkIsMove(start, m.Now(), p, c);
    BeginRound(start, m.Now(), p, c);
    ghost var trace, moves := [start, m.Now()], [Move(c, [Forked(p, c)])];
    RoundIs(trace, moves, p, c, start, m.Now());
    RefinesMore(start, start, [], fills, made, Fork(p, c), [], true, m.Now());
    assert fills + [[]] == [[]] && made + [true] == [true];
    n, halted, made, fills, trace, moves, t := RoundStores(m, p, c, stores, start, trace, moves);
    if halted || n < |stores| + 1 {
      return;
    }
    RoundIs(trace, moves, p, c, start, t);
    DoReap(m, c);
    RefinesMore(start, t, ops[..n], fills, made, Reap(c), [], true, m.Now());
    ReapIsMove(t, m.Now(), p, c);
    made, fills, t := made + [true], fills + [[]], m.Now();
    PrefixMore(ops, n);
    n := n + 1;
    m.GoodNow();
    ForkExitWaitConserves(trace, moves, m.Now(), p, c);
  }
}
