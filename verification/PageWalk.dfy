/**
 The hardware's view of the page tables: index arithmetic of 4-level (IA-32e) paging,
 section 4.5 of the Intel 64 and IA-32 SDM, Volume 3A, and the theorem that walking the four
 levels is one look-up in the flat map.
 */
module PageWalk {
  import opened Wrappers
  import opened FlatCow
  import opened PageTree

  /** Bits 12-20, 21-29, 30-38 and 39-47 of an address index levels 1 to 4. */
  function Index(a: nat, level: nat): (i: nat)
    ensures i < 512
  {
    if level == 1 then a / 0x1000 % 512
    else if level == 2 then a / 0x20_0000 % 512
    else if level == 3 then a / 0x4000_0000 % 512
    else a / 0x80_0000_0000 % 512
  }

  /** The node whose table is consulted at `level` when address `a` is translated for `p`. */
  function OnPath(p: Pid, a: nat, level: nat): Node {
    Node(p, level,
         if level == 1 then a / 0x20_0000
         else if level == 2 then a / 0x4000_0000
         else if level == 3 then a / 0x80_0000_0000
         else 0)
  }

  /** An address below the kernel half. */
  predicate IsUser(a: nat) {
    a / 0x80_0000_0000 < 511
  }

  function LeafOf(p: Pid, a: nat): Leaf { Leaf(p, a / 0x1000) }

  /** The four indices and the offset make up the address, so two addresses never share an entry and
      an offset; slot 511 of the PML4 is out of reach. */
  lemma AddressParts(a: nat)
    requires IsUser(a)
    ensures a == Index(a, 4) * 0x80_0000_0000 + Index(a, 3) * 0x4000_0000 + Index(a, 2) * 0x20_0000 +
                 Index(a, 1) * 0x1000 + a % 0x1000
    ensures Index(a, 4) < 511
  {
    assert a / 0x20_0000 == a / 0x1000 / 512;
    assert a / 0x4000_0000 == a / 0x20_0000 / 512;
    assert a / 0x80_0000_0000 == a / 0x4000_0000 / 512;
  }

  lemma PathDown(p: Pid, a: nat, level: nat)
    requires 2 <= level <= 4 && IsUser(a)
    ensures Down(OnPath(p, a, level), Index(a, level)) == OnPath(p, a, level - 1)
    ensures UserSlot(OnPath(p, a, level), Index(a, level))
  {
  }

  lemma PathLeaf(p: Pid, a: nat)
    ensures LeafAt(OnPath(p, a, 1), Index(a, 1)) == LeafOf(p, a)
    ensures Home(LeafOf(p, a)) == OnPath(p, a, 1)
    ensures LeafOf(p, a).vpn % 512 == Index(a, 1)
  {
  }

  /** If the lowest table on a path exists, so do the ones above it. */
  lemma PathUp(v: VM, p: Pid, a: nat, level: nat)
    requires NodesOk(v) && IsUser(a) && 1 <= level <= 4 && OnPath(p, a, 1) in v.nodes
    ensures OnPath(p, a, level) in v.nodes
  {
    if level > 1 {
      PathUp(v, p, a, level - 1);
      PathDown(p, a, level);
      DownUp(OnPath(p, a, level), Index(a, level));
    }
  }

  function Limited(e: Option<Entry>, writable: bool): Option<Entry> {
    if e.None? then None else Some(e.value.(writable := e.value.writable && writable))
  }

  /** What the memory-management unit does: four table reads from the frame in CR3.  A page is
      writable when the entries of all levels are. */
  function Walk(t: seq<Table>, f: Frame, level: nat, a: nat): Option<Entry>
    decreases level
  {
    if level == 0 || f >= |t| || |t[f]| != 512 then None
    else
      var e := t[f][Index(a, level)];
      if !e.present then None
      else if level == 1 then Some(e)
      else Limited(Walk(t, e.frame, level - 1, a), e.writable)
  }

  /** Whether every table above the leaf of `a` exists. */
  predicate HasTables(t: seq<Table>, f: Frame, level: nat, a: nat)
    decreases level
  {
    && f < |t| && |t[f]| == 512
    && (level <= 1 || (t[f][Index(a, level)].present && HasTables(t, t[f][Index(a, level)].frame, level - 1, a)))
  }

  /** Every table on the path of a mapped page exists. */
  lemma LeafHasTables(v: VM, p: Pid, a: nat, level: nat)
    requires TreeInv(v) && IsUser(a) && 1 <= level <= 4 && LeafOf(p, a) in v.leaves
    ensures OnPath(p, a, level) in v.nodes
  {
    hide NodesOk, LinksOk, RootsOk, AreasOk, FreeOk, IsUser;
    PathLeaf(p, a);
    PathUp(v, p, a, level);
  }

  lemma TablesAbove(v: VM, p: Pid, a: nat, level: nat)
    requires TreeInv(v) && IsUser(a) && 1 <= level <= 4 && OnPath(p, a, 1) in v.nodes
    ensures OnPath(p, a, level) in v.nodes
  {
    hide NodesOk, LinksOk, LeafTablesOk, RootsOk, AreasOk, FreeOk, IsUser;
    PathUp(v, p, a, level);
  }

  lemma {:induction false} HasTablesFrom(v: VM, p: Pid, a: nat, level: nat)
    requires TreeInv(v) && IsUser(a) && 1 <= level <= 4 && OnPath(p, a, level) in v.nodes
    ensures HasTables(v.tables, v.nodes[OnPath(p, a, level)], level, a) <==> OnPath(p, a, 1) in v.nodes
    decreases level
  {
    hide TreeInv, IsUser, OnPath, Index;
    var n := OnPath(p, a, level);
    PathLevel(p, a, level);
    EntryOk(v, n, Index(a, level));
    if level > 1 {
      PathDown(p, a, level);
      if EntryAt(v, n, Index(a, level)).present {
        HasTablesFrom(v, p, a, level - 1);
      } else if OnPath(p, a, 1) in v.nodes {
        TablesAbove(v, p, a, level - 1);
      }
    }
  }

  lemma PathLevel(p: Pid, a: nat, level: nat)
    ensures OnPath(p, a, level).level == level && OnPath(p, a, level).pid == p && Index(a, level) < 512
  {
  }

  ghost function LookUp(m: LeafMap, l: Leaf): Option<Entry> {
    if l in m then Some(m[l]) else None
  }

  lemma {:induction false} WalkFrom(v: VM, p: Pid, a: nat, level: nat)
    requires TreeInv(v) && IsUser(a) && 1 <= level <= 4 && OnPath(p, a, level) in v.nodes
    ensures Walk(v.tables, v.nodes[OnPath(p, a, level)], level, a) == LookUp(v.leaves, LeafOf(p, a))
    decreases level
  {
    hide TreeInv, IsUser, OnPath, Index;
    var n := OnPath(p, a, level);
    PathLevel(p, a, level);
    EntryOk(v, n, Index(a, level));
    if level == 1 {
      PathLeaf(p, a);
    } else {
      PathDown(p, a, level);
      if EntryAt(v, n, Index(a, level)).present {
        WalkFrom(v, p, a, level - 1);
      } else if LeafOf(p, a) in v.leaves {
        LeafHasTables(v, p, a, level - 1);
      }
    }
  }

  /** The four-level tree of a process behaves as a flat map from virtual page to entry. */
  lemma WalkIsFlat(v: VM, p: Pid, a: nat)
    requires TreeInv(v) && p in v.roots && IsUser(a)
    ensures Walk(v.tables, v.roots[p], 4, a) == LookUp(v.leaves, LeafOf(p, a))
  {
    assert OnPath(p, a, 4) == Top(p);
    WalkFrom(v, p, a, 4);
  }

  // ----- tables in address order -----

  /** Number of virtual pages before the `x`-th table of a level. */
  function Before(level: nat, x: nat): nat {
    if level == 0 then x
    else if level == 1 then x * 512
    else if level == 2 then x * 0x4_0000
    else x * 0x800_0000
  }

  lemma BeforeStep(level: nat, x: nat)
    requires 1 <= level <= 3
    ensures Before(level, x) == Before(level - 1, x * 512)
    ensures Before(level, x + 1) == Before(level - 1, x * 512 + 512)
  {
  }

  /** A page mapped by `p` between the `x`-th table of a level and the next lies below that table. */
  lemma MappedBelow(v: VM, p: Pid, level: nat, x: nat, vpn: nat)
    requires TreeInv(v) && 1 <= level <= 3 && Leaf(p, vpn) in v.leaves
    requires Before(level, x) <= vpn < Before(level, x + 1)
    ensures Node(p, level, x) in v.nodes
  {
    hide NodesOk, LinksOk, RootsOk, AreasOk, FreeOk, IsUser;
    var a := vpn * 0x1000;
    LeafBound(v, Leaf(p, vpn));
    PathLeaf(p, a);
    PathUp(v, p, a, level);
    PathBetween(p, level, x, vpn);
  }

  lemma PathBetween(p: Pid, level: nat, x: nat, vpn: nat)
    requires 1 <= level <= 3 && Before(level, x) <= vpn < Before(level, x + 1)
    ensures OnPath(p, vpn * 0x1000, level) == Node(p, level, x)
  {
  }

  lemma LeafBound(v: VM, l: Leaf)
    requires TreeInv(v) && l in v.leaves
    ensures l.vpn < Before(3, 511) && IsUser(l.vpn * 0x1000)
  {
    hide LinksOk, RootsOk, AreasOk, FreeOk;
    var n1 := Home(l);
    var n2 := Up(n1);
    var n3 := Up(n2);
    assert n3 in v.nodes && n3.level == 3 && n3.prefix < 511;
    assert n3.prefix == l.vpn / 512 / 512 / 512;
  }
}
