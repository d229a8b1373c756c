/**
 The user-space allocator of libc/malloc.c: a circular, address-ordered, eagerly coalescing
 free list with a roving pointer, grown through the kernel's `malloc` system call.
 */
module Heap {
  import opened Wrappers
  import opened FreeList

  const NALLOC := 1024

  type Words = map<nat, nat>

  function Next(s: seq<Block>, k: nat): nat
    requires k < |s|
  {
    s[if k + 1 < |s| then k + 1 else 0].addr
  }

  ghost predicate LinkedAt(ptr: Words, size: Words, s: seq<Block>, k: nat)
    requires k < |s|
  {
    && s[k].addr in ptr && s[k].addr in size
    && ptr[s[k].addr] == Next(s, k) && size[s[k].addr] == s[k].size
  }

  /** The headers in memory spell out the ring `s`: ascending addresses with one wrap. */
  ghost predicate Linked(ptr: Words, size: Words, s: seq<Block>) {
    forall k | 0 <= k < |s| :: LinkedAt(ptr, size, s, k)
  }

  /** ... except that the pointer of element `t` is still to be written. */
  ghost predicate LinkedBut(ptr: Words, size: Words, s: seq<Block>, t: nat) {
    && (forall k | 0 <= k < |s| && k != t :: LinkedAt(ptr, size, s, k))
    && (t < |s| ==> s[t].addr in ptr && s[t].addr in size && size[s[t].addr] == s[t].size)
  }

  lemma AddrsDiffer(s: seq<Block>, j: nat, k: nat)
    requires Separated(s) && j < |s| && k < |s| && j != k
    ensures s[j].addr != s[k].addr
  {
  }

  /** First half of `free`, when the block is joined to its successor. */
  lemma JoinedLinked(ptr: Words, size: Words, s: seq<Block>, t: nat, b: Block)
    requires Linked(ptr, size, s) && t + 1 < |s| && forall k | 0 <= k < |s| :: s[k].addr != b.addr
    ensures LinkedBut(ptr[b.addr := Next(s, t + 1)], size[b.addr := b.size + s[t + 1].size],
                      s[..t + 1] + [Block(b.addr, b.size + s[t + 1].size)] + s[t + 2..], t)
  {
    hide Linked;
    var c := Block(b.addr, b.size + s[t + 1].size);
    var r := s[t + 1 := c];
    var ptr', size' := ptr[b.addr := Next(s, t + 1)], size[b.addr := c.size];
    assert s[..t + 1] + [c] + s[t + 2..] == r;
    forall k | 0 <= k < |r| && k != t
      ensures LinkedAt(ptr', size', r, k)
    {
      RingAt(ptr, size, s, k);
    }
    RingAt(ptr, size, s, t);
  }

  /** First half of `free`, when the block is only pointed at its successor. */
  lemma PlacedLinked(ptr: Words, size: Words, s: seq<Block>, t: nat, b: Block)
    requires Linked(ptr, size, s) && t < |s| && forall k | 0 <= k < |s| :: s[k].addr != b.addr
    requires b.addr in size && size[b.addr] == b.size
    ensures LinkedBut(ptr[b.addr := Next(s, t)], size, s[..t + 1] + [b] + s[t + 1..], t)
  {
    var r := s[..t + 1] + [b] + s[t + 1..];
    assert |r| == |s| + 1;
    assert forall k | 0 <= k <= t :: r[k] == s[k] && LinkedAt(ptr, size, s, k);
    assert r[t + 1] == b && Next(r, t + 1) == Next(s, t);
    forall k | t + 1 < k < |r|
      ensures r[k] == s[k - 1] && Next(r, k) == Next(s, k - 1) && LinkedAt(ptr, size, s, k - 1)
    {
    }
  }

  lemma JoinNextLinked(ptr: Words, size: Words, ptr': Words, size': Words, s: seq<Block>, t: nat, b: Block)
    requires Linked(ptr, size, s) && t < |s| && forall k | 0 <= k < |s| :: s[k].addr != b.addr
    requires b.addr in size && size[b.addr] == b.size
    requires if t + 1 < |s| && End(b) == s[t + 1].addr
             then ptr' == ptr[b.addr := Next(s, t + 1)] && size' == size[b.addr := b.size + s[t + 1].size]
             else ptr' == ptr[b.addr := Next(s, t)] && size' == size
    ensures LinkedBut(ptr', size', JoinNext(s, t, b), t)
  {
    hide Linked, LinkedBut;
    if t + 1 < |s| && End(b) == s[t + 1].addr {
      JoinedLinked(ptr, size, s, t, b);
    } else {
      PlacedLinked(ptr, size, s, t, b);
    }
  }

  /** Second half of `free`: the predecessor swallows the block or points at it. */
  lemma JoinPrevLinked(ptr: Words, size: Words, ptr': Words, size': Words, s: seq<Block>, t: nat)
    requires LinkedBut(ptr, size, s, t) && SeparatedBut(s, t) && t + 1 < |s| && s[t].addr < s[t + 1].addr
    requires if End(s[t]) == s[t + 1].addr
             then ptr' == ptr[s[t].addr := Next(s, t + 1)] && size' == size[s[t].addr := s[t].size + s[t + 1].size]
             else ptr' == ptr[s[t].addr := s[t + 1].addr] && size' == size
    ensures Linked(ptr', size', JoinPrev(s, t))
  {
    hide LinkedBut, SeparatedBut;
    var r := JoinPrev(s, t);
    forall k | 0 <= k < |r|
      ensures LinkedAt(ptr', size', r, k)
    {
      JoinPrevAt(ptr, size, ptr', size', s, t, k);
    }
  }

  lemma JoinPrevAt(ptr: Words, size: Words, ptr': Words, size': Words, s: seq<Block>, t: nat, k: nat)
    requires LinkedBut(ptr, size, s, t) && SeparatedBut(s, t) && t + 1 < |s| && s[t].addr < s[t + 1].addr
    requires if End(s[t]) == s[t + 1].addr
             then ptr' == ptr[s[t].addr := Next(s, t + 1)] && size' == size[s[t].addr := s[t].size + s[t + 1].size]
             else ptr' == ptr[s[t].addr := s[t + 1].addr] && size' == size
    requires k < |JoinPrev(s, t)|
    ensures LinkedAt(ptr', size', JoinPrev(s, t), k)
  {
    var r := JoinPrev(s, t);
    var i := if k <= t || End(s[t]) != s[t + 1].addr then k else k + 1;
    if k != t {
      assert r[k] == s[i] && LinkedAt(ptr, size, s, i);
    }
    assert LinkedAt(ptr, size, s, t + 1);
  }

  /** `malloc` takes block `i`, reached from its predecessor. */
  lemma CutLinked(ptr: Words, size: Words, ptr': Words, size': Words, s: seq<Block>, i: nat, n: nat)
    requires Linked(ptr, size, s) && Separated(s) && 0 < i < |s| && 0 < n <= s[i].size
    requires if n == s[i].size then ptr' == ptr[s[i - 1].addr := Next(s, i)] && size' == size
             else ptr' == ptr && size' == size[s[i].addr := s[i].size - n][Tail(s[i], n).addr := n]
    ensures Linked(ptr', size', Cut(s, i, n))
  {
    var r := Cut(s, i, n);
    forall k | 0 <= k < |r|
      ensures LinkedAt(ptr', size', r, k)
    {
      var j := if n == s[i].size && k >= i then k + 1 else k;
      assert LinkedAt(ptr, size, s, j);
      if j != i - 1 { AddrsDiffer(s, j, i - 1); }
      if j != i { AddrsDiffer(s, j, i); }
      if n < s[i].size {
        assert j < i ==> End(s[j]) < s[i].addr;
        assert i < j ==> End(s[i]) < s[j].addr;
      }
    }
  }
  // ----- where a block belongs -----

  ghost predicate Disjoint(s: seq<Block>, b: Block) {
    forall x :: In(b, x) ==> !Covers(s, x)
  }

  /** The last element that lies below address `a`. */
  ghost function Place(s: seq<Block>, a: nat): (t: nat)
    requires s != [] && Separated(s) && s[0].addr < a
    ensures t < |s| && s[t].addr < a
    ensures forall k | t < k < |s| :: s[k].addr >= a
  {
    var n := |s| - 1;
    if s[n].addr < a then n else Place(s[..n], a)
  }

  /** Where the search of `free` stops: `a` lies between a block and the next, or past the last. */
  ghost predicate Stops(p: nat, next: nat, a: nat) {
    (a > p && a < next) || (p >= next && (a > p || a < next))
  }

  lemma IsStop(p: nat, next: nat, a: nat)
    ensures Stops(p, next, a) <==> (a > p && a < next) || (p >= next && (a > p || a < next))
  {
  }

  /** It stops at one place only. */
  lemma StopsAtPlace(s: seq<Block>, k: nat, a: nat)
    requires s != [] && Separated(s) && s[0].addr < a && k < |s| && forall j | 0 <= j < |s| :: s[j].addr != a
    ensures Stops(s[k].addr, Next(s, k), a) <==> k == Place(s, a)
  {
    var t := Place(s, a);
    if k < t {
      assert s[k + 1].addr <= s[t].addr;
    }
  }

  lemma NearerTo(n: nat, k: nat, t: nat)
    requires k < n && t < n && k != t
    ensures Around(n, Succ(n, k), t) < Around(n, k, t)
  {
  }

  lemma PlaceFits(s: seq<Block>, b: Block)
    requires s != [] && Separated(s) && NonEmpty(s[1..]) && s[0].addr < b.addr && b.size > 0 && Disjoint(s, b)
    ensures Fits(s, Place(s, b.addr), b)
    ensures forall k | 0 <= k < |s| :: s[k].addr != b.addr
  {
    var t := Place(s, b.addr);
    assert In(b, b.addr) && !Covers(s, b.addr);
    assert forall k | 0 < k < |s| :: s[k] == s[1..][k - 1];
    forall k | 0 < k < |s|
      ensures !In(b, s[k].addr)
    {
      assert In(s[k], s[k].addr);
    }
  }

  // ----- who owns the units -----

  ghost predicate Plus(s: seq<Block>, s': seq<Block>, b: Block) {
    forall x :: Covers(s', x) <==> Covers(s, x) || In(b, x)
  }

  ghost predicate Minus(s: seq<Block>, s': seq<Block>, b: Block) {
    && (forall x :: In(b, x) ==> Covers(s, x))
    && (forall x :: Covers(s', x) <==> Covers(s, x) && !In(b, x))
  }

  /** The free units are those there were and those of the new arena, without the block `b`. */
  ghost predicate CutFrom(s: seq<Block>, growth: seq<Block>, s': seq<Block>, b: Block) {
    && (forall x :: In(b, x) ==> Covers(s, x) || Covers(growth, x))
    && (forall x :: Covers(s', x) <==> (Covers(s, x) || Covers(growth, x)) && !In(b, x))
  }

  ghost predicate LiveCovers(live: Words, x: nat) {
    exists a | a in live :: In(Block(a, live[a]), x)
  }

  /** Free and live blocks are disjoint and together make up the arenas. */
  ghost predicate Owned(ring: seq<Block>, live: Words, arenas: seq<Block>) {
    && (forall x :: Covers(arenas, x) <==> Covers(ring, x) || LiveCovers(live, x))
    && (forall x :: Covers(ring, x) ==> !LiveCovers(live, x))
    && (forall a <- live :: live[a] > 0)
    && (forall a, b | a in live && b in live && a < b :: a + live[a] <= b)
  }

  ghost predicate ArenasOk(base: nat, arenas: seq<Block>, brk: nat) {
    && Separated([Block(base, 0)] + arenas) && NonEmpty(arenas)
    && (forall k | 0 <= k < |arenas| :: End(arenas[k]) < brk)
  }

  lemma LiveWithout(live: Words, b: nat, x: nat)
    requires b in live && forall a, c | a in live && c in live && a < c :: a + live[a] <= c
    ensures LiveCovers(live - {b}, x) <==> LiveCovers(live, x) && !In(Block(b, live[b]), x)
  {
    var rest := live - {b};
    if LiveCovers(rest, x) {
      var a :| a in rest && In(Block(a, rest[a]), x);
      assert In(Block(a, live[a]), x);
    }
    if LiveCovers(live, x) && !In(Block(b, live[b]), x) {
      var a :| a in live && In(Block(a, live[a]), x);
      assert a in rest;
    }
  }

  lemma LiveWith(live: Words, b: Block, x: nat)
    requires b.addr !in live
    ensures LiveCovers(live[b.addr := b.size], x) <==> LiveCovers(live, x) || In(b, x)
  {
    var more := live[b.addr := b.size];
    if LiveCovers(more, x) {
      var a :| a in more && In(Block(a, more[a]), x);
      assert a != b.addr ==> a in live && In(Block(a, live[a]), x);
    }
    if LiveCovers(live, x) {
      var a :| a in live && In(Block(a, live[a]), x);
      assert In(Block(a, more[a]), x);
    }
    if In(b, x) {
      assert In(Block(b.addr, more[b.addr]), x);
    }
  }

  /** A live block becomes free. */
  lemma FreedOwned(ring: seq<Block>, ring': seq<Block>, live: Words, b: nat, arenas: seq<Block>)
    requires Owned(ring, live, arenas) && b in live
    requires Plus(ring, ring', Block(b, live[b]))
    ensures Owned(ring', live - {b}, arenas)
  {
    hide Covers;
    forall x
      ensures LiveCovers(live - {b}, x) <==> LiveCovers(live, x) && !In(Block(b, live[b]), x)
      ensures In(Block(b, live[b]), x) ==> LiveCovers(live, x)
    {
      LiveWithout(live, b, x);
    }
  }

  /** Part of the free units becomes a live block. */
  lemma TakenOwned(ring: seq<Block>, ring': seq<Block>, live: Words, b: Block, arenas: seq<Block>)
    requires Owned(ring, live, arenas) && b.size > 0
    requires Minus(ring, ring', b)
    ensures b.addr !in live && Owned(ring', live[b.addr := b.size], arenas)
  {
    hide Covers;
    forall a <- live
      ensures a + live[a] <= b.addr || End(b) <= a
    {
      var x := if a <= b.addr then b.addr else a;
      assert In(b, b.addr);
      assert In(Block(a, live[a]), a);
      assert In(b, x) ==> !LiveCovers(live, x);
      assert !(In(b, x) && In(Block(a, live[a]), x));
    }
    forall x
      ensures LiveCovers(live[b.addr := b.size], x) <==> LiveCovers(live, x) || In(b, x)
    {
      LiveWith(live, b, x);
    }
  }

  lemma CoversMore(s: seq<Block>, b: Block, x: nat)
    ensures Covers(s + [b], x) <==> Covers(s, x) || In(b, x)
  {
    if Covers(s, x) {
      var k :| 0 <= k < |s| && In(s[k], x);
      assert (s + [b])[k] == s[k];
    }
    if In(b, x) { assert (s + [b])[|s|] == b; }
  }

  /** A new arena is all free. */
  lemma GrownOwned(ring: seq<Block>, ring': seq<Block>, live: Words, arenas: seq<Block>, b: Block)
    requires Owned(ring, live, arenas) && forall x :: In(b, x) ==> !Covers(arenas, x)
    requires Plus(ring, ring', b)
    ensures Owned(ring', live, arenas + [b])
  {
    hide Covers, LiveCovers;
    forall x
      ensures Covers(arenas + [b], x) <==> Covers(arenas, x) || In(b, x)
    {
      CoversMore(arenas, b, x);
    }
  }

  lemma ArenaAbove(base: nat, arenas: seq<Block>, brk: nat, b: Block)
    requires ArenasOk(base, arenas, brk) && base < brk && b.addr == brk && b.size > 0
    ensures forall brk' | brk' > End(b) :: ArenasOk(base, arenas + [b], brk')
    ensures forall x :: In(b, x) ==> !Covers(arenas, x)
  {
    var s := [Block(base, 0)] + arenas;
    assert [Block(base, 0)] + (arenas + [b]) == s + [b];
    assert forall k | 0 < k < |s| :: s[k] == arenas[k - 1];
  }

  /** Arenas lie above the base header, so every live block does. */
  lemma LiveAbove(base: nat, ring: seq<Block>, live: Words, arenas: seq<Block>, brk: nat, a: nat)
    requires Owned(ring, live, arenas) && ArenasOk(base, arenas, brk) && a in live
    ensures base < a && Disjoint(ring, Block(a, live[a]))
  {
    var s := [Block(base, 0)] + arenas;
    assert In(Block(a, live[a]), a);
    assert LiveCovers(live, a) && Covers(arenas, a);
    var k :| 0 <= k < |arenas| && In(arenas[k], a);
    assert s[k + 1] == arenas[k];
    assert End(s[0]) < s[k + 1].addr;
    forall x | In(Block(a, live[a]), x)
      ensures !Covers(ring, x)
    {
      assert LiveCovers(live, x);
    }
  }

  lemma RingInArenas(base: nat, ring: seq<Block>, live: Words, arenas: seq<Block>, brk: nat, b: Block)
    requires Owned(ring, live, arenas) && ArenasOk(base, arenas, brk) && b.addr >= brk
    ensures Disjoint(ring, b)
  {
    forall x | In(b, x)
      ensures !Covers(ring, x)
    {
      assert !Covers(arenas, x);
    }
  }

  function Units(nbytes: nat): nat { (nbytes + 15) / 16 + 1 }

  ghost predicate SomeFits(s: seq<Block>, n: nat) {
    exists k | 0 <= k < |s| :: s[k].size >= n
  }

  class Allocator {
    /** The unit address of the static header `base`. */
    const base: nat
    /** Header words in memory, `freep` (0 for NULL) and the kernel's end of the heap area. */
    var ptr: Words
    var size: Words
    var freep: nat
    var brk: nat
    /** The free list in address order from `base`, the blocks handed out, and what came from
        the kernel. */
    ghost var ring: seq<Block>
    ghost var live: Words
    ghost var arenas: seq<Block>

    ghost predicate Ring()
      reads this
    {
      && ring != [] && ring[0] == Block(base, 0)
      && Separated(ring) && NonEmpty(ring[1..]) && Linked(ptr, size, ring)
      && (exists k | 0 <= k < |ring| :: ring[k].addr == freep)
    }

    /** The ring from `freep` is the canonical form of the free units; free and live blocks
        partition the arenas. */
    ghost predicate Valid()
      reads this
    {
      && 0 < base < brk
      && (if freep == 0 then ring == [] && live == map[] && arenas == [] else Ring())
      && Owned(ring, live, arenas) && ArenasOk(base, arenas, brk)
      && (forall a <- live :: a in size && size[a] == live[a])
    }

    constructor (base: nat, brk: nat)
      requires 0 < base < brk
      ensures Valid() && freep == 0
    {
      this.base, this.brk, freep := base, brk, 0;
      ptr, size, ring, live, arenas := map[], map[], [], map[], [];
    }

    /** The body of `free`: finds the place of the block at `bp` and joins it to its neighbours. */
    method Link(bp: nat, ghost b: Block) returns (ghost t: nat)
      requires Ring() && b.addr == bp && b.size > 0 && base < bp && Disjoint(ring, b)
      requires bp in size && size[bp] == b.size
      modifies this`ptr, this`size, this`freep, this`ring
      ensures Ring()
      ensures t < |old(ring)| && Fits(old(ring), t, b) && ring == Inserted(old(ring), t, b)
      ensures t < |ring| && freep == ring[t].addr
      ensures forall a | a in old(size) && a != bp && (forall k | 0 <= k < |old(ring)| :: old(ring)[k].addr != a) ::
                a in size && size[a] == old(size)[a]
    {
      hide Covers, Separated, NonEmpty, Linked, Inserted, JoinNext, JoinPrev, Fits;
      var p;
      PlaceFits(ring, b);
      p, t := FindPlace(bp);
      LinkHere(bp, p, t, b);
    }

    /** The search loop of `free`: round the ring to the one place where `bp` belongs. */
    method FindPlace(bp: nat) returns (p: nat, ghost k: nat)
      requires Ring() && base < bp && forall j | 0 <= j < |ring| :: ring[j].addr != bp
      ensures p == ring[Place(ring, bp)].addr && k == Place(ring, bp)
    {
      hide Covers, NonEmpty, Linked, Separated, Place, Stops, Around;
      ghost var n, t := |ring|, Place(ring, bp);
      p := freep;
      k :| k < n && ring[k].addr == p;
      RingAt(ptr, size, ring, k);
      StopsAtPlace(ring, k, bp);
      IsStop(p, ptr[p], bp);
      while !(bp > p && bp < ptr[p])
        invariant k < n && p == ring[k].addr && LinkedAt(ptr, size, ring, k)
        invariant Stops(p, ptr[p], bp) <==> k == t
        invariant Stops(p, ptr[p], bp) <==> (bp > p && bp < ptr[p]) || (p >= ptr[p] && (bp > p || bp < ptr[p]))
        decreases Around(n, k, t)
      {
        if p >= ptr[p] && (bp > p || bp < ptr[p]) {
          break;
        }
        NearerTo(n, k, t);
        p := ptr[p];
        k := Succ(n, k);
        RingAt(ptr, size, ring, k);
        StopsAtPlace(ring, k, bp);
        IsStop(p, ptr[p], bp);
      }
    }

    /** The pointer surgery of `free`, between element `t` of the ring and the one after it. */
    method LinkHere(bp: nat, p: nat, ghost t: nat, ghost b: Block)
      requires Ring() && b.addr == bp && base < bp && Fits(ring, t, b) && p == ring[t].addr
      requires bp in size && size[bp] == b.size && forall k | 0 <= k < |ring| :: ring[k].addr != bp
      modifies this`ptr, this`size, this`freep, this`ring
      ensures Ring()
      ensures ring == Inserted(old(ring), t, b) && t < |ring| && freep == ring[t].addr
      ensures forall a | a in old(size) && a != bp && a != p :: a in size && size[a] == old(size)[a]
    {
      hide Covers, Linked, LinkedBut, SeparatedBut, Separated, NonEmpty, JoinNext, JoinPrev;
      ghost var s, ptr0, size0 := ring, ptr, size;
      LinksAround(ptr, size, ring, t);
      if bp + size[bp] == ptr[p] {
        size := size[bp := size[bp] + size[ptr[p]]];
        ptr := ptr[bp := ptr[ptr[p]]];
      } else {
        ptr := ptr[bp := ptr[p]];
      }
      JoinNextLinked(ptr0, size0, ptr, size, s, t, b);
      JoinNextOk(s, t, b);
      ghost var r := JoinNext(s, t, b);
      ghost var ptr1, size1 := ptr, size;
      LinkedButAt(ptr, size, r, t);
      if p + size[p] == bp {
        size := size[p := size[p] + size[bp]];
        ptr := ptr[p := ptr[bp]];
      } else {
        ptr := ptr[p := bp];
      }
      JoinPrevLinked(ptr1, size1, ptr, size, r, t);
      JoinPrevOk(r, t);
      InsertedOk(s, t, b);
      InsertedNonEmpty(s, t, b);
      ring := Inserted(s, t, b);
      freep := p;
    }

    /** `free(ap)`: the block handed out at `ap` joins the free units. */
    method Free(ap: nat)
      requires Valid() && ap > 0 && ap - 1 in live
      modifies this`ptr, this`size, this`freep, this`ring, this`live
      ensures Valid()
      ensures live == old(live) - {ap - 1} && freep != 0
      ensures Plus(old(ring), ring, Block(ap - 1, old(live)[ap - 1]))
      ensures freep < ap - 1
      ensures forall k | 0 <= k < |old(ring)| && old(ring)[k].addr < ap - 1 :: old(ring)[k].addr <= freep
    {
      hide Covers, Linked, Separated, Owned, ArenasOk, Fits, Inserted;
      var bp := ap - 1;
      ghost var s, b := ring, Block(bp, live[bp]);
      LiveAbove(base, ring, live, arenas, brk, bp);
      LiveApart(base, ring, live, arenas, brk);
      LiveSizes(ring, live, arenas);
      ghost var t := Link(bp, b);
      InsertedOk(s, t, b);
      LastBelow(s, t, b);
      FreedOwned(s, ring, live, bp, arenas);
      FreepSet();
      live := live - {bp};
    }

    lemma FreepSet()
      requires Ring() && base > 0
      ensures freep > 0
    {
    }

    /** The kernel's `malloc` system call in units: whole pages, always one more than needed. */
    method Sbrk(nu: nat) returns (start: nat)
      modifies this`brk
      ensures start == old(brk) && brk == old(brk) + (nu / 256 + 1) * 256
    {
      start := brk;
      for i := 0 to nu * 16 / 4096 + 1
        invariant brk == start + i * 256
      {
        brk := brk + 256;
      }
    }

    /** `morecore`: a new arena from the kernel goes through `free`; `granted` is false where the
        system call fails. */
    method Morecore(n: nat, granted: bool) returns (r: Option<nat>, ghost t: nat)
      requires Valid() && freep != 0
      modifies this`ptr, this`size, this`freep, this`ring, this`arenas, this`brk
      ensures Valid() && freep != 0
      ensures r == if granted then Some(freep) else None
      ensures !granted ==> ring == old(ring) && arenas == old(arenas) && freep == old(freep) && brk == old(brk)
      ensures granted ==>
                && arenas == old(arenas) + [Block(old(brk), if n < 1024 then 1024 else n)]
                && Plus(old(ring), ring, arenas[|arenas| - 1])
                && t < |ring| && freep == ring[t].addr
                && (ring[t].size >= n || ring[Succ(|ring|, t)].size >= n)
    {
      hide Covers, Linked, Separated, Owned, ArenasOk, Fits, Inserted;
      t := 0;
      if !granted {
        return None, 0;
      }
      var nu := if n < NALLOC then NALLOC else n;
      LiveApart(base, ring, live, arenas, brk);
      ghost var s, b := ring, Block(brk, nu);
      RingInArenas(base, ring, live, arenas, brk, b);
      ArenaAbove(base, arenas, brk, b);
      ArenaFresh(base, ring, live, arenas, brk, b);
      var up := Sbrk(nu);
      size := size[up := nu];
      KeepsLinks(ptr, old(size), ring, up, nu);
      t := Link(up, b);
      InsertedOk(s, t, b);
      InsertedHolds(s, t, b);
      GrownOwned(s, ring, live, arenas, b);
      FreepSet();
      arenas := arenas + [b];
      return Some(freep), t;
    }

    /** Cuts `n` units off the end of the block at `p`, element `i` of the ring, and hands them out. */
    method TakeAt(prevp: nat, p: nat, n: nat, ghost i: nat) returns (bp: nat)
      requires Valid() && freep != 0 && 0 < i < |ring| && prevp == ring[i - 1].addr && p == ring[i].addr
      requires 0 < n <= ring[i].size
      modifies this`ptr, this`size, this`freep, this`ring, this`live
      ensures Valid() && bp > base && bp !in old(live)
      ensures live == old(live)[bp := n]
      ensures Minus(old(ring), ring, Block(bp, n))
      ensures bp == old(ring)[i].addr + old(ring)[i].size - n && freep == prevp
    {
      hide Covers, Linked, Separated, Owned, ArenasOk, Cut;
      ghost var s, ptr0, size0, b := ring, ptr, size, Tail(ring[i], n);
      RingAt(ptr, size, s, i);
      LiveApart(base, ring, live, arenas, brk);
      bp := p;
      if size[bp] == n {
        ptr := ptr[prevp := ptr[bp]];
      } else {
        size := size[bp := size[bp] - n];
        bp := bp + size[bp];
        size := size[bp := n];
      }
      CutLinked(ptr0, size0, ptr, size, s, i, n);
      CutOk(s, i, n);
      CutUnits(s, i, n);
      CutShape(s, i, n);
      TakenOwned(s, Cut(s, i, n), live, b, arenas);
      LiveApartFrom(base, s, live, arenas, brk, b);
      ring := Cut(s, i, n);
      live := live[bp := n];
      freep := prevp;
      FreepSet();
    }

    /** `malloc(nbytes)`: first fit from the roving pointer, growing the heap at most once and only
        when no free block is large enough. */
    method Malloc(nbytes: nat, granted: bool) returns (r: Option<nat>)
      requires Valid() && Units(nbytes) < 0x800_0000
      modifies this
      ensures Valid()
      ensures r.None? <==> !SomeFits(old(ring), Units(nbytes)) && !granted
      ensures r.None? ==> live == old(live) && arenas == old(arenas) && SameUnits(ring, old(ring))
      ensures r.Some? ==>
                && r.value - 1 > base && r.value - 1 !in old(live)
                && live == old(live)[r.value - 1 := Units(nbytes)]
                && arenas == old(arenas) + Growth(old(ring), old(brk), Units(nbytes))
                && CutFrom(old(ring), Growth(old(ring), old(brk), Units(nbytes)), ring,
                           Block(r.value - 1, Units(nbytes)))
      ensures SomeFits(old(ring), Units(nbytes)) ==>
                r.Some? && FirstFit(old(ring), old(freep), Units(nbytes), r.value - 1, freep)
    {
      hide Covers, SomeFits, SameUnits, CutFrom, Growth, FirstFit, Allocator.Ring, Allocator.Valid;
      var nunits := (nbytes + 15) / 16 + 1;
      ghost var s := ring;
      Unstarted();
      if freep == 0 {
        NothingFitsNothing(nunits);
        Start();
      }
      SameFits(s, ring, base, nunits);
      SameGrowth(s, ring, base, brk, nunits);
      r := Search(nunits, granted);
    }

    /** The loop of `malloc`, from the roving pointer around the ring. */
    method Search(n: nat, granted: bool) returns (r: Option<nat>)
      requires Valid() && freep != 0 && n > 0
      modifies this
      ensures Valid()
      ensures r.None? <==> !SomeFits(old(ring), n) && !granted
      ensures r.None? ==> live == old(live) && arenas == old(arenas) && ring == old(ring)
      ensures r.Some? ==>
                && r.value - 1 > base && r.value - 1 !in old(live)
                && live == old(live)[r.value - 1 := n]
                && arenas == old(arenas) + Growth(old(ring), old(brk), n)
                && CutFrom(old(ring), Growth(old(ring), old(brk), n), ring, Block(r.value - 1, n))
      ensures SomeFits(old(ring), n) ==> r.Some? && FirstFit(old(ring), old(freep), n, r.value - 1, freep)
    {
      hide Covers, Separated, SomeFits, CutFrom, Plus, Minus, NoneFits, Growth, Around, FirstFit, Allocator.Ring,
        Allocator.Valid;
      ghost var s := ring;
      ghost var f: nat := RoverAt();
      ghost var j: nat, grown := f, false;
      NothingSeen(ring, f, n);
      Header(j);
      var prevp := freep;
      var p := ptr[prevp];
      while true
        invariant Valid() && freep != 0 && live == old(live)
        invariant j < |ring| && prevp == ring[j].addr && p == Next(ring, j)
        invariant f < |ring| && freep == ring[f].addr
        invariant !grown ==> freep == old(freep)
        invariant !grown ==> ring == s && arenas == old(arenas) && brk == old(brk) && NoneFits(ring, f, j, n)
        invariant grown ==>
                    && granted && !SomeFits(s, n)
                    && arenas == old(arenas) + [Arena(old(brk), n)]
                    && Plus(s, ring, Arena(old(brk), n))
                    && (ring[f].size >= n || (j == f && ring[Succ(|ring|, f)].size >= n))
        decreases !grown, Around(|ring|, Succ(|ring|, j), f)
      {
        ghost var i := Succ(|ring|, j);
        Header(i);
        if size[p] >= n {
          var bp := TakeFit(prevp, p, n, j, f, s, old(brk));
          return Some(bp + 1);
        }
        if p == freep {
          SameAddr(ring, i, f);
          NoneFitsAll(ring, f, j, n);
          var m, t := Morecore(n, granted);
          if m.None? {
            return None;
          }
          p := m.value;
          grown, f, i := true, t, t;
        } else {
          NearerTo(|ring|, i, f);
          if !grown {
            NoneFitsMore(ring, f, j, n);
          }
        }
        prevp := p;
        j := i;
        Header(j);
        p := ptr[p];
      }
    }

    /** The block after `prevp`, element `j` of the ring, is large enough; the search began at element
        `f`, with the ring `s` and the heap ending at `end`. */
    method TakeFit(prevp: nat, p: nat, n: nat, ghost j: nat, ghost f: nat, ghost s: seq<Block>, ghost end: nat)
      returns (bp: nat)
      requires Valid() && freep != 0 && n > 0 && j < |ring| && prevp == ring[j].addr && p == Next(ring, j)
      requires p in size && size[p] >= n && f < |ring| && freep == ring[f].addr
      requires (ring == s && NoneFits(ring, f, j, n)) || (Plus(s, ring, Arena(end, n)) && !SomeFits(s, n))
      modifies this`ptr, this`size, this`freep, this`ring, this`live
      ensures Valid() && bp > base && bp !in old(live) && live == old(live)[bp := n]
      ensures CutFrom(s, Growth(s, end, n), ring, Block(bp, n))
      ensures Growth(s, end, n) == if SomeFits(s, n) then [] else [Arena(end, n)]
      ensures old(ring) == s ==> SomeFits(s, n)
      ensures SomeFits(s, n) ==> FirstFit(s, old(freep), n, bp, freep)
    {
      hide Covers, Separated, SomeFits, CutFrom, Plus, Minus, NoneFits, Growth, FirstFit, Allocator.Ring,
        Allocator.Valid;
      ghost var before, i := ring, Succ(|ring|, j);
      Header(i);
      FitFound(before, i, n);
      if before == s && NoneFits(ring, f, j, n) { FirstFound(ring, f, j, n, freep); }
      bp := TakeAt(prevp, p, n, i);
      CutUnitsFrom(s, before, ring, end, Block(bp, n));
    }

    /** Where the roving pointer stands. */
    lemma RoverAt() returns (f: nat)
      requires Valid() && freep != 0
      ensures f < |ring| && ring[f].addr == freep
    {
      f :| f < |ring| && ring[f].addr == freep;
    }

    lemma Header(k: nat)
      requires Valid() && freep != 0 && k < |ring|
      ensures LinkedAt(ptr, size, ring, k) && ring[0] == Block(base, 0) && Separated(ring)
    {
      assert Linked(ptr, size, ring);
    }

    lemma Unstarted()
      requires Valid()
      ensures freep == 0 ==> ring == []
    {
    }

    /** The first call: a ring of `base` alone. */
    method Start()
      requires Valid() && freep == 0
      modifies this`ptr, this`size, this`freep, this`ring
      ensures Valid() && freep == base && ring == [Block(base, 0)]
    {
      ptr := ptr[base := base];
      freep := base;
      size := size[base := 0];
      ring := [Block(base, 0)];
      assert LinkedAt(ptr, size, ring, 0);
      assert forall x :: !Covers(ring, x);
    }
  }

  // ----- facts the routines use -----

  /** Headers of live blocks are not headers of free blocks. */
  lemma LiveApart(base: nat, ring: seq<Block>, live: Words, arenas: seq<Block>, brk: nat)
    requires Owned(ring, live, arenas) && ArenasOk(base, arenas, brk)
    requires ring != [] ==> ring[0].addr == base && NonEmpty(ring[1..])
    ensures forall a, k | a in live && 0 <= k < |ring| :: ring[k].addr != a
  {
    forall a, k | a in live && 0 <= k < |ring|
      ensures ring[k].addr != a
    {
      LiveAbove(base, ring, live, arenas, brk, a);
      if k > 0 {
        assert ring[k] == ring[1..][k - 1];
        assert In(ring[k], ring[k].addr) && Covers(ring, ring[k].addr);
        assert In(Block(a, live[a]), a);
      }
    }
  }

  lemma LiveSizes(ring: seq<Block>, live: Words, arenas: seq<Block>)
    requires Owned(ring, live, arenas)
    ensures forall a <- live :: live[a] > 0
  {
  }

  /** A block beyond the arenas clashes with no header. */
  lemma ArenaFresh(base: nat, ring: seq<Block>, live: Words, arenas: seq<Block>, brk: nat, b: Block)
    requires Owned(ring, live, arenas) && ArenasOk(base, arenas, brk) && b.addr >= brk > base
    requires ring != [] ==> ring[0].addr == base && NonEmpty(ring[1..])
    ensures b.addr !in live && forall k | 0 <= k < |ring| :: ring[k].addr != b.addr
  {
    assert !Covers(arenas, b.addr);
    forall k | 0 <= k < |ring|
      ensures ring[k].addr != b.addr
    {
      if k > 0 {
        assert ring[k] == ring[1..][k - 1];
        assert In(ring[k], ring[k].addr) && Covers(ring, ring[k].addr);
      }
    }
    forall a <- live
      ensures a != b.addr
    {
      assert In(Block(a, live[a]), a) && LiveCovers(live, a);
    }
  }

  /** A block cut from the free list lies above `base`. */
  lemma LiveApartFrom(base: nat, ring: seq<Block>, live: Words, arenas: seq<Block>, brk: nat, b: Block)
    requires Owned(ring, live, arenas) && ArenasOk(base, arenas, brk) && b.size > 0
    requires forall x :: In(b, x) ==> Covers(ring, x)
    ensures base < b.addr
    ensures forall a <- live :: a != b.addr
  {
    assert In(b, b.addr) && Covers(arenas, b.addr);
    var k :| 0 <= k < |arenas| && In(arenas[k], b.addr);
    var s := [Block(base, 0)] + arenas;
    assert s[k + 1] == arenas[k];
    assert End(s[0]) < s[k + 1].addr;
    forall a <- live
      ensures a != b.addr
    {
      assert In(Block(a, live[a]), a);
    }
  }

  lemma KeepsLinks(ptr: Words, size: Words, s: seq<Block>, a: nat, n: nat)
    requires Linked(ptr, size, s) && forall k | 0 <= k < |s| :: s[k].addr != a
    ensures Linked(ptr, size[a := n], s)
  {
    var size' := size[a := n];
    forall k | 0 <= k < |s|
      ensures LinkedAt(ptr, size', s, k)
    {
      assert LinkedAt(ptr, size, s, k);
    }
  }

  /** The block before a freed one keeps its address, and is the last below it. */
  lemma LastBelow(s: seq<Block>, t: nat, b: Block)
    requires Separated(s) && Fits(s, t, b)
    ensures t < |Inserted(s, t, b)| && Inserted(s, t, b)[t].addr == s[t].addr < b.addr
    ensures forall k | 0 <= k < |s| && s[k].addr < b.addr :: s[k].addr <= s[t].addr
  {
  }

  lemma InsertedHolds(s: seq<Block>, t: nat, b: Block)
    requires Separated(s) && Fits(s, t, b)
    ensures var r := Inserted(s, t, b);
            t < |r| && (r[t].size >= b.size || r[Succ(|r|, t)].size >= b.size)
  {
    JoinNextOk(s, t, b);
    JoinPrevOk(JoinNext(s, t, b), t);
  }

  lemma RingAt(ptr: Words, size: Words, s: seq<Block>, i: nat)
    requires Linked(ptr, size, s) && i < |s|
    ensures LinkedAt(ptr, size, s, i)
  {
  }

  lemma CutUnits(s: seq<Block>, i: nat, n: nat)
    requires Separated(s) && i < |s| && 0 < n <= s[i].size
    ensures Minus(s, Cut(s, i, n), Tail(s[i], n))
  {
    hide Covers, Cut, Tail, In;
    forall x
      ensures Covers(Cut(s, i, n), x) <==> Covers(s, x) && !In(Tail(s[i], n), x)
      ensures In(Tail(s[i], n), x) ==> Covers(s, x)
    {
      CutCovers(s, i, n, x);
    }
  }

  lemma CutShape(s: seq<Block>, i: nat, n: nat)
    requires 0 < i < |s| && 0 < n <= s[i].size && NonEmpty(s[1..])
    ensures var r := Cut(s, i, n);
            i - 1 < |r| && r[i - 1] == s[i - 1] && r[0] == s[0] && NonEmpty(r[1..])
  {
    var r := Cut(s, i, n);
    assert forall k | 0 < k < |s| :: s[k] == s[1..][k - 1];
    assert forall k | 0 < k < |r| :: r[k].size > 0;
  }

  lemma LinksAround(ptr: Words, size: Words, s: seq<Block>, t: nat)
    requires Linked(ptr, size, s) && t < |s|
    ensures LinkedAt(ptr, size, s, t) && LinkedAt(ptr, size, s, Succ(|s|, t))
  {
  }

  lemma LinkedButAt(ptr: Words, size: Words, s: seq<Block>, t: nat)
    requires LinkedBut(ptr, size, s, t) && t + 1 < |s|
    ensures LinkedAt(ptr, size, s, t + 1)
    ensures s[t].addr in ptr && s[t].addr in size && size[s[t].addr] == s[t].size
  {
  }

  lemma InsertedNonEmpty(s: seq<Block>, t: nat, b: Block)
    requires Fits(s, t, b) && NonEmpty(s[1..])
    ensures var r := Inserted(s, t, b); r != [] && r[0].addr == s[0].addr && NonEmpty(r[1..])
    ensures End(s[0]) < b.addr ==> Inserted(s, t, b)[0] == s[0]
  {
    var q := JoinNext(s, t, b);
    assert forall k | 0 < k < |s| :: s[k] == s[1..][k - 1];
    assert forall k | 0 < k < |q| :: q[k].size > 0;
    var r := JoinPrev(q, t);
    assert forall k | 0 < k < |r| :: r[k].size > 0;
  }

  // ----- the search of `malloc` -----

  function Arena(brk: nat, n: nat): Block { Block(brk, if n < NALLOC then NALLOC else n) }

  /** The arena that a request for `n` units brings in, if any. */
  ghost function Growth(s: seq<Block>, brk: nat, n: nat): seq<Block> {
    if SomeFits(s, n) then [] else [Arena(brk, n)]
  }

  /** No block passed between the roving pointer `f` and element `j` is large enough. */
  ghost predicate NoneFits(s: seq<Block>, f: nat, j: nat, n: nat)
    requires f < |s| && j < |s|
  {
    forall k | 0 <= k < |s| && 0 < Around(|s|, f, k) <= Around(|s|, f, j) :: s[k].size < n
  }

  lemma NothingSeen(s: seq<Block>, f: nat, n: nat)
    requires f < |s|
    ensures NoneFits(s, f, f, n)
  {
  }

  lemma NoneFitsMore(s: seq<Block>, f: nat, j: nat, n: nat)
    requires f < |s| && j < |s| && NoneFits(s, f, j, n)
    requires s[Succ(|s|, j)].size < n && Succ(|s|, j) != f
    ensures NoneFits(s, f, Succ(|s|, j), n)
  {
  }

  lemma NoneFitsAll(s: seq<Block>, f: nat, j: nat, n: nat)
    requires f < |s| && j < |s| && NoneFits(s, f, j, n) && Succ(|s|, j) == f && s[f].size < n
    ensures !SomeFits(s, n)
  {
  }

  lemma SameAddr(s: seq<Block>, i: nat, f: nat)
    requires Separated(s) && i < |s| && f < |s| && s[i].addr == s[f].addr
    ensures i == f
  {
  }

  /** How far on from `f` the search comes to `k`: the block at the roving pointer is the last. */
  function Lap(n: nat, f: nat, k: nat): nat
    requires f < n && k < n
  {
    if k > f then k - f else n - f + k
  }

  /** Block `i` is the first after block `f` with room for `n` units. */
  ghost predicate FirstWithRoom(s: seq<Block>, f: nat, i: nat, n: nat) {
    && f < |s| && 0 < i < |s| && s[i].size >= n
    && forall k | 0 <= k < |s| && s[k].size >= n :: Lap(|s|, f, i) <= Lap(|s|, f, k)
  }

  /** First fit: the units handed out at `bp` are the end of the first large enough block after the
      roving pointer, which then stands on the block before it. */
  ghost predicate FirstFit(s: seq<Block>, rover: nat, n: nat, bp: nat, rover': nat) {
    exists f: nat, i: nat | FirstWithRoom(s, f, i, n) ::
      s[f].addr == rover && bp == s[i].addr + s[i].size - n && rover' == s[i - 1].addr
  }

  lemma FirstFound(s: seq<Block>, f: nat, j: nat, n: nat, rover: nat)
    requires f < |s| && j < |s| && s[f].addr == rover && NoneFits(s, f, j, n) && n > 0 && s[0].size == 0
    requires s[Succ(|s|, j)].size >= n
    ensures var i := Succ(|s|, j); i > 0 && FirstFit(s, rover, n, s[i].addr + s[i].size - n, s[i - 1].addr)
  {
    assert FirstWithRoom(s, f, Succ(|s|, j), n);
  }

  lemma FitFound(s: seq<Block>, i: nat, n: nat)
    requires i < |s| && s[i].size >= n
    ensures SomeFits(s, n)
  {
  }

  lemma GrowthUnits(s: seq<Block>, brk: nat, n: nat)
    ensures forall x :: Covers(Growth(s, brk, n), x) <==> !SomeFits(s, n) && In(Arena(brk, n), x)
  {
    forall x
      ensures Covers([Arena(brk, n)], x) <==> In(Arena(brk, n), x)
    {
      if In(Arena(brk, n), x) { assert In([Arena(brk, n)][0], x); }
    }
  }

  /** An allocator not yet started is like one whose ring is `base` alone. */
  ghost predicate Started(s0: seq<Block>, s: seq<Block>, base: nat) {
    s0 == s || (s0 == [] && s == [Block(base, 0)])
  }

  lemma SameFits(s0: seq<Block>, s: seq<Block>, base: nat, n: nat)
    requires Started(s0, s, base) && n > 0
    ensures SomeFits(s0, n) == SomeFits(s, n) && SameUnits(s, s0)
  {
  }

  lemma SameGrowth(s0: seq<Block>, s: seq<Block>, base: nat, brk: nat, n: nat)
    requires Started(s0, s, base) && n > 0
    ensures Growth(s0, brk, n) == Growth(s, brk, n)
    ensures forall w, b | CutFrom(s, Growth(s, brk, n), w, b) :: CutFrom(s0, Growth(s0, brk, n), w, b)
  {
    hide Covers;
    SameFits(s0, s, base, n);
  }

  lemma CutUnitsFrom(s: seq<Block>, u: seq<Block>, w: seq<Block>, brk: nat, b: Block)
    requires b.size > 0 && SomeFits(u, b.size) && Minus(u, w, b)
    requires u == s || (Plus(s, u, Arena(brk, b.size)) && !SomeFits(s, b.size))
    ensures CutFrom(s, Growth(s, brk, b.size), w, b)
    ensures Growth(s, brk, b.size) == if SomeFits(s, b.size) then [] else [Arena(brk, b.size)]
  {
    hide Covers, SomeFits;
    GrowthUnits(s, brk, b.size);
  }

  // ----- what whole runs keep -----

  /** The request is met and less than one header unit beyond the header is wasted. */
  lemma UnitsEnough(nbytes: nat)
    ensures nbytes <= (Units(nbytes) - 1) * 16 < nbytes + 16
  {
  }

  /** The shape of a ring, apart from the headers in memory. */
  ghost predicate RingShape(base: nat, s: seq<Block>) {
    s != [] && s[0] == Block(base, 0) && Separated(s) && NonEmpty(s[1..])
  }

  lemma BaseCoversNothing(base: nat, s: seq<Block>, x: nat)
    requires RingShape(base, s)
    ensures Covers(s[1..], x) <==> Covers(s, x)
    ensures Separated(s[1..])
  {
    CoversRest(s, x);
  }

  /** The ring is a function of the live blocks and the arenas: it does not depend on the order in
      which blocks were allocated and freed. */
  lemma RingDetermined(base: nat, s: seq<Block>, s': seq<Block>, live: Words, arenas: seq<Block>)
    requires RingShape(base, s) && RingShape(base, s')
    requires Owned(s, live, arenas) && Owned(s', live, arenas)
    ensures s == s'
  {
    hide Covers, LiveCovers, Separated, NonEmpty;
    BaseCoversNothing(base, s, 0);
    BaseCoversNothing(base, s', 0);
    forall x
      ensures Covers(s[1..], x) <==> Covers(s'[1..], x)
    {
      BaseCoversNothing(base, s, x);
      BaseCoversNothing(base, s', x);
    }
    Canonical(s[1..], s'[1..]);
    assert s == [s[0]] + s[1..] && s' == [s'[0]] + s'[1..];
  }

  /** With every block freed, in whatever order, there is one free block for each call of
      `morecore`: the gap that the kernel leaves keeps the arenas apart. */
  lemma OneBlockPerArena(base: nat, s: seq<Block>, arenas: seq<Block>, brk: nat)
    requires RingShape(base, s) && Owned(s, map[], arenas) && ArenasOk(base, arenas, brk)
    ensures s == [Block(base, 0)] + arenas
  {
    var whole := [Block(base, 0)] + arenas;
    assert whole[1..] == arenas;
    assert RingShape(base, whole);
    forall x
      ensures Covers(whole, x) <==> Covers(arenas, x)
    {
      BaseCoversNothing(base, whole, x);
    }
    RingDetermined(base, s, whole, map[], arenas);
  }

  /** A request that needs no growth, freed again, restores the exact ring. */
  method MallocThenFree(h: Allocator, nbytes: nat)
    requires h.Valid() && Units(nbytes) < 0x800_0000 && SomeFits(h.ring, Units(nbytes))
    modifies h
    ensures h.Valid() && h.ring == old(h.ring) && h.live == old(h.live) && h.arenas == old(h.arenas)
  {
    hide Covers, Linked, Separated, Owned, ArenasOk, CutFrom;
    NothingFitsNothing(Units(nbytes));
    ghost var s, live := h.ring, h.live;
    var r := h.Malloc(nbytes, false);
    h.Free(r.value);
    assert h.live == live && old(h.arenas) + [] == old(h.arenas);
    RingDetermined(h.base, s, h.ring, live, h.arenas);
  }

  lemma NothingFitsNothing(n: nat)
    ensures !SomeFits([], n)
  {
  }

  /** Freeing all live blocks, in the order given. */
  method FreeAll(h: Allocator, order: seq<nat>)
    requires h.Valid() && h.freep != 0
    requires forall a :: a in order <==> a in h.live
    requires forall j, k | 0 <= j < k < |order| :: order[j] != order[k]
    modifies h
    ensures h.Valid() && h.live == map[] && h.arenas == old(h.arenas)
    ensures h.ring == [Block(h.base, 0)] + h.arenas
  {
    hide Covers, Linked, Separated, Owned, ArenasOk, Plus;
    for i := 0 to |order|
      invariant h.Valid() && h.freep != 0 && h.arenas == old(h.arenas)
      invariant forall a :: a in order[i..] <==> a in h.live
    {
      assert order[i..][0] == order[i];
      h.Free(order[i] + 1);
      assert order[i..] == [order[i]] + order[i + 1..];
    }
    OneBlockPerArena(h.base, h.ring, h.arenas, h.brk);
  }
}
