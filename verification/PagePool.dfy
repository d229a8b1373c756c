/**
 The physical page allocator of sys/paging.c: `pagelist`, one record for each 4096-byte page,
 with the free pages chained through `next` from `head`, and a reference count for each page.
 */
module PagePool {
  import opened Wrappers

  datatype PageInfo = PageInfo(address: nat, free: bool, refCount: int, next: int)

  class Pool {
    const list: array<PageInfo>
    var head: int
    /** The pages on the free list, in list order. */
    ghost var order: seq<nat>

    /** `head` and the `next` fields spell out exactly `s`, so the list is finite and acyclic. */
    ghost predicate Chained(s: seq<nat>)
      reads this, list
    {
      && (forall k | 0 <= k < |s| :: s[k] < list.Length)
      && head == (if s == [] then -1 else s[0])
      && (forall k {:trigger list[s[k]]} | 0 <= k < |s| ::
            list[s[k]].next == if k + 1 < |s| then s[k + 1] else -1)
    }

    /** The free list is acyclic and holds exactly the pages flagged free, each once. */
    ghost predicate Valid()
      reads this, list
    {
      && Chained(order)
      && Distinct(order)
      && (forall i | 0 <= i < list.Length :: list[i].free <==> i in order)
      && (forall i | 0 <= i < list.Length && list[i].free :: list[i].address / 4096 == i)
    }

    ghost function Refs(): (s: seq<int>)
      reads list
      ensures |s| == list.Length
    {
      seq(list.Length, i requires 0 <= i < list.Length reads list => list[i].refCount)
    }

    /** The page is managed by the pool: its record carries its own address. */
    ghost predicate Managed(i: nat)
      reads list
    {
      i < list.Length && list[i].address == i * 4096
    }

    /** The zero-filled static array before `MemMap`. */
    constructor (n: nat)
      ensures Valid() && order == [] && list.Length == n && fresh(list)
    {
      list := new PageInfo[n](_ => PageInfo(0, false, 0, 0));
      head := -1;
      order := [];
    }

    /** The page at `ptr` of a region ending at `top` is free for use: it lies past the kernel. */
    static predicate Usable(ptr: nat, top: nat, physfree: nat) {
      ptr > physfree && ptr + 4096 < top
    }

    /** The record that `MemMap` leaves for the page at `ptr`, apart from its link. */
    static predicate Recorded(info: PageInfo, ptr: nat, top: nat, physfree: nat) {
      var u := Usable(ptr, top, physfree);
      info.address == ptr && info.free == u && info.refCount == if u then 0 else 1
    }

    /** Puts page `n`, at `ptr`, at the end of the list, whose last page is `last`. */
    method Append(ptr: nat, last: int, ghost n: nat)
      requires Valid() && ptr / 4096 == n && n < list.Length && !list[n].free
      requires last == if order == [] then -1 else order[|order| - 1]
      modifies this, list
      ensures Valid()
      ensures order == old(order) + [n]
      ensures list[n] == PageInfo(ptr, true, 0, -1)
      ensures forall i | 0 <= i < list.Length && i != n :: list[i] == old(list[i]).(next := list[i].next)
      ensures forall i | 0 <= i < list.Length && i != n && !list[i].free :: list[i] == old(list[i])
    {
      var count := ptr / 4096;
      if head == -1 {
        list[count] := PageInfo(ptr, true, 0, head);
        head := count;
      } else {
        list[count] := PageInfo(ptr, true, 0, -1);
        list[last] := list[last].(next := count);
      }
      order := order + [count];
    }

    /** Records a page that is never handed out: it belongs to the kernel or ends the region. */
    method Reserve(ptr: nat, ghost n: nat)
      requires Valid() && ptr / 4096 == n && n < list.Length && !list[n].free
      modifies list
      ensures Valid()
      ensures list[n] == PageInfo(ptr, false, 1, -1)
      ensures forall i | 0 <= i < list.Length && i != n :: list[i] == old(list[i])
    {
      list[ptr / 4096] := PageInfo(ptr, false, 1, -1);
    }

    /** Chains every usable page of a memory region, in address order, onto the empty list.
        `physfree` is where the kernel image and `pagelist` itself end. */
    method MemMap(base: nat, length: nat, physfree: nat)
      requires Valid() && order == [] && base + length <= list.Length * 4096
      modifies this, list
      ensures Valid()
      ensures forall i | 0 <= i < list.Length ::
                var ptr := base % 4096 + i * 4096;
                if base <= ptr < base + length
                then Recorded(list[i], ptr, base + length, physfree)
                else list[i] == old(list[i])
      ensures forall i | 0 <= i < list.Length ::
                var ptr := base % 4096 + i * 4096;
                base <= ptr < base + length ==>
                  && list[i].address == ptr && (list[i].free <==> physfree < ptr && ptr + 4096 < base + length)
                  && list[i].refCount == if physfree < ptr && ptr + 4096 < base + length then 0 else 1
    {
      hide Usable;
      var last := -1;
      var ptr := base;
      ghost var lo, n, top, d := base / 4096, base / 4096, base + length, base % 4096;
      while ptr < base + length
        invariant lo <= n <= list.Length && ptr == d + n * 4096 && ptr < top + 4096
        invariant Valid()
        invariant last == if order == [] then -1 else order[|order| - 1]
        invariant forall i | 0 <= i < list.Length ::
                    if lo <= i < n
                    then Recorded(list[i], d + i * 4096, top, physfree)
                    else list[i] == old(list[i])
      {
        IsUsable(ptr, top, physfree);
        if ptr > physfree && ptr + 4096 < base + length {
          Append(ptr, last, n);
          last := ptr / 4096;
        } else {
          Reserve(ptr, n);
        }
        ptr := ptr + 4096;
        n := n + 1;
      }
      forall i | 0 <= i < list.Length
        ensures Usable(d + i * 4096, top, physfree) <==> d + i * 4096 > physfree && d + i * 4096 + 4096 < top
      {
        IsUsable(d + i * 4096, top, physfree);
      }
    }

    static lemma IsUsable(ptr: nat, top: nat, physfree: nat)
      ensures Usable(ptr, top, physfree) <==> ptr > physfree && ptr + 4096 < top
    {
    }

    /** Takes the first free page; `None` is where the kernel prints a message and spins. */
    method Allocate() returns (r: Option<nat>)
      requires Valid()
      modifies this, list
      ensures Valid()
      ensures r.None? <==> old(order) == []
      ensures r.None? ==> order == [] && list[..] == old(list[..])
      ensures r.Some? ==>
                && old(order)[0] < list.Length
                && r.value == old(list[order[0]].address) && r.value / 4096 == old(order)[0]
                && order == old(order)[1..]
                && old(order)[0] !in order
                && !list[old(order)[0]].free
                && Refs() == old(Refs())[old(order)[0] := 1]
      ensures forall i | 0 <= i < list.Length :: list[i].address == old(list[i].address)
    {
      var temp := head;
      if temp == -1 {
        return None;
      }
      list[temp] := list[temp].(free := false, refCount := 1);
      head := list[temp].next;
      order := order[1..];
      assert forall k | 0 <= k < |order| :: order[k] == old(order)[k + 1];
      return Some(list[temp].address);
    }

    /** A free page would be put on the list again. */
    ghost predicate FreedTwice(add: nat)
      reads list
      requires add / 4096 < list.Length
    {
      var info := list[add / 4096];
      info.free && info.address == add && info.refCount <= 1
    }

    /** Drops one reference; the last one puts the page back at the front of the list.  A page that
        is free already makes the chain from `head` endless, and nothing else does. */
    method Free(add: nat)
      requires Valid() && add / 4096 < list.Length
      modifies this, list
      ensures old(FreedTwice(add)) ==> forall s :: !Chained(s)
      ensures !old(FreedTwice(add)) ==> Valid()
      ensures forall i | 0 <= i < list.Length :: list[i].address == old(list[i].address)
      ensures var i := add / 4096;
              if old(list[i].address) != add then
                order == old(order) && Refs() == old(Refs())
              else if old(list[i].refCount) > 1 then
                order == old(order) && Refs() == old(Refs())[i := old(list[i].refCount) - 1]
              else
                order == [i] + old(order) && Refs() == old(Refs())
    {
      var i := add / 4096;
      if list[i].address == add && list[i].refCount > 1 {
        list[i] := list[i].(refCount := list[i].refCount - 1);
        return;
      }
      if list[i].address == add {
        ghost var loop := if list[i].free then LoopTo(i) else {};
        list[i] := list[i].(free := true, next := head);
        head := i;
        order := [i] + order;
        if loop != {} {
          forall s
            ensures !Chained(s)
          {
            EndlessChain(s, loop);
          }
        }
      }
    }

    /** The pages on the list up to page `i`. */
    ghost function LoopTo(i: nat): (loop: set<nat>)
      reads this, list
      requires Valid() && i in order
      ensures i in loop && forall j <- loop :: j < list.Length
      ensures head >= 0 && head in loop && forall j <- loop | j != i :: list[j].next >= 0 && list[j].next in loop
    {
      var k :| 0 <= k < |order| && order[k] == i;
      assert forall j | 0 <= j < k :: list[order[j]].next == order[j + 1];
      set j | 0 <= j <= k :: order[j]
    }

    /** Links from `head` that never leave a set of pages. */
    ghost predicate Trapped(loop: set<nat>)
      reads this, list
    {
      head >= 0 && head in loop && forall j <- loop :: j < list.Length && list[j].next >= 0 && list[j].next in loop
    }

    lemma {:induction false} StaysInside(s: seq<nat>, loop: set<nat>, k: nat)
      requires Trapped(loop) && Chained(s) && k < |s|
      ensures s[k] in loop
    {
      if k > 0 {
        StaysInside(s, loop, k - 1);
        assert list[s[k - 1]].next == s[k];
      }
    }

    /** Such links spell out no finite list. */
    lemma EndlessChain(s: seq<nat>, loop: set<nat>)
      requires Trapped(loop)
      ensures !Chained(s)
    {
      if Chained(s) && s != [] {
        StaysInside(s, loop, |s| - 1);
      }
    }

    method GetRefCount(add: nat) returns (n: int)
      requires add / 4096 < list.Length
      ensures n == Refs()[add / 4096]
    {
      n := list[add / 4096].refCount;
    }

    method IncRefCount(add: nat)
      requires Valid() && add / 4096 < list.Length
      modifies list
      ensures Valid()
      ensures Refs() == old(Refs())[add / 4096 := old(Refs())[add / 4096] + 1]
      ensures forall i | 0 <= i < list.Length :: list[i].address == old(list[i].address)
    {
      var i := add / 4096;
      list[i] := list[i].(refCount := list[i].refCount + 1);
    }
  }
}
