/**
 Address-ordered, fully coalesced lists of blocks: what the free list of libc/malloc.c looks
 like.  Addresses and sizes count 16-byte header units.
 */
module FreeList {
  datatype Block = Block(addr: nat, size: nat)

  function End(b: Block): nat { b.addr + b.size }

  predicate In(b: Block, x: nat) { b.addr <= x < End(b) }

  ghost predicate Covers(s: seq<Block>, x: nat) {
    exists k | 0 <= k < |s| :: In(s[k], x)
  }

  /** Ascending, disjoint and never adjacent. */
  ghost predicate Separated(s: seq<Block>) {
    forall j, k | 0 <= j < k < |s| :: End(s[j]) < s[k].addr
  }

  ghost predicate NonEmpty(s: seq<Block>) {
    forall k | 0 <= k < |s| :: s[k].size > 0
  }

  ghost predicate SameUnits(s: seq<Block>, t: seq<Block>) {
    forall x :: Covers(s, x) <==> Covers(t, x)
  }

  // ----- canonical form -----

  lemma CoversFirst(s: seq<Block>)
    requires s != [] && Separated(s) && NonEmpty(s)
    ensures Covers(s, s[0].addr) && !Covers(s, End(s[0]))
    ensures forall x: nat | x < s[0].addr :: !Covers(s, x)
    ensures forall x | In(s[0], x) :: Covers(s, x)
  {
    assert In(s[0], s[0].addr);
  }

  lemma SameFirst(s: seq<Block>, t: seq<Block>)
    requires s != [] && t != [] && Separated(s) && Separated(t) && NonEmpty(s) && NonEmpty(t) && SameUnits(s, t)
    ensures s[0] == t[0]
  {
    CoversFirst(s);
    CoversFirst(t);
    assert Covers(t, s[0].addr) && Covers(s, t[0].addr);
    assert !Covers(t, End(s[0])) && !Covers(s, End(t[0]));
    assert s[0].addr == t[0].addr;
    assert !In(t[0], End(s[0])) && !In(s[0], End(t[0]));
  }

  lemma CoversRest(s: seq<Block>, x: nat)
    requires s != [] && Separated(s)
    ensures Covers(s[1..], x) <==> Covers(s, x) && !In(s[0], x)
  {
    if Covers(s, x) && !In(s[0], x) {
      var k :| 0 <= k < |s| && In(s[k], x);
      assert s[1..][k - 1] == s[k];
    }
    if Covers(s[1..], x) {
      var k :| 0 <= k < |s[1..]| && In(s[1..][k], x);
      assert s[k + 1] == s[1..][k];
    }
  }

  /** A coalesced list is the canonical form of the set of units it covers. */
  lemma {:induction false} Canonical(s: seq<Block>, t: seq<Block>)
    requires Separated(s) && Separated(t) && NonEmpty(s) && NonEmpty(t) && SameUnits(s, t)
    ensures s == t
  {
    if s == [] || t == [] {
      if s != [] { CoversFirst(s); }
      if t != [] { CoversFirst(t); }
    } else {
      SameFirst(s, t);
      forall x
        ensures Covers(s[1..], x) <==> Covers(t[1..], x)
      {
        CoversRest(s, x);
        CoversRest(t, x);
      }
      Canonical(s[1..], t[1..]);
      assert s == [s[0]] + s[1..] && t == [t[0]] + t[1..];
    }
  }

  // ----- insertion and removal -----

  /** `b` goes between elements `t` and `t + 1`, touching neither. */
  ghost predicate Fits(s: seq<Block>, t: nat, b: Block) {
    && t < |s| && b.size > 0
    && s[t].addr < b.addr && End(s[t]) <= b.addr
    && (t + 1 < |s| ==> End(b) <= s[t + 1].addr)
  }

  /** What `free` makes of the ring: `b` joined to the block after it, then to the one before it. */
  function JoinNext(s: seq<Block>, t: nat, b: Block): seq<Block>
    requires t < |s|
  {
    if t + 1 < |s| && End(b) == s[t + 1].addr
    then s[..t + 1] + [Block(b.addr, b.size + s[t + 1].size)] + s[t + 2..]
    else s[..t + 1] + [b] + s[t + 1..]
  }

  function JoinPrev(s: seq<Block>, t: nat): seq<Block>
    requires t + 1 < |s|
  {
    if End(s[t]) == s[t + 1].addr
    then s[..t] + [Block(s[t].addr, s[t].size + s[t + 1].size)] + s[t + 2..]
    else s
  }

  function Inserted(s: seq<Block>, t: nat, b: Block): seq<Block>
    requires t < |s|
  {
    JoinPrev(JoinNext(s, t, b), t)
  }

  /** Separated, except that elements `t` and `t + 1` may touch. */
  ghost predicate SeparatedBut(s: seq<Block>, t: nat) {
    forall j, k | 0 <= j < k < |s| :: if j == t && k == t + 1 then End(s[j]) <= s[k].addr else End(s[j]) < s[k].addr
  }

  lemma JoinNextOk(s: seq<Block>, t: nat, b: Block)
    requires Separated(s) && Fits(s, t, b)
    ensures var r := JoinNext(s, t, b);
            && t + 1 < |r| && r[t] == s[t] && SeparatedBut(r, t)
            && r[t + 1].addr == b.addr && r[t + 1].size >= b.size
  {
    var r := JoinNext(s, t, b);
    if t + 1 < |s| && End(b) == s[t + 1].addr {
      assert |r| == |s|;
      assert forall k | 0 <= k < |s| && k != t + 1 :: r[k] == s[k];
    } else {
      assert |r| == |s| + 1;
      assert forall k | 0 <= k <= t :: r[k] == s[k];
      assert forall k | t + 1 < k < |r| :: r[k] == s[k - 1];
    }
  }

  lemma JoinNextCovers(s: seq<Block>, t: nat, b: Block, x: nat)
    requires Fits(s, t, b)
    ensures Covers(JoinNext(s, t, b), x) <==> Covers(s, x) || In(b, x)
  {
    var r := JoinNext(s, t, b);
    var joined := t + 1 < |s| && End(b) == s[t + 1].addr;
    assert r[t + 1].addr == b.addr;
    if Covers(r, x) {
      var k :| 0 <= k < |r| && In(r[k], x);
      if k <= t { assert r[k] == s[k]; }
      else if k > t + 1 { assert r[k] == s[if joined then k else k - 1]; }
      else if joined && !In(b, x) { assert In(s[t + 1], x); }
    }
    if Covers(s, x) {
      var k :| 0 <= k < |s| && In(s[k], x);
      if k <= t { assert r[k] == s[k]; }
      else if joined && k == t + 1 { assert In(r[t + 1], x); }
      else { assert r[if joined then k else k + 1] == s[k]; }
    }
    if In(b, x) { assert In(r[t + 1], x); }
  }

  lemma JoinPrevOk(s: seq<Block>, t: nat)
    requires t + 1 < |s| && SeparatedBut(s, t)
    ensures var r := JoinPrev(s, t);
            && t < |r| && Separated(r) && r[t].addr == s[t].addr && r[..t] == s[..t]
            && (if End(s[t]) == s[t + 1].addr then r[t].size == s[t].size + s[t + 1].size else r == s)
  {
    var r := JoinPrev(s, t);
    if End(s[t]) == s[t + 1].addr {
      assert |r| == |s| - 1;
      assert forall k | 0 <= k < t :: r[k] == s[k];
      assert forall k | t < k < |r| :: r[k] == s[k + 1];
    }
  }

  lemma JoinPrevCovers(s: seq<Block>, t: nat, x: nat)
    requires t + 1 < |s|
    ensures Covers(JoinPrev(s, t), x) <==> Covers(s, x)
  {
    var r := JoinPrev(s, t);
    if End(s[t]) == s[t + 1].addr {
      if Covers(r, x) {
        var k :| 0 <= k < |r| && In(r[k], x);
        if k < t { assert r[k] == s[k]; }
        else if k > t { assert r[k] == s[k + 1]; }
        else if !In(s[t], x) { assert In(s[t + 1], x); }
      }
      if Covers(s, x) {
        var k :| 0 <= k < |s| && In(s[k], x);
        if k < t { assert r[k] == s[k]; }
        else if k > t + 1 { assert r[k - 1] == s[k]; }
        else { assert In(r[t], x); }
      }
    }
  }

  /** Insertion with coalescing: the list stays canonical and covers `b` as well. */
  lemma InsertedOk(s: seq<Block>, t: nat, b: Block)
    requires Separated(s) && Fits(s, t, b)
    ensures Separated(Inserted(s, t, b))
    ensures forall x :: Covers(Inserted(s, t, b), x) <==> Covers(s, x) || In(b, x)
  {
    hide Covers, Separated, SeparatedBut;
    JoinNextOk(s, t, b);
    JoinPrevOk(JoinNext(s, t, b), t);
    forall x
      ensures Covers(Inserted(s, t, b), x) <==> Covers(s, x) || In(b, x)
    {
      JoinNextCovers(s, t, b, x);
      JoinPrevCovers(JoinNext(s, t, b), t, x);
    }
  }

  function Without(s: seq<Block>, i: nat): seq<Block>
    requires i < |s|
  {
    s[..i] + s[i + 1..]
  }

  /** The last `n` units of block `i` are cut off, or the whole block if that is all of it. */
  function Cut(s: seq<Block>, i: nat, n: nat): seq<Block>
    requires i < |s| && n <= s[i].size
  {
    if n == s[i].size then Without(s, i) else s[i := Block(s[i].addr, s[i].size - n)]
  }

  function Tail(b: Block, n: nat): Block
    requires n <= b.size
  {
    Block(End(b) - n, n)
  }

  lemma CutOk(s: seq<Block>, i: nat, n: nat)
    requires Separated(s) && i < |s| && 0 < n <= s[i].size
    ensures Separated(Cut(s, i, n))
  {
    var r := Cut(s, i, n);
    if n == s[i].size {
      assert forall k | 0 <= k < |r| :: r[k] == s[if k < i then k else k + 1];
    }
  }

  lemma OtherBlock(s: seq<Block>, i: nat, j: nat, x: nat)
    requires Separated(s) && i < |s| && j < |s| && i != j && In(s[j], x)
    ensures !In(s[i], x)
  {
  }

  lemma WithoutCovers(s: seq<Block>, i: nat, x: nat)
    requires Separated(s) && i < |s|
    ensures Covers(Without(s, i), x) <==> Covers(s, x) && !In(s[i], x)
  {
    hide Separated, In;
    var r := Without(s, i);
    if Covers(r, x) {
      var k :| 0 <= k < |r| && In(r[k], x);
      var j := if k < i then k else k + 1;
      assert r[k] == s[j];
      OtherBlock(s, i, j, x);
    }
    if Covers(s, x) && !In(s[i], x) {
      var k :| 0 <= k < |s| && In(s[k], x);
      assert r[if k < i then k else k - 1] == s[k];
    }
  }

  lemma TrimmedCovers(s: seq<Block>, i: nat, n: nat, x: nat)
    requires Separated(s) && i < |s| && n < s[i].size
    ensures Covers(s[i := Block(s[i].addr, s[i].size - n)], x) <==> Covers(s, x) && !In(Tail(s[i], n), x)
  {
    var r := s[i := Block(s[i].addr, s[i].size - n)];
    if Covers(r, x) {
      var k :| 0 <= k < |r| && In(r[k], x);
      assert In(s[k], x);
    }
    if Covers(s, x) && !In(Tail(s[i], n), x) {
      var k :| 0 <= k < |s| && In(s[k], x);
      assert In(r[k], x);
    }
  }

  lemma CutCovers(s: seq<Block>, i: nat, n: nat, x: nat)
    requires Separated(s) && i < |s| && 0 < n <= s[i].size
    ensures Covers(Cut(s, i, n), x) <==> Covers(s, x) && !In(Tail(s[i], n), x)
    ensures In(Tail(s[i], n), x) ==> Covers(s, x)
  {
    if n == s[i].size {
      WithoutCovers(s, i, x);
    } else {
      TrimmedCovers(s, i, n, x);
    }
    assert In(Tail(s[i], n), x) ==> In(s[i], x);
  }
}
