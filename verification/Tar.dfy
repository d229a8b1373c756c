/**
 The walk of sys/tarfs.c over a ustar archive (the ustar Interchange Format of the `pax`
 utility, IEEE Std 1003.1): an octal decoder in 32-bit arithmetic drives a moving address.
 */
module Tar {
  /** A `char` of the kernel is signed. */
  type Char = x: int | -128 <= x < 128

  /** The value of octal digits, most significant first; other characters count as `c - '0'`. */
  function Octal(s: seq<Char>): int {
    if s == [] then 0 else Octal(s[..|s| - 1]) * 8 + (s[|s| - 1] as int - 48)
  }

  function Pow8(n: nat): nat {
    if n == 0 then 1 else Pow8(n - 1) * 8
  }

  lemma {:induction false} OctalFront(c: Char, s: seq<Char>)
    ensures Octal([c] + s) == (c - 48) * Pow8(|s|) + Octal(s)
  {
    if s == [] {
      assert [c] + s == [c] && [c][..0] == [];
    } else {
      var n := |s| - 1;
      OctalFront(c, s[..n]);
      assert ([c] + s)[..n + 1] == [c] + s[..n];
    }
  }

  lemma ModAdd(x: int, y: int)
    ensures (x % 0x1_0000_0000 + y) % 0x1_0000_0000 == (x + y) % 0x1_0000_0000
  {
  }

  lemma Pow8Values()
    ensures Pow8(10) == 0x4000_0000
  {
    assert Pow8(2) == 64;
    assert Pow8(4) == 64 * 64;
    assert Pow8(6) == 64 * 64 * 64;
    assert Pow8(8) == 64 * 64 * 64 * 64;
  }

  lemma {:induction false} Pow8Grows(n: nat, m: nat)
    requires n <= m
    ensures 1 <= Pow8(n) <= Pow8(m)
    decreases m
  {
    if n < m {
      Pow8Grows(n, m - 1);
    } else if n > 0 {
      Pow8Grows(n - 1, n - 1);
    }
  }

  lemma NoDigits(s: seq<Char>)
    requires |s| >= 11
    ensures Octal(s[11..11]) == 0 && Pow8(0) == 1
  {
  }

  /** One turn of the loop of `getsize`: a digit more. */
  lemma OneDigit(s: seq<Char>, j: nat, count: nat)
    requires |s| >= 11 && 0 < j <= 11 && count == Pow8(11 - j)
    ensures Octal(s[j - 1..11]) % 0x1_0000_0000 ==
            (Octal(s[j..11]) % 0x1_0000_0000 + (s[j - 1] - 48) * count) % 0x1_0000_0000
  {
    hide Octal, Pow8;
    OctalFront(s[j - 1], s[j..11]);
    assert s[j - 1..11] == [s[j - 1]] + s[j..11];
    ModAdd(Octal(s[j..11]), (s[j - 1] - 48) * count);
  }

  /** The weight of the next digit still fits in 32 bits as long as there is one. */
  lemma NextCount(j: nat, count: nat)
    requires 0 < j <= 11 && count == Pow8(11 - j)
    ensures j > 1 ==> count * 8 % 0x1_0000_0000 == Pow8(11 - (j - 1))
  {
    if j > 1 {
      Pow8Values();
      Pow8Grows(11 - (j - 1), 10);
      assert Pow8(11 - (j - 1)) == Pow8(11 - j) * 8;
    }
  }

  /** `getsize`: eleven characters, least significant first, in unsigned 32-bit arithmetic. */
  method GetSize(s: seq<Char>) returns (size: nat)
    requires |s| >= 11
    ensures size == Octal(s[..11]) % 0x1_0000_0000
  {
    hide Octal, Pow8;
    NoDigits(s);
    size := 0;
    var count: nat := 1;
    var j := 11;
    while j > 0
      invariant 0 <= j <= 11 && size == Octal(s[j..11]) % 0x1_0000_0000
      invariant j > 0 ==> count == Pow8(11 - j)
    {
      OneDigit(s, j, count);
      NextCount(j, count);
      size := (size + (s[j - 1] - 48) * count) % 0x1_0000_0000;
      count := count * 8 % 0x1_0000_0000;
      j := j - 1;
    }
  }

  /** How far the walk moves from a header with the given size. */
  function Step(size: nat): nat {
    (size / 512 + 1) * 512 % 0x1_0000_0000 + if size % 512 != 0 then 512 else 0
  }

  function SizeAt(image: seq<Char>, a: nat): nat
    requires a + 512 <= |image|
  {
    Octal(image[a + 124..a + 135]) % 0x1_0000_0000
  }

  /** The size field of the header at `a`. */
  method HeaderSize(image: seq<Char>, a: nat) returns (size: nat)
    requires a + 512 <= |image|
    ensures size == SizeAt(image, a)
  {
    size := GetSize(image[a + 124..a + 135]);
    assert image[a + 124..a + 135][..11] == image[a + 124..a + 135];
  }

  /** `hs` are the addresses the walk visits one after the other. */
  ghost predicate Visits(image: seq<Char>, hs: seq<nat>) {
    && (forall k | 0 <= k < |hs| :: hs[k] % 512 == 0 && hs[k] + 512 <= |image|)
    && (hs != [] ==> hs[0] == 0)
    && (forall k | 0 <= k < |hs| - 1 :: hs[k + 1] == hs[k] + Step(SizeAt(image, hs[k])))
  }

  function After(image: seq<Char>, hs: seq<nat>): nat
    requires hs != [] ==> hs[|hs| - 1] + 512 <= |image|
  {
    if hs == [] then 0 else hs[|hs| - 1] + Step(SizeAt(image, hs[|hs| - 1]))
  }

  lemma StepBlocks(size: nat)
    ensures Step(size) % 512 == 0
    ensures Step(size) == (size / 512 + 1) * 512 % 0x1_0000_0000 + if size % 512 != 0 then 512 else 0
  {
    assert ((size / 512 + 1) * 512) % 512 == 0;
  }

  class TarFs {
    const headers: array<nat>
    var fc: nat

    constructor ()
      ensures headers.Length == 200 && fc == 0 && fresh(headers)
    {
      headers := new nat[200];
      fc := 0;
    }

    /** `init_tarfs`: records each header; `ok` is false where the table of 200 would overflow. */
    method InitTarfs(image: seq<Char>) returns (ok: bool)
      requires headers.Length == 200 && fc == 0 && |image| % 512 == 0
      modifies this, headers
      ensures fc <= 200 && Visits(image, headers[..fc])
      ensures ok ==> After(image, headers[..fc]) >= |image|
      ensures !ok ==> fc == 200 && After(image, headers[..fc]) < |image|
    {
      hide Visits, SizeAt, Step, After;
      VisitsNothing(image);
      var address := 0;
      while address < |image|
        invariant fc <= 200 && address % 512 == 0
        invariant Visits(image, headers[..fc])
        invariant fc > 0 ==> headers[fc - 1] + 512 <= |image|
        invariant address == After(image, headers[..fc])
        decreases 200 - fc
      {
        if fc == 200 {
          return false;
        }
        ghost var hs := headers[..fc];
        var size := HeaderSize(image, address);
        headers[fc] := address;
        fc := fc + 1;
        assert headers[..fc] == hs + [address];
        VisitsMore(image, hs, address);
        StepBlocks(size);
        address := address + (size / 512 + 1) * 512 % 0x1_0000_0000;
        if size % 512 != 0 {
          address := address + 512;
        }
      }
      return true;
    }
  }

  lemma VisitsNothing(image: seq<Char>)
    ensures Visits(image, []) && After(image, []) == 0
  {
  }

  lemma VisitsMore(image: seq<Char>, hs: seq<nat>, a: nat)
    requires Visits(image, hs) && a == After(image, hs) && a % 512 == 0 && a + 512 <= |image|
    ensures Visits(image, hs + [a]) && After(image, hs + [a]) == a + Step(SizeAt(image, a))
  {
  }

  // ----- archives -----

  /** A member: a header block and its contents. */
  datatype Member = Member(header: seq<Char>, content: seq<Char>)

  ghost predicate IsMember(m: Member) {
    && |m.header| == 512 && |m.content| < 0x1_0000_0000 - 512
    && Octal(m.header[124..135]) == |m.content|
  }

  // ----- what archivers write -----

  /** `k` octal digits of `n`, as text. */
  function Digits(n: nat, k: nat): (s: seq<Char>)
    ensures |s| == k
  {
    if k == 0 then [] else Digits(n / 8, k - 1) + [(48 + n % 8) as Char]
  }

  /** Decoding undoes writing, for every number that has no more digits. */
  lemma {:induction false} OctalOfDigits(n: nat, k: nat)
    requires n < Pow8(k)
    ensures Octal(Digits(n, k)) == n
  {
    if k > 0 {
      OctalOfDigits(n / 8, k - 1);
      var s := Digits(n, k);
      assert s[..k - 1] == Digits(n / 8, k - 1);
      assert n == n / 8 * 8 + n % 8;
    }
  }

  /** The fields of a ustar header up to the size, and the rest of the block. */
  datatype Fields = Fields(name: seq<Char>, mode: seq<Char>, uid: seq<Char>, gid: seq<Char>, last: Char,
                           rest: seq<Char>)

  predicate GoodFields(f: Fields) {
    |f.name| == 100 && |f.mode| == |f.uid| == |f.gid| == 8 && |f.rest| == 376
  }

  function Header(f: Fields, size: nat): seq<Char> {
    f.name + f.mode + f.uid + f.gid + Digits(size, 11) + [f.last] + f.rest
  }

  /** A header as archivers write it, with the size in octal after name, mode and owner, makes a
      member of any content whose size fits. */
  lemma HeaderIsMember(f: Fields, content: seq<Char>)
    requires GoodFields(f) && |content| < 0x1_0000_0000 - 512
    ensures IsMember(Member(Header(f, |content|), content))
  {
    hide Octal, Digits;
    Pow8Values();
    assert Pow8(11) == Pow8(10) * 8;
    OctalOfDigits(|content|, 11);
    assert Header(f, |content|)[124..135] == Digits(|content|, 11);
  }

  function Zeros(n: nat): (s: seq<Char>)
    ensures |s| == n
  {
    seq(n, _ => 0)
  }

  function Padding(n: nat): nat { (512 - n % 512) % 512 }

  /** One member in the archive: header, contents, zeros up to the next block. */
  function Entry(m: Member): seq<Char> {
    m.header + m.content + Zeros(Padding(|m.content|))
  }

  function Layout(ms: seq<Member>): seq<Char> {
    if ms == [] then [] else Layout(ms[..|ms| - 1]) + Entry(ms[|ms| - 1])
  }

  /** Where the headers of the members lie. */
  function Offsets(ms: seq<Member>): seq<nat> {
    if ms == [] then [] else Offsets(ms[..|ms| - 1]) + [|Layout(ms[..|ms| - 1])|]
  }

  /** The entry takes the header and whole blocks for the contents, no more than needed. */
  lemma EntryBlocks(m: Member)
    requires IsMember(m)
    ensures |Entry(m)| % 512 == 0 && 512 + |m.content| <= |Entry(m)| < 512 + |m.content| + 512
  {
    hide Octal;
  }

  lemma EntrySize(m: Member)
    requires IsMember(m)
    ensures |Entry(m)| == Step(|m.content|) && |Entry(m)| % 512 == 0 && |Entry(m)| >= 512
  {
    hide Octal;
    PaddedSize(|m.content|);
  }

  lemma PaddedSize(n: nat)
    requires n < 0x1_0000_0000 - 512
    ensures 512 + n + Padding(n) == Step(n) && Step(n) % 512 == 0 && Step(n) >= 512
  {
    assert n == n / 512 * 512 + n % 512;
    assert (n / 512 + 1) * 512 < 0x1_0000_0000;
  }

  /** The walk goes from the start of an entry to its end. */
  lemma StepOverEntry(before: seq<Char>, m: Member, rest: seq<Char>)
    requires IsMember(m)
    ensures var image := before + Entry(m) + rest;
            |before| + 512 <= |image| && |before| + Step(SizeAt(image, |before|)) == |before| + |Entry(m)|
  {
    hide Octal, Zeros, Padding;
    EntrySize(m);
    var image := before + Entry(m) + rest;
    assert image[|before| + 124..|before| + 135] == m.header[124..135];
  }

  /** Any walk over an archive with more to come visits the member headers in order. */
  lemma {:induction false} WalkOfLayout(ms: seq<Member>, rest: seq<Char>, hs: seq<nat>)
    requires (forall m <- ms :: IsMember(m)) && Visits(Layout(ms) + rest, hs) && |hs| >= |ms|
    ensures hs[..|ms|] == Offsets(ms) && |Offsets(ms)| == |ms|
    ensures hs[..|ms|] != [] ==> hs[|ms| - 1] + 512 <= |Layout(ms) + rest|
    ensures After(Layout(ms) + rest, hs[..|ms|]) == |Layout(ms)|
  {
    if ms != [] {
      var n := |ms| - 1;
      var m := ms[n];
      var image := Layout(ms) + rest;
      assert image == Layout(ms[..n]) + (Entry(m) + rest);
      WalkOfLayout(ms[..n], Entry(m) + rest, hs);
      assert image == Layout(ms[..n]) + Entry(m) + rest;
      StepOverEntry(Layout(ms[..n]), m, rest);
      assert hs[..n + 1] == hs[..n] + [hs[n]];
      assert hs[n] == After(image, hs[..n]);
    }
  }

  /** What a block of zeros decodes to, eleven times -48 in octal, and how far it sends the walk. */
  lemma ZeroHeader(image: seq<Char>, a: nat)
    requires a + 512 <= |image| && forall k | a <= k < a + 512 :: image[k] == 0
    ensures SizeAt(image, a) == 1_227_133_520 && Step(SizeAt(image, a)) == 1_227_134_464
  {
    var s := image[a + 124..a + 135];
    assert s == Zeros(11);
    ZeroOctal();
  }

  lemma ZeroOctal()
    ensures Octal(Zeros(11)) == -58_902_408_624
  {
    OctalZeros(0); OctalZeros(1); OctalZeros(2); OctalZeros(3); OctalZeros(4); OctalZeros(5);
    OctalZeros(6); OctalZeros(7); OctalZeros(8); OctalZeros(9); OctalZeros(10);
    assert Octal(Zeros(0)) == 0;
  }

  lemma OctalZeros(n: nat)
    ensures Octal(Zeros(n + 1)) == Octal(Zeros(n)) * 8 - 48
  {
    assert Zeros(n + 1)[..n] == Zeros(n);
  }

  /** The walk inverts the layout: over at most 199 members followed by zero blocks, in an image
      smaller than the jump from a zero header, it visits exactly the member headers and the
      first zero block, and stops. */
  lemma WalkInvertsLayout(ms: seq<Member>, zeros: nat, hs: seq<nat>)
    requires (forall m <- ms :: IsMember(m)) && |ms| <= 199 && zeros > 0
    requires |Layout(ms)| + 512 * zeros < 1_227_134_464
    requires var image := Layout(ms) + Zeros(512 * zeros);
             Visits(image, hs) && (After(image, hs) >= |image| || |hs| == 200)
    ensures hs == Offsets(ms) + [|Layout(ms)|]
    ensures After(Layout(ms) + Zeros(512 * zeros), hs) >= |Layout(ms)| + 512 * zeros
  {
    hide Visits, SizeAt, Step, Layout, Offsets, IsMember, After;
    var image := Layout(ms) + Zeros(512 * zeros);
    WalkReaches(ms, 512 * zeros, hs);
    WalkOfLayout(ms, Zeros(512 * zeros), hs);
    ZeroHeader(image, |Layout(ms)|);
    WalkEnds(image, hs, |ms|, |Layout(ms)|);
  }

  /** A walk that comes to a header whose step leaves the image ends with it. */
  lemma WalkEnds(image: seq<Char>, hs: seq<nat>, n: nat, a: nat)
    requires Visits(image, hs) && n < |hs| && a == After(image, hs[..n]) && a + 512 <= |image|
    requires a + Step(SizeAt(image, a)) >= |image|
    ensures hs == hs[..n] + [a] && After(image, hs) >= |image|
  {
    hide SizeAt, Step;
    assert hs[n] == a;
    if n + 1 < |hs| { NextVisit(image, hs, n); }
  }

  lemma NextVisit(image: seq<Char>, hs: seq<nat>, k: nat)
    requires Visits(image, hs) && k + 1 < |hs|
    ensures hs[k] + Step(SizeAt(image, hs[k])) + 512 <= |image|
  {
    assert hs[k + 1] == hs[k] + Step(SizeAt(image, hs[k]));
  }

  /** The walk cannot stop inside the members. */
  lemma WalkReaches(ms: seq<Member>, zeros: nat, hs: seq<nat>)
    requires (forall m <- ms :: IsMember(m)) && |ms| <= 199 && zeros > 0
    requires var image := Layout(ms) + Zeros(zeros);
             Visits(image, hs) && (After(image, hs) >= |image| || |hs| == 200)
    ensures |hs| > |ms|
  {
    var k := |hs|;
    if k <= |ms| {
      var image := Layout(ms) + Zeros(zeros);
      LayoutSplit(ms, k);
      var tail := Tail(ms, k) + Zeros(zeros);
      assert image == Layout(ms[..k]) + tail;
      WalkAll(ms[..k], tail, hs);
    }
  }

  lemma WalkAll(ms: seq<Member>, rest: seq<Char>, hs: seq<nat>)
    requires (forall m <- ms :: IsMember(m)) && Visits(Layout(ms) + rest, hs) && |hs| == |ms|
    ensures After(Layout(ms) + rest, hs) == |Layout(ms)|
  {
    WalkOfLayout(ms, rest, hs);
    assert hs[..|ms|] == hs;
  }

  function Tail(ms: seq<Member>, k: nat): seq<Char>
    requires k <= |ms|
  {
    if k == |ms| then [] else Tail(ms[..|ms| - 1], k) + Entry(ms[|ms| - 1])
  }

  lemma {:induction false} LayoutSplit(ms: seq<Member>, k: nat)
    requires k <= |ms|
    ensures Layout(ms) == Layout(ms[..k]) + Tail(ms, k)
  {
    hide Entry;
    if k == |ms| {
      assert ms[..k] == ms;
    } else {
      LayoutSplit(ms[..|ms| - 1], k);
      assert ms[..|ms| - 1][..k] == ms[..k];
    }
  }

  lemma {:induction false} LayoutBlocks(ms: seq<Member>)
    requires forall m <- ms :: IsMember(m)
    ensures |Layout(ms)| % 512 == 0
  {
    hide Entry, IsMember, Step;
    if ms != [] {
      LayoutBlocks(ms[..|ms| - 1]);
      EntrySize(ms[|ms| - 1]);
      SumOfBlocks(|Layout(ms[..|ms| - 1])|, |Entry(ms[|ms| - 1])|);
    }
  }

  lemma SumOfBlocks(a: nat, b: nat)
    requires a % 512 == 0 && b % 512 == 0
    ensures (a + b) % 512 == 0
  {
  }

  /** `init_tarfs` on an archive: exactly the member headers, in order, and the first zero block. */
  method InitArchive(fs: TarFs, ms: seq<Member>, zeros: nat)
    requires fs.headers.Length == 200 && fs.fc == 0
    requires (forall m <- ms :: IsMember(m)) && |ms| <= 199 && zeros > 0
    requires |Layout(ms)| + 512 * zeros < 1_227_134_464
    modifies fs, fs.headers
    ensures fs.fc == |ms| + 1 && fs.headers[..fs.fc] == Offsets(ms) + [|Layout(ms)|]
  {
    hide Visits, After, Layout, Offsets, IsMember;
    LayoutBlocks(ms);
    var image := Layout(ms) + Zeros(512 * zeros);
    var ok := fs.InitTarfs(image);
    OffsetsCount(ms);
    WalkInvertsLayout(ms, zeros, fs.headers[..fs.fc]);
  }

  lemma {:induction false} OffsetsCount(ms: seq<Member>)
    ensures |Offsets(ms)| == |ms|
  {
    if ms != [] { OffsetsCount(ms[..|ms| - 1]); }
  }
}
