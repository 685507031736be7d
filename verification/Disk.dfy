/** The block device: one byte array cut into blocks of equal size, and the allocation bitmap. */
module Disk {
  import opened Sums
  import opened Wire

  /** Address of a block, and block of an address. */
  function Addr(i: int, bs: int): int { i * bs }

  function No(p: int, bs: int): int
    requires bs > 0
  {
    p / bs
  }

  lemma NoOfAddr(i: int, bs: int)
    requires bs > 0
    ensures No(Addr(i, bs), bs) == i && Addr(i, bs) % bs == 0
  {
    QuotientIs(Addr(i, bs), bs, i, 0);
  }

  /** Division is determined by the remainder's range. */
  lemma QuotientIs(p: int, bs: int, q: int, r: int)
    requires bs > 0 && p == q * bs + r && 0 <= r < bs
    ensures p / bs == q && p % bs == r
  {
    var k := p / bs - q;
    assert k * bs == r - p % bs;
    assert k > 0 ==> k * bs >= bs;
    assert k < 0 ==> k * bs <= -bs;
  }

  lemma BlocksApart(i: int, j: int, bs: int)
    requires bs > 0 && i < j
    ensures Addr(i, bs) + bs <= Addr(j, bs)
  {
    assert Addr(j, bs) == Addr(i, bs) + bs + (j - i - 1) * bs;
  }

  lemma BlockInRange(i: int, n: int, bs: int)
    requires bs > 0 && 0 <= i < n
    ensures 0 <= Addr(i, bs) && Addr(i, bs) + bs <= Addr(n, bs)
  {
    BlocksApart(i, n, bs);
    assert i * bs >= 0;
  }

  /** `memcpy` onto the device; the model leaves out writes that would leave it. */
  function Put(d: seq<Byte>, at: int, v: seq<Byte>): (r: seq<Byte>)
    ensures |r| == |d|
    ensures 0 <= at && at + |v| <= |d| ==>
      forall x :: 0 <= x < |d| ==> r[x] == if at <= x < at + |v| then v[x - at] else d[x]
  {
    if 0 <= at && at + |v| <= |d| then d[..at] + v + d[at + |v|..] else d
  }

  function Get(d: seq<Byte>, at: int, n: int): (r: seq<Byte>) {
    if 0 <= at && 0 <= n && at + n <= |d| then d[at..at + n] else []
  }

  function IntAt(d: seq<Byte>, at: int): int {
    if |Get(d, at, INT_SIZE)| == INT_SIZE then DecInt(Get(d, at, INT_SIZE)) else 0
  }

  function Zeros(n: int): (r: seq<Byte>)
    ensures |r| == if n < 0 then 0 else n
    ensures Blank(r)
  {
    seq(if n < 0 then 0 else n, _ => 0)
  }

  predicate Blank(s: seq<Byte>) { forall x :: 0 <= x < |s| ==> s[x] == 0 }

  /** The bytes of block `i`. */
  function Block(d: seq<Byte>, bs: int, i: int): seq<Byte> {
    Get(d, Addr(i, bs), bs)
  }

  predicate InDevice(d: seq<Byte>, bs: int, i: int) {
    bs > 0 && 0 <= i && Addr(i, bs) + bs <= |d|
  }

  lemma BlockByte(d: seq<Byte>, bs: int, i: int)
    requires InDevice(d, bs, i)
    ensures |Block(d, bs, i)| == bs && Addr(i, bs) >= 0
    ensures forall x :: 0 <= x < bs ==> Block(d, bs, i)[x] == d[Addr(i, bs) + x]
  {
    assert i * bs >= 0;
  }

  /** A write inside one block changes that block at that place and no other block. */
  lemma PutInBlock(d: seq<Byte>, bs: int, i: int, off: int, v: seq<Byte>)
    requires InDevice(d, bs, i) && 0 <= off && off + |v| <= bs
    ensures Block(Put(d, Addr(i, bs) + off, v), bs, i) == Put(Block(d, bs, i), off, v)
    ensures forall j :: InDevice(d, bs, j) && j != i ==> Block(Put(d, Addr(i, bs) + off, v), bs, j) == Block(d, bs, j)
  {
    var d' := Put(d, Addr(i, bs) + off, v);
    BlockByte(d, bs, i);
    BlockByte(d', bs, i);
    forall j | InDevice(d, bs, j) && j != i ensures Block(d', bs, j) == Block(d, bs, j) {
      BlockByte(d, bs, j);
      BlockByte(d', bs, j);
      if j < i { BlocksApart(j, i, bs); } else { BlocksApart(i, j, bs); }
    }
  }

  /** A read inside one block sees only that block. */
  lemma GetInBlock(d: seq<Byte>, bs: int, i: int, off: int, n: int)
    requires InDevice(d, bs, i) && 0 <= off && 0 <= n && off + n <= bs
    ensures Get(d, Addr(i, bs) + off, n) == Get(Block(d, bs, i), off, n)
    ensures |Get(d, Addr(i, bs) + off, n)| == n
  {
    BlockByte(d, bs, i);
  }

  lemma IntInBlock(d: seq<Byte>, bs: int, i: int, off: int)
    requires InDevice(d, bs, i) && 0 <= off && off + INT_SIZE <= bs
    ensures IntAt(d, Addr(i, bs) + off) == IntAt(Block(d, bs, i), off)
  {
    BlockByte(d, bs, i);
    GetInBlock(d, bs, i, off, INT_SIZE);
  }

  lemma PutInt(b: seq<Byte>, at: int, x: int)
    requires IsInt(x) && 0 <= at && at + INT_SIZE <= |b|
    ensures IntAt(Put(b, at, EncInt(x)), at) == x
  {
    IntRoundTrip(x);
    assert Get(Put(b, at, EncInt(x)), at, INT_SIZE) == EncInt(x);
  }

  lemma PutElsewhere(b: seq<Byte>, at: int, v: seq<Byte>, other: int, n: int)
    requires 0 <= n && (other + n <= at || at + |v| <= other)
    ensures Get(Put(b, at, v), other, n) == Get(b, other, n)
  {
  }

  // ----- the bitmap -----

  /** The scan for the first clear bit. */
  function FirstFree(bits: seq<bool>): (r: Option<nat>)
    ensures r.Some? ==> r.value < |bits| && !bits[r.value] && forall i :: 0 <= i < r.value ==> bits[i]
    ensures r.None? ==> forall i :: 0 <= i < |bits| ==> bits[i]
  {
    Find(bits, (bit: bool) => !bit)
  }

  function SetBit(bits: seq<bool>, i: int, value: bool): (r: seq<bool>)
    ensures |r| == |bits|
  {
    if 0 <= i < |bits| then bits[i := value] else bits
  }

  function FreeCount(bits: seq<bool>): nat {
    if bits == [] then 0 else FreeCount(bits[..|bits| - 1]) + if bits[|bits| - 1] then 0 else 1
  }

  lemma {:induction false} FreeCountSet(bits: seq<bool>, i: nat)
    requires i < |bits| && !bits[i]
    ensures FreeCount(bits) == FreeCount(bits[i := true]) + 1
  {
    var n := |bits| - 1;
    if i < n {
      assert bits[i := true][..n] == bits[..n][i := true];
      FreeCountSet(bits[..n], i);
    } else {
      assert bits[i := true][..n] == bits[..n];
    }
  }

  lemma {:induction false} FreeCountZero(bits: seq<bool>)
    ensures FreeCount(bits) == 0 <==> forall i :: 0 <= i < |bits| ==> bits[i]
  {
    if bits != [] {
      var n := |bits| - 1;
      FreeCountZero(bits[..n]);
      assert forall i :: 0 <= i < n ==> bits[..n][i] == bits[i];
    }
  }
}
