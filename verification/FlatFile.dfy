/** A file as one string of bytes, and which reads and writes treat it as one. */
module FlatFile {
  import opened Sums
  import opened Wire
  import opened Disk
  import opened FileSystem
  import opened Files
  import opened Truncate
  import opened FileIo
  import opened FileRuns

  /** A file's blocks as one byte string. */
  function Flat(c: seq<seq<Byte>>): seq<Byte> {
    if c == [] then [] else Flat(c[..|c| - 1]) + c[|c| - 1]
  }

  ghost predicate Uniform(c: seq<seq<Byte>>, bs: int) {
    bs >= 0 && forall k :: 0 <= k < |c| ==> |c[k]| == bs
  }

  lemma {:induction false} FlatByte(c: seq<seq<Byte>>, bs: int, k: int, x: int)
    requires Uniform(c, bs) && 0 <= k < |c| && 0 <= x < bs
    ensures |Flat(c)| == |c| * bs && 0 <= k * bs + x < |Flat(c)| && Flat(c)[k * bs + x] == c[k][x]
    decreases |c|
  {
    FlatSize(c, bs);
    var n := |c| - 1;
    FlatSize(c[..n], bs);
    if k < n {
      FlatByte(c[..n], bs, k, x);
    } else {
      assert 0 <= n * bs;
    }
  }

  lemma {:induction false} FlatSize(c: seq<seq<Byte>>, bs: int)
    requires Uniform(c, bs)
    ensures |Flat(c)| == |c| * bs
  {
    if c != [] {
      FlatSize(c[..|c| - 1], bs);
      assert |c| * bs == (|c| - 1) * bs + bs;
    }
  }

  lemma {:induction false} FlatUpdate(c: seq<seq<Byte>>, bs: int, k: int, off: int, v: seq<Byte>)
    requires Uniform(c, bs) && 0 <= k < |c| && 0 <= off && off + |v| <= bs
    ensures Flat(c[k := Put(c[k], off, v)]) == Put(Flat(c), k * bs + off, v)
    ensures Uniform(c[k := Put(c[k], off, v)], bs) && 0 <= k * bs + off && k * bs + off + |v| <= |Flat(c)|
    decreases |c|
  {
    hide Put;
    var n, c' := |c| - 1, c[k := Put(c[k], off, v)];
    FlatSize(c, bs);
    FlatSize(c[..n], bs);
    FitsFlat(|c|, k, bs);
    if k < n {
      FlatUpdate(c[..n], bs, k, off, v);
      assert c'[..n] == c[..n][k := Put(c[..n][k], off, v)];
      PutLeft(Flat(c[..n]), c[n], k * bs + off, v);
    } else {
      assert c'[..n] == c[..n];
      PutRight(Flat(c[..n]), c[n], off, v);
    }
  }

  lemma PutLeft(a: seq<Byte>, b: seq<Byte>, at: int, v: seq<Byte>)
    requires 0 <= at && at + |v| <= |a|
    ensures Put(a + b, at, v) == Put(a, at, v) + b
  {
  }

  lemma PutRight(a: seq<Byte>, b: seq<Byte>, off: int, v: seq<Byte>)
    requires 0 <= off && off + |v| <= |b|
    ensures Put(a + b, |a| + off, v) == a + Put(b, off, v)
  {
  }

  lemma ContentIsUniform(fs: Fs, n: int)
    requires Core(fs) && 0 <= n < |fs.files|
    ensures Uniform(Content(fs, n), fs.bs)
  {
    hide Core, Content;
    CoreFile(fs, n);
    ContentSize(fs, n);
    forall k | 0 <= k < |Content(fs, n)| ensures |Content(fs, n)[k]| == fs.bs { BlockSizes(fs, n, k); }
  }

  /** A request inside one block is a write to a flat byte file at the file pointer. */
  lemma OneBlockWriteIsFlat(fs: Fs, name: string, v: seq<Byte>, puntero: int, n: int)
    requires FsInv(fs) && IndexOf(fs, name) == Some(n) && InRange(fs, n, |v|, puntero)
    requires !Crosses(puntero % fs.bs, |v|, fs.bs)
    ensures Flat(Content(Escribir(fs, name, v, puntero).0, n)) == Put(Flat(Content(fs, n)), puntero, v)
  {
    WriteEffect(fs, name, v, puntero, n);
    hide Core, Content, IndexOf, Elsewhere, Escribir, Put, Flat;
    PlaceOf(puntero, fs.bs);
    ContentIsUniform(fs, n);
    FlatUpdate(Content(fs, n), fs.bs, puntero / fs.bs, puntero % fs.bs, v);
  }

  lemma TwoFlatWrites(c: seq<seq<Byte>>, number: int, offset: int, v: seq<Byte>, bs: int)
    requires Uniform(c, bs) && 0 <= number && number + 1 < |c| && 0 <= offset < bs && offset + |v| <= 2 * bs - 1
    requires Crosses(offset, |v|, bs)
    ensures var first := FirstBytes(offset, |v|, bs);
      Flat(Written(c, number, offset, v, bs)) == Put(Put(Flat(c), number * bs + offset, v[..first]), (number + 1) * bs, v[first..])
    ensures (number + 1) * bs + bs <= |Flat(c)|
  {
    hide Put, Flat;
    var first := FirstBytes(offset, |v|, bs);
    FlatUpdate(c, bs, number, offset, v[..first]);
    FlatUpdate(c[number := Put(c[number], offset, v[..first])], bs, number + 1, 0, v[first..]);
    FlatSize(c, bs);
    FitsFlat(|c|, number + 1, bs);
  }

  /** A crossing request is two flat writes that leave the first block's last byte out: the second
      part starts one byte further than a flat write would put it. */
  lemma CrossingWriteSkipsAByte(fs: Fs, name: string, v: seq<Byte>, puntero: int, n: int)
    requires FsInv(fs) && IndexOf(fs, name) == Some(n) && InRange(fs, n, |v|, puntero)
    requires Crosses(puntero % fs.bs, |v|, fs.bs)
    ensures var first, next := FirstBytes(puntero % fs.bs, |v|, fs.bs), NextBlock(puntero, fs.bs);
      && 0 <= first < |v| && puntero + first == next - 1 && next + (|v| - first) <= |Flat(Content(fs, n))|
      && Flat(Content(Escribir(fs, name, v, puntero).0, n)) == Put(Put(Flat(Content(fs, n)), puntero, v[..first]), next, v[first..])
  {
    hide Core, Content, IndexOf, Elsewhere, Escribir, Put, Flat, Written, Backed, PointerOf, Block, Owns;
    WriteEffect(fs, name, v, puntero, n);
    PlaceOf(puntero, fs.bs);
    ContentIsUniform(fs, n);
    TwoFlatWrites(Content(fs, n), puntero / fs.bs, puntero % fs.bs, v, fs.bs);
  }

  // ----- writes -----

  /** What keeps a split write from showing: the byte left out has the value it should get, the bytes
      that land one place too far are all the same, and so is the byte past the range. */
  predicate SplitIsHidden(d: seq<Byte>, p: int, v: seq<Byte>, first: int)
    requires 0 <= p && 0 <= first < |v| && p + |v| < |d|
  {
    && d[p + first] == v[first]
    && (forall i :: first < i < |v| ==> v[i] == v[first])
    && d[p + |v|] == v[first]
  }

  /** What a split write leaves at each place of the range and just past it. */
  lemma SplitByte(d: seq<Byte>, p: int, v: seq<Byte>, first: int, i: int)
    requires 0 <= p && 0 <= first < |v| && p + |v| < |d| && 0 <= i <= |v|
    ensures Put(Put(d, p, v[..first]), p + first + 1, v[first..])[p + i] ==
      if i < first then v[i] else if i == first then d[p + i] else v[i - 1]
    ensures Put(d, p, v)[p + i] == if i < |v| then v[i] else d[p + i]
  {
    assert i > first ==> v[first..][i - 1 - first] == v[i - 1];
  }

  lemma SplitPutIff(d: seq<Byte>, p: int, v: seq<Byte>, first: int)
    requires 0 <= p && 0 <= first < |v| && p + |v| < |d|
    ensures Put(Put(d, p, v[..first]), p + first + 1, v[first..]) == Put(d, p, v) <==> SplitIsHidden(d, p, v, first)
  {
    var split, whole := Put(Put(d, p, v[..first]), p + first + 1, v[first..]), Put(d, p, v);
    if split == whole {
      SplitByte(d, p, v, first, first);
      SplitByte(d, p, v, first, |v|);
      SplitShifts(d, p, v, first, |v|);
    } else {
      var x :| 0 <= x < |d| && split[x] != whole[x];
      if p <= x <= p + |v| { SplitByte(d, p, v, first, x - p); }
    }
  }

  /** If a split write shows nothing, each byte past the split equals the one before it. */
  lemma {:induction false} SplitShifts(d: seq<Byte>, p: int, v: seq<Byte>, first: int, n: int)
    requires 0 <= p && 0 <= first < n <= |v| && p + |v| < |d|
    requires Put(Put(d, p, v[..first]), p + first + 1, v[first..]) == Put(d, p, v)
    ensures forall i :: first <= i < n ==> v[i] == v[first]
    decreases n
  {
    hide Put;
    if n > first + 1 {
      SplitShifts(d, p, v, first, n - 1);
      SplitByte(d, p, v, first, n - 1);
    }
  }

  /** A write is the write to a flat file exactly when it stays in one block or its split is hidden. */
  lemma WriteIsFlatIff(fs: Fs, name: string, v: seq<Byte>, puntero: int, n: int)
    requires FsInv(fs) && IndexOf(fs, name) == Some(n) && InRange(fs, n, |v|, puntero)
    ensures var first := FirstBytes(puntero % fs.bs, |v|, fs.bs);
      && (Crosses(puntero % fs.bs, |v|, fs.bs) ==> 0 <= first < |v| && puntero + |v| < |Flat(Content(fs, n))|)
      && (Flat(Content(Escribir(fs, name, v, puntero).0, n)) == Put(Flat(Content(fs, n)), puntero, v) <==>
            !Crosses(puntero % fs.bs, |v|, fs.bs) || SplitIsHidden(Flat(Content(fs, n)), puntero, v, first))
  {
    hide Core, Backed, Content, IndexOf, Escribir, Flat, NextBlock, Put, SplitIsHidden;
    if Crosses(puntero % fs.bs, |v|, fs.bs) {
      CrossingWriteSkipsAByte(fs, name, v, puntero, n);
      SplitPutIff(Flat(Content(fs, n)), puntero, v, FirstBytes(puntero % fs.bs, |v|, fs.bs));
    } else {
      OneBlockWriteIsFlat(fs, name, v, puntero, n);
    }
  }

  // ----- reads -----

  lemma GetLeft(a: seq<Byte>, b: seq<Byte>, at: int, len: int)
    requires 0 <= at && 0 <= len && at + len <= |a|
    ensures Get(a + b, at, len) == Get(a, at, len)
  {
  }

  lemma GetRight(a: seq<Byte>, b: seq<Byte>, off: int, len: int)
    requires 0 <= off && 0 <= len && off + len <= |b|
    ensures Get(a + b, |a| + off, len) == Get(b, off, len)
  {
  }

  lemma {:induction false} FlatGet(c: seq<seq<Byte>>, bs: int, k: int, off: int, len: int)
    requires Uniform(c, bs) && 0 <= k < |c| && 0 <= off && 0 <= len && off + len <= bs
    ensures Get(c[k], off, len) == Get(Flat(c), k * bs + off, len)
    ensures 0 <= k * bs + off && k * bs + off + len <= |Flat(c)|
    decreases |c|
  {
    hide Get;
    var n := |c| - 1;
    FlatSize(c, bs);
    FlatSize(c[..n], bs);
    FitsFlat(|c|, k, bs);
    if k < n {
      FlatGet(c[..n], bs, k, off, len);
      GetLeft(Flat(c[..n]), c[n], k * bs + off, len);
    } else {
      GetRight(Flat(c[..n]), c[n], off, len);
    }
  }

  /** A read inside one block returns the bytes of the flat file at the file pointer; a crossing one
      returns two flat pieces, and leaves the byte between them out. */
  lemma ReadIsFlatPieces(fs: Fs, name: string, bytes: int, puntero: int, n: int)
    requires FsInv(fs) && IndexOf(fs, name) == Some(n) && InRange(fs, n, bytes, puntero)
    ensures var d, first := Flat(Content(fs, n)), FirstBytes(puntero % fs.bs, bytes, fs.bs);
      if Crosses(puntero % fs.bs, bytes, fs.bs) then
        && 0 <= first < bytes && puntero + bytes < |d|
        && Leer(fs, name, bytes, puntero) == Some(Get(d, puntero, first) + Get(d, puntero + first + 1, bytes - first))
      else Leer(fs, name, bytes, puntero) == Some(Get(d, puntero, bytes))
  {
    hide Core, Content, IndexOf, Get, Leer, Flat, Backed, PointerOf;
    ReadIsContent(fs, name, bytes, puntero, n);
    PlaceOf(puntero, fs.bs);
    ContentIsUniform(fs, n);
    var number, offset, c := puntero / fs.bs, puntero % fs.bs, Content(fs, n);
    if Crosses(offset, bytes, fs.bs) {
      var first := FirstBytes(offset, bytes, fs.bs);
      FlatGet(c, fs.bs, number, offset, first);
      FlatGet(c, fs.bs, number + 1, 0, bytes - first);
      assert puntero + first + 1 == NextBlock(puntero, fs.bs) == (number + 1) * fs.bs;
    } else {
      FlatGet(c, fs.bs, number, offset, bytes);
    }
  }

  /** From the byte left out to the one past the range no two neighbours differ. */
  predicate GapIsHidden(d: seq<Byte>, p: int, bytes: int, first: int)
    requires 0 <= p && 0 <= first < bytes && p + bytes < |d|
  {
    forall x :: p + first <= x <= p + bytes ==> d[x] == d[p + first]
  }

  /** What a split read and a flat one return at each place. */
  lemma GapByte(d: seq<Byte>, p: int, bytes: int, first: int, i: int)
    requires 0 <= p && 0 <= first < bytes && p + bytes < |d| && 0 <= i < bytes
    ensures var split := Get(d, p, first) + Get(d, p + first + 1, bytes - first);
      |split| == bytes && split[i] == d[if i < first then p + i else p + i + 1]
    ensures |Get(d, p, bytes)| == bytes && Get(d, p, bytes)[i] == d[p + i]
  {
  }

  lemma SplitGetIff(d: seq<Byte>, p: int, bytes: int, first: int)
    requires 0 <= p && 0 <= first < bytes && p + bytes < |d|
    ensures Get(d, p, first) + Get(d, p + first + 1, bytes - first) == Get(d, p, bytes) <==> GapIsHidden(d, p, bytes, first)
  {
    hide Get;
    var split, whole := Get(d, p, first) + Get(d, p + first + 1, bytes - first), Get(d, p, bytes);
    GapByte(d, p, bytes, first, 0);
    if split == whole {
      GetShifts(d, p, bytes, first, bytes + 1);
    } else {
      var x :| 0 <= x < bytes && split[x] != whole[x];
      GapByte(d, p, bytes, first, x);
    }
  }

  lemma {:induction false} GetShifts(d: seq<Byte>, p: int, bytes: int, first: int, n: int)
    requires 0 <= p && 0 <= first < n <= bytes + 1 && p + bytes < |d|
    requires Get(d, p, first) + Get(d, p + first + 1, bytes - first) == Get(d, p, bytes)
    ensures forall x :: p + first <= x < p + n ==> d[x] == d[p + first]
    decreases n
  {
    hide Get;
    if n > first + 1 {
      GetShifts(d, p, bytes, first, n - 1);
      GapByte(d, p, bytes, first, n - 2);
    }
  }

  /** A read is the read of a flat file exactly when it stays in one block or the byte it leaves out
      does not show. */
  lemma ReadIsFlatIff(fs: Fs, name: string, bytes: int, puntero: int, n: int)
    requires FsInv(fs) && IndexOf(fs, name) == Some(n) && InRange(fs, n, bytes, puntero)
    ensures var d, first := Flat(Content(fs, n)), FirstBytes(puntero % fs.bs, bytes, fs.bs);
      && (Crosses(puntero % fs.bs, bytes, fs.bs) ==> 0 <= first < bytes && puntero + bytes < |d|)
      && (Leer(fs, name, bytes, puntero) == Some(Get(d, puntero, bytes)) <==>
            !Crosses(puntero % fs.bs, bytes, fs.bs) || GapIsHidden(d, puntero, bytes, first))
  {
    hide Core, Backed, Content, IndexOf, Leer, Flat, Get, GapIsHidden;
    ReadIsFlatPieces(fs, name, bytes, puntero, n);
    PlaceOf(puntero, fs.bs);
    if Crosses(puntero % fs.bs, bytes, fs.bs) {
      SplitGetIff(Flat(Content(fs, n)), puntero, bytes, FirstBytes(puntero % fs.bs, bytes, fs.bs));
    }
  }

  // ----- a split that shows -----

  /** Two bytes written at place 2 of a blank file of two four-byte blocks land at places 2 and 4. */
  lemma SplitShows() returns (ops: seq<FsOp>)
    ensures FsRun(Fresh(4, 8), ops) && Allowed(FsFinal(Fresh(4, 8), ops), OpWrite("a", [1, 2], 2))
    ensures var fs := FsFinal(Fresh(4, 8), ops);
      && IndexOf(fs, "a") == Some(0) && Flat(Content(fs, 0)) == [0, 0, 0, 0, 0, 0, 0, 0]
      && |Escribir(fs, "a", [1, 2], 2).0.files| == 1
      && Flat(Content(Escribir(fs, "a", [1, 2], 2).0, 0)) == [0, 0, 1, 0, 2, 0, 0, 0]
      && Put(Flat(Content(fs, 0)), 2, [1, 2]) == [0, 0, 1, 2, 0, 0, 0, 0]
  {
    hide Content, Truncar, FsInv, Flat, Put, Escribir, ZeroBlocks, FreeCount;
    FreshIsOk(4, 8);
    AllFree(8);
    var fs0 := Fresh(4, 8);
    var n := GrowNew(fs0, "a", 8);
    var fs2 := Truncar(Open(fs0, "a"), "a", 8).0;
    SplitOf(fs2);
    hide Open, Fresh;
    ServeThen(Open(fs0, "a"), OpTruncate("a", 8), []);
    ServeThen(fs0, OpOpen("a"), [OpTruncate("a", 8)] + []);
    ops := [OpOpen("a")] + ([OpTruncate("a", 8)] + []);
  }

  lemma SplitOf(fs: Fs)
    requires FsInv(fs) && fs.bs == 4 && |fs.files| == 1 && fs.files[0].nombre == "a" && NumData(fs.files[0]) == 2
    requires Content(fs, 0) == ZeroBlocks(4, 2)
    ensures Allowed(fs, OpWrite("a", [1, 2], 2))
    ensures IndexOf(fs, "a") == Some(0) && Flat(Content(fs, 0)) == [0, 0, 0, 0, 0, 0, 0, 0]
    ensures |Escribir(fs, "a", [1, 2], 2).0.files| == 1
    ensures Flat(Content(Escribir(fs, "a", [1, 2], 2).0, 0)) == [0, 0, 1, 0, 2, 0, 0, 0]
    ensures Put(Flat(Content(fs, 0)), 2, [1, 2]) == [0, 0, 1, 2, 0, 0, 0, 0]
  {
    assert IndexOf(fs, "a") == Some(0);
    hide Content, AllSettled, Put, Flat, Get;
    FlatBlanks();
    CrossingWriteSkipsAByte(fs, "a", [1, 2], 2, 0);
    assert FirstBytes(2, 2, 4) == 1;
    var v: seq<Byte> := [1, 2];
    assert v[..1] == [1] && v[1..] == [2];
    SplitBytes();
  }

  lemma FlatBlanks()
    ensures Flat(ZeroBlocks(4, 2)) == [0, 0, 0, 0, 0, 0, 0, 0]
  {
    var one: seq<seq<Byte>> := [Zeros(4)];
    assert one[..0] == [];
    assert ZeroBlocks(4, 2)[..1] == one;
  }

  lemma SplitBytes()
    ensures var d: seq<Byte> := [0, 0, 0, 0, 0, 0, 0, 0];
      && Put(Put(d, 2, [1]), 4, [2]) == [0, 0, 1, 0, 2, 0, 0, 0] && Put(d, 2, [1, 2]) == [0, 0, 1, 2, 0, 0, 0, 0]
  {
  }

  lemma FitsFlat(size: int, k: int, bs: int)
    requires 0 <= k < size && bs >= 0
    ensures 0 <= k * bs && k * bs + bs <= size * bs
  {
    var r := size - k - 1;
    assert size == k + 1 + r;
    assert (k + 1 + r) * bs == k * bs + bs + r * bs;
    assert r * bs >= 0 && k * bs >= 0;
  }
}
