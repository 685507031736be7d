/** Whole runs of the file system, from a fresh device. */
module FileRuns {
  import opened Sums
  import opened Wire
  import opened Disk
  import opened FileSystem
  import opened Files
  import opened Truncate
  import opened FileIo

  datatype FsOp =
    | OpOpen(name: string)
    | OpTruncate(name: string, size: int)
    | OpWrite(name: string, v: seq<Byte>, puntero: int)

  /** What the file system needs of a request. */
  predicate Allowed(fs: Fs, op: FsOp) {
    DeviceOk(fs) &&
    match op
    case OpOpen(_) => true
    case OpTruncate(name, size) => IsSize(size) && TruncateSafe(fs, name, size)
    case OpWrite(name, v, puntero) =>
      puntero >= 0 && (IndexOf(fs, name).Some? ==> InRange(fs, IndexOf(fs, name).value, |v|, puntero))
  }

  function Serve(fs: Fs, op: FsOp): Fs
    requires Allowed(fs, op)
  {
    match op
    case OpOpen(name) => Open(fs, name)
    case OpTruncate(name, size) => Truncar(fs, name, size).0
    case OpWrite(name, v, puntero) => Escribir(fs, name, v, puntero).0
  }

  predicate FsRun(fs: Fs, ops: seq<FsOp>)
    decreases |ops|
  {
    ops == [] || (Allowed(fs, ops[0]) && FsRun(Serve(fs, ops[0]), ops[1..]))
  }

  function FsFinal(fs: Fs, ops: seq<FsOp>): Fs
    requires FsRun(fs, ops)
    decreases |ops|
  {
    if ops == [] then fs else FsFinal(Serve(fs, ops[0]), ops[1..])
  }

  /** Bits the bitmap file holds: whole bytes, so a remainder of blocks is never used. */
  function BitmapBits(blockCount: nat): nat { 8 * (blockCount / 8) }

  /** A device that was just created: all zero, nothing allocated, no file. */
  function Fresh(blockSize: nat, blockCount: nat): Fs {
    Fs(blockSize, seq(BitmapBits(blockCount), _ => false), Zeros(Addr(blockCount, blockSize)), [])
  }

  lemma FreshIsOk(blockSize: nat, blockCount: nat)
    requires INT_SIZE <= blockSize && Addr(blockCount, blockSize) <= MAX_INT
    ensures FsInv(Fresh(blockSize, blockCount))
  {
    var fs := Fresh(blockSize, blockCount);
    var bits := BitmapBits(blockCount);
    assert bits <= blockCount;
    if bits < blockCount { BlocksApart(bits, blockCount, blockSize); }
    assert Addr(blockCount, blockSize) >= 0;
    forall b | 0 <= b < |fs.bits| ensures Blank(Block(fs.data, fs.bs, b)) {
      BitInDevice(fs, b);
      BlockByte(fs.data, fs.bs, b);
    }
  }

  lemma ServeKeepsInv(fs: Fs, op: FsOp)
    requires FsInv(fs) && Allowed(fs, op)
    ensures FsInv(Serve(fs, op))
  {
    hide FsInv, Open, Truncar, TruncateSafe;
    match op
    case OpOpen(name) => OpenKeepsInv(fs, name);
    case OpTruncate(name, size) => TruncateKeepsInvIff(fs, name, size);
    case OpWrite(name, v, puntero) =>
      if IndexOf(fs, name).Some? { WriteEffect(fs, name, v, puntero, IndexOf(fs, name).value); }
  }

  lemma {:induction false} FsRunKeepsInv(fs: Fs, ops: seq<FsOp>)
    requires FsInv(fs) && FsRun(fs, ops)
    ensures FsInv(FsFinal(fs, ops))
    decreases |ops|
  {
    if ops != [] {
      ServeKeepsInv(fs, ops[0]);
      FsRunKeepsInv(Serve(fs, ops[0]), ops[1..]);
    }
  }

  /** From a fresh device, after any interleaving of opens, truncates that pass the check or run out
      of space, and writes: a bit is set iff its block belongs to one file in one role, and every
      free block is all zero. */
  lemma EveryRunOwnsItsBlocks(blockSize: nat, blockCount: nat, ops: seq<FsOp>, b: int)
    requires INT_SIZE <= blockSize && Addr(blockCount, blockSize) <= MAX_INT && FsRun(Fresh(blockSize, blockCount), ops)
    requires 0 <= b < |FsFinal(Fresh(blockSize, blockCount), ops).bits|
    ensures var fs := FsFinal(Fresh(blockSize, blockCount), ops);
      && (fs.bits[b] <==> exists n, r :: Owns(fs, n, r, b))
      && (forall n, r, m, s :: Owns(fs, n, r, b) && Owns(fs, m, s, b) ==> n == m && r == s)
      && (!fs.bits[b] ==> Blank(Block(fs.data, fs.bs, b)))
  {
    FreshIsOk(blockSize, blockCount);
    FsRunKeepsInv(Fresh(blockSize, blockCount), ops);
    hide FsRun, FsFinal, Fresh;
    var fs := FsFinal(Fresh(blockSize, blockCount), ops);
    BitOfOwned(fs, b);
    forall n, r, m, s | Owns(fs, n, r, b) && Owns(fs, m, s, b) ensures n == m && r == s {
      UniqueOwner(fs, n, r, m, s, b);
    }
  }

  // ----- names -----

  /** A request keeps every name where it is, and never gives a second file the same one. */
  lemma ServeKeepsNames(fs: Fs, op: FsOp)
    requires Allowed(fs, op)
    ensures var fs' := Serve(fs, op);
      && |fs.files| <= |fs'.files| && (forall i :: 0 <= i < |fs.files| ==> fs'.files[i].nombre == fs.files[i].nombre)
      && (NamesOnce(fs) ==> NamesOnce(fs'))
  {
    hide Truncar, Escribir, Open, TruncateSafe, InRange;
    match op
    case OpOpen(name) => OpenEffect(fs, name);
    case OpTruncate(name, size) => TruncateAnswers(fs, name, size);
    case OpWrite(name, v, puntero) => MissingFile(fs, name, v, 0, puntero);
  }

  lemma {:induction false} FsRunKeepsNames(fs: Fs, ops: seq<FsOp>)
    requires FsRun(fs, ops) && NamesOnce(fs)
    ensures NamesOnce(FsFinal(fs, ops))
    decreases |ops|
  {
    hide Allowed, Serve, NamesOnce;
    if ops != [] {
      ServeKeepsNames(fs, ops[0]);
      FsRunKeepsNames(Serve(fs, ops[0]), ops[1..]);
    }
  }

  /** From a new device, after any run, a name belongs to one file. */
  lemma EveryRunNamesOnce(blockSize: nat, blockCount: nat, ops: seq<FsOp>)
    requires FsRun(Fresh(blockSize, blockCount), ops)
    ensures var fs := FsFinal(Fresh(blockSize, blockCount), ops);
      forall i, j :: 0 <= i < |fs.files| && 0 <= j < |fs.files| && fs.files[i].nombre == fs.files[j].nombre ==> i == j
  {
    FsRunKeepsNames(Fresh(blockSize, blockCount), ops);
  }

  // ----- runs that never run out of space -----

  /** No truncate of the run is answered -1. */
  predicate NoneRefused(fs: Fs, ops: seq<FsOp>)
    requires FsRun(fs, ops)
    decreases |ops|
  {
    ops == [] ||
    (&& (ops[0].OpTruncate? ==> Truncar(fs, ops[0].name, ops[0].size).1 != -1)
     && NoneRefused(Serve(fs, ops[0]), ops[1..]))
  }

  /** Every file has exactly the blocks its size accounts for. */
  ghost predicate ExactInv(fs: Fs) {
    FsInv(fs) && forall n :: 0 <= n < |fs.files| ==> Exact(fs.files[n], fs.bs)
  }

  lemma ExactElsewhere(fs: Fs, fs': Fs, n: int)
    requires ExactInv(fs) && FsInv(fs') && fs'.bs == fs.bs && 0 <= n < |fs.files| && Elsewhere(fs, fs', n)
    requires Exact(fs'.files[n], fs.bs)
    ensures ExactInv(fs')
  {
    hide FsInv, Exact, Content;
  }

  lemma ServeKeepsExact(fs: Fs, op: FsOp)
    requires ExactInv(fs) && Allowed(fs, op)
    requires op.OpTruncate? ==> Truncar(fs, op.name, op.size).1 != -1
    ensures ExactInv(Serve(fs, op))
  {
    ServeKeepsInv(fs, op);
    hide AllSettled, Backed, GrowSafe, Content, Exact, Grow, Shrink;
    match op
    case OpOpen(name) =>
      OpenKeepsInv(fs, name);
      assert Exact(Fcb(name, 0, NONE, NONE, 0), fs.bs) by { QuotientIs(fs.bs - 1, fs.bs, 0, fs.bs - 1); }
    case OpTruncate(name, size) =>
      if IndexOf(fs, name).Some? {
        var n := IndexOf(fs, name).value;
        hide Truncar, TruncateSafe;
        TruncateIsExact(fs, name, size, n);
        ExactElsewhere(fs, Truncar(fs, name, size).0, n);
      }
    case OpWrite(name, v, puntero) =>
      if IndexOf(fs, name).Some? {
        hide Escribir;
        WriteEffect(fs, name, v, puntero, IndexOf(fs, name).value);
      }
  }

  lemma {:induction false} RunKeepsExact(fs: Fs, ops: seq<FsOp>)
    requires ExactInv(fs) && FsRun(fs, ops) && NoneRefused(fs, ops)
    ensures ExactInv(FsFinal(fs, ops))
    decreases |ops|
  {
    hide ExactInv, Allowed, Serve;
    if ops != [] {
      ServeKeepsExact(fs, ops[0]);
      RunKeepsExact(Serve(fs, ops[0]), ops[1..]);
    }
  }

  /** From a fresh device, after any run in which no truncate runs out of space: every file has exactly
      as many data blocks as its size needs, and a pointer block exactly when that is at least two. */
  lemma EveryRunIsExact(blockSize: nat, blockCount: nat, ops: seq<FsOp>, n: int)
    requires INT_SIZE <= blockSize && Addr(blockCount, blockSize) <= MAX_INT && FsRun(Fresh(blockSize, blockCount), ops)
    requires NoneRefused(Fresh(blockSize, blockCount), ops)
    requires 0 <= n < |FsFinal(Fresh(blockSize, blockCount), ops).files|
    ensures FsFinal(Fresh(blockSize, blockCount), ops).bs > 0
    ensures var fs := FsFinal(Fresh(blockSize, blockCount), ops);
      var need := Ceil(fs.files[n].tamanio, fs.bs);
      && |Content(fs, n)| == NumData(fs.files[n]) == need
      && (fs.files[n].dir != NONE <==> need >= 1) && (fs.files[n].ind != NONE <==> need >= 2)
  {
    FreshIsOk(blockSize, blockCount);
    RunKeepsExact(Fresh(blockSize, blockCount), ops);
    hide FsRun, FsFinal, Fresh, Content, Core;
    var fs := FsFinal(Fresh(blockSize, blockCount), ops);
    CoreFile(fs, n);
    ContentSize(fs, n);
  }

  // ----- runs by hand -----

  lemma {:induction false} AllFree(n: nat)
    ensures FreeCount(seq(n, _ => false)) == n
  {
    if n > 0 {
      assert seq(n, _ => false)[..n - 1] == seq(n - 1, _ => false);
      AllFree(n - 1);
    }
  }

  lemma ServeThen(fs: Fs, op: FsOp, ops: seq<FsOp>)
    requires Allowed(fs, op) && FsRun(Serve(fs, op), ops)
    ensures FsRun(fs, [op] + ops) && FsFinal(fs, [op] + ops) == FsFinal(Serve(fs, op), ops)
  {
    assert ([op] + ops)[1..] == ops;
  }

  /** A new file grown from nothing. */
  lemma GrowNew(fs: Fs, name: string, size: int) returns (n: nat)
    requires FsInv(fs) && IndexOf(fs, name) == None && IsSize(size) && size > 0
    requires var k := Ceil(size, fs.bs);
      (k >= 2 ==> FreeCount(fs.bits) > k && INT_SIZE * (k - 1) <= fs.bs) && FreeCount(fs.bits) >= k
    ensures n == |fs.files| && Allowed(fs, OpOpen(name)) && Allowed(Open(fs, name), OpTruncate(name, size))
    ensures Truncar(Open(fs, name), name, size).1 == 1
    ensures var fs' := Truncar(Open(fs, name), name, size).0;
      && |fs'.bits| == |fs.bits| && |fs'.files| == n + 1 && (forall m :: 0 <= m < n ==> Content(fs', m) == Content(fs, m))
      && FsInv(fs') && fs'.bs == fs.bs && |fs'.files| == n + 1 && fs'.files[..n] == fs.files
      && fs'.files[n].nombre == name && fs'.files[n].tamanio == size && NumData(fs'.files[n]) == Ceil(size, fs.bs)
      && Content(fs', n) == ZeroBlocks(fs.bs, Ceil(size, fs.bs))
      && FreeCount(fs.bits) == FreeCount(fs'.bits) + Ceil(size, fs.bs) + if Ceil(size, fs.bs) >= 2 then 1 else 0
  {
    hide Core, Content, Truncar, Grow, Shrink;
    OpenKeepsInv(fs, name);
    n := |fs.files|;
    var fs1 := Open(fs, name);
    assert fs1.files[n] == Fcb(name, 0, NONE, NONE, 0);
    QuotientIs(fs.bs - 1, fs.bs, 0, fs.bs - 1);
    CeilMeaning(size, fs.bs);
    assert IndexOf(fs1, name) == Some(n);
    assert TruncateSafe(fs1, name, size);
    ContentSize(fs1, n);
    var j := TruncateEffect(fs1, name, size, n);
    assert Content(fs1, n) == [];
    assert forall m :: 0 <= m < n ==> fs1.files[m] == fs.files[m];
  }
}
