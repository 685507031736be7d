/** The case the check of truncate rules out: a pointer block with nothing behind it, and what it does to
    the owner of block 0. */
module FileTrap {
  import opened Sums
  import opened Wire
  import opened Disk
  import opened FileSystem
  import opened Files
  import opened Truncate
  import opened FileIo
  import opened FileRuns

  /** The file has a pointer block and no pointer in it. */
  predicate Trapped(fs: Fs, n: int) {
    0 <= n < |fs.files| && fs.files[n].dir != NONE && fs.files[n].ind != NONE && fs.files[n].cant == 0
  }

  /** The last free block becomes a pointer block with nothing behind it. The request reports success
      and the size is recorded, yet the file is a block short. */
  lemma PointerBlockTrap(fs: Fs, name: string, size: int, n: int)
    requires FsInv(fs) && IsSize(size) && IndexOf(fs, name) == Some(n) && Exact(fs.files[n], fs.bs)
    requires NumData(fs.files[n]) == 1 && FreeCount(fs.bits) == 1 && Ceil(size, fs.bs) == 2
    ensures var (fs', answer) := Truncar(fs, name, size);
      && answer == 1 && |fs'.files| == |fs.files| && fs'.files[n].tamanio == size && NumData(fs'.files[n]) == 1 && !FsInv(fs')
      && Core(fs') && Trapped(fs', n) && fs'.bs == fs.bs && |fs'.bits| == |fs.bits| && Elsewhere(fs, fs', n)
      && fs'.files[n].nombre == fs.files[n].nombre && Content(fs', n) == Content(fs, n)
  {
    CoreFile(fs, n);
    var i: int := TakenForPointers(fs, n);
    hide Core, Content, TakeData, TakeDir, TruncateSafe, Ocupar;
    CannotTakeBreaks(fs, n);
    var fs1 := TakeInd(fs, n, i);
    assert Grow(fs, n, 1) == (fs1, 1);
    assert Truncar(fs, name, size) == (SetSize(fs1, n, size), 1);
    SetSizeKeeps(fs1, n, size);
    ElsewhereTwice(fs, fs1, SetSize(fs1, n, size), n);
    assert Broken(SetSize(fs1, n, size), n);
    BrokenIsNotSettled(SetSize(fs1, n, size), n);
  }

  lemma TakenForPointers(fs: Fs, n: int) returns (i: nat)
    requires AllSettled(fs) && 0 <= n < |fs.files| && FreeCount(fs.bits) == 1 && NumData(fs.files[n]) == 1
    ensures DeviceOk(fs) && i < |fs.bits| && Ocupar(fs, n) == (TakeInd(fs, n, i), i)
    ensures Core(TakeInd(fs, n, i)) && Elsewhere(fs, TakeInd(fs, n, i), n) && Content(TakeInd(fs, n, i), n) == Content(fs, n)
    ensures fs.files[n].dir != NONE && fs.files[n].ind == NONE && fs.files[n].cant == 0 && !CanTake(fs, n)
    ensures FreeCount(TakeInd(fs, n, i).bits) == 0 && TakeInd(fs, n, i).files[n].ind != NONE
  {
    CoreFile(fs, n);
    FreeCountZero(fs.bits);
    i := FirstFree(fs.bits).value;
    hide Core, Content, TakeData, TakeDir;
    TakeIndContent(fs, n, i);
    FreeCountZero(TakeInd(fs, n, i).bits);
  }

  // ----- a write to the missing block -----

  /** The pointer of the missing block reads as zero. */
  lemma MissingPointer(fs: Fs, n: int)
    requires Core(fs) && Trapped(fs, n)
    ensures DeviceOk(fs) && PointerOf(fs, fs.files[n], 1) == 0
  {
    CoreFile(fs, n);
    var j := IndBlock(fs, n);
    var f := fs.files[n];
    SlotIsZero(fs, f, j);
    assert Get(fs.data, f.ind, INT_SIZE) == Zeros(INT_SIZE);
    assert DecInt(Zeros(INT_SIZE)) == 0;
  }

  /** So a write to the missing block is a write to the block of the device that comes first, whoever owns
      it: to block `j` of file `m`, when that is where it is. No file else changes, the request is answered
      1, and a read of the missing block returns what was written. */
  lemma WritesToBlockZero(fs: Fs, name: string, n: int, v: seq<Byte>, puntero: int, m: int, j: nat)
    requires Core(fs) && Trapped(fs, n) && IndexOf(fs, name) == Some(n) && DeviceOk(fs)
    requires fs.bs <= puntero && puntero - fs.bs + |v| < fs.bs
    requires Owns(fs, m, RoleOf(j), 0) && j < NumData(fs.files[m])
    ensures var fs' := Escribir(fs, name, v, puntero).0;
      && Escribir(fs, name, v, puntero).1 == 1 && Core(fs') && fs' == fs.(data := fs'.data)
      && j < |Content(fs, m)| && Content(fs', m) == Content(fs, m)[j := Put(Content(fs, m)[j], puntero - fs.bs, v)]
      && Elsewhere(fs, fs', m)
      && Leer(fs', name, |v|, puntero) == Some(v)
  {
    hide Core, Content, Put, Get;
    MissingPointer(fs, n);
    QuotientIs(puntero, fs.bs, 1, puntero - fs.bs);
    OwnerOfZero(fs, m, j);
    WriteBlockEffect(fs, m, j, puntero - fs.bs, v);
    var fs' := WriteBlock(fs, m, j, puntero - fs.bs, v);
    assert Escribir(fs, name, v, puntero) == (fs', 1);
    MissingPointer(fs', n);
    SameNames(fs, fs', name);
    OnDevice(fs);
    GetPut(fs.data, puntero - fs.bs, v);
  }

  lemma OwnerOfZero(fs: Fs, m: int, j: nat)
    requires Core(fs) && Owns(fs, m, RoleOf(j), 0) && j < NumData(fs.files[m])
    ensures 0 <= m < |fs.files| && PointerOf(fs, fs.files[m], j) == 0
  {
  }

  lemma OnDevice(fs: Fs)
    requires DeviceOk(fs) && |fs.bits| > 0
    ensures fs.bs <= |fs.data|
  {
    BitInDevice(fs, 0);
  }

  // ----- a run that gets there -----

  lemma {:induction false} GrowKeepsDir(fs: Fs, n: int, k: int)
    requires 0 <= n < |fs.files| && DeviceOk(fs) && fs.files[n].dir != NONE
    ensures Grow(fs, n, k).0.files[n].dir == fs.files[n].dir
    decreases k
  {
    if k > 0 {
      OcuparKeepsDir(fs, n);
      hide Ocupar;
      if Ocupar(fs, n).1 != -1 { GrowKeepsDir(Ocupar(fs, n).0, n, k - 1); }
    }
  }

  lemma OcuparKeepsDir(fs: Fs, n: int)
    requires 0 <= n < |fs.files| && DeviceOk(fs) && fs.files[n].dir != NONE
    ensures Ocupar(fs, n).0.files[n].dir == fs.files[n].dir
    decreases if fs.files[n].ind == NONE then 1 else 0
  {
    match FirstFree(fs.bits)
    case None =>
    case Some(i) =>
      BitInDevice(fs, i);
      if fs.files[n].ind == NONE { OcuparKeepsDir(TakeInd(fs, n, i), n); }
  }

  lemma NewFileIs(bs: nat, blocks: nat, name: string) returns (fs1: Fs)
    requires INT_SIZE <= bs && Addr(blocks, bs) <= MAX_INT && blocks >= 8
    ensures fs1 == Open(Fresh(bs, blocks), name) && DeviceOk(fs1) && fs1.bs == bs && |fs1.bits| > 0
    ensures fs1.files == [Fcb(name, 0, NONE, NONE, 0)] && IndexOf(fs1, name) == Some(0) && FirstFree(fs1.bits) == Some(0)
  {
    FreshIsOk(bs, blocks);
    fs1 := Open(Fresh(bs, blocks), name);
    assert fs1.files[0] == Fcb(name, 0, NONE, NONE, 0) && !fs1.bits[0];
  }

  /** The first file of a new device begins in block 0. */
  lemma FirstFileAtZero(bs: nat, blocks: nat, name: string, size: int)
    requires INT_SIZE <= bs && Addr(blocks, bs) <= MAX_INT && blocks >= 8 && IsSize(size) && size > 0
    ensures var fs1 := Open(Fresh(bs, blocks), name);
      && DeviceOk(fs1) && |Truncar(fs1, name, size).0.files| == 1
      && (Truncar(fs1, name, size).1 == 1 ==> Truncar(fs1, name, size).0.files[0].dir == 0)
  {
    var fs1 := NewFileIs(bs, blocks, name);
    hide Open, Fresh, IndexOf, FirstFree;
    QuotientIs(bs - 1, bs, 0, bs - 1);
    CeilMeaning(size, bs);
    BitInDevice(fs1, 0);
    var fs2 := TakeDir(fs1, 0, 0);
    assert Ocupar(fs1, 0) == (fs2, 0);
    hide Ocupar, Ceil;
    GrowKeepsDir(fs2, 0, Ceil(size, bs) - 1);
  }

  /** A run from a new device of eight blocks that ends one request before the trap: file "b" has left two
      blocks free, file "a" has taken one of them and is about to need its second block. */
  lemma TrapIsReached() returns (ops: seq<FsOp>)
    ensures FsRun(Fresh(16, 8), ops)
    ensures var fs := FsFinal(Fresh(16, 8), ops);
      && FsInv(fs) && fs.bs == 16 && |fs.files| == 2 && IndexOf(fs, "a") == Some(1) && !Allowed(fs, OpTruncate("a", 17))
      && fs.files[0].nombre == "b" && fs.files[0].dir == 0 && Content(fs, 0) == ZeroBlocks(16, 5) && NumData(fs.files[0]) == 5
      && Exact(fs.files[1], 16) && NumData(fs.files[1]) == 1 && FreeCount(fs.bits) == 1 && |fs.bits| == 8
  {
    hide Content, Truncar, Grow, Shrink, AllSettled, TruncateSafe, FreeCount, Get;
    var fs0 := Fresh(16, 8);
    FreshIsOk(16, 8);
    AllFree(8);
    var n := GrowNew(fs0, "b", 80);
    FirstFileAtZero(16, 8, "b", 80);
    var fs1 := Open(fs0, "b");
    var fs2 := Truncar(fs1, "b", 80).0;
    assert fs2.files[0].nombre == "b";
    n := GrowNew(fs2, "a", 1);
    var fs3 := Open(fs2, "a");
    var fs4 := Truncar(fs3, "a", 1).0;
    assert fs4.files[..1] == fs2.files && fs4.files[0] == fs2.files[0];
    NextIsTrapped(fs4);
    hide FsInv, Open;
    ServeThen(fs3, OpTruncate("a", 1), []);
    ServeThen(fs2, OpOpen("a"), [OpTruncate("a", 1)] + []);
    ServeThen(fs1, OpTruncate("b", 80), [OpOpen("a")] + ([OpTruncate("a", 1)] + []));
    ServeThen(fs0, OpOpen("b"), [OpTruncate("b", 80)] + ([OpOpen("a")] + ([OpTruncate("a", 1)] + [])));
    ops := [OpOpen("b")] + ([OpTruncate("b", 80)] + ([OpOpen("a")] + ([OpTruncate("a", 1)] + [])));
  }

  lemma NextIsTrapped(fs: Fs)
    requires FsInv(fs) && fs.bs == 16 && |fs.files| == 2 && fs.files[0].nombre == "b" && fs.files[1].nombre == "a"
    requires fs.files[1].tamanio == 1 && NumData(fs.files[1]) == 1 && FreeCount(fs.bits) == 1
    ensures IndexOf(fs, "a") == Some(1) && Exact(fs.files[1], 16) && !Allowed(fs, OpTruncate("a", 17))
  {
    assert IndexOf(fs, "a") == Some(1);
    hide AllSettled, Content, Grow, Shrink, FreeCount;
    PointerBlockTrap(fs, "a", 17, 1);
    TruncateKeepsInvIff(fs, "a", 17);
  }

  /** From there: file "a" is truncated to 17 bytes, and the byte written at its place 16 is found at place 0
      of file "b", which was blank. */
  lemma TrapHitsAnotherFile() returns (ops: seq<FsOp>)
    ensures FsRun(Fresh(16, 8), ops)
    ensures var fs := FsFinal(Fresh(16, 8), ops);
      && FsInv(fs) && |fs.files| == 2 && fs.files[0].nombre == "b" && Content(fs, 0) == ZeroBlocks(16, 5)
      && Truncar(fs, "a", 17).1 == 1 && DeviceOk(Truncar(fs, "a", 17).0)
      && var fs' := Escribir(Truncar(fs, "a", 17).0, "a", [7], 16).0;
         |fs'.files| == 2 && Content(fs', 0) == ZeroBlocks(16, 5)[0 := Put(Zeros(16), 0, [7])] && Content(fs', 0) != Content(fs, 0)
  {
    ops := TrapIsReached();
    hide FsRun, FsFinal, Fresh;
    HitsB(FsFinal(Fresh(16, 8), ops));
  }

  lemma HitsB(fs: Fs)
    requires FsInv(fs) && fs.bs == 16 && |fs.files| == 2 && IndexOf(fs, "a") == Some(1) && |fs.bits| == 8
    requires fs.files[0].nombre == "b" && fs.files[0].dir == 0 && Content(fs, 0) == ZeroBlocks(16, 5) && NumData(fs.files[0]) == 5
    requires Exact(fs.files[1], 16) && NumData(fs.files[1]) == 1 && FreeCount(fs.bits) == 1
    ensures Truncar(fs, "a", 17).1 == 1 && DeviceOk(Truncar(fs, "a", 17).0)
    ensures var fs' := Escribir(Truncar(fs, "a", 17).0, "a", [7], 16).0;
      |fs'.files| == 2 && Content(fs', 0) == ZeroBlocks(16, 5)[0 := Put(Zeros(16), 0, [7])] && Content(fs', 0) != Content(fs, 0)
  {
    hide AllSettled, Core, Content, Truncar, Escribir, Grow, Shrink, FreeCount, Trapped;
    PointerBlockTrap(fs, "a", 17, 1);
    var fs1 := Truncar(fs, "a", 17).0;
    CoreFile(fs1, 0);
    assert Owns(fs1, 0, RoleOf(0), 0);
    SameIndex(fs, fs1, "a", 1);
    WritesToBlockZero(fs1, "a", 1, [7], 16, 0, 0);
    assert Put(Zeros(16), 0, [7])[0] == 7 && Zeros(16)[0] == 0;
  }
}
