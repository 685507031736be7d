/** Growing, shrinking and truncating files. */
module Files {
  import opened Sums
  import opened Wire
  import opened Disk
  import opened FileSystem

  const UINT32 := 0x1_0000_0000

  predicate Settled(f: Fcb) { f.ind != NONE ==> f.cant > 0 }

  /** Data blocks of a file: the direct one and those the pointer block names. */
  function NumData(f: Fcb): int { (if f.dir != NONE then 1 else 0) + f.cant }

  /** `block_pointer_from_number` for a block the file has. */
  function PointerOf(fs: Fs, f: Fcb, j: nat): int {
    if j == 0 then f.dir else Ptr(fs, f, Data(j - 1))
  }

  /** The bytes of a file, block by block. */
  function Content(fs: Fs, n: int): (c: seq<seq<Byte>>)
    requires 0 <= n < |fs.files|
  {
    var f := fs.files[n];
    seq(if NumData(f) < 0 then 0 else NumData(f), j requires j >= 0 => Get(fs.data, PointerOf(fs, f, j), fs.bs))
  }

  ghost predicate AllSettled(fs: Fs) {
    Core(fs) && forall n :: 0 <= n < |fs.files| ==> Settled(fs.files[n])
  }

  // ----- one block more, one block less -----

  /** The device and the bitmap keep their size, and no control block but that of file `n` changes. */
  predicate SameDevice(fs: Fs, fs': Fs, n: int) {
    && fs'.bs == fs.bs && |fs'.bits| == |fs.bits| && |fs'.data| == |fs.data| && |fs'.files| == |fs.files|
    && (forall m :: 0 <= m < |fs.files| && m != n ==> fs'.files[m] == fs.files[m])
  }

  /** `ocuparBloqueLibre`: the block taken first, or -1. A pointer block is followed by a second
      call for its first data block, whose outcome is ignored. */
  function Ocupar(fs: Fs, n: int): (r: (Fs, int))
    requires 0 <= n < |fs.files| && DeviceOk(fs)
    ensures DeviceOk(r.0) && SameDevice(fs, r.0, n)
    decreases if fs.files[n].dir != NONE && fs.files[n].ind == NONE then 1 else 0
  {
    match FirstFree(fs.bits)
    case None => (fs, -1)
    case Some(free) =>
      var i: int := free;
      BitInDevice(fs, i);
      if fs.files[n].dir == NONE then (TakeDir(fs, n, i), i)
      else if fs.files[n].ind == NONE then (Ocupar(TakeInd(fs, n, i), n).0, i)
      else (TakeData(fs, n, i), i)
  }

  /** The last data block goes back, and with the last pointer the pointer block. */
  function Given(fs: Fs, n: int): Fs
    requires 0 <= n < |fs.files| && fs.bs > 0
  {
    var f := fs.files[n];
    if f.ind != NONE then
      if f.cant == 1 then GiveInd(GiveData(fs, n), n) else GiveData(fs, n)
    else GiveDir(fs, n)
  }

  /** The size field, which plays no part in who owns what. */
  function SetSize(fs: Fs, n: int, size: int): Fs
    requires 0 <= n < |fs.files|
  {
    fs.(files := fs.files[n := fs.files[n].(tamanio := size)])
  }

  /** `liberarUltimoBloqueFCB`. The size field is unsigned and wraps. */
  function Liberar(fs: Fs, n: int): (r: Fs)
    requires 0 <= n < |fs.files| && DeviceOk(fs)
    ensures DeviceOk(r) && SameDevice(fs, r, n)
  {
    SetSize(Given(fs, n), n, (fs.files[n].tamanio - fs.bs) % UINT32)
  }

  /** The role of data block `j`. */
  function RoleOf(j: nat): Role { if j == 0 then Dir else Data(j - 1) }

  lemma PointerOwned(fs: Fs, n: int, j: nat) returns (b: int)
    requires Core(fs) && 0 <= n < |fs.files| && j < NumData(fs.files[n])
    ensures Owns(fs, n, RoleOf(j), b) && PointerOf(fs, fs.files[n], j) == Addr(b, fs.bs) && InDevice(fs.data, fs.bs, b)
    ensures Content(fs, n)[j] == Block(fs.data, fs.bs, b) && fs.bits[b]
  {
    assert Has(fs.files[n], RoleOf(j));
    b :| Owns(fs, n, RoleOf(j), b);
    BitInDevice(fs, b);
    assert Owned(fs, b);
  }

  /** A file whose data blocks and pointers did not change keeps its content. */
  lemma SameContent(fs: Fs, fs': Fs, n: int, m: nat)
    requires Core(fs) && 0 <= n < |fs.files| == |fs'.files| && fs'.bs == fs.bs && m <= NumData(fs.files[n])
    requires m <= NumData(fs'.files[n])
    requires forall j :: 0 <= j < m ==> PointerOf(fs', fs'.files[n], j) == PointerOf(fs, fs.files[n], j)
    requires forall j, b {:trigger Block(fs'.data, fs.bs, b), RoleOf(j)} :: 0 <= j < m && Owns(fs, n, RoleOf(j), b) ==>
      Block(fs'.data, fs.bs, b) == Block(fs.data, fs.bs, b)
    ensures m <= |Content(fs, n)| && m <= |Content(fs', n)| && Content(fs', n)[..m] == Content(fs, n)[..m]
  {
    forall j | 0 <= j < m ensures Content(fs', n)[j] == Content(fs, n)[j] {
      var b := PointerOwned(fs, n, j);
      assert Block(fs'.data, fs.bs, b) == Block(fs.data, fs.bs, b);
    }
  }

  /** `fs'` is `fs` with one blank data block added at the end of file `n`, which took `cost` blocks. */
  ghost predicate Grown(fs: Fs, fs': Fs, n: int, cost: int) {
    && 0 <= n < |fs.files| == |fs'.files| && fs'.bs == fs.bs
    && Core(fs') && Settled(fs'.files[n])
    && fs'.files[n].nombre == fs.files[n].nombre && fs'.files[n].tamanio == fs.files[n].tamanio
    && fs'.files[n].dir != NONE && (fs.files[n].dir != NONE ==> fs'.files[n].ind != NONE)
    && NumData(fs'.files[n]) == NumData(fs.files[n]) + 1
    && Content(fs', n) == Content(fs, n) + [Zeros(fs.bs)]
    && Elsewhere(fs, fs', n)
    && |fs'.bits| == |fs.bits| && FreeCount(fs.bits) == FreeCount(fs'.bits) + cost
  }

  /** Every other file keeps its control block and its content. */
  ghost predicate Elsewhere(fs: Fs, fs': Fs, n: int) {
    && |fs.files| == |fs'.files|
    && forall m :: 0 <= m < |fs.files| && m != n ==> fs'.files[m] == fs.files[m] && Content(fs', m) == Content(fs, m)
  }

  lemma BlankIsZeros(s: seq<Byte>)
    requires Blank(s)
    ensures s == Zeros(|s|)
  {
  }

  lemma ContentSize(fs: Fs, n: int)
    requires Core(fs) && 0 <= n < |fs.files|
    ensures |Content(fs, n)| == NumData(fs.files[n]) >= 0
  {
    CoreFile(fs, n);
  }

  /** Blocks that a step leaves alone: other files see nothing of it. */
  lemma OthersKeepContent(fs: Fs, fs': Fs, n: int)
    requires Core(fs) && 0 <= n < |fs.files| == |fs'.files| && fs'.bs == fs.bs && |fs'.data| == |fs.data|
    requires forall m :: 0 <= m < |fs.files| && m != n ==> fs'.files[m] == fs.files[m]
    requires forall b {:trigger Block(fs'.data, fs.bs, b)} :: 0 <= b < |fs.bits| && (forall r :: !Owns(fs, n, r, b)) && fs.bits[b] ==>
      Block(fs'.data, fs.bs, b) == Block(fs.data, fs.bs, b)
    ensures Elsewhere(fs, fs', n)
  {
    hide Core, Block, Content, Get;
    forall m | 0 <= m < |fs.files| && m != n ensures Content(fs', m) == Content(fs, m) {
      OtherContent(fs, fs', n, m);
    }
  }

  lemma OtherContent(fs: Fs, fs': Fs, n: int, m: int)
    requires Core(fs) && 0 <= n < |fs.files| == |fs'.files| && fs'.bs == fs.bs && |fs'.data| == |fs.data|
    requires 0 <= m < |fs.files| && m != n && fs'.files[m] == fs.files[m]
    requires forall b {:trigger Block(fs'.data, fs.bs, b)} :: 0 <= b < |fs.bits| && (forall r :: !Owns(fs, n, r, b)) && fs.bits[b] ==>
      Block(fs'.data, fs.bs, b) == Block(fs.data, fs.bs, b)
    ensures Content(fs', m) == Content(fs, m)
  {
    hide Core, Block, Get;
    var f := fs.files[m];
    CoreFile(fs, m);
    OthersKeepPointers(fs, fs', n, m);
    forall j | 0 <= j < NumData(f) ensures PointerOf(fs', f, j) == PointerOf(fs, f, j) { assert Has(f, RoleOf(j)); }
    forall j, b | 0 <= j < NumData(f) && Owns(fs, m, RoleOf(j), b) ensures Block(fs'.data, fs.bs, b) == Block(fs.data, fs.bs, b) {
      assert Owned(fs, b);
      BitOfOwned(fs, b);
      forall r ensures !Owns(fs, n, r, b) { if Owns(fs, n, r, b) { UniqueOwner(fs, m, RoleOf(j), n, r, b); } }
    }
    SameContent(fs, fs', m, NumData(f));
    assert Content(fs, m)[..NumData(f)] == Content(fs, m) && Content(fs', m)[..NumData(f)] == Content(fs', m);
  }

  lemma GrowByDir(fs: Fs, n: int, i: int)
    requires Core(fs) && 0 <= n < |fs.files| && 0 <= i < |fs.bits| && !fs.bits[i] && fs.files[n].dir == NONE
    ensures Grown(fs, TakeDir(fs, n, i), n, 1)
  {
    hide Core, Get;
    TakeDirOk(fs, n, i);
    CoreFile(fs, n);
    var fs' := TakeDir(fs, n, i);
    OthersKeepContent(fs, fs', n);
    FreeCountSet(fs.bits, i);
    BitOfOwned(fs, i);
    BitInDevice(fs, i);
    BlockByte(fs.data, fs.bs, i);
    BlankIsZeros(Block(fs.data, fs.bs, i));
    assert Content(fs', n) == [Block(fs.data, fs.bs, i)];
  }

  lemma GrowByData(fs: Fs, n: int, i: int)
    requires Core(fs) && 0 <= n < |fs.files| && 0 <= i < |fs.bits| && !fs.bits[i]
    requires fs.files[n].dir != NONE && fs.files[n].ind != NONE && INT_SIZE * (fs.files[n].cant + 1) <= fs.bs
    ensures IsInt(Addr(i, fs.bs)) && Grown(fs, TakeData(fs, n, i), n, 1)
  {
    hide Core, Get, Put;
    CoreFile(fs, n);
    BitInDevice(fs, i);
    var j := IndBlock(fs, n);
    TakeDataOk(fs, n, i);
    TakeDataBlocks(fs, n, i, j);
    var f, fs' := fs.files[n], TakeData(fs, n, i);
    OthersKeepContent(fs, fs', n);
    FreeCountSet(fs.bits, i);
    BitOfOwned(fs, i);
    BlockByte(fs.data, fs.bs, i);
    BlankIsZeros(Block(fs.data, fs.bs, i));
    OwnContentKept(fs, fs', n, j, NumData(f));
    assert Content(fs', n)[NumData(f)] == Block(fs'.data, fs.bs, i);
    assert Content(fs, n)[..NumData(f)] == Content(fs, n);
  }

  /** Writes confined to a file's own pointer block keep its first data blocks, given its pointers. */
  lemma OwnContentKept(fs: Fs, fs': Fs, n: int, j: int, m: nat)
    requires Core(fs) && 0 <= n < |fs.files| == |fs'.files| && fs'.bs == fs.bs && Owns(fs, n, Ind, j)
    requires m <= NumData(fs.files[n]) && m <= NumData(fs'.files[n])
    requires forall r :: Has(fs.files[n], r) && Has(fs'.files[n], r) ==> Ptr(fs', fs'.files[n], r) == Ptr(fs, fs.files[n], r)
    requires fs.files[n].dir != NONE && fs'.files[n].dir == fs.files[n].dir
    requires forall b, r {:trigger Block(fs'.data, fs.bs, b), Has(fs'.files[n], r)} ::
      0 <= b < |fs.bits| && b != j && Owns(fs, n, r, b) && Has(fs'.files[n], r) ==> Block(fs'.data, fs.bs, b) == Block(fs.data, fs.bs, b)
    ensures m <= |Content(fs, n)| && m <= |Content(fs', n)| && Content(fs', n)[..m] == Content(fs, n)[..m]
  {
    hide Core, Get, Block;
    CoreFile(fs, n);
    forall k | 0 <= k < m ensures PointerOf(fs', fs'.files[n], k) == PointerOf(fs, fs.files[n], k) {
      assert Has(fs.files[n], RoleOf(k)) && Has(fs'.files[n], RoleOf(k));
    }
    forall k, b | 0 <= k < m && Owns(fs, n, RoleOf(k), b) ensures Block(fs'.data, fs.bs, b) == Block(fs.data, fs.bs, b) {
      if b == j { UniqueOwner(fs, n, Ind, n, RoleOf(k), b); }
      assert Has(fs'.files[n], RoleOf(k));
    }
    SameContent(fs, fs', n, m);
  }

  /** Taking a pointer block changes no content. */
  lemma TakeIndContent(fs: Fs, n: int, i: int)
    requires Core(fs) && 0 <= n < |fs.files| && 0 <= i < |fs.bits| && !fs.bits[i]
    requires fs.files[n].dir != NONE && fs.files[n].ind == NONE
    ensures Core(TakeInd(fs, n, i)) && Elsewhere(fs, TakeInd(fs, n, i), n)
    ensures Content(TakeInd(fs, n, i), n) == Content(fs, n) && TakeInd(fs, n, i).files[n].ind != NONE
    ensures FreeCount(fs.bits) == FreeCount(TakeInd(fs, n, i).bits) + 1
  {
    hide Core, Get;
    CoreFile(fs, n);
    TakeIndOk(fs, n, i);
    BitInDevice(fs, i);
    FreeCountSet(fs.bits, i);
    var fs' := TakeInd(fs, n, i);
    OthersKeepContent(fs, fs', n);
    assert fs'.data == fs.data && NumData(fs'.files[n]) == 1;
  }

  /** What `ocuparBloqueLibre` needs to do its job: with a pointer block to add, a second free block
      for the data; with a pointer block in place, room for one more pointer. */
  predicate CanTake(fs: Fs, n: int)
    requires 0 <= n < |fs.files|
  {
    var f := fs.files[n];
    && (f.dir != NONE && f.ind == NONE ==> FreeCount(fs.bits) != 1)
    && (f.ind != NONE && FreeCount(fs.bits) > 0 ==> INT_SIZE * (f.cant + 1) <= fs.bs)
  }

  /** Free blocks the next data block costs. */
  function Cost(f: Fcb): int { if f.dir != NONE && f.ind == NONE then 2 else 1 }

  lemma OcuparGrows(fs: Fs, n: int)
    requires Core(fs) && 0 <= n < |fs.files| && CanTake(fs, n)
    ensures FreeCount(fs.bits) == 0 ==> Ocupar(fs, n) == (fs, -1)
    ensures FreeCount(fs.bits) > 0 ==> Ocupar(fs, n).1 >= 0 && Grown(fs, Ocupar(fs, n).0, n, Cost(fs.files[n]))
  {
    hide Core, Content, Grown, TakeDir, TakeData;
    CoreFile(fs, n);
    FreeCountZero(fs.bits);
    match FirstFree(fs.bits)
    case None =>
    case Some(i) =>
      var f := fs.files[n];
      if f.dir == NONE {
        GrowByDir(fs, n, i);
      } else if f.ind != NONE {
        GrowByData(fs, n, i);
      } else {
        GrowByInd(fs, n, i);
      }
  }

  lemma GrowByInd(fs: Fs, n: int, i: int)
    requires Core(fs) && 0 <= n < |fs.files| && FirstFree(fs.bits) == Some(i)
    requires fs.files[n].dir != NONE && fs.files[n].ind == NONE && FreeCount(fs.bits) > 1
    ensures Grown(fs, Ocupar(fs, n).0, n, 2)
  {
    hide Core, Content, TakeData;
    CoreFile(fs, n);
    TakeIndContent(fs, n, i);
    var fs1 := TakeInd(fs, n, i);
    CoreFile(fs1, n);
    FreeCountZero(fs1.bits);
    var k := FirstFree(fs1.bits).value;
    GrowByData(fs1, n, k);
    assert Ocupar(fs, n).0 == TakeData(fs1, n, k);
  }

  // ----- which blocks are taken -----

  /** From `bits` to `bits'` bits were set only, and those lowest first. */
  ghost predicate LowestFirst(bits: seq<bool>, bits': seq<bool>) {
    && |bits'| == |bits| && (forall b :: 0 <= b < |bits| && bits[b] ==> bits'[b])
    && forall b, c {:trigger bits'[b], bits'[c]} :: 0 <= b < |bits| && 0 <= c < |bits| && !bits[b] && bits'[b] && !bits'[c] ==> b < c
  }

  lemma LowestTwice(b0: seq<bool>, b1: seq<bool>, b2: seq<bool>)
    requires LowestFirst(b0, b1) && LowestFirst(b1, b2)
    ensures LowestFirst(b0, b2)
  {
    forall b, c | 0 <= b < |b0| && 0 <= c < |b0| && !b0[b] && b2[b] && !b2[c] ensures b < c {
      assert !b1[c];
      if b1[b] {} else {}
    }
  }

  /** The block answered is the lowest free one; it becomes the direct block or the pointer block of a file
      that has none. */
  lemma OcuparTakesLowest(fs: Fs, n: int)
    requires 0 <= n < |fs.files| && DeviceOk(fs)
    ensures var (fs', i) := Ocupar(fs, n);
      && LowestFirst(fs.bits, fs'.bits)
      && (i == -1 <==> forall b :: 0 <= b < |fs.bits| ==> fs.bits[b])
      && (i != -1 ==>
            && 0 <= i < |fs.bits| && !fs.bits[i] && fs'.bits[i] && (forall b :: 0 <= b < i ==> fs.bits[b])
            && (fs.files[n].dir == NONE ==> fs'.files[n].dir == Addr(i, fs.bs))
            && (fs.files[n].dir != NONE && fs.files[n].ind == NONE ==> fs'.files[n].ind == Addr(i, fs.bs)))
    decreases if fs.files[n].dir != NONE && fs.files[n].ind == NONE then 1 else 0
  {
    match FirstFree(fs.bits)
    case None =>
    case Some(free) =>
      var i: int := free;
      BitInDevice(fs, i);
      if fs.files[n].dir != NONE && fs.files[n].ind == NONE {
        var fs1 := TakeInd(fs, n, i);
        OcuparTakesLowest(fs1, n);
        OcuparKeepsInd(fs1, n);
        LowestTwice(fs.bits, fs1.bits, Ocupar(fs1, n).0.bits);
      }
  }

  lemma OcuparKeepsInd(fs: Fs, n: int)
    requires 0 <= n < |fs.files| && DeviceOk(fs) && fs.files[n].dir != NONE && fs.files[n].ind != NONE
    ensures Ocupar(fs, n).0.files[n].ind == fs.files[n].ind
  {
    if FirstFree(fs.bits).Some? { BitInDevice(fs, FirstFree(fs.bits).value); }
  }

  /** A file grows into the lowest free blocks, whatever its state and whatever the answer. */
  lemma {:induction false} GrowTakesLowest(fs: Fs, n: int, k: int)
    requires 0 <= n < |fs.files| && DeviceOk(fs)
    ensures LowestFirst(fs.bits, Grow(fs, n, k).0.bits)
    decreases k
  {
    if k > 0 {
      OcuparTakesLowest(fs, n);
      hide Ocupar, DeviceOk;
      if Ocupar(fs, n).1 != -1 {
        GrowTakesLowest(Ocupar(fs, n).0, n, k - 1);
        LowestTwice(fs.bits, Ocupar(fs, n).0.bits, Grow(fs, n, k).0.bits);
      }
    }
  }

  // ----- shrinking -----

  /** `fs'` is `fs` with the last data block of file `n` wiped and given back. */
  ghost predicate Shrunk(fs: Fs, fs': Fs, n: int) {
    && 0 <= n < |fs.files| == |fs'.files| && fs'.bs == fs.bs
    && Core(fs') && Settled(fs'.files[n])
    && fs'.files[n].nombre == fs.files[n].nombre
    && NumData(fs'.files[n]) == NumData(fs.files[n]) - 1 >= 0
    && Content(fs', n) == Content(fs, n)[..NumData(fs'.files[n])]
    && Elsewhere(fs, fs', n)
    && |fs'.bits| == |fs.bits|
  }

  lemma GiveDataShrinks(fs: Fs, n: int) returns (j: int)
    requires Core(fs) && 0 <= n < |fs.files| && fs.files[n].ind != NONE && fs.files[n].cant > 0
    ensures var fs' := GiveData(fs, n);
      && Core(fs') && Elsewhere(fs, fs', n) && NumData(fs'.files[n]) == NumData(fs.files[n]) - 1 >= 1
      && |Content(fs, n)| == NumData(fs.files[n]) && Content(fs', n) == Content(fs, n)[..NumData(fs'.files[n])]
      && Owns(fs', n, Ind, j)
  {
    hide Core, Get, Put;
    CoreFile(fs, n);
    var i;
    i, j := GiveDataOk(fs, n);
    var f, fs' := fs.files[n], GiveData(fs, n);
    OthersKeepContent(fs, fs', n);
    forall b, r | 0 <= b < |fs.bits| && b != j && Owns(fs, n, r, b) && Has(fs'.files[n], r)
      ensures Block(fs'.data, fs.bs, b) == Block(fs.data, fs.bs, b)
    {
      if b == i { UniqueOwner(fs, n, r, n, Data(f.cant - 1), b); }
    }
    OwnContentKept(fs, fs', n, j, NumData(f) - 1);
    ContentSize(fs, n);
    ContentSize(fs', n);
    assert Content(fs', n)[..NumData(f) - 1] == Content(fs', n);
  }

  lemma GiveIndContent(fs: Fs, n: int, j: int)
    requires Core(fs) && Owns(fs, n, Ind, j) && fs.files[n].cant == 0
    ensures Core(GiveInd(fs, n)) && Elsewhere(fs, GiveInd(fs, n), n)
    ensures Content(GiveInd(fs, n), n) == Content(fs, n)
  {
    hide Core, Get;
    GiveIndOk(fs, n, j);
    CoreFile(fs, n);
    var fs' := GiveInd(fs, n);
    OthersKeepContent(fs, fs', n);
    assert fs'.data == fs.data && NumData(fs'.files[n]) == NumData(fs.files[n]);
  }

  lemma GiveDirShrinks(fs: Fs, n: int, i: int)
    requires Core(fs) && Owns(fs, n, Dir, i) && fs.files[n].ind == NONE
    ensures Core(GiveDir(fs, n)) && Elsewhere(fs, GiveDir(fs, n), n) && Content(GiveDir(fs, n), n) == []
  {
    hide Core, Get;
    GiveDirOk(fs, n, i);
    CoreFile(fs, n);
    var fs' := GiveDir(fs, n);
    OthersKeepContent(fs, fs', n);
  }

  lemma GivenShrinks(fs: Fs, n: int)
    requires Core(fs) && 0 <= n < |fs.files| && Settled(fs.files[n]) && NumData(fs.files[n]) > 0
    ensures Shrunk(fs, Given(fs, n), n)
  {
    hide Core, Content;
    CoreFile(fs, n);
    ContentSize(fs, n);
    var f := fs.files[n];
    if f.ind == NONE {
      var i := PointerOwned(fs, n, 0);
      GiveDirShrinks(fs, n, i);
    } else {
      var j := GiveDataShrinks(fs, n);
      if f.cant == 1 { GiveIndContent(GiveData(fs, n), n, j); }
    }
  }

  lemma SetSizeKeeps(fs: Fs, n: int, size: int)
    requires Core(fs) && 0 <= n < |fs.files|
    ensures Core(SetSize(fs, n, size)) && Elsewhere(fs, SetSize(fs, n, size), n)
    ensures Content(SetSize(fs, n, size), n) == Content(fs, n)
  {
    var fs' := SetSize(fs, n, size);
    assert forall m, r, b :: Owns(fs', m, r, b) <==> Owns(fs, m, r, b);
    forall m | 0 <= m < |fs.files| ensures TailBlank(fs', fs'.files[m]) && Shape(fs'.files[m], fs.bs) { CoreFile(fs, m); }
    hide Core, Content, Block, Get;
    SameOwners(fs, fs');
    OthersKeepContent(fs, fs', n);
    SizeNotInContent(fs, n, size);
  }

  lemma SizeNotInContent(fs: Fs, n: int, size: int)
    requires 0 <= n < |fs.files|
    ensures Content(SetSize(fs, n, size), n) == Content(fs, n)
  {
  }

  lemma ElsewhereTwice(fs: Fs, fs1: Fs, fs2: Fs, n: int)
    requires Elsewhere(fs, fs1, n) && Elsewhere(fs1, fs2, n)
    ensures Elsewhere(fs, fs2, n)
  {
    hide Content;
  }

  lemma LiberarShrinks(fs: Fs, n: int)
    requires Core(fs) && 0 <= n < |fs.files| && Settled(fs.files[n]) && NumData(fs.files[n]) > 0
    ensures Shrunk(fs, Liberar(fs, n), n)
  {
    hide Core, Content, Given;
    CoreFile(fs, n);
    GivenShrinks(fs, n);
    var g, size := Given(fs, n), (fs.files[n].tamanio - fs.bs) % UINT32;
    SetSizeKeeps(g, n, size);
    ElsewhereTwice(fs, g, SetSize(g, n, size), n);
  }

  // ----- the loops of truncate -----

  /** The growing loop: up to `k` blocks, stopping with -1 at the first refusal. */
  function Grow(fs: Fs, n: int, k: int): (r: (Fs, int))
    requires 0 <= n < |fs.files| && DeviceOk(fs)
    ensures DeviceOk(r.0) && |r.0.files| == |fs.files| && r.0.bs == fs.bs
    decreases k
  {
    if k <= 0 then (fs, 1)
    else
      var (fs1, answer) := Ocupar(fs, n);
      if answer == -1 then (fs1, -1) else Grow(fs1, n, k - 1)
  }

  function Shrink(fs: Fs, n: int, k: int): (r: Fs)
    requires 0 <= n < |fs.files| && DeviceOk(fs)
    ensures DeviceOk(r) && |r.files| == |fs.files| && r.bs == fs.bs
    decreases k
  {
    if k <= 0 then fs else Shrink(Liberar(fs, n), n, k - 1)
  }

  function Min(a: int, b: int): int { if a <= b then a else b }

  /** Pointers a file has after trying to grow by `k` data blocks with `free` blocks left. */
  function Pointers(f: Fcb, free: int, k: int): int {
    if f.dir == NONE then Min(k - 1, free - 2)
    else if f.ind == NONE then Min(k, free - 1)
    else f.cant + Min(k, free)
  }

  /** The check a caller can make before growing by `k`: the growth never ends on a pointer block
      without a data block behind it, and never fills more pointers than a block holds. */
  predicate GrowSafe(fs: Fs, n: int, k: int)
    requires 0 <= n < |fs.files|
  {
    var f, free := fs.files[n], FreeCount(fs.bits);
    k > 0 && free > 0 ==>
      && (f.dir == NONE && k >= 2 ==> free != 2)
      && (f.dir != NONE && f.ind == NONE ==> free != 1)
      && INT_SIZE * Pointers(f, free, k) <= fs.bs
  }

  /** Free blocks a growth by `k > 0` data blocks uses. */
  function Needed(f: Fcb, k: int): int { if f.ind == NONE && NumData(f) + k >= 2 then k + 1 else k }

  function ZeroBlocks(bs: int, k: int): seq<seq<Byte>> { seq(if k < 0 then 0 else k, _ => Zeros(bs)) }

  lemma GrowSafeStep(fs: Fs, fs1: Fs, n: int, k: int)
    requires Core(fs) && 0 <= n < |fs.files| && k > 0 && FreeCount(fs.bits) > 0 && Settled(fs.files[n])
    requires GrowSafe(fs, n, k)
    ensures CanTake(fs, n)
    ensures Grown(fs, fs1, n, Cost(fs.files[n])) ==> GrowSafe(fs1, n, k - 1)
  {
    hide Core, Content, Elsewhere;
    CoreFile(fs, n);
    if Grown(fs, fs1, n, Cost(fs.files[n])) { CoreFile(fs1, n); }
  }

  /** `fs'` is `fs` with `k` blank blocks appended to file `n` and nothing else changed. */
  ghost predicate Extended(fs: Fs, fs': Fs, n: int, k: int) {
    && 0 <= n < |fs.files| == |fs'.files| && fs'.bs == fs.bs && 0 <= k
    && AllSettled(fs')
    && fs'.files[n].nombre == fs.files[n].nombre && fs'.files[n].tamanio == fs.files[n].tamanio
    && NumData(fs'.files[n]) == NumData(fs.files[n]) + k
    && Content(fs', n) == Content(fs, n) + ZeroBlocks(fs.bs, k)
    && Elsewhere(fs, fs', n)
    && |fs'.bits| == |fs.bits|
  }

  lemma AllSettledAfter(fs: Fs, fs': Fs, n: int)
    requires AllSettled(fs) && Core(fs') && 0 <= n < |fs.files| && Elsewhere(fs, fs', n) && Settled(fs'.files[n])
    ensures AllSettled(fs')
  {
    hide Core, Content;
  }

  lemma ExtendOnce(fs: Fs, fs1: Fs, fs2: Fs, n: int, k: int)
    requires AllSettled(fs) && 0 <= n < |fs.files| && Grown(fs, fs1, n, Cost(fs.files[n])) && Extended(fs1, fs2, n, k)
    ensures Extended(fs, fs2, n, k + 1)
  {
    hide Core, Content;
    assert [Zeros(fs.bs)] + ZeroBlocks(fs.bs, k) == ZeroBlocks(fs.bs, k + 1);
    assert Content(fs2, n) == Content(fs, n) + ([Zeros(fs.bs)] + ZeroBlocks(fs.bs, k));
  }

  /** A safe growth: the answer is 1 exactly when the free blocks suffice, and then all `k` blocks
      are there; otherwise some of them are, and the invariant holds all the same. */
  lemma {:induction false} GrowExtends(fs: Fs, n: int, k: int) returns (j: int)
    requires AllSettled(fs) && 0 <= n < |fs.files| && k >= 0 && GrowSafe(fs, n, k)
    ensures 0 <= j <= k && DeviceOk(fs) && Extended(fs, Grow(fs, n, k).0, n, j)
    ensures Grow(fs, n, k).1 == 1 || Grow(fs, n, k).1 == -1
    ensures Grow(fs, n, k).1 == 1 <==> j == k
    ensures Grow(fs, n, k).1 == -1 ==> FreeCount(Grow(fs, n, k).0.bits) == 0
    ensures Grow(fs, n, k).1 == 1 <==> k == 0 || Needed(fs.files[n], k) <= FreeCount(fs.bits)
    ensures Grow(fs, n, k).1 == 1 ==>
      FreeCount(fs.bits) == FreeCount(Grow(fs, n, k).0.bits) + if k == 0 then 0 else Needed(fs.files[n], k)
    decreases k
  {
    hide Core, Content, Ocupar, Elsewhere;
    CoreFile(fs, n);
    if k == 0 || FreeCount(fs.bits) == 0 {
      j := 0;
      if k > 0 { OcuparGrows0(fs, n); }
      assert Content(fs, n) + ZeroBlocks(fs.bs, 0) == Content(fs, n);
      NothingElsewhere(fs, n);
    } else {
      var fs1 := Ocupar(fs, n).0;
      GrowSafeStep(fs, fs1, n, k);
      OcuparGrows(fs, n);
      AllSettledAfter(fs, fs1, n);
      var j1 := GrowExtends(fs1, n, k - 1);
      ExtendOnce(fs, fs1, Grow(fs1, n, k - 1).0, n, j1);
      CoreFile(fs1, n);
      j := j1 + 1;
    }
  }

  lemma NothingElsewhere(fs: Fs, n: int)
    ensures Elsewhere(fs, fs, n)
  {
  }

  lemma OcuparGrows0(fs: Fs, n: int)
    requires Core(fs) && 0 <= n < |fs.files| && FreeCount(fs.bits) == 0
    ensures DeviceOk(fs) && Ocupar(fs, n) == (fs, -1)
  {
    CoreFile(fs, n);
    FreeCountZero(fs.bits);
  }

  // ----- an unsafe growth breaks the invariant for good -----

  /** No free block and a pointer block without pointers, or more pointers than a block holds. */
  predicate Broken(fs: Fs, n: int) {
    && 0 <= n < |fs.files| && fs.files[n].dir != NONE && fs.files[n].ind != NONE
    && ((fs.files[n].cant == 0 && FreeCount(fs.bits) == 0) || INT_SIZE * fs.files[n].cant > fs.bs)
  }

  lemma BrokenIsNotSettled(fs: Fs, n: int)
    requires Broken(fs, n)
    ensures !AllSettled(fs)
  {
  }

  lemma {:induction false} BrokenStays(fs: Fs, n: int, k: int)
    requires Broken(fs, n) && DeviceOk(fs)
    ensures Broken(Grow(fs, n, k).0, n)
    decreases k
  {
    if k > 0 {
      FreeCountZero(fs.bits);
      var (fs1, answer) := Ocupar(fs, n);
      if answer != -1 { BrokenStays(fs1, n, k - 1); }
    }
  }

  lemma CannotTakeBreaks(fs: Fs, n: int)
    requires AllSettled(fs) && 0 <= n < |fs.files| && !CanTake(fs, n)
    ensures DeviceOk(fs) && Ocupar(fs, n).1 != -1 && Broken(Ocupar(fs, n).0, n)
  {
    hide Core;
    CoreFile(fs, n);
    FreeCountZero(fs.bits);
    var i: int := FirstFree(fs.bits).value;
    if fs.files[n].ind == NONE {
      BitInDevice(fs, i);
      FreeCountSet(fs.bits, i);
      FreeCountZero(fs.bits[i := true]);
    }
  }

  lemma UnsafeStep(fs: Fs, fs1: Fs, n: int, k: int)
    requires Core(fs) && 0 <= n < |fs.files| && k > 0 && FreeCount(fs.bits) > 0 && Settled(fs.files[n])
    requires !GrowSafe(fs, n, k) && CanTake(fs, n) && Grown(fs, fs1, n, Cost(fs.files[n]))
    ensures !GrowSafe(fs1, n, k - 1)
  {
    hide Core, Content, Elsewhere;
    CoreFile(fs, n);
    CoreFile(fs1, n);
  }

  lemma {:induction false} UnsafeGrowBreaks(fs: Fs, n: int, k: int)
    requires AllSettled(fs) && 0 <= n < |fs.files| && !GrowSafe(fs, n, k)
    ensures DeviceOk(fs) && Broken(Grow(fs, n, k).0, n)
    decreases k
  {
    hide Core, Content, Ocupar, Elsewhere, Broken;
    CoreFile(fs, n);
    var fs1 := Ocupar(fs, n).0;
    if CanTake(fs, n) {
      OcuparGrows(fs, n);
      UnsafeStep(fs, fs1, n, k);
      AllSettledAfter(fs, fs1, n);
      UnsafeGrowBreaks(fs1, n, k - 1);
    } else {
      CannotTakeBreaks(fs, n);
      BrokenStays(fs1, n, k - 1);
    }
  }

  /** Growth keeps the ownership invariant exactly when the caller's check passes. */
  lemma GrowKeepsInvariantIff(fs: Fs, n: int, k: int)
    requires AllSettled(fs) && 0 <= n < |fs.files| && k >= 0
    ensures DeviceOk(fs) && (AllSettled(Grow(fs, n, k).0) <==> GrowSafe(fs, n, k))
  {
    hide Core, Content, Grow, GrowSafe;
    if GrowSafe(fs, n, k) {
      var j := GrowExtends(fs, n, k);
    } else {
      UnsafeGrowBreaks(fs, n, k);
      BrokenIsNotSettled(Grow(fs, n, k).0, n);
    }
    CoreFile(fs, n);
  }

  // ----- the shrinking loop -----

  lemma {:induction false} ShrinkDrops(fs: Fs, n: int, k: int)
    requires AllSettled(fs) && 0 <= n < |fs.files| && 0 <= k <= NumData(fs.files[n])
    ensures DeviceOk(fs) && AllSettled(Shrink(fs, n, k)) && Elsewhere(fs, Shrink(fs, n, k), n)
    ensures Shrink(fs, n, k).files[n].nombre == fs.files[n].nombre
    ensures NumData(Shrink(fs, n, k).files[n]) == NumData(fs.files[n]) - k
    ensures |Content(fs, n)| == NumData(fs.files[n]) && Content(Shrink(fs, n, k), n) == Content(fs, n)[..NumData(fs.files[n]) - k]
    ensures |Shrink(fs, n, k).bits| == |fs.bits|
    decreases k
  {
    hide Core, Content, Liberar;
    CoreFile(fs, n);
    ContentSize(fs, n);
    NothingElsewhere(fs, n);
    if k > 0 {
      var fs1 := Liberar(fs, n);
      LiberarShrinks(fs, n);
      AllSettledAfter(fs, fs1, n);
      ShrinkDrops(fs1, n, k - 1);
      ElsewhereTwice(fs, fs1, Shrink(fs1, n, k - 1), n);
    }
  }
}
