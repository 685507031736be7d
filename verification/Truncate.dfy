/** The file requests that change blocks: open and truncate. */
module Truncate {
  import opened Sums
  import opened Wire
  import opened Disk
  import opened FileSystem
  import opened Files

  /** Blocks a file of `size` bytes needs. */
  function Ceil(size: int, bs: int): int
    requires bs > 0
  {
    (size + bs - 1) / bs
  }

  lemma CeilMeaning(size: int, bs: int)
    requires bs > 0 && size >= 0
    ensures 0 <= Ceil(size, bs)
    ensures Ceil(size, bs) * bs >= size && (Ceil(size, bs) - 1) * bs < size
  {
    var q := Ceil(size, bs);
    assert size + bs - 1 == q * bs + (size + bs - 1) % bs;
  }

  /** `encontrarFCB`: the first control block with the name. */
  function IndexOf(fs: Fs, name: string): (r: Option<nat>)
    ensures r.Some? ==> r.value < |fs.files| && fs.files[r.value].nombre == name
    ensures r.Some? ==> forall i :: 0 <= i < r.value ==> fs.files[i].nombre != name
    ensures r.None? ==> forall i :: 0 <= i < |fs.files| ==> fs.files[i].nombre != name
  {
    Find(fs.files, (f: Fcb) => f.nombre == name)
  }

  /** `crearOAbrirArchivo`. */
  function Open(fs: Fs, name: string): Fs {
    if IndexOf(fs, name).Some? then fs
    else fs.(files := fs.files + [Fcb(name, 0, NONE, NONE, 0)])
  }

  /** `truncarArchivo` and its answer: 1 done, -1 out of space, 2 no such file. The size is recorded
      only on success, whatever was taken before a refusal. */
  function Truncar(fs: Fs, name: string, size: int): (Fs, int)
    requires DeviceOk(fs)
  {
    match IndexOf(fs, name)
    case None => (fs, 2)
    case Some(n) =>
      var need, have := Ceil(size, fs.bs), Ceil(fs.files[n].tamanio, fs.bs);
      if have > need then (SetSize(Shrink(fs, n, have - need), n, size), 1)
      else
        var (fs1, answer) := Grow(fs, n, need - have);
        if answer == -1 then (fs1, -1) else (SetSize(fs1, n, size), 1)
  }

  predicate IsSize(size: int) { 0 <= size < UINT32 }

  /** The file has at least the blocks its size accounts for; more after a growth that failed. */
  predicate Backed(f: Fcb, bs: int)
    requires bs > 0
  {
    IsSize(f.tamanio) && Ceil(f.tamanio, bs) <= NumData(f)
  }

  ghost predicate FsInv(fs: Fs) {
    AllSettled(fs) && DeviceOk(fs) && forall n :: 0 <= n < |fs.files| ==> Backed(fs.files[n], fs.bs)
  }

  /** Exactly the blocks its size accounts for. */
  predicate Exact(f: Fcb, bs: int)
    requires bs > 0
  {
    NumData(f) == Ceil(f.tamanio, bs)
  }

  /** The check a caller can make before truncating. */
  predicate TruncateSafe(fs: Fs, name: string, size: int)
    requires fs.bs > 0
  {
    match IndexOf(fs, name)
    case None => true
    case Some(n) => GrowSafe(fs, n, Ceil(size, fs.bs) - Ceil(fs.files[n].tamanio, fs.bs))
  }

  lemma AllSettledSize(fs: Fs, n: int, size: int)
    requires AllSettled(fs) && 0 <= n < |fs.files|
    ensures AllSettled(SetSize(fs, n, size)) && DeviceOk(fs) && Elsewhere(fs, SetSize(fs, n, size), n)
    ensures Content(SetSize(fs, n, size), n) == Content(fs, n)
  {
    hide Core, Content;
    CoreFile(fs, n);
    SetSizeKeeps(fs, n, size);
  }

  lemma BackedElsewhere(fs: Fs, fs': Fs, n: int)
    requires FsInv(fs) && AllSettled(fs') && fs'.bs == fs.bs && 0 <= n < |fs.files| && Elsewhere(fs, fs', n)
    requires Backed(fs'.files[n], fs.bs)
    ensures FsInv(fs')
  {
    hide Core, Content, Backed;
    CoreFile(fs', n);
  }

  /** What a truncate does when the check passes. */
  lemma TruncateEffect(fs: Fs, name: string, size: int, n: int) returns (j: int)
    requires FsInv(fs) && IsSize(size) && IndexOf(fs, name) == Some(n) && TruncateSafe(fs, name, size)
    ensures FsInv(Truncar(fs, name, size).0) && Elsewhere(fs, Truncar(fs, name, size).0, n)
    ensures var need, have := Ceil(size, fs.bs), Ceil(fs.files[n].tamanio, fs.bs);
      var (fs', answer) := Truncar(fs, name, size);
      && (answer == 1 || answer == -1)
      && (answer == -1 ==> fs'.files[n].tamanio == fs.files[n].tamanio && FreeCount(fs'.bits) == 0)
      && (answer == 1 ==> fs'.files[n].tamanio == size && NumData(fs'.files[n]) == NumData(fs.files[n]) + need - have)
      && (answer == 1 <==> need <= have || Needed(fs.files[n], need - have) <= FreeCount(fs.bits))
      && fs'.files[n].nombre == name && |fs'.bits| == |fs.bits| && fs'.bs == fs.bs
      && (answer == 1 && need > have ==> FreeCount(fs.bits) == FreeCount(fs'.bits) + Needed(fs.files[n], need - have))
      && (have > need ==> have - need <= |Content(fs, n)| && Content(fs', n) == Content(fs, n)[..|Content(fs, n)| - (have - need)])
      && (have <= need ==> 0 <= j <= need - have && Content(fs', n) == Content(fs, n) + ZeroBlocks(fs.bs, j) && (answer == 1 <==> j == need - have))
  {
    hide Core, Content, Shrink, Grow, GrowSafe, IndexOf, Ceil, Needed;
    j := 0;
    ContentSize(fs, n);
    var need, have := Ceil(size, fs.bs), Ceil(fs.files[n].tamanio, fs.bs);
    CeilMeaning(size, fs.bs);
    if have > need {
      ShrinkDrops(fs, n, have - need);
      var fs1 := Shrink(fs, n, have - need);
      AllSettledSize(fs1, n, size);
      ElsewhereTwice(fs, fs1, SetSize(fs1, n, size), n);
      BackedElsewhere(fs, SetSize(fs1, n, size), n);
    } else {
      j := GrowExtends(fs, n, need - have);
      var (fs1, answer) := Grow(fs, n, need - have);
      if answer == 1 {
        AllSettledSize(fs1, n, size);
        ElsewhereTwice(fs, fs1, SetSize(fs1, n, size), n);
        BackedElsewhere(fs, SetSize(fs1, n, size), n);
      } else {
        BackedElsewhere(fs, fs1, n);
      }
    }
  }

  /** Answer 2 means that no file has the name, and then nothing has changed. Whatever the state, a refusal
      leaves the recorded size, the name and every other control block alone. */
  lemma TruncateAnswers(fs: Fs, name: string, size: int)
    requires DeviceOk(fs)
    ensures var (fs', answer) := Truncar(fs, name, size);
      && (answer == 1 || answer == -1 || answer == 2)
      && (answer == 2 <==> forall i :: 0 <= i < |fs.files| ==> fs.files[i].nombre != name)
      && (answer == 2 ==> fs' == fs)
      && |fs'.files| == |fs.files| && (forall i :: 0 <= i < |fs.files| ==> fs'.files[i].nombre == fs.files[i].nombre)
      && (answer == -1 ==> forall i :: 0 <= i < |fs.files| ==> fs'.files[i].tamanio == fs.files[i].tamanio)
      && (forall i :: 0 <= i < |fs.files| && IndexOf(fs, name) != Some(i) ==> fs'.files[i] == fs.files[i])
  {
    assert fs.bs > 0;
    hide Grow, Shrink, Ceil, DeviceOk;
    match IndexOf(fs, name)
    case None =>
    case Some(n) =>
      GrowKeepsFiles(fs, n, Ceil(size, fs.bs) - Ceil(fs.files[n].tamanio, fs.bs));
      ShrinkKeepsFiles(fs, n, Ceil(fs.files[n].tamanio, fs.bs) - Ceil(size, fs.bs));
  }

  lemma {:induction false} GrowKeepsFiles(fs: Fs, n: int, k: int)
    requires 0 <= n < |fs.files| && DeviceOk(fs)
    ensures Grow(fs, n, k).1 == 1 || Grow(fs, n, k).1 == -1
    ensures var f, f' := fs.files[n], Grow(fs, n, k).0.files[n]; f'.nombre == f.nombre && f'.tamanio == f.tamanio
    ensures forall i :: 0 <= i < |fs.files| && i != n ==> Grow(fs, n, k).0.files[i] == fs.files[i]
    decreases k
  {
    hide DeviceOk;
    if k > 0 {
      OcuparKeepsName(fs, n);
      hide Ocupar;
      if Ocupar(fs, n).1 != -1 { GrowKeepsFiles(Ocupar(fs, n).0, n, k - 1); }
    }
  }

  lemma OcuparKeepsName(fs: Fs, n: int)
    requires 0 <= n < |fs.files| && DeviceOk(fs)
    ensures var f, f' := fs.files[n], Ocupar(fs, n).0.files[n]; f'.nombre == f.nombre && f'.tamanio == f.tamanio
    decreases if fs.files[n].dir != NONE && fs.files[n].ind == NONE then 1 else 0
  {
    match FirstFree(fs.bits)
    case None =>
    case Some(i) =>
      BitInDevice(fs, i);
      if fs.files[n].dir != NONE && fs.files[n].ind == NONE { OcuparKeepsName(TakeInd(fs, n, i), n); }
  }

  lemma {:induction false} ShrinkKeepsFiles(fs: Fs, n: int, k: int)
    requires 0 <= n < |fs.files| && DeviceOk(fs)
    ensures Shrink(fs, n, k).files[n].nombre == fs.files[n].nombre
    ensures forall i :: 0 <= i < |fs.files| && i != n ==> Shrink(fs, n, k).files[i] == fs.files[i]
    decreases k
  {
    hide DeviceOk, Liberar;
    if k > 0 {
      LiberarKeepsName(fs, n);
      ShrinkKeepsFiles(Liberar(fs, n), n, k - 1);
    }
  }

  lemma LiberarKeepsName(fs: Fs, n: int)
    requires 0 <= n < |fs.files| && DeviceOk(fs)
    ensures Liberar(fs, n).files[n].nombre == fs.files[n].nombre
  {
    hide Put;
  }

  /** Truncate keeps the invariant exactly when the check passes. */
  lemma TruncateKeepsInvIff(fs: Fs, name: string, size: int)
    requires FsInv(fs) && IsSize(size)
    ensures FsInv(Truncar(fs, name, size).0) <==> TruncateSafe(fs, name, size)
  {
    hide Core, Content, Grow, Shrink;
    match IndexOf(fs, name)
    case None =>
    case Some(n) =>
      if TruncateSafe(fs, name, size) {
        var j := TruncateEffect(fs, name, size, n);
      } else {
        var k := Ceil(size, fs.bs) - Ceil(fs.files[n].tamanio, fs.bs);
        UnsafeGrowBreaks(fs, n, k);
        BrokenIsNotSettled(Truncar(fs, name, size).0, n);
      }
  }

  /** Truncate is exact: on success the file has ceil(size / block size) data blocks, a pointer block
      iff that is at least two, its surviving blocks in order with the same bytes, and zeros after. */
  lemma TruncateIsExact(fs: Fs, name: string, size: int, n: int)
    requires FsInv(fs) && IsSize(size) && IndexOf(fs, name) == Some(n) && TruncateSafe(fs, name, size)
    requires Exact(fs.files[n], fs.bs) && Truncar(fs, name, size).1 == 1
    ensures var fs' := Truncar(fs, name, size).0;
      && FsInv(fs') && fs'.files[n].tamanio == size && fs'.bs == fs.bs && Exact(fs'.files[n], fs.bs)
      && (fs'.files[n].ind != NONE <==> Ceil(size, fs.bs) >= 2)
      && Content(fs', n) == (if Ceil(size, fs.bs) <= |Content(fs, n)| then Content(fs, n)[..Ceil(size, fs.bs)]
                             else Content(fs, n) + ZeroBlocks(fs.bs, Ceil(size, fs.bs) - |Content(fs, n)|))
      && Elsewhere(fs, fs', n)
  {
    hide Core, Content, Truncar, TruncateSafe, IndexOf, Ceil;
    var j := TruncateEffect(fs, name, size, n);
    ContentSize(fs, n);
    CeilMeaning(size, fs.bs);
    var fs' := Truncar(fs, name, size).0;
    CoreFile(fs', n);
    assert Content(fs, n) + ZeroBlocks(fs.bs, 0) == Content(fs, n) == Content(fs, n)[..|Content(fs, n)|];
  }

  /** Opening adds an empty file or nothing. */
  lemma OpenKeepsInv(fs: Fs, name: string)
    requires FsInv(fs)
    ensures FsInv(Open(fs, name)) && IndexOf(Open(fs, name), name).Some?
    ensures |fs.files| <= |Open(fs, name).files|
    ensures forall m :: 0 <= m < |fs.files| ==> Open(fs, name).files[m] == fs.files[m] && Content(Open(fs, name), m) == Content(fs, m)
  {
    var fs' := Open(fs, name);
    if fs' != fs {
      assert forall n, r, b :: Owns(fs', n, r, b) <==> Owns(fs, n, r, b);
      SameOwners(fs, fs');
      QuotientIs(fs.bs - 1, fs.bs, 0, fs.bs - 1);
      assert fs'.files[|fs.files|].nombre == name;
    }
  }

  /** No two control blocks have the same name. */
  predicate NamesOnce(fs: Fs) {
    forall i, j {:trigger fs.files[i], fs.files[j]} :: 0 <= i < j < |fs.files| ==> fs.files[i].nombre != fs.files[j].nombre
  }

  /** A name that a file has opens that file, and nothing changes; any other gets one control block more, at
      the end, without size and without blocks. Names stay different. */
  lemma OpenEffect(fs: Fs, name: string)
    ensures var fs' := Open(fs, name);
      && ((exists i :: 0 <= i < |fs.files| && fs.files[i].nombre == name) ==> fs' == fs)
      && ((forall i :: 0 <= i < |fs.files| ==> fs.files[i].nombre != name) ==>
            && fs' == fs.(files := fs'.files) && |fs'.files| == |fs.files| + 1 && fs'.files[..|fs.files|] == fs.files
            && var f := fs'.files[|fs.files|];
               f.nombre == name && f.tamanio == 0 && NumData(f) == 0 && f.dir == NONE && f.ind == NONE)
      && (NamesOnce(fs) ==> NamesOnce(fs'))
  {
  }

  // ----- growing and shrinking back -----

  lemma PutSame(d: seq<Byte>, at: int, v: seq<Byte>)
    requires Get(d, at, |v|) == v
    ensures Put(d, at, v) == d
  {
  }

  lemma PutOver(d: seq<Byte>, at: int, w: seq<Byte>, v: seq<Byte>)
    requires |v| == |w|
    ensures Put(Put(d, at, w), at, v) == Put(d, at, v)
  {
  }

  lemma UndoDir(fs: Fs, n: int, i: int)
    requires Core(fs) && 0 <= n < |fs.files| && 0 <= i < |fs.bits| && !fs.bits[i] && fs.files[n].dir == NONE
    ensures fs.bs > 0 && GiveDir(TakeDir(fs, n, i), n) == fs
  {
    CoreFile(fs, n);
    BitOfOwned(fs, i);
    hide Core;
    BitInDevice(fs, i);
    NoOfAddr(i, fs.bs);
    BlockByte(fs.data, fs.bs, i);
    BlankIsZeros(Block(fs.data, fs.bs, i));
    PutSame(fs.data, Addr(i, fs.bs), Zeros(fs.bs));
  }

  lemma UndoInd(fs: Fs, n: int, i: int)
    requires Core(fs) && 0 <= n < |fs.files| && 0 <= i < |fs.bits| && !fs.bits[i] && fs.files[n].ind == NONE
    ensures fs.bs > 0 && GiveInd(TakeInd(fs, n, i), n) == fs
  {
    CoreFile(fs, n);
    hide Core;
    NoOfAddr(i, fs.bs);
  }

  lemma UndoDataBytes(fs: Fs, n: int, i: int)
    requires Core(fs) && 0 <= n < |fs.files| && 0 <= i < |fs.bits| && !fs.bits[i]
    requires fs.files[n].ind != NONE && INT_SIZE * (fs.files[n].cant + 1) <= fs.bs
    ensures IsInt(Addr(i, fs.bs)) && fs.bs > 0
    ensures var d, slot := TakeData(fs, n, i).data, fs.files[n].ind + INT_SIZE * fs.files[n].cant;
      Put(Put(d, Addr(i, fs.bs), Zeros(fs.bs)), slot, Zeros(INT_SIZE)) == fs.data
  {
    hide Core, IntAt, Put, Get, Block;
    CoreFile(fs, n);
    BitInDevice(fs, i);
    var j := IndBlock(fs, n);
    BitOfOwned(fs, i);
    TakeDataBlocks(fs, n, i, j);
    var f, d := fs.files[n], TakeData(fs, n, i).data;
    assert Block(d, fs.bs, i) == Block(fs.data, fs.bs, i);
    WipeOfBlank(d, fs.bs, i);
    SlotIsZero(fs, f, j);
    PutOver(fs.data, f.ind + INT_SIZE * f.cant, EncInt(Addr(i, fs.bs)), Zeros(INT_SIZE));
    PutSame(fs.data, f.ind + INT_SIZE * f.cant, Zeros(INT_SIZE));
  }

  lemma WipeOfBlank(d: seq<Byte>, bs: int, i: int)
    requires InDevice(d, bs, i) && Blank(Block(d, bs, i))
    ensures Put(d, Addr(i, bs), Zeros(bs)) == d
  {
    BlockByte(d, bs, i);
    BlankIsZeros(Block(d, bs, i));
    PutSame(d, Addr(i, bs), Zeros(bs));
  }

  lemma UndoData(fs: Fs, n: int, i: int)
    requires Core(fs) && 0 <= n < |fs.files| && 0 <= i < |fs.bits| && !fs.bits[i]
    requires fs.files[n].ind != NONE && INT_SIZE * (fs.files[n].cant + 1) <= fs.bs
    ensures IsInt(Addr(i, fs.bs)) && fs.bs > 0 && GiveData(TakeData(fs, n, i), n) == fs
  {
    hide Core, Put, IntAt;
    CoreFile(fs, n);
    BitInDevice(fs, i);
    var j := IndBlock(fs, n);
    TakeDataTook(fs, n, i, j);
    NoOfAddr(i, fs.bs);
    UndoDataBytes(fs, n, i);
    TookDataShape(fs, n, i);
    assert Ptr(TakeData(fs, n, i), TakeData(fs, n, i).files[n], Data(fs.files[n].cant)) == Addr(i, fs.bs);
  }

  /** The next pointer's place is still zero. */
  lemma SlotIsZero(fs: Fs, f: Fcb, j: int)
    requires InDevice(fs.data, fs.bs, j) && f.ind == Addr(j, fs.bs) && f.ind != NONE && 0 <= f.cant
    requires INT_SIZE * (f.cant + 1) <= fs.bs && TailBlank(fs, f)
    ensures Get(fs.data, f.ind + INT_SIZE * f.cant, INT_SIZE) == Zeros(INT_SIZE)
  {
    TailFromBlock(fs, f, j);
    GetInBlock(fs.data, fs.bs, j, INT_SIZE * f.cant, INT_SIZE);
    BlockByte(fs.data, fs.bs, j);
  }

  /** Taking a block and giving it back restores bitmap, pointers, counter and every device byte. */
  lemma UndoOcupar(fs: Fs, n: int)
    requires Core(fs) && 0 <= n < |fs.files| && Settled(fs.files[n]) && CanTake(fs, n) && FreeCount(fs.bits) > 0
    ensures DeviceOk(fs) && Given(Ocupar(fs, n).0, n) == fs
  {
    hide Core, TakeDir, TakeData, GiveDir, GiveData, GiveInd;
    CoreFile(fs, n);
    FreeCountZero(fs.bits);
    var i: int := FirstFree(fs.bits).value;
    var f := fs.files[n];
    BitInDevice(fs, i);
    if f.dir == NONE {
      UndoDir(fs, n, i);
      TookDirShape(fs, n, i);
    } else if f.ind != NONE {
      UndoData(fs, n, i);
      TookDataShape(fs, n, i);
    } else {
      UndoInd(fs, n, i);
      TakeIndContent(fs, n, i);
      var fs1 := TakeInd(fs, n, i);
      FreeCountZero(fs1.bits);
      var k: int := FirstFree(fs1.bits).value;
      UndoData(fs1, n, k);
      TookDataShape(fs1, n, k);
      assert Ocupar(fs, n).0 == TakeData(fs1, n, k);
    }
  }

  lemma TookDirShape(fs: Fs, n: int, i: int)
    requires 0 <= n < |fs.files|
    ensures TakeDir(fs, n, i).files[n] == fs.files[n].(dir := Addr(i, fs.bs)) && |TakeDir(fs, n, i).files| == |fs.files|
  {
  }

  lemma TookDataShape(fs: Fs, n: int, i: int)
    requires 0 <= n < |fs.files| && IsInt(Addr(i, fs.bs))
    ensures TakeData(fs, n, i).files[n] == fs.files[n].(cant := fs.files[n].cant + 1) && |TakeData(fs, n, i).files| == |fs.files|
  {
  }

  // ----- the loops, undone -----

  lemma GivenIgnoresSize(fs: Fs, n: int, t: int)
    requires 0 <= n < |fs.files| && DeviceOk(fs)
    ensures DeviceOk(SetSize(fs, n, t)) && 0 <= n < |Given(fs, n).files|
    ensures SetSize(Given(SetSize(fs, n, t), n), n, t) == SetSize(Given(fs, n), n, t)
  {
    hide Put, IntAt;
  }

  /** Shrinking by `k`, last step first or last. */
  lemma {:induction false} ShrinkLast(fs: Fs, n: int, k: int)
    requires 0 <= n < |fs.files| && DeviceOk(fs) && k > 0
    ensures Shrink(fs, n, k) == Liberar(Shrink(fs, n, k - 1), n)
    decreases k
  {
    hide Liberar;
    if k > 1 { ShrinkLast(Liberar(fs, n), n, k - 1); }
  }

  /** Growing by `k` blocks and shrinking by `k` again restores the bitmap, both pointers, the
      counter and every byte of the device; only the size field is left to set. */
  lemma {:induction false} GrowThenShrink(fs: Fs, n: int, k: int)
    requires AllSettled(fs) && 0 <= n < |fs.files| && k >= 0 && GrowSafe(fs, n, k)
    requires DeviceOk(fs) && Grow(fs, n, k).1 == 1
    ensures SetSize(Shrink(Grow(fs, n, k).0, n, k), n, fs.files[n].tamanio) == fs
    decreases k
  {
    hide Core, Content, Ocupar, Elsewhere, Given;
    if k > 0 {
      if FreeCount(fs.bits) == 0 { OcuparGrows0(fs, n); }
      var fs1 := Ocupar(fs, n).0;
      GrowSafeStep(fs, fs1, n, k);
      OcuparGrows(fs, n);
      AllSettledAfter(fs, fs1, n);
      assert fs1.files[n].tamanio == fs.files[n].tamanio && Grow(fs, n, k) == Grow(fs1, n, k - 1);
      GrowThenShrink(fs1, n, k - 1);
      UndoOcupar(fs, n);
      var g := Grow(fs1, n, k - 1).0;
      ShrinkLast(g, n, k);
      hide Grow, Shrink, Grown, SetSize;
      UndoLast(Shrink(g, n, k - 1), fs, fs1, n);
    } else {
      hide Grown;
    }
  }

  lemma SetSizeTwice(fs: Fs, n: int, s: int, t: int)
    requires 0 <= n < |fs.files|
    ensures SetSize(SetSize(fs, n, s), n, t) == SetSize(fs, n, t)
  {
  }

  lemma UndoLast(x: Fs, fs: Fs, fs1: Fs, n: int)
    requires 0 <= n < |x.files| && n < |fs.files| && DeviceOk(x) && n < |fs1.files| && DeviceOk(fs1)
    requires SetSize(x, n, fs.files[n].tamanio) == fs1 && Given(fs1, n) == fs
    ensures SetSize(Liberar(x, n), n, fs.files[n].tamanio) == fs
  {
    hide Given;
    var t := fs.files[n].tamanio;
    GivenIgnoresSize(x, n, t);
    SetSizeTwice(Given(x, n), n, (x.files[n].tamanio - x.bs) % UINT32, t);
    assert fs.files[n := fs.files[n].(tamanio := t)] == fs.files;
  }

  /** Truncating up and back to the old size restores the whole state, device bytes included. */
  lemma TruncateUpAndBack(fs: Fs, name: string, size: int, n: int)
    requires FsInv(fs) && IsSize(size) && IndexOf(fs, name) == Some(n) && TruncateSafe(fs, name, size)
    requires Ceil(size, fs.bs) > Ceil(fs.files[n].tamanio, fs.bs) && Truncar(fs, name, size).1 == 1
    ensures DeviceOk(Truncar(fs, name, size).0)
    ensures Truncar(Truncar(fs, name, size).0, name, fs.files[n].tamanio) == (fs, 1)
  {
    hide Core, Content, Shrink, Grow, GrowSafe, Ceil;
    var k := Ceil(size, fs.bs) - Ceil(fs.files[n].tamanio, fs.bs);
    var j := TruncateEffect(fs, name, size, n);
    var g := Grow(fs, n, k).0;
    j := GrowExtends(fs, n, k);
    GrowThenShrink(fs, n, k);
    var fs1 := SetSize(g, n, size);
    SameIndex(fs, fs1, name, n);
    ShrinkIgnoresSize(g, n, k, size);
  }

  lemma SameIndex(fs: Fs, fs': Fs, name: string, n: int)
    requires IndexOf(fs, name) == Some(n) && |fs'.files| == |fs.files|
    requires forall m :: 0 <= m < |fs.files| ==> fs'.files[m].nombre == fs.files[m].nombre
    ensures IndexOf(fs', name) == Some(n)
  {
  }

  lemma {:induction false} ShrinkIgnoresSize(fs: Fs, n: int, k: int, t: int)
    requires 0 <= n < |fs.files| && DeviceOk(fs)
    ensures forall u :: SetSize(Shrink(SetSize(fs, n, t), n, k), n, u) == SetSize(Shrink(fs, n, k), n, u)
    decreases k
  {
    if k > 0 {
      var a, b := Liberar(SetSize(fs, n, t), n), Liberar(fs, n);
      GivenIgnoresSize(fs, n, t);
      var v := (fs.files[n].tamanio - fs.bs) % UINT32;
      assert SetSize(a, n, v) == b;
      ShrinkIgnoresSize(a, n, k - 1, v);
    }
  }
}
