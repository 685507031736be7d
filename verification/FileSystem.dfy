/** Files over the block device: one direct block, one block of pointers, and the blocks it names. */
module FileSystem {
  import opened Wire
  import opened Disk

  const NONE := -1

  datatype Fcb = Fcb(nombre: string, tamanio: int, dir: int, ind: int, cant: int)

  datatype Fs = Fs(bs: int, bits: seq<bool>, data: seq<Byte>, files: seq<Fcb>)

  /** What a file uses a block for. */
  datatype Role = Dir | Ind | Data(k: int)

  predicate Has(f: Fcb, r: Role) {
    match r
    case Dir => f.dir != NONE
    case Ind => f.ind != NONE
    case Data(k) => 0 <= k < f.cant
  }

  /** The address a role's block has; data pointers are read back from the pointer block's bytes. */
  function Ptr(fs: Fs, f: Fcb, r: Role): int {
    match r
    case Dir => f.dir
    case Ind => f.ind
    case Data(k) => IntAt(fs.data, f.ind + INT_SIZE * k)
  }

  /** File `n` uses block `b` in role `r`. */
  predicate Owns(fs: Fs, n: int, r: Role, b: int) {
    && 0 <= n < |fs.files| && 0 <= b < |fs.bits|
    && Has(fs.files[n], r) && Ptr(fs, fs.files[n], r) == Addr(b, fs.bs)
  }

  ghost predicate Owned(fs: Fs, b: int) {
    exists n, r :: Owns(fs, n, r, b)
  }

  predicate DeviceOk(fs: Fs) {
    INT_SIZE <= fs.bs && Addr(|fs.bits|, fs.bs) <= |fs.data| <= MAX_INT
  }

  predicate Shape(f: Fcb, bs: int) {
    && (f.dir == NONE ==> f.ind == NONE)
    && (f.ind == NONE ==> f.cant == 0)
    && 0 <= f.cant && INT_SIZE * f.cant <= bs
  }

  /** Past its last pointer a pointer block is all zero. */
  predicate TailBlank(fs: Fs, f: Fcb) {
    f.ind != NONE ==> Blank(Get(fs.data, f.ind + INT_SIZE * f.cant, fs.bs - INT_SIZE * f.cant))
  }

  /** A bit is set exactly when one file uses the block in one role; free blocks are all zero. */
  ghost predicate Core(fs: Fs) {
    && DeviceOk(fs)
    && (forall n :: 0 <= n < |fs.files| ==> Shape(fs.files[n], fs.bs) && TailBlank(fs, fs.files[n]))
    && (forall n, r :: 0 <= n < |fs.files| && Has(fs.files[n], r) ==> exists b :: Owns(fs, n, r, b))
    && (forall n, r, m, s, b :: Owns(fs, n, r, b) && Owns(fs, m, s, b) ==> n == m && r == s)
    && (forall b {:trigger Owned(fs, b)} :: 0 <= b < |fs.bits| ==> (fs.bits[b] <==> Owned(fs, b)))
    && (forall b {:trigger Block(fs.data, fs.bs, b)} :: 0 <= b < |fs.bits| && !fs.bits[b] ==> Blank(Block(fs.data, fs.bs, b)))
  }

  lemma CoreFile(fs: Fs, n: int)
    requires Core(fs) && 0 <= n < |fs.files|
    ensures DeviceOk(fs) && Shape(fs.files[n], fs.bs) && TailBlank(fs, fs.files[n])
  {
  }

  lemma BitInDevice(fs: Fs, b: int)
    requires DeviceOk(fs) && 0 <= b < |fs.bits|
    ensures InDevice(fs.data, fs.bs, b) && 0 <= Addr(b, fs.bs) && Addr(b, fs.bs) + fs.bs <= MAX_INT
  {
    BlockInRange(b, |fs.bits|, fs.bs);
  }

  /** A role has one block. */
  lemma OneBlock(fs: Fs, n: int, r: Role, b: int, c: int)
    requires DeviceOk(fs) && Owns(fs, n, r, b) && Owns(fs, n, r, c)
    ensures b == c
  {
    NoOfAddr(b, fs.bs);
    NoOfAddr(c, fs.bs);
  }

  // ----- taking and giving back one block -----

  /** `fs'` is `fs` after file `n` took the free block `i` for `role`. */
  ghost predicate Took(fs: Fs, fs': Fs, n: int, role: Role, i: int) {
    && 0 <= n < |fs.files| && 0 <= i < |fs.bits| && !fs.bits[i]
    && fs'.bs == fs.bs && fs'.bits == fs.bits[i := true] && |fs'.data| == |fs.data|
    && |fs'.files| == |fs.files| && (forall m :: 0 <= m < |fs.files| && m != n ==> fs'.files[m] == fs.files[m])
    && (forall r :: Has(fs'.files[n], r) <==> Has(fs.files[n], r) || r == role)
    && !Has(fs.files[n], role)
    && (forall m, r :: 0 <= m < |fs.files| && Has(fs.files[m], r) ==> Ptr(fs', fs'.files[m], r) == Ptr(fs, fs.files[m], r))
    && Ptr(fs', fs'.files[n], role) == Addr(i, fs.bs)
  }

  lemma TookOwns(fs: Fs, fs': Fs, n: int, role: Role, i: int)
    requires Core(fs) && Took(fs, fs', n, role, i)
    ensures forall m, r, b :: Owns(fs', m, r, b) <==> Owns(fs, m, r, b) || (m == n && r == role && b == i)
  {
    forall m, r, b ensures Owns(fs', m, r, b) <==> Owns(fs, m, r, b) || (m == n && r == role && b == i) {
      NoOfAddr(i, fs.bs);
      NoOfAddr(b, fs.bs);
    }
  }

  lemma TookKeepsCore(fs: Fs, fs': Fs, n: int, role: Role, i: int)
    requires Core(fs) && Took(fs, fs', n, role, i) && Shape(fs'.files[n], fs.bs)
    requires forall b {:trigger Block(fs'.data, fs.bs, b)} :: 0 <= b < |fs.bits| && !fs.bits[b] && b != i ==>
      Block(fs'.data, fs.bs, b) == Block(fs.data, fs.bs, b)
    requires forall m :: 0 <= m < |fs.files| ==> TailBlank(fs', fs'.files[m])
    ensures Core(fs')
  {
    TookOwns(fs, fs', n, role, i);
    hide Has, Ptr, Block, TailBlank;
    assert !Owned(fs, i);
    forall b | 0 <= b < |fs.bits| ensures fs'.bits[b] <==> Owned(fs', b) {
      if Owned(fs, b) { var m, r :| Owns(fs, m, r, b); assert Owns(fs', m, r, b); }
      if b == i { assert Owns(fs', n, role, i); }
      if Owned(fs', b) { var m, r :| Owns(fs', m, r, b); }
    }
    forall m, r | 0 <= m < |fs'.files| && Has(fs'.files[m], r) ensures exists b :: Owns(fs', m, r, b) {
      if m == n && r == role { assert Owns(fs', n, role, i); }
      else { var b :| Owns(fs, m, r, b); assert Owns(fs', m, r, b); }
    }
  }

  /** `fs'` is `fs` after file `n` gave back the block `i` it had for `role`. */
  ghost predicate Gave(fs: Fs, fs': Fs, n: int, role: Role, i: int) {
    && Owns(fs, n, role, i)
    && fs'.bs == fs.bs && fs'.bits == fs.bits[i := false] && |fs'.data| == |fs.data|
    && |fs'.files| == |fs.files| && (forall m :: 0 <= m < |fs.files| && m != n ==> fs'.files[m] == fs.files[m])
    && (forall r :: Has(fs'.files[n], r) <==> Has(fs.files[n], r) && r != role)
    && (forall m, r :: 0 <= m < |fs.files| && Has(fs'.files[m], r) ==> Ptr(fs', fs'.files[m], r) == Ptr(fs, fs.files[m], r))
  }

  lemma GaveKeepsCore(fs: Fs, fs': Fs, n: int, role: Role, i: int)
    requires Core(fs) && Gave(fs, fs', n, role, i) && Shape(fs'.files[n], fs.bs)
    requires forall b {:trigger Block(fs'.data, fs.bs, b)} :: 0 <= b < |fs.bits| && !fs.bits[b] ==>
      Block(fs'.data, fs.bs, b) == Block(fs.data, fs.bs, b)
    requires Blank(Block(fs'.data, fs.bs, i))
    requires forall m :: 0 <= m < |fs.files| ==> TailBlank(fs', fs'.files[m])
    ensures Core(fs')
    ensures forall m, r, b :: Owns(fs', m, r, b) <==> Owns(fs, m, r, b) && !(m == n && r == role)
  {
    assert forall m, r, b :: Owns(fs', m, r, b) <==> Owns(fs, m, r, b) && !(m == n && r == role);
    hide Has, Ptr, Block, TailBlank;
    forall b | 0 <= b < |fs.bits| ensures fs'.bits[b] <==> Owned(fs', b) {
      assert fs.bits[b] <==> Owned(fs, b);
      if b != i && Owned(fs, b) {
        var m, r :| Owns(fs, m, r, b);
        if m == n && r == role { OneBlock(fs, n, role, b, i); }
        assert Owns(fs', m, r, b);
      }
      if Owned(fs', b) { var m, r :| Owns(fs', m, r, b); assert Owns(fs, m, r, b); }
    }
    forall m, r | 0 <= m < |fs'.files| && Has(fs'.files[m], r) ensures exists b :: Owns(fs', m, r, b) {
      var b :| Owns(fs, m, r, b);
      assert Owns(fs', m, r, b);
    }
  }

  /** Same owners, and free blocks as they were: the invariant carries over. */
  lemma SameOwners(fs: Fs, fs': Fs)
    requires Core(fs) && fs'.bs == fs.bs && fs'.bits == fs.bits && |fs'.data| == |fs.data|
    requires forall b {:trigger Block(fs'.data, fs.bs, b)} :: 0 <= b < |fs.bits| && !fs.bits[b] ==>
      Block(fs'.data, fs.bs, b) == Block(fs.data, fs.bs, b)
    requires forall n, r, b :: Owns(fs', n, r, b) <==> Owns(fs, n, r, b)
    requires forall n :: 0 <= n < |fs'.files| ==> Shape(fs'.files[n], fs.bs) && TailBlank(fs', fs'.files[n])
    requires forall n, r :: 0 <= n < |fs'.files| && Has(fs'.files[n], r) ==> n < |fs.files| && Has(fs.files[n], r)
    ensures Core(fs')
  {
    hide Has, Ptr, Block, TailBlank, Shape;
    forall b | 0 <= b < |fs.bits| ensures fs'.bits[b] <==> Owned(fs', b) {
      assert fs.bits[b] <==> Owned(fs, b);
      if Owned(fs, b) { var m, r :| Owns(fs, m, r, b); assert Owns(fs', m, r, b); }
      if Owned(fs', b) { var m, r :| Owns(fs', m, r, b); assert Owns(fs, m, r, b); }
    }
    forall n, r | 0 <= n < |fs'.files| && Has(fs'.files[n], r) ensures exists b :: Owns(fs', n, r, b) {
      var b :| Owns(fs, n, r, b);
      assert Owns(fs', n, r, b);
    }
  }

  // ----- the five block operations -----

  function TakeDir(fs: Fs, n: int, i: int): Fs
    requires 0 <= n < |fs.files|
  {
    fs.(bits := SetBit(fs.bits, i, true), files := fs.files[n := fs.files[n].(dir := Addr(i, fs.bs))])
  }

  function TakeInd(fs: Fs, n: int, i: int): Fs
    requires 0 <= n < |fs.files|
  {
    fs.(bits := SetBit(fs.bits, i, true), files := fs.files[n := fs.files[n].(ind := Addr(i, fs.bs))])
  }

  /** The block's address is written behind the pointers already there. */
  function TakeData(fs: Fs, n: int, i: int): Fs
    requires 0 <= n < |fs.files| && IsInt(Addr(i, fs.bs))
  {
    var f := fs.files[n];
    fs.(bits := SetBit(fs.bits, i, true),
        data := Put(fs.data, f.ind + INT_SIZE * f.cant, EncInt(Addr(i, fs.bs))),
        files := fs.files[n := f.(cant := f.cant + 1)])
  }

  /** Wipe the last data block and its pointer. */
  function GiveData(fs: Fs, n: int): Fs
    requires 0 <= n < |fs.files| && fs.bs > 0
  {
    var f := fs.files[n];
    var q := IntAt(fs.data, f.ind + INT_SIZE * (f.cant - 1));
    fs.(bits := SetBit(fs.bits, No(q, fs.bs), false),
        data := Put(Put(fs.data, q, Zeros(fs.bs)), f.ind + INT_SIZE * (f.cant - 1), Zeros(INT_SIZE)),
        files := fs.files[n := f.(cant := f.cant - 1)])
  }

  /** The pointer block goes back as it is: it is not wiped. */
  function GiveInd(fs: Fs, n: int): Fs
    requires 0 <= n < |fs.files| && fs.bs > 0
  {
    var f := fs.files[n];
    fs.(bits := SetBit(fs.bits, No(f.ind, fs.bs), false), files := fs.files[n := f.(ind := NONE)])
  }

  function GiveDir(fs: Fs, n: int): Fs
    requires 0 <= n < |fs.files| && fs.bs > 0
  {
    var f := fs.files[n];
    fs.(bits := SetBit(fs.bits, No(f.dir, fs.bs), false),
        data := Put(fs.data, f.dir, Zeros(fs.bs)),
        files := fs.files[n := f.(dir := NONE)])
  }

  lemma TakeDirOk(fs: Fs, n: int, i: int)
    requires Core(fs) && 0 <= n < |fs.files| && 0 <= i < |fs.bits| && !fs.bits[i] && fs.files[n].dir == NONE
    ensures Core(TakeDir(fs, n, i)) && Took(fs, TakeDir(fs, n, i), n, Dir, i)
  {
    BitInDevice(fs, i);
    TookKeepsCore(fs, TakeDir(fs, n, i), n, Dir, i);
  }

  lemma TakeIndOk(fs: Fs, n: int, i: int)
    requires Core(fs) && 0 <= n < |fs.files| && 0 <= i < |fs.bits| && !fs.bits[i]
    requires fs.files[n].dir != NONE && fs.files[n].ind == NONE
    ensures Core(TakeInd(fs, n, i)) && Took(fs, TakeInd(fs, n, i), n, Ind, i)
  {
    BitInDevice(fs, i);
    assert Blank(Block(fs.data, fs.bs, i));
    TookKeepsCore(fs, TakeInd(fs, n, i), n, Ind, i);
  }

  /** The block a file's pointer block is. */
  lemma IndBlock(fs: Fs, m: int) returns (j: int)
    requires Core(fs) && 0 <= m < |fs.files| && fs.files[m].ind != NONE
    ensures Owns(fs, m, Ind, j) && fs.files[m].ind == Addr(j, fs.bs) && InDevice(fs.data, fs.bs, j) && fs.bits[j]
  {
    assert Has(fs.files[m], Ind);
    j :| Owns(fs, m, Ind, j);
    BitInDevice(fs, j);
    assert Owned(fs, j);
  }

  /** Pointers of a file are read from its pointer block alone. */
  lemma PtrFromBlock(fs: Fs, f: Fcb, j: int, k: int)
    requires InDevice(fs.data, fs.bs, j) && f.ind == Addr(j, fs.bs) && 0 <= k && INT_SIZE * (k + 1) <= fs.bs
    ensures Ptr(fs, f, Data(k)) == IntAt(Block(fs.data, fs.bs, j), INT_SIZE * k)
  {
    IntInBlock(fs.data, fs.bs, j, INT_SIZE * k);
  }

  lemma TailFromBlock(fs: Fs, f: Fcb, j: int)
    requires InDevice(fs.data, fs.bs, j) && f.ind == Addr(j, fs.bs) && 0 <= f.cant && INT_SIZE * f.cant <= fs.bs
    ensures |Block(fs.data, fs.bs, j)| == fs.bs
    ensures TailBlank(fs, f) <==> forall x :: INT_SIZE * f.cant <= x < fs.bs ==> Block(fs.data, fs.bs, j)[x] == 0
  {
    var a, b := INT_SIZE * f.cant, Block(fs.data, fs.bs, j);
    GetInBlock(fs.data, fs.bs, j, a, fs.bs - a);
    BlockByte(fs.data, fs.bs, j);
    var t := Get(b, a, fs.bs - a);
    assert forall x :: 0 <= x < |t| ==> t[x] == b[a + x];
    if Blank(t) {
      forall x | a <= x < fs.bs ensures b[x] == 0 { assert t[x - a] == 0; }
    }
  }

  /** A file whose pointer block did not change keeps its pointers and its blank tail. */
  lemma SamePointers(fs: Fs, fs': Fs, m: int)
    requires Core(fs) && 0 <= m < |fs.files| && fs'.bs == fs.bs && |fs'.data| == |fs.data|
    requires forall j {:trigger Block(fs'.data, fs.bs, j)} :: Owns(fs, m, Ind, j) ==> Block(fs'.data, fs.bs, j) == Block(fs.data, fs.bs, j)
    ensures forall r :: Has(fs.files[m], r) ==> Ptr(fs', fs.files[m], r) == Ptr(fs, fs.files[m], r)
    ensures TailBlank(fs', fs.files[m])
  {
    var f := fs.files[m];
    if f.ind != NONE {
      var j := IndBlock(fs, m);
      TailFromBlock(fs, f, j);
      TailFromBlock(fs', f, j);
      forall k | 0 <= k < f.cant ensures Ptr(fs', f, Data(k)) == Ptr(fs, f, Data(k)) {
        PtrFromBlock(fs, f, j, k);
        PtrFromBlock(fs', f, j, k);
      }
    }
  }

  /** A write to one slot of a pointer block: the pointers below it stay, so does the tail past it. */
  lemma SlotWritten(fs: Fs, fs': Fs, f: Fcb, j: int, k: int, v: seq<Byte>)
    requires InDevice(fs.data, fs.bs, j) && fs'.bs == fs.bs && |fs'.data| == |fs.data| && f.ind == Addr(j, fs.bs)
    requires 0 <= k && INT_SIZE * (k + 1) <= fs.bs && |v| == INT_SIZE
    requires Block(fs'.data, fs.bs, j) == Put(Block(fs.data, fs.bs, j), INT_SIZE * k, v)
    ensures forall l :: 0 <= l < k ==> Ptr(fs', f, Data(l)) == Ptr(fs, f, Data(l))
    ensures |Block(fs'.data, fs.bs, j)| == fs.bs == |Block(fs.data, fs.bs, j)|
    ensures forall x :: INT_SIZE * (k + 1) <= x < fs.bs ==> Block(fs'.data, fs.bs, j)[x] == Block(fs.data, fs.bs, j)[x]
  {
    BlockByte(fs.data, fs.bs, j);
    forall l | 0 <= l < k ensures Ptr(fs', f, Data(l)) == Ptr(fs, f, Data(l)) {
      PtrFromBlock(fs, f, j, l);
      PtrFromBlock(fs', f, j, l);
      PutElsewhere(Block(fs.data, fs.bs, j), INT_SIZE * k, v, INT_SIZE * l, INT_SIZE);
    }
  }

  /** A write inside block `j`, which no file but `n` uses, leaves the pointers of the others. */
  lemma OthersKeepPointers(fs: Fs, fs': Fs, n: int, m: int)
    requires Core(fs) && 0 <= n < |fs.files| && 0 <= m < |fs.files| && m != n && fs'.bs == fs.bs && |fs'.data| == |fs.data|
    requires forall b {:trigger Block(fs'.data, fs.bs, b)} :: 0 <= b < |fs.bits| && (forall r :: !Owns(fs, n, r, b)) && fs.bits[b] ==>
      Block(fs'.data, fs.bs, b) == Block(fs.data, fs.bs, b)
    ensures forall r :: Has(fs.files[m], r) ==> Ptr(fs', fs.files[m], r) == Ptr(fs, fs.files[m], r)
    ensures TailBlank(fs', fs.files[m])
  {
    forall j | Owns(fs, m, Ind, j) ensures Block(fs'.data, fs.bs, j) == Block(fs.data, fs.bs, j) {
      assert Owned(fs, j);
    }
    SamePointers(fs, fs', m);
  }

  lemma TakeDataBlocks(fs: Fs, n: int, i: int, j: int)
    requires Core(fs) && 0 <= n < |fs.files| && 0 <= i < |fs.bits| && !fs.bits[i] && Owns(fs, n, Ind, j)
    requires fs.files[n].ind != NONE && INT_SIZE * (fs.files[n].cant + 1) <= fs.bs
    ensures IsInt(Addr(i, fs.bs))
    ensures var d := TakeData(fs, n, i).data;
      && Block(d, fs.bs, j) == Put(Block(fs.data, fs.bs, j), INT_SIZE * fs.files[n].cant, EncInt(Addr(i, fs.bs)))
      && forall b {:trigger Block(d, fs.bs, b)} :: 0 <= b < |fs.bits| && b != j ==> Block(d, fs.bs, b) == Block(fs.data, fs.bs, b)
  {
    hide Core, Block, Put, Get, Addr;
    CoreFile(fs, n);
    BitInDevice(fs, i);
    BitInDevice(fs, j);
    var d := TakeData(fs, n, i).data;
    PutInBlock(fs.data, fs.bs, j, INT_SIZE * fs.files[n].cant, EncInt(Addr(i, fs.bs)));
    forall b | 0 <= b < |fs.bits| && b != j ensures Block(d, fs.bs, b) == Block(fs.data, fs.bs, b) { BitInDevice(fs, b); }
  }

  lemma TakeDataTook(fs: Fs, n: int, i: int, j: int)
    requires Core(fs) && 0 <= n < |fs.files| && 0 <= i < |fs.bits| && !fs.bits[i] && Owns(fs, n, Ind, j)
    requires fs.files[n].ind != NONE && INT_SIZE * (fs.files[n].cant + 1) <= fs.bs
    ensures IsInt(Addr(i, fs.bs)) && Took(fs, TakeData(fs, n, i), n, Data(fs.files[n].cant), i)
    ensures TailBlank(TakeData(fs, n, i), TakeData(fs, n, i).files[n])
  {
    hide Core, Put, Get, EncInt, Block, IntAt, Addr;
    CoreFile(fs, n);
    BitInDevice(fs, i);
    BitInDevice(fs, j);
    var f, fs' := fs.files[n], TakeData(fs, n, i);
    TakeDataBlocks(fs, n, i, j);
    SlotWritten(fs, fs', f, j, f.cant, EncInt(Addr(i, fs.bs)));
    TailFromBlock(fs, f, j);
    TailFromBlock(fs', fs'.files[n], j);
    PtrFromBlock(fs', f, j, f.cant);
    PutInt(Block(fs.data, fs.bs, j), INT_SIZE * f.cant, Addr(i, fs.bs));
    forall m | 0 <= m < |fs.files| && m != n
      ensures forall r :: Has(fs.files[m], r) ==> Ptr(fs', fs.files[m], r) == Ptr(fs, fs.files[m], r)
    {
      OthersKeepPointers(fs, fs', n, m);
    }
  }

  lemma TakeDataOk(fs: Fs, n: int, i: int)
    requires Core(fs) && 0 <= n < |fs.files| && 0 <= i < |fs.bits| && !fs.bits[i]
    requires fs.files[n].ind != NONE && INT_SIZE * (fs.files[n].cant + 1) <= fs.bs
    ensures IsInt(Addr(i, fs.bs))
    ensures Core(TakeData(fs, n, i)) && Took(fs, TakeData(fs, n, i), n, Data(fs.files[n].cant), i)
  {
    hide Core, Block, Took, TailBlank, Put, Get;
    CoreFile(fs, n);
    BitInDevice(fs, i);
    var j := IndBlock(fs, n);
    TakeDataBlocks(fs, n, i, j);
    TakeDataTook(fs, n, i, j);
    var fs' := TakeData(fs, n, i);
    forall m | 0 <= m < |fs.files| ensures TailBlank(fs', fs'.files[m]) {
      if m != n { OthersKeepPointers(fs, fs', n, m); }
    }
    TookKeepsCore(fs, fs', n, Data(fs.files[n].cant), i);
  }

  /** Wiping a whole block leaves it blank and the others as they are. */
  lemma Wiped(d: seq<Byte>, bs: int, i: int)
    requires InDevice(d, bs, i)
    ensures Blank(Block(Put(d, Addr(i, bs), Zeros(bs)), bs, i))
    ensures forall j {:trigger Block(Put(d, Addr(i, bs), Zeros(bs)), bs, j)} :: InDevice(d, bs, j) && j != i ==>
      Block(Put(d, Addr(i, bs), Zeros(bs)), bs, j) == Block(d, bs, j)
  {
    PutInBlock(d, bs, i, 0, Zeros(bs));
    BlockByte(d, bs, i);
  }

  lemma GiveDirOk(fs: Fs, n: int, i: int)
    requires Core(fs) && Owns(fs, n, Dir, i) && fs.files[n].ind == NONE
    ensures Core(GiveDir(fs, n)) && Gave(fs, GiveDir(fs, n), n, Dir, i)
    ensures forall m, r, b :: Owns(GiveDir(fs, n), m, r, b) <==> Owns(fs, m, r, b) && !(m == n && r == Dir)
    ensures forall b :: 0 <= b < |fs.bits| && b != i ==> Block(GiveDir(fs, n).data, fs.bs, b) == Block(fs.data, fs.bs, b)
  {
    hide Core, Block, Put, Get, Addr;
    CoreFile(fs, n);
    BitInDevice(fs, i);
    NoOfAddr(i, fs.bs);
    Wiped(fs.data, fs.bs, i);
    var fs' := GiveDir(fs, n);
    forall b | 0 <= b < |fs.bits| && b != i ensures Block(fs'.data, fs.bs, b) == Block(fs.data, fs.bs, b) { BitInDevice(fs, b); }
    assert Owned(fs, i);
    BitOfOwned(fs, i);
    forall m | 0 <= m < |fs.files| && m != n
      ensures (forall r :: Has(fs.files[m], r) ==> Ptr(fs', fs.files[m], r) == Ptr(fs, fs.files[m], r)) && TailBlank(fs', fs.files[m])
    {
      OthersKeepPointers(fs, fs', n, m);
    }
    GaveKeepsCore(fs, fs', n, Dir, i);
  }

  lemma BitOfOwned(fs: Fs, b: int)
    requires Core(fs) && 0 <= b < |fs.bits|
    ensures fs.bits[b] <==> Owned(fs, b)
    ensures !fs.bits[b] ==> Blank(Block(fs.data, fs.bs, b))
  {
  }

  lemma UniqueOwner(fs: Fs, n: int, r: Role, m: int, s: Role, b: int)
    requires Core(fs) && Owns(fs, n, r, b) && Owns(fs, m, s, b)
    ensures n == m && r == s
  {
  }

  /** Giving back an empty pointer block: its bytes are zero already, slot by slot. */
  lemma GiveIndOk(fs: Fs, n: int, j: int)
    requires Core(fs) && Owns(fs, n, Ind, j) && fs.files[n].cant == 0
    ensures Core(GiveInd(fs, n)) && Gave(fs, GiveInd(fs, n), n, Ind, j)
    ensures forall m, r, b :: Owns(GiveInd(fs, n), m, r, b) <==> Owns(fs, m, r, b) && !(m == n && r == Ind)
  {
    hide Core, Block, Put, Get, Addr;
    CoreFile(fs, n);
    BitInDevice(fs, j);
    NoOfAddr(j, fs.bs);
    TailFromBlock(fs, fs.files[n], j);
    assert Owned(fs, j);
    BitOfOwned(fs, j);
    var fs' := GiveInd(fs, n);
    forall m | 0 <= m < |fs.files| && m != n ensures TailBlank(fs', fs.files[m]) { CoreFile(fs, m); }
    GaveKeepsCore(fs, fs', n, Ind, j);
  }

  /** The blocks after block `i` was wiped and then slot `k` of block `j` was cleared. */
  lemma WipedAndCleared(d: seq<Byte>, bs: int, i: int, j: int, k: int)
    requires InDevice(d, bs, i) && InDevice(d, bs, j) && i != j && 0 <= k && INT_SIZE * (k + 1) <= bs
    ensures var d' := Put(Put(d, Addr(i, bs), Zeros(bs)), Addr(j, bs) + INT_SIZE * k, Zeros(INT_SIZE));
      && Block(d', bs, j) == Put(Block(d, bs, j), INT_SIZE * k, Zeros(INT_SIZE))
      && Blank(Block(d', bs, i))
      && forall b {:trigger Block(d', bs, b)} :: InDevice(d, bs, b) && b != i && b != j ==> Block(d', bs, b) == Block(d, bs, b)
  {
    hide Block, Put, Get, Addr;
    Wiped(d, bs, i);
    var d1 := Put(d, Addr(i, bs), Zeros(bs));
    assert forall b :: InDevice(d1, bs, b) <==> InDevice(d, bs, b);
    PutInBlock(d1, bs, j, INT_SIZE * k, Zeros(INT_SIZE));
  }

  /** The two blocks involved when the last data block goes back, and what becomes of them. */
  lemma GiveDataBlocks(fs: Fs, n: int) returns (i: int, j: int)
    requires Core(fs) && 0 <= n < |fs.files| && fs.files[n].ind != NONE && fs.files[n].cant > 0
    ensures i != j && Owns(fs, n, Ind, j) && Owns(fs, n, Data(fs.files[n].cant - 1), i) && fs.bs > 0
    ensures var d := GiveData(fs, n).data;
      && |d| == |fs.data|
      && Block(d, fs.bs, j) == Put(Block(fs.data, fs.bs, j), INT_SIZE * (fs.files[n].cant - 1), Zeros(INT_SIZE))
      && Blank(Block(d, fs.bs, i))
      && forall b {:trigger Block(d, fs.bs, b)} :: 0 <= b < |fs.bits| && b != i && b != j ==> Block(d, fs.bs, b) == Block(fs.data, fs.bs, b)
  {
    CoreFile(fs, n);
    j := IndBlock(fs, n);
    assert Has(fs.files[n], Data(fs.files[n].cant - 1));
    i :| Owns(fs, n, Data(fs.files[n].cant - 1), i);
    if i == j { UniqueOwner(fs, n, Ind, n, Data(fs.files[n].cant - 1), j); }
    hide Core, Block, Put, Get, Addr;
    forall b | 0 <= b < |fs.bits| ensures InDevice(fs.data, fs.bs, b) { BitInDevice(fs, b); }
    WipedAndCleared(fs.data, fs.bs, i, j, fs.files[n].cant - 1);
  }

  /** Clearing the last slot keeps the tail of the pointer block blank. */
  lemma ClearedTail(fs: Fs, fs': Fs, f: Fcb, j: int)
    requires InDevice(fs.data, fs.bs, j) && fs'.bs == fs.bs && |fs'.data| == |fs.data| && f.ind == Addr(j, fs.bs)
    requires f.ind != NONE && 0 < f.cant && INT_SIZE * f.cant <= fs.bs && TailBlank(fs, f)
    requires Block(fs'.data, fs.bs, j) == Put(Block(fs.data, fs.bs, j), INT_SIZE * (f.cant - 1), Zeros(INT_SIZE))
    ensures TailBlank(fs', f.(cant := f.cant - 1))
  {
    hide Block, Get, Addr;
    var k := f.cant - 1;
    SlotWritten(fs, fs', f, j, k, Zeros(INT_SIZE));
    TailFromBlock(fs, f, j);
    TailFromBlock(fs', f.(cant := k), j);
    assert forall x :: INT_SIZE * k <= x < INT_SIZE * (k + 1) ==> Block(fs'.data, fs.bs, j)[x] == 0;
  }

  lemma GiveDataGave(fs: Fs, n: int) returns (i: int, j: int)
    requires Core(fs) && 0 <= n < |fs.files| && fs.files[n].ind != NONE && fs.files[n].cant > 0
    ensures i != j && Owns(fs, n, Ind, j) && Owns(fs, n, Data(fs.files[n].cant - 1), i) && fs.bs > 0
    ensures Gave(fs, GiveData(fs, n), n, Data(fs.files[n].cant - 1), i)
    ensures TailBlank(GiveData(fs, n), GiveData(fs, n).files[n]) && Blank(Block(GiveData(fs, n).data, fs.bs, i))
    ensures var d := GiveData(fs, n).data;
      && Block(d, fs.bs, j) == Put(Block(fs.data, fs.bs, j), INT_SIZE * (fs.files[n].cant - 1), Zeros(INT_SIZE))
      && forall b {:trigger Block(d, fs.bs, b)} :: 0 <= b < |fs.bits| && b != i && b != j ==> Block(d, fs.bs, b) == Block(fs.data, fs.bs, b)
  {
    hide Core, Block, Get, Addr, IntAt, Put;
    CoreFile(fs, n);
    i, j := GiveDataBlocks(fs, n);
    BitInDevice(fs, i);
    BitInDevice(fs, j);
    NoOfAddr(i, fs.bs);
    var f, fs' := fs.files[n], GiveData(fs, n);
    SlotWritten(fs, fs', f, j, f.cant - 1, Zeros(INT_SIZE));
    ClearedTail(fs, fs', f, j);
    forall m | 0 <= m < |fs.files| && m != n
      ensures forall r :: Has(fs.files[m], r) ==> Ptr(fs', fs.files[m], r) == Ptr(fs, fs.files[m], r)
    {
      OthersKeepPointers(fs, fs', n, m);
    }
  }

  lemma GiveDataOk(fs: Fs, n: int) returns (i: int, j: int)
    requires Core(fs) && 0 <= n < |fs.files| && fs.files[n].ind != NONE && fs.files[n].cant > 0
    ensures i != j && Owns(fs, n, Ind, j) && Owns(fs, n, Data(fs.files[n].cant - 1), i) && fs.bs > 0
    ensures Core(GiveData(fs, n)) && Gave(fs, GiveData(fs, n), n, Data(fs.files[n].cant - 1), i)
    ensures forall m, r, b :: Owns(GiveData(fs, n), m, r, b) <==> Owns(fs, m, r, b) && !(m == n && r == Data(fs.files[n].cant - 1))
    ensures var d := GiveData(fs, n).data;
      && Block(d, fs.bs, j) == Put(Block(fs.data, fs.bs, j), INT_SIZE * (fs.files[n].cant - 1), Zeros(INT_SIZE))
      && forall b {:trigger Block(d, fs.bs, b)} :: 0 <= b < |fs.bits| && b != i && b != j ==> Block(d, fs.bs, b) == Block(fs.data, fs.bs, b)
  {
    hide Core, Block, Put, Get, Addr, Gave, TailBlank;
    CoreFile(fs, n);
    i, j := GiveDataGave(fs, n);
    var fs' := GiveData(fs, n);
    assert Owned(fs, j);
    BitOfOwned(fs, j);
    assert Owned(fs, i);
    BitOfOwned(fs, i);
    forall m | 0 <= m < |fs.files| ensures TailBlank(fs', fs'.files[m]) {
      if m != n { OthersKeepPointers(fs, fs', n, m); }
    }
    GaveKeepsCore(fs, fs', n, Data(fs.files[n].cant - 1), i);
  }
}
