/** Reading and writing files through the block pointers. */
module FileIo {
  import opened Sums
  import opened Wire
  import opened Disk
  import opened FileSystem
  import opened Files
  import opened Truncate

  /** The request crosses into a second block. The code's test is `>=`, so a range that ends on the
      last byte of its block already counts as crossing. */
  predicate Crosses(offset: int, bytes: int, bs: int) { offset + bytes >= bs }

  /** Bytes of a crossing request that go to the first block: the block's last byte is skipped. */
  function FirstBytes(offset: int, bytes: int, bs: int): int { bytes - (offset + bytes - bs + 1) }

  /** `escribirArchivo` with the bytes memory sent; answer 1, or -1 when there is no such file. */
  function Escribir(fs: Fs, name: string, v: seq<Byte>, puntero: int): (Fs, int)
    requires DeviceOk(fs) && puntero >= 0
  {
    match IndexOf(fs, name)
    case None => (fs, -1)
    case Some(n) =>
      var f, number, offset := fs.files[n], puntero / fs.bs, puntero % fs.bs;
      if Crosses(offset, |v|, fs.bs) then
        var first := FirstBytes(offset, |v|, fs.bs);
        (fs.(data := Put(Put(fs.data, PointerOf(fs, f, number) + offset, v[..first]),
                         PointerOf(fs, f, number + 1), v[first..])), 1)
      else (fs.(data := Put(fs.data, PointerOf(fs, f, number) + offset, v)), 1)
  }

  /** `leerArchivo`: the bytes sent to memory. */
  function Leer(fs: Fs, name: string, bytes: int, puntero: int): Option<seq<Byte>>
    requires DeviceOk(fs) && puntero >= 0
  {
    match IndexOf(fs, name)
    case None => None
    case Some(n) =>
      var f, number, offset := fs.files[n], puntero / fs.bs, puntero % fs.bs;
      if Crosses(offset, bytes, fs.bs) then
        var first := FirstBytes(offset, bytes, fs.bs);
        Some(Get(fs.data, PointerOf(fs, f, number) + offset, first)
           + Get(fs.data, PointerOf(fs, f, number + 1), bytes - first))
      else Some(Get(fs.data, PointerOf(fs, f, number) + offset, bytes))
  }

  /** The file has the blocks the request touches, at most two. */
  predicate InRange(fs: Fs, n: int, bytes: int, puntero: int)
    requires fs.bs > 0 && 0 <= n < |fs.files|
  {
    var number, offset := puntero / fs.bs, puntero % fs.bs;
    && 0 <= puntero && 0 <= bytes && offset + bytes <= 2 * fs.bs - 1
    && number < NumData(fs.files[n]) && (Crosses(offset, bytes, fs.bs) ==> number + 1 < NumData(fs.files[n]))
  }

  // ----- writing inside one data block -----

  /** One `escribirBloque` at data block `j`. */
  function WriteBlock(fs: Fs, n: int, j: nat, off: int, v: seq<Byte>): Fs
    requires 0 <= n < |fs.files|
  {
    fs.(data := Put(fs.data, PointerOf(fs, fs.files[n], j) + off, v))
  }

  /** A change confined to data blocks of file `n` keeps every pointer and the invariant. */
  lemma DataChangeKeepsCore(fs: Fs, fs': Fs, n: int, b: int, j: nat)
    requires Core(fs) && fs' == fs.(data := fs'.data) && |fs'.data| == |fs.data| && Owns(fs, n, RoleOf(j), b)
    requires forall c {:trigger Block(fs'.data, fs.bs, c)} :: 0 <= c < |fs.bits| && c != b ==>
      Block(fs'.data, fs.bs, c) == Block(fs.data, fs.bs, c)
    ensures Core(fs')
    ensures forall m, r :: 0 <= m < |fs.files| && Has(fs.files[m], r) ==> Ptr(fs', fs.files[m], r) == Ptr(fs, fs.files[m], r)
  {
    hide Core, Block, Get;
    forall m | 0 <= m < |fs.files|
      ensures (forall r :: Has(fs.files[m], r) ==> Ptr(fs', fs.files[m], r) == Ptr(fs, fs.files[m], r)) && TailBlank(fs', fs.files[m])
    {
      forall c | Owns(fs, m, Ind, c) ensures c != b { if c == b { UniqueOwner(fs, m, Ind, n, RoleOf(j), b); } }
      SamePointers(fs, fs', m);
    }
    assert forall m, r, c :: Owns(fs', m, r, c) <==> Owns(fs, m, r, c);
    assert Owned(fs, b);
    BitOfOwned(fs, b);
    forall m | 0 <= m < |fs.files| ensures Shape(fs.files[m], fs.bs) { CoreFile(fs, m); }
    SameOwners(fs, fs');
  }

  lemma WriteBlockEffect(fs: Fs, n: int, j: nat, off: int, v: seq<Byte>)
    requires Core(fs) && 0 <= n < |fs.files| && j < NumData(fs.files[n]) && 0 <= off && off + |v| <= fs.bs
    ensures var fs' := WriteBlock(fs, n, j, off, v);
      && Core(fs') && Elsewhere(fs, fs', n) && |Content(fs, n)| == NumData(fs.files[n])
      && Content(fs', n) == Content(fs, n)[j := Put(Content(fs, n)[j], off, v)]
      && (forall m, c :: Owns(fs, m, Ind, c) ==> Block(fs'.data, fs.bs, c) == Block(fs.data, fs.bs, c))
      && (forall k :: 0 <= k < NumData(fs.files[n]) ==> PointerOf(fs', fs.files[n], k) == PointerOf(fs, fs.files[n], k))
  {
    hide Core, Get, Put, Block;
    CoreFile(fs, n);
    ContentSize(fs, n);
    var b := PointerOwned(fs, n, j);
    var f, fs' := fs.files[n], WriteBlock(fs, n, j, off, v);
    PutInBlock(fs.data, fs.bs, b, off, v);
    forall c | 0 <= c < |fs.bits| && c != b ensures Block(fs'.data, fs.bs, c) == Block(fs.data, fs.bs, c) { BitInDevice(fs, c); }
    DataChangeKeepsCore(fs, fs', n, b, j);
    OthersKeepContent(fs, fs', n);
    forall m, c | Owns(fs, m, Ind, c) ensures Block(fs'.data, fs.bs, c) == Block(fs.data, fs.bs, c) {
      if c == b { UniqueOwner(fs, m, Ind, n, RoleOf(j), b); }
    }
    forall k | 0 <= k < NumData(f) ensures PointerOf(fs', f, k) == PointerOf(fs, f, k) { assert Has(f, RoleOf(k)); }
    hide Content;
    ContentSize(fs', n);
    forall k | 0 <= k < NumData(f) ensures Content(fs', n)[k] == if k == j then Put(Content(fs, n)[j], off, v) else Content(fs, n)[k] {
      OneBlockWritten(fs, fs', n, b, j, k);
    }
  }

  lemma OneBlockWritten(fs: Fs, fs': Fs, n: int, b: int, j: nat, k: nat)
    requires Core(fs) && Core(fs') && fs' == fs.(data := fs'.data) && Owns(fs, n, RoleOf(j), b) && PointerOf(fs, fs.files[n], j) == Addr(b, fs.bs)
    requires j < NumData(fs.files[n]) && k < NumData(fs.files[n])
    requires PointerOf(fs', fs.files[n], k) == PointerOf(fs, fs.files[n], k)
    requires forall c {:trigger Block(fs'.data, fs.bs, c)} :: 0 <= c < |fs.bits| && c != b ==>
      Block(fs'.data, fs.bs, c) == Block(fs.data, fs.bs, c)
    ensures k < |Content(fs, n)| && k < |Content(fs', n)|
    ensures k != j ==> Content(fs', n)[k] == Content(fs, n)[k]
    ensures k == j ==> Content(fs', n)[k] == Block(fs'.data, fs.bs, b) && Content(fs, n)[k] == Block(fs.data, fs.bs, b)
  {
    hide Core, Content, Get, RoleOf, PointerOf, Addr, Has, Ptr;
    ContentAt(fs, n, k);
    ContentAt(fs', n, k);
    var c := PointerOwned(fs, n, k);
    if c == b { UniqueOwner(fs, n, RoleOf(j), n, RoleOf(k), b); RoleIsInjective(j, k); }
    if k == j { OneBlock(fs, n, RoleOf(j), b, c); } else { assert Block(fs'.data, fs.bs, c) == Block(fs.data, fs.bs, c); }
  }

  lemma RoleIsInjective(j: nat, k: nat)
    ensures RoleOf(j) == RoleOf(k) ==> j == k
  {
  }

  lemma ContentAt(fs: Fs, n: int, k: nat)
    requires Core(fs) && 0 <= n < |fs.files| && k < NumData(fs.files[n])
    ensures DeviceOk(fs) && k < |Content(fs, n)|
    ensures Content(fs, n)[k] == Get(fs.data, PointerOf(fs, fs.files[n], k), fs.bs)
  {
    hide Core, Get, PointerOf;
    CoreFile(fs, n);
  }

  // ----- the whole request -----

  /** Where a write lands: at most two blocks change, the second from its start. */
  function Written(c: seq<seq<Byte>>, number: int, offset: int, v: seq<Byte>, bs: int): seq<seq<Byte>>
    requires 0 <= number < |c| && 0 <= offset < bs && offset + |v| <= 2 * bs - 1
    requires Crosses(offset, |v|, bs) ==> number + 1 < |c|
  {
    if Crosses(offset, |v|, bs) then
      var first := FirstBytes(offset, |v|, bs);
      c[number := Put(c[number], offset, v[..first])][number + 1 := Put(c[number + 1], 0, v[first..])]
    else c[number := Put(c[number], offset, v)]
  }

  lemma PlaceOf(puntero: int, bs: int)
    requires bs > 0 && puntero >= 0
    ensures puntero / bs >= 0 && 0 <= puntero % bs < bs && puntero == puntero / bs * bs + puntero % bs
    ensures NextBlock(puntero, bs) == puntero - puntero % bs + bs
  {
    assert (puntero / bs + 1) * bs == puntero / bs * bs + bs;
  }

  /** Where, in a flat file, the block after the one `puntero` is in starts. */
  function NextBlock(puntero: int, bs: int): int
    requires bs > 0
  {
    (puntero / bs + 1) * bs
  }

  /** A write in range changes the named bytes of its file and nothing else: no control block, no
      bitmap bit, no pointer block, no other file. */
  lemma WriteEffect(fs: Fs, name: string, v: seq<Byte>, puntero: int, n: int)
    requires FsInv(fs) && IndexOf(fs, name) == Some(n) && InRange(fs, n, |v|, puntero)
    ensures var fs' := Escribir(fs, name, v, puntero).0;
      && Escribir(fs, name, v, puntero).1 == 1
      && FsInv(fs') && fs' == fs.(data := fs'.data) && Elsewhere(fs, fs', n)
      && 0 <= puntero / fs.bs && |Content(fs, n)| == NumData(fs.files[n])
      && Content(fs', n) == Written(Content(fs, n), puntero / fs.bs, puntero % fs.bs, v, fs.bs)
      && (forall m, c :: Owns(fs, m, Ind, c) ==> Block(fs'.data, fs.bs, c) == Block(fs.data, fs.bs, c))
      && (forall k :: 0 <= k < NumData(fs.files[n]) ==> PointerOf(fs', fs.files[n], k) == PointerOf(fs, fs.files[n], k))
  {
    hide Core, Content, IndexOf, Ptr, Put, Block, PointerOf, Backed, Elsewhere;
    PlaceOf(puntero, fs.bs);
    ContentSize(fs, n);
    var number, offset := puntero / fs.bs, puntero % fs.bs;
    if Crosses(offset, |v|, fs.bs) {
      var first := FirstBytes(offset, |v|, fs.bs);
      WriteBlockEffect(fs, n, number, offset, v[..first]);
      var fs1 := WriteBlock(fs, n, number, offset, v[..first]);
      WriteBlockEffect(fs1, n, number + 1, 0, v[first..]);
      SecondWrite(fs, fs1, WriteBlock(fs1, n, number + 1, 0, v[first..]), n);
    } else {
      WriteBlockEffect(fs, n, number, offset, v);
    }
  }

  /** A write is answered -1 exactly when no file has the name, and 1 otherwise; a read then gets no bytes.
      Nothing changes when there is no such file, and no control block and no bit of the bitmap ever does. */
  lemma MissingFile(fs: Fs, name: string, v: seq<Byte>, bytes: int, puntero: int)
    requires DeviceOk(fs) && puntero >= 0
    ensures var (fs', answer) := Escribir(fs, name, v, puntero);
      && (answer == 1 || answer == -1) && fs' == fs.(data := fs'.data) && |fs'.data| == |fs.data|
      && (answer == -1 <==> forall i :: 0 <= i < |fs.files| ==> fs.files[i].nombre != name)
      && (answer == -1 ==> fs' == fs) && (Leer(fs, name, bytes, puntero).None? <==> answer == -1)
  {
    hide PointerOf;
  }

  lemma SecondWrite(fs: Fs, fs1: Fs, fs2: Fs, n: int)
    requires fs1 == fs.(data := fs1.data) && fs2 == fs.(data := fs2.data)
    requires Elsewhere(fs, fs1, n) && Elsewhere(fs1, fs2, n) && Core(fs) && Core(fs1)
    ensures Elsewhere(fs, fs2, n)
    ensures forall m, c :: Owns(fs, m, Ind, c) <==> Owns(fs1, m, Ind, c)
  {
    hide Core, Content;
  }

  lemma ReadsContent(fs: Fs, n: int, j: nat, off: int, len: int)
    requires Core(fs) && 0 <= n < |fs.files| && j < NumData(fs.files[n]) && 0 <= off && 0 <= len && off + len <= fs.bs
    ensures j < |Content(fs, n)|
    ensures Get(fs.data, PointerOf(fs, fs.files[n], j) + off, len) == Get(Content(fs, n)[j], off, len)
  {
    hide Core, Get, Content;
    CoreFile(fs, n);
    ContentSize(fs, n);
    var b := PointerOwned(fs, n, j);
    GetInBlock(fs.data, fs.bs, b, off, len);
  }

  lemma GetPut(d: seq<Byte>, at: int, v: seq<Byte>)
    requires 0 <= at && at + |v| <= |d|
    ensures Get(Put(d, at, v), at, |v|) == v
  {
  }

  /** `leerArchivo` in terms of the file's blocks. */
  lemma ReadIsContent(fs: Fs, name: string, bytes: int, puntero: int, n: int)
    requires FsInv(fs) && IndexOf(fs, name) == Some(n) && InRange(fs, n, bytes, puntero)
    ensures var number, offset, c := puntero / fs.bs, puntero % fs.bs, Content(fs, n);
      && 0 <= number < |c| && (Crosses(offset, bytes, fs.bs) ==> number + 1 < |c|)
      && Leer(fs, name, bytes, puntero) == Some(
           if Crosses(offset, bytes, fs.bs) then
             Get(c[number], offset, FirstBytes(offset, bytes, fs.bs)) + Get(c[number + 1], 0, bytes - FirstBytes(offset, bytes, fs.bs))
           else Get(c[number], offset, bytes))
  {
    hide Core, Content, IndexOf, PointerOf, Backed, Get;
    PlaceOf(puntero, fs.bs);
    ContentSize(fs, n);
    var number, offset := puntero / fs.bs, puntero % fs.bs;
    if Crosses(offset, bytes, fs.bs) {
      var first := FirstBytes(offset, bytes, fs.bs);
      ReadsContent(fs, n, number, offset, first);
      ReadsContent(fs, n, number + 1, 0, bytes - first);
    } else {
      ReadsContent(fs, n, number, offset, bytes);
    }
  }

  /** Reading where `Written` wrote gives back the bytes. */
  lemma WrittenReadsBack(c: seq<seq<Byte>>, number: int, offset: int, v: seq<Byte>, bs: int)
    requires 0 <= number < |c| && 0 <= offset < bs && offset + |v| <= 2 * bs - 1 && |c[number]| == bs
    requires Crosses(offset, |v|, bs) ==> number + 1 < |c| && |c[number + 1]| == bs
    ensures var w := Written(c, number, offset, v, bs);
      (if Crosses(offset, |v|, bs) then
         Get(w[number], offset, FirstBytes(offset, |v|, bs)) + Get(w[number + 1], 0, |v| - FirstBytes(offset, |v|, bs))
       else Get(w[number], offset, |v|)) == v
  {
    hide Get, Put;
    if Crosses(offset, |v|, bs) {
      var first := FirstBytes(offset, |v|, bs);
      GetPut(c[number], offset, v[..first]);
      GetPut(c[number + 1], 0, v[first..]);
      assert v[..first] + v[first..] == v;
    } else {
      GetPut(c[number], offset, v);
    }
  }

  /** Reading a range back after writing it returns the bytes written. */
  lemma ReadAfterWrite(fs: Fs, name: string, v: seq<Byte>, puntero: int, n: int)
    requires FsInv(fs) && IndexOf(fs, name) == Some(n) && InRange(fs, n, |v|, puntero)
    ensures DeviceOk(Escribir(fs, name, v, puntero).0)
    ensures Leer(Escribir(fs, name, v, puntero).0, name, |v|, puntero) == Some(v)
  {
    hide Core, Content, IndexOf, Elsewhere, Get, Escribir, Leer, Written, Backed, PointerOf, Block, Owns;
    WriteEffect(fs, name, v, puntero, n);
    PlaceOf(puntero, fs.bs);
    var fs' := Escribir(fs, name, v, puntero).0;
    SameNames(fs, fs', name);
    ReadIsContent(fs', name, |v|, puntero, n);
    BlockSizes(fs, n, puntero / fs.bs);
    if Crosses(puntero % fs.bs, |v|, fs.bs) { BlockSizes(fs, n, puntero / fs.bs + 1); }
    WrittenReadsBack(Content(fs, n), puntero / fs.bs, puntero % fs.bs, v, fs.bs);
  }

  lemma SameNames(fs: Fs, fs': Fs, name: string)
    requires fs'.files == fs.files
    ensures IndexOf(fs', name) == IndexOf(fs, name)
  {
  }

  lemma BlockSizes(fs: Fs, n: int, j: nat)
    requires Core(fs) && 0 <= n < |fs.files| && j < NumData(fs.files[n])
    ensures j < |Content(fs, n)| && |Content(fs, n)[j]| == fs.bs
  {
    hide Core, Content;
    CoreFile(fs, n);
    ContentSize(fs, n);
    var b := PointerOwned(fs, n, j);
    BlockByte(fs.data, fs.bs, b);
  }
}
