/** The packet formats the modules exchange: integers, length-prefixed blocks, lists of them. */
module Wire {
  import opened Memory

  type Byte = x: int | 0 <= x < 256

  const INT_SIZE := 4
  const TWO_32 := 0x1_0000_0000
  const MAX_INT := 0x7fff_ffff
  const CPU_REGISTERS := 12

  predicate IsInt(x: int) { -MAX_INT - 1 <= x <= MAX_INT }

  /** The four bytes of an `int`, least significant first, negative numbers in two's complement. */
  function EncInt(x: int): (r: seq<Byte>)
    requires IsInt(x)
    ensures |r| == INT_SIZE
  {
    var u := if x < 0 then x + TWO_32 else x;
    var u1 := u / 256;
    var u2 := u1 / 256;
    [u % 256, u1 % 256, u2 % 256, u2 / 256]
  }

  function DecInt(b: seq<Byte>): (x: int)
    requires |b| == INT_SIZE
    ensures IsInt(x)
  {
    var u := (b[0] as int) + 256 * ((b[1] as int) + 256 * ((b[2] as int) + 256 * (b[3] as int)));
    if u > MAX_INT then u - TWO_32 else u
  }

  lemma IntRoundTrip(x: int)
    requires IsInt(x)
    ensures DecInt(EncInt(x)) == x
  {
    var b := EncInt(x);
    var u := if x < 0 then x + TWO_32 else x;
    var u1 := u / 256;
    var u2 := u1 / 256;
    assert b[0] == u % 256 && b[1] == u1 % 256 && b[2] == u2 % 256 && b[3] == u2 / 256;
    assert u2 == b[2] + 256 * (b[3] as int) && u1 == b[1] + 256 * u2 && u == b[0] + 256 * u1;
  }

  /** A read either stops at the end of the buffer or yields a value and the next offset. */
  datatype Read<+T> = OutOfBounds | Got(value: T, next: nat) {
    predicate IsFailure() { OutOfBounds? }
    function PropagateFailure<U>(): Read<U> requires OutOfBounds? { OutOfBounds }
    function Extract(): (T, nat) requires Got? { (value, next) }
  }

  // ----- encoders -----

  /** `agregar_a_paquete`: the size, then the bytes. */
  function EncBlock(v: seq<Byte>): seq<Byte>
    requires |v| <= MAX_INT
  {
    EncInt(|v|) + v
  }

  /** A C string without its terminator: no zero byte inside. */
  predicate IsString(s: seq<Byte>) { |s| < MAX_INT && forall i :: 0 <= i < |s| ==> s[i] != 0 }

  predicate AreStrings(l: seq<seq<Byte>>) { |l| <= MAX_INT && forall i :: 0 <= i < |l| ==> IsString(l[i]) }

  function EncStrings(l: seq<seq<Byte>>): seq<Byte>
    requires forall i :: 0 <= i < |l| ==> IsString(l[i])
  {
    if l == [] then []
    else
      assert IsString(l[|l| - 1]);
      EncStrings(l[..|l| - 1]) + EncBlock(l[|l| - 1] + [0])
  }

  /** `empaquetar_lista`: the count, then each string with its terminator. */
  function EncList(l: seq<seq<Byte>>): seq<Byte>
    requires AreStrings(l)
  {
    EncInt(|l|) + EncStrings(l)
  }

  predicate IsSeg(s: Seg) { IsInt(s.id) && IsInt(s.base) && IsInt(s.limite) }

  predicate IsTable(t: seq<Seg>) { |t| <= MAX_INT && forall i :: 0 <= i < |t| ==> IsSeg(t[i]) }

  function EncSeg(s: Seg): seq<Byte>
    requires IsSeg(s)
  {
    EncInt(s.id) + EncInt(s.base) + EncInt(s.limite)
  }

  function EncSegs(t: seq<Seg>): seq<Byte>
    requires forall i :: 0 <= i < |t| ==> IsSeg(t[i])
  {
    if t == [] then [] else EncSegs(t[..|t| - 1]) + EncSeg(t[|t| - 1])
  }

  /** `empaquetar_lista_segmentos`: the count, then the triples. */
  function EncTable(t: seq<Seg>): seq<Byte>
    requires IsTable(t)
  {
    EncInt(|t|) + EncSegs(t)
  }

  datatype Context = Context(
    pid: int, instrucciones: seq<seq<Byte>>, programCounter: int,
    registros: seq<seq<Byte>>, parametros: seq<seq<Byte>>, tabla: seq<Seg>)

  predicate IsContext(c: Context) {
    && IsInt(c.pid) && IsInt(c.programCounter)
    && AreStrings(c.instrucciones) && AreStrings(c.registros) && AreStrings(c.parametros)
    && |c.registros| == CPU_REGISTERS && IsTable(c.tabla)
  }

  /** The second half of a context: registers, parameters and segment table. */
  function EncTail(c: Context): seq<Byte>
    requires IsContext(c)
  {
    EncStrings(c.registros) + (EncList(c.parametros) + EncTable(c.tabla))
  }

  function EncContext(c: Context): seq<Byte>
    requires IsContext(c)
  {
    EncBlock(EncInt(c.pid)) + (EncList(c.instrucciones) + (EncBlock(EncInt(c.programCounter)) + EncTail(c)))
  }

  /** `serializar_paquete`: operation code, stream size, stream. */
  function Serialize(op: int, stream: seq<Byte>): seq<Byte>
    requires IsInt(op) && |stream| <= MAX_INT
  {
    EncInt(op) + (EncInt(|stream|) + stream)
  }

  /** The compaction broadcast: number of tables, then each PID with its table. */
  function EncTables(l: seq<(int, seq<Seg>)>): seq<Byte>
    requires forall i :: 0 <= i < |l| ==> IsInt(l[i].0) && IsTable(l[i].1)
  {
    if l == [] then []
    else EncTables(l[..|l| - 1]) + (EncInt(l[|l| - 1].0) + EncTable(l[|l| - 1].1))
  }

  predicate AreTables(l: seq<(int, seq<Seg>)>) {
    |l| <= MAX_INT && forall i :: 0 <= i < |l| ==> IsInt(l[i].0) && IsTable(l[i].1)
  }

  function EncBroadcast(l: seq<(int, seq<Seg>)>): seq<Byte>
    requires AreTables(l)
  {
    EncInt(|l|) + EncTables(l)
  }

  // ----- decoders: a cursor over the received buffer -----

  function ReadInt(b: seq<Byte>, off: nat): (r: Read<int>)
    ensures r.Got? ==> r.next == off + INT_SIZE <= |b|
  {
    if off + INT_SIZE <= |b| then Got(DecInt(b[off..off + INT_SIZE]), off + INT_SIZE) else OutOfBounds
  }

  /** A size and that many bytes. */
  function ReadBlock(b: seq<Byte>, off: nat): (r: Read<seq<Byte>>)
    ensures r.Got? ==> off < r.next <= |b|
  {
    var (n, o) :- ReadInt(b, off);
    if 0 <= n && o + n <= |b| then Got(b[o..o + n], o + n) else OutOfBounds
  }

  /** The bytes of a block up to its terminator; without one the reader would leave the block. */
  function StringOf(raw: seq<Byte>): Read<seq<Byte>> {
    if raw == [] then OutOfBounds
    else if raw[0] == 0 then Got([], 0)
    else
      var (s, _) :- StringOf(raw[1..]);
      Got([raw[0]] + s, 0)
  }

  function ReadString(b: seq<Byte>, off: nat): (r: Read<seq<Byte>>)
    ensures r.Got? ==> off < r.next <= |b|
  {
    var (raw, o) :- ReadBlock(b, off);
    var (s, _) :- StringOf(raw);
    Got(s, o)
  }

  /** `n` strings in a row, appended to `acc` as the loop reads them. */
  function ReadStrings(b: seq<Byte>, off: nat, n: int, acc: seq<seq<Byte>>): (r: Read<seq<seq<Byte>>>)
    decreases n
  {
    if n <= 0 then Got(acc, off)
    else
      var (s, o) :- ReadString(b, off);
      ReadStrings(b, o, n - 1, acc + [s])
  }

  function ReadList(b: seq<Byte>, off: nat): Read<seq<seq<Byte>>> {
    var (n, o) :- ReadInt(b, off);
    ReadStrings(b, o, n, [])
  }

  /** An `int` sent as a block; any other block size would overrun or leave part of it unset. */
  function ReadScalar(b: seq<Byte>, off: nat): Read<int> {
    var (n, o) :- ReadInt(b, off);
    if n == INT_SIZE then ReadInt(b, o) else OutOfBounds
  }

  function ReadSeg(b: seq<Byte>, off: nat): Read<Seg> {
    var (id, o1) :- ReadInt(b, off);
    var (base, o2) :- ReadInt(b, o1);
    var (limite, o3) :- ReadInt(b, o2);
    Got(Seg(id, base, limite), o3)
  }

  function ReadSegs(b: seq<Byte>, off: nat, n: int, acc: seq<Seg>): Read<seq<Seg>>
    decreases n
  {
    if n <= 0 then Got(acc, off)
    else
      var (s, o) :- ReadSeg(b, off);
      ReadSegs(b, o, n - 1, acc + [s])
  }

  function ReadTable(b: seq<Byte>, off: nat): Read<seq<Seg>> {
    var (n, o) :- ReadInt(b, off);
    ReadSegs(b, o, n, [])
  }

  /** `recibir_paquete_contexto` on the received buffer. */
  function ReadContext(b: seq<Byte>): Read<Context> {
    var (pid, o1) :- ReadScalar(b, 0);
    var (instrucciones, o2) :- ReadList(b, o1);
    var (pc, o3) :- ReadScalar(b, o2);
    var (registros, o4) :- ReadStrings(b, o3, CPU_REGISTERS, []);
    var (parametros, o5) :- ReadList(b, o4);
    var (tabla, o6) :- ReadTable(b, o5);
    Got(Context(pid, instrucciones, pc, registros, parametros, tabla), o6)
  }

  function ReadTables(b: seq<Byte>, off: nat, n: int, acc: seq<(int, seq<Seg>)>): Read<seq<(int, seq<Seg>)>>
    decreases n
  {
    if n <= 0 then Got(acc, off)
    else
      var (pid, o1) :- ReadInt(b, off);
      var (tabla, o2) :- ReadTable(b, o1);
      ReadTables(b, o2, n - 1, acc + [(pid, tabla)])
  }

  function ReadBroadcast(b: seq<Byte>): Read<seq<(int, seq<Seg>)>> {
    var (n, o) :- ReadInt(b, 0);
    ReadTables(b, o, n, [])
  }

  /** One message off a connection: operation code, declared size, that many bytes. */
  function Receive(b: seq<Byte>): Read<(int, seq<Byte>)> {
    var (op, o1) :- ReadInt(b, 0);
    var (stream, o2) :- ReadBlock(b, o1);
    Got((op, stream), o2)
  }

  // ----- reading back what was written -----

  /** `s` stands in `b` at `off`. */
  ghost predicate Stands(b: seq<Byte>, off: nat, s: seq<Byte>) {
    off + |s| <= |b| && b[off..off + |s|] == s
  }

  lemma StandsSplit(b: seq<Byte>, off: nat, s: seq<Byte>, t: seq<Byte>)
    requires Stands(b, off, s + t)
    ensures Stands(b, off, s) && Stands(b, off + |s|, t)
  {
    assert b[off..off + |s|] == (s + t)[..|s|];
    assert b[off + |s|..off + |s| + |t|] == (s + t)[|s|..];
  }

  lemma ReadsInt(b: seq<Byte>, off: nat, x: int)
    requires IsInt(x) && Stands(b, off, EncInt(x))
    ensures ReadInt(b, off) == Got(x, off + INT_SIZE)
  {
    IntRoundTrip(x);
  }

  lemma ReadsBlock(b: seq<Byte>, off: nat, v: seq<Byte>)
    requires |v| <= MAX_INT && Stands(b, off, EncBlock(v))
    ensures ReadBlock(b, off) == Got(v, off + |EncBlock(v)|)
  {
    StandsSplit(b, off, EncInt(|v|), v);
    ReadsInt(b, off, |v|);
  }

  lemma {:induction false} StringRoundTrip(s: seq<Byte>)
    requires IsString(s)
    ensures StringOf(s + [0]) == Got(s, 0)
  {
    if s != [] {
      assert s[0] != 0;
      StringRoundTrip(s[1..]);
      assert (s + [0])[1..] == s[1..] + [0];
      assert [s[0]] + s[1..] == s;
    } else {
      assert s + [0] == [0];
    }
  }

  lemma ReadsString(b: seq<Byte>, off: nat, s: seq<Byte>)
    requires IsString(s) && Stands(b, off, EncBlock(s + [0]))
    ensures ReadString(b, off) == Got(s, off + |EncBlock(s + [0])|)
  {
    ReadsBlock(b, off, s + [0]);
    StringRoundTrip(s);
  }

  /** Encodings of lists grow at the end; reading takes them from the front. */
  lemma {:induction false} EncStringsFront(l: seq<seq<Byte>>)
    requires |l| > 0 && forall i :: 0 <= i < |l| ==> IsString(l[i])
    ensures EncStrings(l) == EncBlock(l[0] + [0]) + EncStrings(l[1..])
  {
    var n := |l| - 1;
    if n > 0 {
      EncStringsFront(l[..n]);
      assert l[1..][..n - 1] == l[..n][1..];
    }
  }

  lemma ReadStringsStep(b: seq<Byte>, off: nat, n: int, acc: seq<seq<Byte>>, s: seq<Byte>, o: nat)
    requires n > 0 && ReadString(b, off) == Got(s, o)
    ensures ReadStrings(b, off, n, acc) == ReadStrings(b, o, n - 1, acc + [s])
  {
  }

  lemma {:induction false} ReadsStrings(b: seq<Byte>, off: nat, l: seq<seq<Byte>>, acc: seq<seq<Byte>>)
    requires (forall i :: 0 <= i < |l| ==> IsString(l[i])) && Stands(b, off, EncStrings(l))
    ensures ReadStrings(b, off, |l|, acc) == Got(acc + l, off + |EncStrings(l)|)
    decreases |l|
  {
    hide EncBlock, EncInt, Stands, ReadString;
    if l == [] {
      assert acc + l == acc;
    } else {
      EncStringsFront(l);
      assert |l[0]| < MAX_INT;
      hide EncStrings, IsString;
      StandsSplit(b, off, EncBlock(l[0] + [0]), EncStrings(l[1..]));
      ReadsString(b, off, l[0]);
      ReadStringsStep(b, off, |l|, acc, l[0], off + |EncBlock(l[0] + [0])|);
      hide ReadStrings;
      ReadsStrings(b, off + |EncBlock(l[0] + [0])|, l[1..], acc + [l[0]]);
      assert acc + [l[0]] + l[1..] == acc + l;
    }
  }

  lemma ReadsList(b: seq<Byte>, off: nat, l: seq<seq<Byte>>)
    requires AreStrings(l) && Stands(b, off, EncList(l))
    ensures ReadList(b, off) == Got(l, off + |EncList(l)|)
  {
    StandsSplit(b, off, EncInt(|l|), EncStrings(l));
    ReadsInt(b, off, |l|);
    ReadsStrings(b, off + INT_SIZE, l, []);
    assert [] + l == l;
  }

  lemma ReadsScalar(b: seq<Byte>, off: nat, x: int)
    requires IsInt(x) && Stands(b, off, EncBlock(EncInt(x)))
    ensures ReadScalar(b, off) == Got(x, off + |EncBlock(EncInt(x))|)
  {
    StandsSplit(b, off, EncInt(INT_SIZE), EncInt(x));
    ReadsInt(b, off, INT_SIZE);
    ReadsInt(b, off + INT_SIZE, x);
  }

  lemma ReadsSeg(b: seq<Byte>, off: nat, s: Seg)
    requires IsSeg(s) && Stands(b, off, EncSeg(s))
    ensures ReadSeg(b, off) == Got(s, off + |EncSeg(s)|)
  {
    assert EncSeg(s) == EncInt(s.id) + (EncInt(s.base) + EncInt(s.limite));
    StandsSplit(b, off, EncInt(s.id), EncInt(s.base) + EncInt(s.limite));
    StandsSplit(b, off + INT_SIZE, EncInt(s.base), EncInt(s.limite));
    ReadsInt(b, off, s.id);
    ReadsInt(b, off + INT_SIZE, s.base);
    ReadsInt(b, off + 2 * INT_SIZE, s.limite);
  }

  lemma {:induction false} EncSegsFront(t: seq<Seg>)
    requires |t| > 0 && forall i :: 0 <= i < |t| ==> IsSeg(t[i])
    ensures EncSegs(t) == EncSeg(t[0]) + EncSegs(t[1..])
  {
    var n := |t| - 1;
    if n > 0 {
      EncSegsFront(t[..n]);
      assert t[1..][..n - 1] == t[..n][1..];
    }
  }

  lemma ReadSegsStep(b: seq<Byte>, off: nat, n: int, acc: seq<Seg>, s: Seg, o: nat)
    requires n > 0 && ReadSeg(b, off) == Got(s, o)
    ensures ReadSegs(b, off, n, acc) == ReadSegs(b, o, n - 1, acc + [s])
  {
  }

  lemma {:induction false} ReadsSegs(b: seq<Byte>, off: nat, t: seq<Seg>, acc: seq<Seg>)
    requires (forall i :: 0 <= i < |t| ==> IsSeg(t[i])) && Stands(b, off, EncSegs(t))
    ensures ReadSegs(b, off, |t|, acc) == Got(acc + t, off + |EncSegs(t)|)
    decreases |t|
  {
    hide EncInt, EncSeg, Stands, ReadSeg, IsSeg;
    if t == [] {
      assert acc + t == acc;
    } else {
      EncSegsFront(t);
      hide EncSegs;
      StandsSplit(b, off, EncSeg(t[0]), EncSegs(t[1..]));
      ReadsSeg(b, off, t[0]);
      ReadSegsStep(b, off, |t|, acc, t[0], off + |EncSeg(t[0])|);
      hide ReadSegs;
      ReadsSegs(b, off + |EncSeg(t[0])|, t[1..], acc + [t[0]]);
      assert acc + [t[0]] + t[1..] == acc + t;
    }
  }

  lemma ReadsTable(b: seq<Byte>, off: nat, t: seq<Seg>)
    requires IsTable(t) && Stands(b, off, EncTable(t))
    ensures ReadTable(b, off) == Got(t, off + |EncTable(t)|)
  {
    StandsSplit(b, off, EncInt(|t|), EncSegs(t));
    ReadsInt(b, off, |t|);
    ReadsSegs(b, off + INT_SIZE, t, []);
    assert [] + t == t;
  }

  lemma ReadsTail(b: seq<Byte>, o3: nat, c: Context)
    requires IsContext(c) && Stands(b, o3, EncTail(c))
    ensures var o4 := o3 + |EncStrings(c.registros)|; var o5 := o4 + |EncList(c.parametros)|;
      && ReadStrings(b, o3, CPU_REGISTERS, []) == Got(c.registros, o4)
      && ReadList(b, o4) == Got(c.parametros, o5)
      && ReadTable(b, o5) == Got(c.tabla, o3 + |EncTail(c)|)
  {
    hide EncBlock, EncInt, EncList, EncStrings, EncTable, Stands, ReadList, ReadStrings, ReadTable, IsInt, IsTable, IsString;
    var o4 := o3 + |EncStrings(c.registros)|;
    StandsSplit(b, o3, EncStrings(c.registros), EncList(c.parametros) + EncTable(c.tabla));
    StandsSplit(b, o4, EncList(c.parametros), EncTable(c.tabla));
    ReadsStrings(b, o3, c.registros, []);
    ReadsList(b, o4, c.parametros);
    ReadsTable(b, o4 + |EncList(c.parametros)|, c.tabla);
    assert [] + c.registros == c.registros;
  }

  lemma ReadsHead(b: seq<Byte>, c: Context)
    requires IsContext(c) && b == EncContext(c)
    ensures var o1 := |EncBlock(EncInt(c.pid))|; var o2 := o1 + |EncList(c.instrucciones)|;
      var o3 := o2 + |EncBlock(EncInt(c.programCounter))|;
      && ReadScalar(b, 0) == Got(c.pid, o1)
      && ReadList(b, o1) == Got(c.instrucciones, o2)
      && ReadScalar(b, o2) == Got(c.programCounter, o3)
      && Stands(b, o3, EncTail(c)) && |b| == o3 + |EncTail(c)|
  {
    hide EncBlock, EncInt, EncList, EncTail, Stands, ReadScalar, ReadList, IsInt, IsTable, IsString, AreStrings;
    var o1 := |EncBlock(EncInt(c.pid))|;
    var o2 := o1 + |EncList(c.instrucciones)|;
    var p3 := EncBlock(EncInt(c.programCounter)) + EncTail(c);
    WholeStands(b);
    StandsSplit(b, 0, EncBlock(EncInt(c.pid)), EncList(c.instrucciones) + p3);
    ReadsScalar(b, 0, c.pid);
    StandsSplit(b, o1, EncList(c.instrucciones), p3);
    ReadsList(b, o1, c.instrucciones);
    StandsSplit(b, o2, EncBlock(EncInt(c.programCounter)), EncTail(c));
    ReadsScalar(b, o2, c.programCounter);
  }

  /** The context codec: decoding the bytes of any context returns it and consumes exactly them. */
  lemma ContextRoundTrip(c: Context)
    requires IsContext(c)
    ensures ReadContext(EncContext(c)) == Got(c, |EncContext(c)|)
  {
    hide EncBlock, EncInt, EncList, EncStrings, EncTable, EncContext, EncTail, Stands, IsContext,
         ReadScalar, ReadList, ReadStrings, ReadTable, IsInt, IsTable, AreStrings;
    var b := EncContext(c);
    ReadsHead(b, c);
    ReadsTail(b, |b| - |EncTail(c)|, c);
  }

  lemma WholeStands(b: seq<Byte>)
    ensures Stands(b, 0, b)
  {
  }

  lemma {:induction false} EncTablesFront(l: seq<(int, seq<Seg>)>)
    requires |l| > 0 && forall i :: 0 <= i < |l| ==> IsInt(l[i].0) && IsTable(l[i].1)
    ensures EncTables(l) == EncInt(l[0].0) + EncTable(l[0].1) + EncTables(l[1..])
  {
    hide EncInt, EncTable, IsTable, IsInt;
    var n := |l| - 1;
    if n > 0 {
      EncTablesFront(l[..n]);
      assert l[1..][..n - 1] == l[..n][1..];
    }
  }

  lemma ReadTablesStep(b: seq<Byte>, off: nat, n: int, acc: seq<(int, seq<Seg>)>, pid: int, t: seq<Seg>, o1: nat, o2: nat)
    requires n > 0 && ReadInt(b, off) == Got(pid, o1) && ReadTable(b, o1) == Got(t, o2)
    ensures ReadTables(b, off, n, acc) == ReadTables(b, o2, n - 1, acc + [(pid, t)])
  {
  }

  lemma {:induction false} ReadsTables(b: seq<Byte>, off: nat, l: seq<(int, seq<Seg>)>, acc: seq<(int, seq<Seg>)>)
    requires forall i :: 0 <= i < |l| ==> IsInt(l[i].0) && IsTable(l[i].1)
    requires Stands(b, off, EncTables(l))
    ensures ReadTables(b, off, |l|, acc) == Got(acc + l, off + |EncTables(l)|)
    decreases |l|
  {
    hide EncInt, EncTable, Stands, ReadInt, ReadTable, IsTable, IsInt;
    if l == [] {
      assert acc + l == acc;
    } else {
      EncTablesFront(l);
      hide EncTables;
      var (pid, t) := l[0];
      StandsSplit(b, off, EncInt(pid) + EncTable(t), EncTables(l[1..]));
      StandsSplit(b, off, EncInt(pid), EncTable(t));
      ReadsInt(b, off, pid);
      ReadsTable(b, off + INT_SIZE, t);
      ReadTablesStep(b, off, |l|, acc, pid, t, off + INT_SIZE, off + INT_SIZE + |EncTable(t)|);
      hide ReadTables;
      ReadsTables(b, off + INT_SIZE + |EncTable(t)|, l[1..], acc + [(pid, t)]);
      assert acc + [l[0]] + l[1..] == acc + l;
    }
  }

  /** The compaction broadcast: the kernel reads exactly the tables memory packed, in order. */
  lemma BroadcastRoundTrip(l: seq<(int, seq<Seg>)>)
    requires AreTables(l)
    ensures ReadBroadcast(EncBroadcast(l)) == Got(l, |EncBroadcast(l)|)
  {
    var b := EncBroadcast(l);
    WholeStands(b);
    StandsSplit(b, 0, EncInt(|l|), EncTables(l));
    ReadsInt(b, 0, |l|);
    ReadsTables(b, INT_SIZE, l, []);
    assert [] + l == l;
  }

  /** A message is read off a connection whole, whatever is queued behind it. */
  lemma MessageRoundTrip(op: int, stream: seq<Byte>, rest: seq<Byte>)
    requires IsInt(op) && |stream| <= MAX_INT
    ensures Receive(Serialize(op, stream) + rest) == Got((op, stream), |Serialize(op, stream)|)
  {
    var b := Serialize(op, stream) + rest;
    assert Stands(b, 0, Serialize(op, stream));
    StandsSplit(b, 0, EncInt(op), EncBlock(stream));
    ReadsInt(b, 0, op);
    ReadsBlock(b, INT_SIZE, stream);
  }

  /** The single-table reply: table and flag come back, for every flag, -1 included. */
  lemma TableReplyRoundTrip(t: seq<Seg>, flag: int)
    requires IsTable(t) && IsInt(flag) && |EncTable(t)| <= MAX_INT
    ensures Receive(Serialize(flag, EncTable(t))) == Got((flag, EncTable(t)), |Serialize(flag, EncTable(t))|)
    ensures ReadTable(EncTable(t), 0) == Got(t, |EncTable(t)|)
  {
    MessageRoundTrip(flag, EncTable(t), []);
    assert Serialize(flag, EncTable(t)) + [] == Serialize(flag, EncTable(t));
    WholeStands(EncTable(t));
    ReadsTable(EncTable(t), 0, t);
  }

  /** The context as it crosses the connection between the kernel and the CPU. */
  lemma ContextMessageRoundTrip(c: Context, motivo: int, rest: seq<Byte>)
    requires IsContext(c) && IsInt(motivo) && |EncContext(c)| <= MAX_INT
    ensures var m := Receive(Serialize(motivo, EncContext(c)) + rest);
      m.Got? && m.value.0 == motivo && ReadContext(m.value.1) == Got(c, |m.value.1|)
  {
    MessageRoundTrip(motivo, EncContext(c), rest);
    ContextRoundTrip(c);
  }
}
