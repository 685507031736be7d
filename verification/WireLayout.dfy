/** Where each field of a message stands, so that both ends have to agree on more than on each other. */
module WireLayout {
  import opened Memory
  import opened Wire

  /** The bytes of an `int` on the wire: the least significant first, in two's complement. */
  lemma IntLayout(x: int)
    requires IsInt(x)
    ensures var b := EncInt(x);
      (b[0] as int) + 0x100 * (b[1] as int) + 0x1_0000 * (b[2] as int) + 0x100_0000 * (b[3] as int) == if x < 0 then x + TWO_32 else x
  {
    var b := EncInt(x);
    var u := if x < 0 then x + TWO_32 else x;
    var u1 := u / 256;
    var u2 := u1 / 256;
    assert b[0] == u % 256 && b[1] == u1 % 256 && b[2] == u2 % 256 && b[3] == u2 / 256;
  }

  lemma StandsLeft(a: seq<Byte>, z: seq<Byte>, at: nat, t: seq<Byte>)
    requires Stands(a, at, t)
    ensures Stands(a + z, at, t)
  {
    assert (a + z)[at..at + |t|] == a[at..at + |t|];
  }

  lemma StandsRight(a: seq<Byte>, z: seq<Byte>, at: nat, t: seq<Byte>)
    requires Stands(z, at, t)
    ensures Stands(a + z, |a| + at, t)
  {
    assert (a + z)[|a| + at..|a| + at + |t|] == z[at..at + |t|];
  }

  // ----- tables -----

  lemma SegLayout(s: Seg)
    requires IsSeg(s)
    ensures |EncSeg(s)| == 3 * INT_SIZE
    ensures Stands(EncSeg(s), 0, EncInt(s.id)) && Stands(EncSeg(s), INT_SIZE, EncInt(s.base))
    ensures Stands(EncSeg(s), 2 * INT_SIZE, EncInt(s.limite))
  {
    hide EncInt;
  }

  lemma {:induction false} SegsSize(t: seq<Seg>)
    requires forall k :: 0 <= k < |t| ==> IsSeg(t[k])
    ensures |EncSegs(t)| == 12 * |t|
  {
    if t != [] {
      var n := |t| - 1;
      assert IsSeg(t[n]) && EncSegs(t) == EncSegs(t[..n]) + EncSeg(t[n]) && |EncSeg(t[n])| == 3 * INT_SIZE;
      hide EncSegs, EncSeg, IsSeg;
      SegsSize(t[..n]);
    }
  }

  lemma {:induction false} SegsLayout(t: seq<Seg>, i: nat, at: nat, field: seq<Byte>)
    requires i < |t| && (forall k :: 0 <= k < |t| ==> IsSeg(t[k])) && Stands(EncSeg(t[i]), at, field)
    ensures Stands(EncSegs(t), 12 * i + at, field)
  {
    var n := |t| - 1;
    assert IsSeg(t[n]) && IsSeg(t[i]) && EncSegs(t) == EncSegs(t[..n]) + EncSeg(t[n]);
    hide EncSegs, EncSeg, Stands, IsSeg;
    SegsSize(t[..n]);
    if i < n {
      SegsLayout(t[..n], i, at, field);
      StandsLeft(EncSegs(t[..n]), EncSeg(t[n]), 12 * i + at, field);
    } else {
      StandsRight(EncSegs(t[..n]), EncSeg(t[n]), at, field);
    }
  }

  /** A table on the wire: the number of entries, then for each its ID, its base and its size, twelve bytes an
      entry. */
  lemma TableLayout(t: seq<Seg>, i: nat)
    requires IsTable(t) && i < |t|
    ensures var b, at := EncTable(t), INT_SIZE + 12 * i;
      && |b| == INT_SIZE + 12 * |t| && Stands(b, 0, EncInt(|t|))
      && Stands(b, at, EncInt(t[i].id)) && Stands(b, at + INT_SIZE, EncInt(t[i].base))
      && Stands(b, at + 2 * INT_SIZE, EncInt(t[i].limite))
  {
    SegsSize(t);
    SegLayout(t[i]);
    WholeStands(EncInt(|t|));
    assert IsSeg(t[i]);
    hide EncInt, EncSegs, EncSeg, IsSeg, Stands;
    var at := 12 * i;
    StandsLeft(EncInt(|t|), EncSegs(t), 0, EncInt(|t|));
    SegsLayout(t, i, 0, EncInt(t[i].id));
    SegsLayout(t, i, INT_SIZE, EncInt(t[i].base));
    SegsLayout(t, i, 2 * INT_SIZE, EncInt(t[i].limite));
    StandsRight(EncInt(|t|), EncSegs(t), at, EncInt(t[i].id));
    StandsRight(EncInt(|t|), EncSegs(t), at + INT_SIZE, EncInt(t[i].base));
    StandsRight(EncInt(|t|), EncSegs(t), at + 2 * INT_SIZE, EncInt(t[i].limite));
  }

  // ----- strings -----

  /** Bytes a list of strings takes: each has a size, its bytes and a terminator. */
  function StringsSize(l: seq<seq<Byte>>): nat {
    if l == [] then 0 else StringsSize(l[..|l| - 1]) + INT_SIZE + |l[|l| - 1]| + 1
  }

  lemma {:induction false} StringsFill(l: seq<seq<Byte>>)
    requires forall k :: 0 <= k < |l| ==> IsString(l[k])
    ensures |EncStrings(l)| == StringsSize(l)
  {
    hide EncInt;
    if l != [] {
      assert IsString(l[|l| - 1]);
      StringsFill(l[..|l| - 1]);
    }
  }

  lemma OneString(s: seq<Byte>)
    requires IsString(s)
    ensures Stands(EncBlock(s + [0]), 0, EncInt(|s| + 1)) && Stands(EncBlock(s + [0]), INT_SIZE, s + [0])
  {
    WholeStands(EncInt(|s| + 1));
    WholeStands(s + [0]);
    hide EncInt, Stands;
    StandsLeft(EncInt(|s| + 1), s + [0], 0, EncInt(|s| + 1));
    StandsRight(EncInt(|s| + 1), s + [0], 0, s + [0]);
  }

  /** Strings on the wire, one after the other: the size with the terminator, the bytes, the terminator. */
  lemma {:induction false} StringsLayout(l: seq<seq<Byte>>, i: nat)
    requires i < |l| && forall k :: 0 <= k < |l| ==> IsString(l[k])
    ensures Stands(EncStrings(l), StringsSize(l[..i]), EncInt(|l[i]| + 1))
    ensures Stands(EncStrings(l), StringsSize(l[..i]) + INT_SIZE, l[i] + [0])
  {
    var n := |l| - 1;
    assert IsString(l[n]) && IsString(l[i]);
    StringsFill(l[..n]);
    OneString(l[n]);
    assert EncStrings(l) == EncStrings(l[..n]) + EncBlock(l[n] + [0]);
    hide EncInt, EncBlock, EncStrings, Stands, StringsSize, IsString;
    var a, last := EncStrings(l[..n]), EncBlock(l[n] + [0]);
    if i < n {
      assert l[..n][..i] == l[..i] && l[..n][i] == l[i];
      StringsLayout(l[..n], i);
      StandsLeft(a, last, StringsSize(l[..i]), EncInt(|l[i]| + 1));
      StandsLeft(a, last, StringsSize(l[..i]) + INT_SIZE, l[i] + [0]);
    } else {
      StandsRight(a, last, 0, EncInt(|l[n]| + 1));
      StandsRight(a, last, INT_SIZE, l[n] + [0]);
    }
  }

  // ----- contexts and broadcasts -----

  /** A number sent as a block: its size, four, then its bytes. */
  lemma ScalarStands(b: seq<Byte>, off: nat, x: int)
    requires IsInt(x) && Stands(b, off, EncBlock(EncInt(x)))
    ensures Stands(b, off, EncInt(INT_SIZE)) && Stands(b, off + INT_SIZE, EncInt(x))
    ensures |EncBlock(EncInt(x))| == 2 * INT_SIZE
  {
    StandsSplit(b, off, EncInt(INT_SIZE), EncInt(x));
  }

  lemma ListStands(b: seq<Byte>, off: nat, l: seq<seq<Byte>>)
    requires AreStrings(l) && Stands(b, off, EncList(l))
    ensures Stands(b, off, EncInt(|l|)) && Stands(b, off + INT_SIZE, EncStrings(l)) && |EncList(l)| == INT_SIZE + StringsSize(l)
  {
    StringsFill(l);
    StandsSplit(b, off, EncInt(|l|), EncStrings(l));
  }

  /** A context on the wire: PID, instructions, program counter, registers, parameters and table, in this order;
      the two numbers as blocks of four bytes, the two lists after their counts, the registers without one. */
  lemma ContextLayout(c: Context)
    requires IsContext(c)
    ensures var b := EncContext(c);
      var pc := 3 * INT_SIZE + StringsSize(c.instrucciones);
      var lista := pc + 2 * INT_SIZE + StringsSize(c.registros);
      var tabla := lista + INT_SIZE + StringsSize(c.parametros);
      && Stands(b, 0, EncInt(INT_SIZE)) && Stands(b, INT_SIZE, EncInt(c.pid))
      && Stands(b, 2 * INT_SIZE, EncInt(|c.instrucciones|)) && Stands(b, 3 * INT_SIZE, EncStrings(c.instrucciones))
      && Stands(b, pc, EncInt(INT_SIZE)) && Stands(b, pc + INT_SIZE, EncInt(c.programCounter))
      && Stands(b, pc + 2 * INT_SIZE, EncStrings(c.registros))
      && Stands(b, lista, EncInt(|c.parametros|)) && Stands(b, lista + INT_SIZE, EncStrings(c.parametros))
      && Stands(b, tabla, EncTable(c.tabla)) && |b| == tabla + |EncTable(c.tabla)|
  {
    hide StringsSize, EncInt, EncBlock, EncList, EncStrings, EncTable, EncTail, EncContext, IsString, IsSeg, Stands;
    var b := EncContext(c);
    WholeStands(b);
    HeadLayout(b, c);
    TailLayout(b, 3 * INT_SIZE + StringsSize(c.instrucciones) + 2 * INT_SIZE, c);
  }

  lemma HeadLayout(b: seq<Byte>, c: Context)
    requires IsContext(c) && b == EncContext(c) && Stands(b, 0, b)
    ensures var pc := 3 * INT_SIZE + StringsSize(c.instrucciones);
      && Stands(b, pc + 2 * INT_SIZE, EncTail(c)) && |b| == pc + 2 * INT_SIZE + |EncTail(c)|
      && Stands(b, 0, EncInt(INT_SIZE)) && Stands(b, INT_SIZE, EncInt(c.pid))
      && Stands(b, 2 * INT_SIZE, EncInt(|c.instrucciones|)) && Stands(b, 3 * INT_SIZE, EncStrings(c.instrucciones))
      && Stands(b, pc, EncInt(INT_SIZE)) && Stands(b, pc + INT_SIZE, EncInt(c.programCounter))
  {
    hide StringsSize, EncInt, EncBlock, EncList, EncStrings, EncTable, EncTail, IsString, IsTable, AreStrings, IsInt, Stands;
    var p3 := EncBlock(EncInt(c.programCounter)) + EncTail(c);
    var pc := 3 * INT_SIZE + StringsSize(c.instrucciones);
    StandsSplit(b, 0, EncBlock(EncInt(c.pid)), EncList(c.instrucciones) + p3);
    ScalarStands(b, 0, c.pid);
    StandsSplit(b, 2 * INT_SIZE, EncList(c.instrucciones), p3);
    ListStands(b, 2 * INT_SIZE, c.instrucciones);
    StandsSplit(b, pc, EncBlock(EncInt(c.programCounter)), EncTail(c));
    ScalarStands(b, pc, c.programCounter);
  }

  lemma TailLayout(b: seq<Byte>, at: nat, c: Context)
    requires IsContext(c) && Stands(b, at, EncTail(c))
    ensures var lista := at + StringsSize(c.registros);
      var tabla := lista + INT_SIZE + StringsSize(c.parametros);
      && Stands(b, at, EncStrings(c.registros))
      && Stands(b, lista, EncInt(|c.parametros|)) && Stands(b, lista + INT_SIZE, EncStrings(c.parametros))
      && Stands(b, tabla, EncTable(c.tabla)) && |EncTail(c)| == tabla + |EncTable(c.tabla)| - at
  {
    StringsFill(c.registros);
    hide StringsSize, EncInt, EncList, EncStrings, EncTable, IsString, IsTable, AreStrings, IsInt, Stands;
    var lista := at + StringsSize(c.registros);
    StandsSplit(b, at, EncStrings(c.registros), EncList(c.parametros) + EncTable(c.tabla));
    StandsSplit(b, lista, EncList(c.parametros), EncTable(c.tabla));
    ListStands(b, lista, c.parametros);
  }

  /** Bytes the tables of a broadcast take. */
  function TablesSize(l: seq<(int, seq<Seg>)>): nat {
    if l == [] then 0 else TablesSize(l[..|l| - 1]) + 2 * INT_SIZE + 12 * |l[|l| - 1].1|
  }

  lemma {:induction false} TablesFill(l: seq<(int, seq<Seg>)>)
    requires forall k :: 0 <= k < |l| ==> IsInt(l[k].0) && IsTable(l[k].1)
    ensures |EncTables(l)| == TablesSize(l)
  {
    hide EncInt, EncSegs;
    if l != [] {
      TablesFill(l[..|l| - 1]);
      SegsSize(l[|l| - 1].1);
    }
  }

  /** In a broadcast each PID stands before its table, in the order of the list. */
  lemma {:induction false} TablesLayout(l: seq<(int, seq<Seg>)>, i: nat)
    requires i < |l| && forall k :: 0 <= k < |l| ==> IsInt(l[k].0) && IsTable(l[k].1)
    ensures Stands(EncTables(l), TablesSize(l[..i]), EncInt(l[i].0) + EncTable(l[i].1))
  {
    var n := |l| - 1;
    assert IsInt(l[n].0) && IsTable(l[n].1) && IsInt(l[i].0) && IsTable(l[i].1);
    assert EncTables(l) == EncTables(l[..n]) + (EncInt(l[n].0) + EncTable(l[n].1));
    hide EncInt, EncTable, EncTables, Stands, TablesSize, IsTable, IsInt;
    TablesFill(l[..n]);
    var last := EncInt(l[n].0) + EncTable(l[n].1);
    WholeStands(last);
    if i < n {
      assert l[..n][..i] == l[..i] && l[..n][i] == l[i];
      TablesLayout(l[..n], i);
      StandsLeft(EncTables(l[..n]), last, TablesSize(l[..i]), EncInt(l[i].0) + EncTable(l[i].1));
    } else {
      StandsRight(EncTables(l[..n]), last, 0, last);
    }
  }

  /** A message on a connection: operation code, size of the stream, stream. */
  lemma MessageLayout(op: int, stream: seq<Byte>)
    requires IsInt(op) && |stream| <= MAX_INT
    ensures var b := Serialize(op, stream);
      && Stands(b, 0, EncInt(op)) && Stands(b, INT_SIZE, EncInt(|stream|)) && Stands(b, 2 * INT_SIZE, stream)
      && |b| == 2 * INT_SIZE + |stream|
  {
    WholeStands(Serialize(op, stream));
    hide EncInt, Stands;
    StandsSplit(Serialize(op, stream), 0, EncInt(op), EncInt(|stream|) + stream);
    StandsSplit(Serialize(op, stream), INT_SIZE, EncInt(|stream|), stream);
  }
}
