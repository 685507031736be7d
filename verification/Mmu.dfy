/** Address translation in the CPU, and what memory compaction does to it. */
module Mmu {
  import opened Sums
  import opened Holes
  import opened Memory
  import opened Compaction
  import opened MemoryRuns

  /** Division and remainder of C: the quotient is truncated toward zero. */
  function TDiv(a: int, b: int): int
    requires b > 0
  {
    if a >= 0 then a / b else -((-a) / b)
  }

  function TRem(a: int, b: int): int
    requires b > 0
  {
    if a >= 0 then a % b else -((-a) % b)
  }

  lemma TDivRem(a: int, b: int)
    requires b > 0
    ensures a == TDiv(a, b) * b + TRem(a, b) && -b < TRem(a, b) < b
    ensures TRem(a, b) >= 0 <==> a >= 0 || TRem(a, b) == 0
  {
    if a < 0 { assert -a == ((-a) / b) * b + (-a) % b; }
  }

  /** The segment a logical address names: the first one with that ID. */
  function Target(table: seq<Seg>, tam: int, logic: int): (r: Option<nat>)
    requires tam > 0
    ensures r.Some? ==> r.value < |table| && table[r.value].id == TDiv(logic, tam)
    ensures r.Some? ==> forall j :: 0 <= j < r.value ==> table[j].id != TDiv(logic, tam)
    ensures r.None? ==> forall j :: 0 <= j < |table| ==> table[j].id != TDiv(logic, tam)
  {
    Find(table, (s: Seg) => s.id == TDiv(logic, tam))
  }

  /** The physical address, or -1; the displacement comes back through the out-parameter. */
  function Translate(table: seq<Seg>, tam: int, logic: int, bytes: int): (int, int)
    requires tam > 0
  {
    var desp := TRem(logic, tam);
    match Target(table, tam, logic)
    case None => (-1, desp)
    case Some(i) =>
      if table[i].base + desp + bytes > table[i].base + table[i].limite then (-1, desp)
      else (table[i].base + desp, desp)
  }

  /** The segment check passed; the address returned is then `base + displacement`. */
  predicate Accepted(table: seq<Seg>, tam: int, logic: int, bytes: int)
    requires tam > 0
  {
    Target(table, tam, logic).Some? &&
    TRem(logic, tam) + bytes <= table[Target(table, tam, logic).value].limite
  }

  /** Entry `i` is the first one with the ID. */
  predicate IsFirstWith(table: seq<Seg>, id: int, i: int) {
    0 <= i < |table| && table[i].id == id && forall j :: 0 <= j < i ==> table[j].id != id
  }

  /** What the MMU answers, in terms of the table alone: it looks at the first entry with the quotient as
      its ID and at no other; the range has to end by its size; the address is its base plus the remainder,
      which also comes back as the displacement. On non-negative addresses -1 means that there is no such
      entry or that the range ends past it. */
  lemma TranslateMeans(table: seq<Seg>, tam: int, logic: int, bytes: int)
    requires tam > 0
    ensures var (a, desp) := Translate(table, tam, logic, bytes);
      var id := TDiv(logic, tam);
      && desp == TRem(logic, tam) && logic == id * tam + desp && -tam < desp < tam && (logic >= 0 ==> desp >= 0)
      && ((forall i :: 0 <= i < |table| ==> table[i].id != id) ==> a == -1)
      && (forall i :: IsFirstWith(table, id, i) ==> a == if desp + bytes <= table[i].limite then table[i].base + desp else -1)
      && (logic >= 0 && (forall i :: 0 <= i < |table| ==> table[i].base >= 0) ==>
            (a != -1 <==> exists i :: IsFirstWith(table, id, i) && desp + bytes <= table[i].limite))
  {
    TDivRem(logic, tam);
    match Target(table, tam, logic)
    case None =>
    case Some(i) =>
      assert IsFirstWith(table, TDiv(logic, tam), i);
      forall j | IsFirstWith(table, TDiv(logic, tam), j) ensures j == i { assert !(j < i) && !(i < j); }
  }

  /** On non-negative addresses -1 is returned exactly for refused requests. */
  lemma RefusedIsMinusOne(table: seq<Seg>, tam: int, logic: int, bytes: int)
    requires tam > 0 && logic >= 0 && forall i :: 0 <= i < |table| ==> table[i].base >= 0
    ensures Translate(table, tam, logic, bytes).0 == -1 <==> !Accepted(table, tam, logic, bytes)
    ensures Accepted(table, tam, logic, bytes) <==>
      exists i :: IsFirstWith(table, TDiv(logic, tam), i) && TRem(logic, tam) + bytes <= table[i].limite
    ensures Accepted(table, tam, logic, bytes) ==>
      var s := table[Target(table, tam, logic).value];
      s.base <= Translate(table, tam, logic, bytes).0 && Translate(table, tam, logic, bytes).0 + bytes <= s.base + s.limite
  {
    TDivRem(logic, tam);
    TranslateMeans(table, tam, logic, bytes);
  }

  /** An accepted range lies inside its segment exactly when the displacement is not negative. */
  lemma InsideIff(table: seq<Seg>, tam: int, logic: int, bytes: int)
    requires tam > 0 && Accepted(table, tam, logic, bytes)
    ensures var s := table[Target(table, tam, logic).value];
      (s.base <= Translate(table, tam, logic, bytes).0 && Translate(table, tam, logic, bytes).0 + bytes <= s.base + s.limite)
      <==> logic >= 0 || TRem(logic, tam) == 0
  {
    TDivRem(logic, tam);
  }

  /** A process table with the contents of its records, as it is sent to the kernel and the CPU. */
  function TableOf(m: Mem, pid: Pid): (t: seq<Seg>)
    requires TablesOk(m) && pid in m.tables
    ensures |t| == |m.tables[pid]|
    ensures forall i :: 0 <= i < |t| ==> m.tables[pid][i] in m.segs && t[i] == m.segs[m.tables[pid][i]]
  {
    forall i | 0 <= i < |m.tables[pid]| ensures m.tables[pid][i] in m.segs { TableRef(m, pid, i); }
    seq(|m.tables[pid]|, i requires 0 <= i < |m.tables[pid]| => m.segs[m.tables[pid][i]])
  }

  /** After any run from start-up and for every process: an address between `-tam` and 0 names segment
      0, is accepted like its displacement alone would be, and comes back unchanged, so before the
      first byte of memory; -1 then stands for an accepted request as well as for a refused one. */
  lemma NegativeAddressEscapes(total: int, size0: int, seg0: Segmento, ops: seq<Op>,
                               pid: Pid, tam: int, logic: int, bytes: int)
    requires 0 < size0 <= total && Run(Start(total, size0, seg0), ops) && -tam < logic < 0
    requires pid in Final(Start(total, size0, seg0), ops).tables
    ensures Inv(Final(Start(total, size0, seg0), ops))
    ensures var m := Final(Start(total, size0, seg0), ops); var t := TableOf(m, pid);
      && (Accepted(t, tam, logic, bytes) <==> logic + bytes <= t[0].limite)
      && Translate(t, tam, logic, bytes).0 == if logic + bytes <= t[0].limite then logic else -1
  {
    hide Start, Run, Final, Partition, Translate, Accepted;
    StartIsOk(total, size0, seg0);
    RunKeepsInv(Start(total, size0, seg0), ops);
    NegativeInTable(Final(Start(total, size0, seg0), ops), pid, tam, logic, bytes);
  }

  lemma NegativeInTable(m: Mem, pid: Pid, tam: int, logic: int, bytes: int)
    requires TablesOk(m) && pid in m.tables && -tam < logic < 0
    ensures var t := TableOf(m, pid);
      && (Accepted(t, tam, logic, bytes) <==> logic + bytes <= t[0].limite)
      && Translate(t, tam, logic, bytes).0 == if logic + bytes <= t[0].limite then logic else -1
  {
    var t := TableOf(m, pid);
    assert t[0].id == 0 && t[0].base == 0;
    assert TDiv(logic, tam) == 0 && TRem(logic, tam) == logic;
  }

  /** Such an address in the first state that has a table. */
  lemma MinusFive(seg0: Segmento)
    ensures Run(Start(128, 64, seg0), [OpNew(1)]) && Inv(Final(Start(128, 64, seg0), [OpNew(1)]))
    ensures Translate(TableOf(Final(Start(128, 64, seg0), [OpNew(1)]), 1), 128, -5, 4).0 == -5
  {
    var m := Start(128, 64, seg0);
    AfterThen(m, OpNew(1), []);
    assert [OpNew(1)] + [] == [OpNew(1)];
    assert Apply(m, OpNew(1)).segs[seg0].limite == 64;
    NegativeAddressEscapes(128, 64, seg0, [OpNew(1)], 1, 128, -5, 4);
  }

  // ----- compaction is transparent -----

  lemma {:induction false} SameTarget(t1: seq<Seg>, t2: seq<Seg>, tam: int, logic: int)
    requires tam > 0 && |t1| == |t2| && forall i :: 0 <= i < |t1| ==> t1[i].id == t2[i].id
    ensures Target(t1, tam, logic) == Target(t2, tam, logic)
    decreases |t1|
  {
    var p := (s: Seg) => s.id == TDiv(logic, tam);
    assert forall i :: 0 <= i < |t1| ==> p(t1[i]) == p(t2[i]);
    match (Find(t1, p), Find(t2, p))
    case (Some(i), Some(j)) => assert !(i < j) && !(j < i);
    case _ =>
  }

  /** For every process and every non-negative range, translation succeeds after compaction iff it
      did before; an accepted range has slid by its segment's gap, and the bytes read through it are
      the ones it had, except those at or past the gap inside the segment. */
  lemma CompactionIsTransparent(m: Mem, pid: Pid, tam: int, logic: int, bytes: int)
    requires Inv(m) && |m.holes| > 0 && pid in m.tables && tam > 0 && logic >= 0
    ensures Inv(Compact(m)) && pid in Compact(m).tables
    ensures var t, t' := TableOf(m, pid), TableOf(Compact(m), pid);
      && (Translate(t, tam, logic, bytes).0 == -1 <==> Translate(t', tam, logic, bytes).0 == -1)
      && (Accepted(t, tam, logic, bytes) <==> Accepted(t', tam, logic, bytes))
      && (Accepted(t, tam, logic, bytes) ==>
            var q := m.tables[pid][Target(t, tam, logic).value];
            Translate(t', tam, logic, bytes).0 == Translate(t, tam, logic, bytes).0 - Gap(m, q))
  {
    CompactKeepsTables(m);
    CompactKeeps(m);
    var t, t' := TableOf(m, pid), TableOf(Compact(m), pid);
    if Accepted(t, tam, logic, bytes) { SlidesByGap(m, m.tables[pid][Target(t, tam, logic).value]); }
    hide Gap, Compact;
    SameTarget(t, t', tam, logic);
    RefusedIsMinusOne(t, tam, logic, bytes);
    RefusedIsMinusOne(t', tam, logic, bytes);
  }

  /** The byte the CPU reads at offset `k` of a translated range. */
  function Seen(m: Mem, table: seq<Seg>, tam: int, logic: int, k: int): char
    requires tam > 0
  {
    var a := Translate(table, tam, logic, k + 1).0 + k;
    if 0 <= a < |m.space| then m.space[a] else BLANK
  }

  lemma SeenIsSegmentByte(m: Mem, pid: Pid, tam: int, logic: int, k: int)
    requires Inv(m) && pid in m.tables && tam > 0 && logic >= 0 && k >= 0
    requires Accepted(TableOf(m, pid), tam, logic, k + 1)
    ensures var q := m.tables[pid][Target(TableOf(m, pid), tam, logic).value];
      && q in m.segs && 0 <= TRem(logic, tam) && TRem(logic, tam) + k < m.segs[q].limite
      && 0 <= m.segs[q].base + TRem(logic, tam) + k < |m.space|
      && Seen(m, TableOf(m, pid), tam, logic, k) == m.space[m.segs[q].base + TRem(logic, tam) + k]
  {
    TDivRem(logic, tam);
    var q := m.tables[pid][Target(TableOf(m, pid), tam, logic).value];
    assert m.segs[q].base + m.segs[q].limite <= m.total;
  }

  /** What an accepted read returns before and after compaction. */
  lemma ReadAfterCompaction(m: Mem, pid: Pid, tam: int, logic: int, k: int)
    requires Inv(m) && |m.holes| > 0 && pid in m.tables && tam > 0 && logic >= 0 && k >= 0
    requires Accepted(TableOf(m, pid), tam, logic, k + 1)
    ensures Inv(Compact(m)) && pid in Compact(m).tables
    ensures var q := m.tables[pid][Target(TableOf(m, pid), tam, logic).value];
      q in m.segs && Seen(Compact(m), TableOf(Compact(m), pid), tam, logic, k)
        == AfterSlide(Seen(m, TableOf(m, pid), tam, logic, k), Gap(m, q), TRem(logic, tam) + k)
  {
    hide Seen, Compact, Partition, TablesOk, Above, AfterSlide, Gap;
    SlidesByGap(m, m.tables[pid][Target(TableOf(m, pid), tam, logic).value]);
    CompactionIsTransparent(m, pid, tam, logic, k + 1);
    SeenIsSegmentByte(m, pid, tam, logic, k);
    SeenIsSegmentByte(Compact(m), pid, tam, logic, k);
    CompactKeeps(m);
    SameTarget(TableOf(m, pid), TableOf(Compact(m), pid), tam, logic);
    CompactBytes(m, m.tables[pid][Target(TableOf(m, pid), tam, logic).value], TRem(logic, tam) + k);
  }

  // ----- isolation -----

  lemma AcceptedByte(m: Mem, pid: Pid, tam: int, logic: int, bytes: int, b: int)
    requires TablesOk(m) && pid in m.tables && tam > 0 && logic >= 0
    requires Accepted(TableOf(m, pid), tam, logic, bytes)
    requires var a := Translate(TableOf(m, pid), tam, logic, bytes).0; a <= b < a + bytes
    ensures var q := m.tables[pid][Target(TableOf(m, pid), tam, logic).value]; q in m.segs && m.segs[q].Has(b)
  {
    TDivRem(logic, tam);
  }

  /** Accepted ranges of two processes share no byte outside segment 0. */
  lemma ProcessesAreIsolated(m: Mem, p: Pid, q: Pid, tam: int, la: int, na: int, lb: int, nb: int, b: int)
    requires Inv(m) && p in m.tables && q in m.tables && p != q && tam > 0 && la >= 0 && lb >= 0
    requires Accepted(TableOf(m, p), tam, la, na) && Accepted(TableOf(m, q), tam, lb, nb)
    requires var a := Translate(TableOf(m, p), tam, la, na).0; a <= b < a + na
    requires var a := Translate(TableOf(m, q), tam, lb, nb).0; a <= b < a + nb
    ensures m.seg0 in m.segs && m.segs[m.seg0].Has(b)
  {
    AcceptedByte(m, p, tam, la, na, b);
    AcceptedByte(m, q, tam, lb, nb, b);
    var i, j := Target(TableOf(m, p), tam, la).value, Target(TableOf(m, q), tam, lb).value;
    var r, s := m.tables[p][i], m.tables[q][j];
    assert r != s ==> Disjoint(m.segs[r], m.segs[s]);
    assert i > 0 ==> At(m.tables, p, i, r);
    assert j > 0 ==> At(m.tables, q, j, s);
  }

  /** Within a process two different addresses never translate to the same byte. */
  lemma TranslationIsInjective(m: Mem, pid: Pid, tam: int, la: int, lb: int)
    requires Inv(m) && pid in m.tables && tam > 0 && la >= 0 && lb >= 0 && la != lb
    requires Accepted(TableOf(m, pid), tam, la, 1) && Accepted(TableOf(m, pid), tam, lb, 1)
    ensures Translate(TableOf(m, pid), tam, la, 1).0 != Translate(TableOf(m, pid), tam, lb, 1).0
  {
    TDivRem(la, tam);
    TDivRem(lb, tam);
    var t := TableOf(m, pid);
    var i, j := Target(t, tam, la).value, Target(t, tam, lb).value;
    var r, s := m.tables[pid][i], m.tables[pid][j];
    var a, b := Translate(t, tam, la, 1).0, Translate(t, tam, lb, 1).0;
    AcceptedByte(m, pid, tam, la, 1, a);
    AcceptedByte(m, pid, tam, lb, 1, b);
    assert r != s ==> Disjoint(m.segs[r], m.segs[s]);
    assert r == s ==> TDiv(la, tam) == m.segs[r].id == TDiv(lb, tam);
  }
}
