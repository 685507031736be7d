/** The kernel's copies of the segment tables, kept up to date by the messages memory sends. */
module TableSync {
  import opened Sums
  import opened Holes
  import opened Memory
  import opened Compaction
  import opened MemoryRuns
  import opened Mmu
  import opened Wire

  /** Bytes a table of `n` entries takes on the wire. */
  function TableBytes(n: nat): nat { INT_SIZE + 3 * INT_SIZE * n }

  /** `order` is a listing of the dictionary's keys. */
  ghost predicate Lists(order: seq<Pid>, keys: set<Pid>) {
    && (forall i, j :: 0 <= i < j < |order| ==> order[i] != order[j])
    && (forall i :: 0 <= i < |order| ==> order[i] in keys)
    && (forall p :: p in keys ==> p in order)
  }

  /** Bytes the broadcast of the tables listed takes, its operation code and size apart. */
  function BroadcastBytes(tables: map<Pid, seq<Segmento>>, order: seq<Pid>): nat
    requires forall i :: 0 <= i < |order| ==> order[i] in tables
  {
    if order == [] then INT_SIZE
    else BroadcastBytes(tables, order[..|order| - 1]) + INT_SIZE + TableBytes(|tables[order[|order| - 1]]|)
  }

  /** Every number and size in play fits the wire's `int`. */
  ghost predicate Sendable(m: Mem) {
    && IsInt(m.total)
    && (forall p :: p in m.tables ==> IsInt(p) && TableBytes(|m.tables[p]|) <= MAX_INT)
    && (forall r :: r in m.segs ==> IsInt(m.segs[r].id))
    && (forall order {:trigger BroadcastBytes(m.tables, order)} ::
          Lists(order, m.tables.Keys) ==> BroadcastBytes(m.tables, order) <= MAX_INT)
  }

  lemma EncSegSize(s: Seg)
    requires IsSeg(s)
    ensures |EncSeg(s)| == 3 * INT_SIZE
  {
  }

  lemma {:induction false} EncSegsSize(t: seq<Seg>)
    requires forall i :: 0 <= i < |t| ==> IsSeg(t[i])
    ensures |EncSegs(t)| == 3 * INT_SIZE * |t|
  {
    if t != [] {
      var last := t[|t| - 1];
      EncSegsSize(t[..|t| - 1]);
      EncSegSize(last);
      hide EncInt, IsSeg, EncSeg;
      assert EncSegs(t) == EncSegs(t[..|t| - 1]) + EncSeg(last);
    }
  }

  lemma TableIsSendable(m: Mem, pid: Pid)
    requires Inv(m) && Sendable(m) && pid in m.tables
    ensures IsTable(TableOf(m, pid)) && |EncTable(TableOf(m, pid))| == TableBytes(|m.tables[pid]|) <= MAX_INT
  {
    var t := TableOf(m, pid);
    forall i | 0 <= i < |t| ensures IsSeg(t[i]) {
      var r := m.tables[pid][i];
      assert 0 <= m.segs[r].base < m.segs[r].base + m.segs[r].limite <= m.total;
    }
    EncSegsSize(t);
  }

  /** The kernel's segment tables, PCB by PCB. */
  type Tablas = map<Pid, seq<Seg>>

  /** Kernel and memory have the same processes and the same tables. */
  ghost predicate Agree(m: Mem, pcbs: Tablas) {
    && TablesOk(m) && pcbs.Keys == m.tables.Keys
    && forall p :: p in pcbs ==> pcbs[p] == TableOf(m, p)
  }

  // ----- the messages -----

  /** The operation code of a packet, which the broadcast carries. */
  const PAQUETE := 1

  /** The table reply memory sends after serving a request of `pid`. It does not name the process. */
  function Reply(t: seq<Seg>, flag: int): seq<Byte>
    requires IsTable(t) && |EncTable(t)| <= MAX_INT && IsInt(flag)
  {
    Serialize(flag, EncTable(t))
  }

  /** `recv_tabla_segmentos`: the table replaces the one in the PCB; the flag is handed back. None when
      the message ends before the table does. */
  function TakeReply(pcbs: Tablas, pid: Pid, bytes: seq<Byte>): Option<(Tablas, int)> {
    match Receive(bytes)
    case OutOfBounds => None
    case Got(msg, _) =>
      match ReadTable(msg.1, 0)
      case OutOfBounds => None
      case Got(table, _) => Some((pcbs[pid := table], msg.0))
  }

  function Tables(m: Mem, order: seq<Pid>): (l: seq<(int, seq<Seg>)>)
    requires TablesOk(m) && forall i :: 0 <= i < |order| ==> order[i] in m.tables
    ensures |l| == |order| && forall i :: 0 <= i < |l| ==> l[i] == (order[i], TableOf(m, order[i]))
  {
    seq(|order|, i requires 0 <= i < |order| => (order[i], TableOf(m, order[i])))
  }

  /** What memory sends after a compaction. */
  function Broadcast(l: seq<(int, seq<Seg>)>): seq<Byte>
    requires AreTables(l) && |EncBroadcast(l)| <= MAX_INT
  {
    Serialize(PAQUETE, EncBroadcast(l))
  }

  /** The tables of a broadcast go to the PCBs the kernel lists; None when it lists no such process,
      whose PCB the program would follow all the same. */
  function TakeTables(pcbs: Tablas, listed: set<Pid>, l: seq<(int, seq<Seg>)>): Option<Tablas> {
    if l == [] then Some(pcbs)
    else
      var n := |l| - 1;
      match TakeTables(pcbs, listed, l[..n])
      case None => None
      case Some(r) => if l[n].0 in listed then Some(r[l[n].0 := l[n].1]) else None
  }

  /** `recibir_tablas_compactadas`. */
  function TakeBroadcast(pcbs: Tablas, listed: set<Pid>, bytes: seq<Byte>): Option<Tablas> {
    match Receive(bytes)
    case OutOfBounds => None
    case Got(msg, _) =>
      match ReadBroadcast(msg.1)
      case OutOfBounds => None
      case Got(l, _) => TakeTables(pcbs, listed, l)
  }

  // ----- what a message leaves behind -----

  /** The kernel ends up with the table and the flag memory sent. */
  lemma ReplyInstallsTable(pcbs: Tablas, pid: Pid, t: seq<Seg>, flag: int)
    requires IsTable(t) && |EncTable(t)| <= MAX_INT && IsInt(flag)
    ensures TakeReply(pcbs, pid, Reply(t, flag)) == Some((pcbs[pid := t], flag))
  {
    TableReplyRoundTrip(t, flag);
  }

  /** Only PIDs in `order` change, to the tables sent; a process that is not listed stops it all. */
  lemma {:induction false} TakeTablesSets(m: Mem, pcbs: Tablas, listed: set<Pid>, order: seq<Pid>)
    requires TablesOk(m) && forall i :: 0 <= i < |order| ==> order[i] in m.tables
    ensures var r := TakeTables(pcbs, listed, Tables(m, order));
      && (r.Some? <==> forall p :: p in order ==> p in listed)
      && (r.Some? ==> r.value.Keys == pcbs.Keys + (set p | p in order))
      && (r.Some? ==> forall p :: p in order ==> p in m.tables && r.value[p] == TableOf(m, p))
      && (r.Some? ==> forall p :: p in pcbs && p !in order ==> r.value[p] == pcbs[p])
  {
    hide TableOf, TablesOk;
    if order == [] {
      assert Tables(m, order) == [];
    } else {
      var rest, last := order[..|order| - 1], order[|order| - 1];
      TakeTablesSets(m, pcbs, listed, rest);
      assert Tables(m, order)[..|order| - 1] == Tables(m, rest);
      assert order == rest + [last];
      assert forall p :: p in order <==> p in rest || p == last;
    }
  }

  lemma {:induction false} BroadcastSize(m: Mem, order: seq<Pid>)
    requires Inv(m) && Sendable(m) && (forall i :: 0 <= i < |order| ==> order[i] in m.tables)
    ensures |order| <= BroadcastBytes(m.tables, order)
    ensures forall i :: 0 <= i < |order| ==> IsInt(order[i]) && IsTable(TableOf(m, order[i]))
    ensures |EncTables(Tables(m, order))| + INT_SIZE == BroadcastBytes(m.tables, order)
  {
    hide Partition, TablesOk, Sendable, TableOf, EncTable, IsTable, EncInt;
    assert forall p :: p in m.tables ==> IsInt(p) by { IdsAreInts(m); }
    if order != [] {
      var rest, last := order[..|order| - 1], order[|order| - 1];
      BroadcastSize(m, rest);
      TableIsSendable(m, last);
      assert Tables(m, order)[..|order| - 1] == Tables(m, rest);
    }
  }

  lemma IdsAreInts(m: Mem)
    requires Sendable(m)
    ensures forall p :: p in m.tables ==> IsInt(p)
  {
  }

  /** The broadcast of all tables fits the wire. */
  lemma BroadcastFits(m: Mem, order: seq<Pid>)
    requires Inv(m) && Sendable(m) && Lists(order, m.tables.Keys)
    ensures AreTables(Tables(m, order)) && |EncBroadcast(Tables(m, order))| <= MAX_INT
  {
    assert BroadcastBytes(m.tables, order) <= MAX_INT;
    hide Partition, TablesOk, Sendable, TableOf, EncTable, IsTable, EncInt;
    BroadcastSize(m, order);
  }

  /** The broadcast after a compaction is taken exactly when the kernel lists every process memory has a
      table for, and then gives each of them that table and changes no other. */
  lemma BroadcastInstallsTables(m: Mem, pcbs: Tablas, listed: set<Pid>, order: seq<Pid>)
    requires Inv(m) && Sendable(m) && Lists(order, m.tables.Keys)
    ensures AreTables(Tables(m, order)) && |EncBroadcast(Tables(m, order))| <= MAX_INT
    ensures var r := TakeBroadcast(pcbs, listed, Broadcast(Tables(m, order)));
      && (r.Some? <==> m.tables.Keys <= listed)
      && (r.Some? ==> r.value.Keys == pcbs.Keys + m.tables.Keys)
      && (r.Some? ==> forall p :: p in r.value ==> r.value[p] == if p in m.tables then TableOf(m, p) else pcbs[p])
  {
    BroadcastFits(m, order);
    hide Partition, TablesOk, Sendable, AreTables, EncBroadcast, ReadBroadcast, TakeTables, Tables, TableOf, Receive;
    var l := Tables(m, order);
    MessageRoundTrip(PAQUETE, EncBroadcast(l), []);
    assert Broadcast(l) + [] == Broadcast(l);
    BroadcastRoundTrip(l);
    TakeTablesSets(m, pcbs, listed, order);
    assert forall p :: p in order <==> p in m.tables;
    assert (set p | p in order) == m.tables.Keys;
  }

  /** A reply with the table of a new process, read as a broadcast, is a table without segments for
      PID 0. */
  lemma FirstTableAsBroadcast(pcbs: Tablas, listed: set<Pid>, s: Seg, flag: int)
    requires IsSeg(s) && s.id == 0 && s.base == 0 && IsInt(flag) && |EncTable([s])| <= MAX_INT
    ensures TakeBroadcast(pcbs, listed, Reply([s], flag)) == if 0 in listed then Some(pcbs[0 := []]) else None
  {
    TableReplyRoundTrip([s], flag);
    var b := EncTable([s]);
    ZeroPrefix(s);
    assert ReadInt(b, 0) == Got(1, INT_SIZE) && ReadInt(b, INT_SIZE) == Got(0, 2 * INT_SIZE) &&
           ReadInt(b, 2 * INT_SIZE) == Got(0, 3 * INT_SIZE);
    hide EncTable, ReadInt, Receive;
    assert ReadSegs(b, 3 * INT_SIZE, 0, []) == Got([], 3 * INT_SIZE);
    assert ReadTable(b, 2 * INT_SIZE) == Got([], 3 * INT_SIZE);
    ReadTablesStep(b, INT_SIZE, 1, [], 0, [], 2 * INT_SIZE, 3 * INT_SIZE);
    var none: seq<(int, seq<Seg>)> := [];
    var one: seq<(int, seq<Seg>)> := [(0, [])];
    assert none + one == one;
    assert ReadBroadcast(b) == Got(one, 3 * INT_SIZE);
    OneTable(pcbs, listed);
  }

  lemma OneTable(pcbs: Tablas, listed: set<Pid>)
    ensures TakeTables(pcbs, listed, [(0, [])]) == if 0 in listed then Some(pcbs[0 := []]) else None
  {
    var l: seq<(int, seq<Seg>)> := [(0, [])];
    assert l[..0] == [];
    assert TakeTables(pcbs, listed, l[..0]) == Some(pcbs);
  }

  lemma ZeroPrefix(s: Seg)
    requires IsSeg(s) && s.id == 0 && s.base == 0 && |EncTable([s])| <= MAX_INT
    ensures ReadInt(EncTable([s]), 0) == Got(1, INT_SIZE) && ReadInt(EncTable([s]), INT_SIZE) == Got(0, 2 * INT_SIZE)
    ensures ReadInt(EncTable([s]), 2 * INT_SIZE) == Got(0, 3 * INT_SIZE)
  {
    var b := EncTable([s]);
    assert [s][..0] == [];
    assert EncSegs([s]) == EncSegs([s][..0]) + EncSeg(s) == EncSeg(s);
    assert EncSeg(s) == EncInt(0) + (EncInt(0) + EncInt(s.limite));
    WholeStands(b);
    StandsSplit(b, 0, EncInt(1), EncSeg(s));
    StandsSplit(b, INT_SIZE, EncInt(0), EncInt(0) + EncInt(s.limite));
    StandsSplit(b, 2 * INT_SIZE, EncInt(0), EncInt(s.limite));
    hide EncInt, EncTable, EncSeg, Stands;
    ReadsInt(b, 0, 1);
    ReadsInt(b, INT_SIZE, 0);
    ReadsInt(b, 2 * INT_SIZE, 0);
  }

  // ----- what requests leave alone -----

  lemma OthersKeepTables(m: Mem, m': Mem, q: Pid)
    requires TablesOk(m) && TablesOk(m') && q in m.tables && q in m'.tables && m.tables[q] == m'.tables[q]
    requires forall i :: 0 <= i < |m.tables[q]| ==>
      m.tables[q][i] in m.segs && m.tables[q][i] in m'.segs && m.segs[m.tables[q][i]] == m'.segs[m.tables[q][i]]
    ensures TableOf(m, q) == TableOf(m', q)
  {
  }

  /** The request of one process leaves the tables of all others alone, compaction apart. */
  lemma OthersUntouched(m: Mem, op: Op, q: Pid)
    requires Inv(m) && Enabled(m, op) && !op.OpCompact? && q in m.tables
    requires op.OpNew? || op.OpWrite? || op.pid != q
    ensures TablesOk(Apply(m, op)) && q in Apply(m, op).tables
    ensures TableOf(Apply(m, op), q) == TableOf(m, q)
  {
    ApplyKeepsInv(m, op);
    hide Partition, Alojar, Place;
    match op
    case OpExit(pid) => ExitKeepsTable(m, pid, q);
    case OpDelete(pid, id) => if pid in m.tables { DeleteKeepsTable(m, pid, id, q); }
    case OpCompact =>
    case _ =>
      var m' := Apply(m, op);
      forall i | 0 <= i < |m.tables[q]|
        ensures var r := m.tables[q][i]; r in m.segs && r in m'.segs && m.segs[r] == m'.segs[r]
      {
        TableRef(m, q, i);
      }
      OthersKeepTables(m, m', q);
  }

  lemma ExitKeepsTable(m: Mem, pid: Pid, q: Pid)
    requires Inv(m) && pid in m.tables && q in m.tables && q != pid && TablesOk(Exit(m, pid))
    ensures q in Exit(m, pid).tables && TableOf(Exit(m, pid), q) == TableOf(m, q)
  {
    hide Partition, Alojar;
    ExitReleases(m, pid);
    FreeAllRemoves(m.(tables := m.tables - {pid}), m.tables[pid][1..]);
    hide Exit, FreeAll;
    forall i | 0 <= i < |m.tables[q]|
      ensures var r := m.tables[q][i]; r in m.segs && r in Exit(m, pid).segs && m.segs[r] == Exit(m, pid).segs[r]
    {
      KeptEntry(m, pid, q, i);
    }
    hide TablesOk;
    OthersKeepTables(m, Exit(m, pid), q);
  }

  lemma DeleteKeepsTable(m: Mem, pid: Pid, id: int, q: Pid)
    requires Inv(m) && pid in m.tables && q in m.tables && q != pid && Enabled(m, OpDelete(pid, id)) && TablesOk(Delete(m, pid, id))
    ensures q in Delete(m, pid, id).tables && TableOf(Delete(m, pid, id), q) == TableOf(m, q)
  {
    hide Partition, Alojar;
    var k := EntryOf(m, m.tables[pid], id).value;
    forall i | 0 <= i < |m.tables[q]|
      ensures var r := m.tables[q][i]; r in m.segs && r in Delete(m, pid, id).segs && m.segs[r] == Delete(m, pid, id).segs[r]
    {
      TableRef(m, q, i);
      assert At(m.tables, pid, k, m.tables[pid][k]);
      assert i > 0 ==> At(m.tables, q, i, m.tables[q][i]);
    }
    hide TablesOk;
    OthersKeepTables(m, Delete(m, pid, id), q);
  }

  lemma KeptEntry(m: Mem, pid: Pid, q: Pid, k: nat)
    requires TablesOk(m) && pid in m.tables && q in m.tables && q != pid && k < |m.tables[q]|
    ensures m.tables[q][k] in m.segs && m.tables[q][k] !in Elems(m.tables[pid][1..])
  {
    TableRef(m, q, k);
    var r, t := m.tables[q][k], m.tables[pid][1..];
    assert k > 0 ==> At(m.tables, q, k, r);
    forall l | 0 <= l < |t| ensures t[l] != r { assert At(m.tables, pid, l + 1, t[l]); }
  }

  /** The processes memory has a table for after a request. */
  ghost function KeysAfter(m: Mem, op: Op): set<Pid> {
    match op
    case OpNew(pid) => m.tables.Keys + {pid}
    case OpExit(pid) => m.tables.Keys - {pid}
    case _ => m.tables.Keys
  }

  lemma KeysAfterApply(m: Mem, op: Op)
    requires Inv(m) && Enabled(m, op)
    ensures Apply(m, op).tables.Keys == KeysAfter(m, op) && Apply(m, op).seg0 == m.seg0 && Apply(m, op).total == m.total
  {
    assert forall p :: p in m.tables ==> |m.tables[p]| > 0;
    hide Partition, TablesOk, Alojar, Place;
    match op
    case OpExit(pid) =>
      ExitReleases(m, pid);
      FreeAllRemoves(m.(tables := m.tables - {pid}), m.tables[pid][1..]);
    case OpCompact => CompactKeeps(m);
    case _ =>
  }
}
