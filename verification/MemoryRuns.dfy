/** Whole runs of the memory module: what every sequence of requests keeps. */
module MemoryRuns {
  import opened Sums
  import opened Holes
  import opened Memory
  import opened Compaction

  datatype Op =
    | OpNew(pid: Pid)
    | OpCreate(policy: Policy, pid: Pid, id: int, size: int, r: Segmento)
    | OpDelete(pid: Pid, id: int)
    | OpExit(pid: Pid)
    | OpCompact
    | OpWrite(addr: int, value: seq<char>)

  /** What the module needs of a request. A record that `malloc` returns is not in use. */
  ghost predicate Enabled(m: Mem, op: Op) {
    match op
    case OpNew(pid) => pid !in m.tables
    case OpCreate(_, pid, _, size, r) => pid in m.tables && size > 0 && r !in m.segs
    case OpDelete(pid, id) =>
      pid in m.tables ==>
        var e := EntryOf(m, m.tables[pid], id); e.Some? && e.value > 0
    case OpExit(pid) => pid in m.tables
    case OpCompact => |m.holes| > 0
    case OpWrite(addr, value) => 0 <= addr <= addr + |value| <= |m.space|
  }

  function Write(m: Mem, addr: int, value: seq<char>): Mem
    requires 0 <= addr <= addr + |value| <= |m.space|
  {
    m.(space := m.space[..addr] + value + m.space[addr + |value|..])
  }

  ghost function Apply(m: Mem, op: Op): Mem
    requires Enabled(m, op)
  {
    match op
    case OpNew(pid) => NewProcess(m, pid)
    case OpCreate(policy, pid, id, size, r) => Create(policy, m, pid, id, size, r).0
    case OpDelete(pid, id) => Delete(m, pid, id)
    case OpExit(pid) => Exit(m, pid)
    case OpCompact => if Partition(m) then Compact(m) else m
    case OpWrite(addr, value) => Write(m, addr, value)
  }

  ghost predicate Run(m: Mem, ops: seq<Op>)
    decreases |ops|
  {
    ops == [] || (Enabled(m, ops[0]) && Run(Apply(m, ops[0]), ops[1..]))
  }

  ghost function Final(m: Mem, ops: seq<Op>): Mem
    requires Run(m, ops)
    decreases |ops|
  {
    if ops == [] then m else Final(Apply(m, ops[0]), ops[1..])
  }

  /** The state after start-up: one hole, from which segment 0 is allocated. */
  function Start(total: int, size0: int, seg0: Segmento): Mem
    requires 0 < size0 <= total
  {
    Mem(total, seg0, Place([Hueco(0, total)], 0, size0), map[seg0 := Seg(0, 0, size0)], map[],
        seq(total, _ => BLANK))
  }

  lemma StartIsOk(total: int, size0: int, seg0: Segmento)
    requires 0 < size0 <= total
    ensures Inv(Start(total, size0, seg0))
  {
    var m, h := Start(total, size0, seg0), [Hueco(0, total)];
    PlaceTakesSpan(h, 0, size0);
    forall b ensures Free(m.holes, b) <==> 0 <= b < total && !Used(m.segs, b) {
      assert h[0].Has(b) <==> Free(h, b);
      assert m.segs[seg0].Has(b) <==> Used(m.segs, b);
    }
  }

  // ----- tables -----

  lemma TableRef(m: Mem, pid: Pid, i: nat)
    requires TablesOk(m) && pid in m.tables && i < |m.tables[pid]|
    ensures m.tables[pid][i] in m.segs
  {
    assert i > 0 ==> At(m.tables, pid, i, m.tables[pid][i]);
  }

  lemma CreateKeepsTables(policy: Policy, m: Mem, pid: Pid, id: int, size: int, r: Segmento)
    requires Inv(m) && pid in m.tables && size > 0 && r !in m.segs
    ensures TablesOk(Create(policy, m, pid, id, size, r).0)
  {
    hide Partition, Place;
    var m' := Create(policy, m, pid, id, size, r).0;
    if m' != m {
      var n := |m.tables[pid]|;
      forall p, i, s ensures At(m'.tables, p, i, s) <==> At(m.tables, p, i, s) || (p == pid && i == n && s == r) {
      }
      assert At(m'.tables, pid, n, r);
      forall s | s in m.segs && s != m.seg0 ensures Listed(m'.tables, s) {
        var p, i :| At(m.tables, p, i, s);
        assert At(m'.tables, p, i, s);
      }
    }
  }

  /** Where an entry of the shortened table was before entry `i` of `pid` was taken out. */
  lemma AtAfterRemove(tables: map<Pid, seq<Segmento>>, pid: Pid, i: int, p: Pid, k: int, r: Segmento)
    requires pid in tables && 0 < i < |tables[pid]|
    ensures At(tables[pid := RemoveAt(tables[pid], i)], p, k, r) <==>
      At(tables, p, if p == pid && k >= i then k + 1 else k, r)
  {
  }

  lemma DeleteKeepsTables(m: Mem, pid: Pid, id: int)
    requires Inv(m) && pid in m.tables && EntryOf(m, m.tables[pid], id).Some?
    requires EntryOf(m, m.tables[pid], id).value > 0
    ensures TablesOk(Delete(m, pid, id))
  {
    hide Partition, Alojar;
    var i := EntryOf(m, m.tables[pid], id).value;
    var m' := Delete(m, pid, id);
    var gone := m.tables[pid][i];
    assert At(m.tables, pid, i, gone);
    assert m'.tables == m.tables[pid := RemoveAt(m.tables[pid], i)] && m'.segs == m.segs - {gone};
    forall p, k, s ensures At(m'.tables, p, k, s) <==> At(m.tables, p, if p == pid && k >= i then k + 1 else k, s) {
      AtAfterRemove(m.tables, pid, i, p, k, s);
    }
    hide At, RemoveAt, Delete, EntryOf;
    forall s | s in m'.segs && s != m.seg0 ensures Listed(m'.tables, s) {
      var p, k :| At(m.tables, p, k, s);
      assert At(m'.tables, p, if p == pid && k > i then k - 1 else k, s);
    }
  }

  lemma ExitReleases(m: Mem, pid: Pid)
    requires Inv(m) && pid in m.tables
    ensures Releasable(m.(tables := m.tables - {pid}), m.tables[pid][1..])
    ensures Exit(m, pid) == FreeAll(m.(tables := m.tables - {pid}), m.tables[pid][1..])
  {
    var t := m.tables[pid];
    forall i | 0 <= i < |t[1..]| ensures t[1..][i] in m.segs { assert At(m.tables, pid, i + 1, t[1..][i]); }
    forall i, j | 0 <= i < j < |t[1..]| ensures t[1..][i] != t[1..][j] {
      assert At(m.tables, pid, i + 1, t[1..][i]) && At(m.tables, pid, j + 1, t[1..][j]);
    }
  }

  lemma ExitKeepsTables(m: Mem, pid: Pid)
    requires Inv(m) && pid in m.tables
    ensures TablesOk(Exit(m, pid))
  {
    var t := m.tables[pid];
    ExitReleases(m, pid);
    FreeAllRemoves(m.(tables := m.tables - {pid}), t[1..]);
    hide Exit, FreeAll, Partition;
    var m' := Exit(m, pid);
    assert m'.segs == m.segs - Elems(t[1..]) && m'.tables == m.tables - {pid};
    forall s | s in Elems(t[1..]) ensures exists k :: At(m.tables, pid, k, s) {
      var l :| 0 <= l < |t[1..]| && t[1..][l] == s;
      assert At(m.tables, pid, l + 1, s);
    }
    forall k, s | At(m.tables, pid, k, s) ensures s in Elems(t[1..]) { assert t[1..][k - 1] == s; }
    forall s | s in m'.segs && s != m.seg0 ensures Listed(m'.tables, s) {
      var p, k :| At(m.tables, p, k, s);
      assert At(m'.tables, p, k, s);
    }
    forall p, k, s | At(m'.tables, p, k, s) ensures s in m'.segs && s != m.seg0 {
      assert At(m.tables, p, k, s);
    }
    forall p, i, q, j, r | At(m'.tables, p, i, r) && At(m'.tables, q, j, r) ensures p == q && i == j {
      assert At(m.tables, p, i, r) && At(m.tables, q, j, r);
    }
  }

  /** Every segment past segment 0's start is an entry of some table. */
  lemma AboveIsListed(m: Mem, r: Segmento, global: seq<Segmento>)
    requires Inv(m) && r in m.segs && m.segs[r].base > 0
    requires forall s :: s in global <==> exists p :: p in m.tables && s in m.tables[p]
    ensures r in global
  {
    assert Listed(m.tables, r);
    var p, i :| At(m.tables, p, i, r);
    assert r in m.tables[p];
  }

  lemma ListedIsLive(m: Mem, r: Segmento, global: seq<Segmento>)
    requires Inv(m) && r in global
    requires forall s :: s in global <==> exists p :: p in m.tables && s in m.tables[p]
    ensures r in m.segs
  {
    var p :| p in m.tables && r in m.tables[p];
    var i :| 0 <= i < |m.tables[p]| && m.tables[p][i] == r;
    TableRef(m, p, i);
  }

  lemma CompactKeepsTables(m: Mem)
    requires Inv(m) && |m.holes| > 0
    ensures TablesOk(Compact(m)) && m.seg0 in Compact(m).segs && Compact(m).segs[m.seg0] == m.segs[m.seg0]
  {
    CompactKeeps(m);
    HoleInRange(m, FirstHole(m.holes));
    assert m.seg0 !in Above(m);
  }

  // ----- every request keeps the invariant -----

  lemma ApplyKeepsInv(m: Mem, op: Op)
    requires Inv(m) && Enabled(m, op)
    ensures Inv(Apply(m, op))
  {
    hide Create, Delete, Exit, Alojar, Place, Canonical, SegsOk, Compact;
    match op
    case OpNew(pid) => NewKeepsTables(m, pid);
    case OpCreate(policy, pid, id, size, r) =>
      CreateKeepsPartition(policy, m, pid, id, size, r);
      CreateKeepsTables(policy, m, pid, id, size, r);
    case OpDelete(pid, id) => DeleteKeepsInv(m, pid, id);
    case OpExit(pid) =>
      ExitReleases(m, pid);
      FreeAllKeepsPartition(m.(tables := m.tables - {pid}), m.tables[pid][1..]);
      ExitKeepsTables(m, pid);
    case OpCompact => CompactKeepsTables(m);
    case OpWrite(addr, value) =>
  }

  lemma NewKeepsTables(m: Mem, pid: Pid)
    requires Inv(m) && pid !in m.tables
    ensures Inv(NewProcess(m, pid))
  {
    var m' := NewProcess(m, pid);
    forall p, k, s ensures At(m'.tables, p, k, s) <==> At(m.tables, p, k, s) {}
    forall s | s in m.segs && s != m.seg0 ensures Listed(m'.tables, s) {
      var p, k :| At(m.tables, p, k, s);
      assert At(m'.tables, p, k, s);
    }
  }

  lemma DeleteKeepsInv(m: Mem, pid: Pid, id: int)
    requires Inv(m) && Enabled(m, OpDelete(pid, id))
    ensures Inv(Delete(m, pid, id))
  {
    if pid in m.tables {
      DeleteKeepsTables(m, pid, id);
      var i := EntryOf(m, m.tables[pid], id).value;
      FreeSegKeepsPartition(m.(tables := m.tables[pid := RemoveAt(m.tables[pid], i)]), m.tables[pid][i]);
    }
  }

  /** The partition holds after any run of creations, deletions, exits, compactions and writes. */
  lemma {:induction false} RunKeepsInv(m: Mem, ops: seq<Op>)
    requires Inv(m) && Run(m, ops)
    ensures Inv(Final(m, ops))
    decreases |ops|
  {
    if ops != [] {
      ApplyKeepsInv(m, ops[0]);
      RunKeepsInv(Apply(m, ops[0]), ops[1..]);
    }
  }

  /** From start-up, after any run, every byte of memory is in exactly one hole or live segment, no
      hole is empty, no two holes touch, and segment 0 still starts at address 0. */
  lemma EveryRunPartitionsMemory(total: int, size0: int, seg0: Segmento, ops: seq<Op>, b: int)
    requires 0 < size0 <= total && Run(Start(total, size0, seg0), ops)
    requires 0 <= b < Final(Start(total, size0, seg0), ops).total
    ensures var m := Final(Start(total, size0, seg0), ops);
      && Canonical(m.holes)
      && (Free(m.holes, b) <==> !Used(m.segs, b))
      && (forall r, s :: r in m.segs && s in m.segs && m.segs[r].Has(b) && m.segs[s].Has(b) ==> r == s)
      && m.seg0 in m.segs && m.segs[m.seg0].base == 0
  {
    StartIsOk(total, size0, seg0);
    RunKeepsInv(Start(total, size0, seg0), ops);
    EveryByteHasOnePlace(Final(Start(total, size0, seg0), ops), b);
  }

  // ----- the answer of an allocation, and the retry after compaction -----

  lemma {:induction false} HoleWithinTotal(h: seq<Hueco>, i: nat)
    requires (forall k :: 0 <= k < |h| ==> h[k].size > 0) && i < |h|
    ensures h[i].size <= Total(h) && (|h| > 1 ==> h[i].size < Total(h))
  {
    TotalRemove(h, i);
    TotalNonNegative(RemoveAt(h, i));
  }

  /** -1 exactly when the free total is too small; 1 exactly when it suffices but no hole does. */
  lemma AnswerMeaning(policy: Policy, m: Mem, pid: Pid, id: int, size: int, r: Segmento)
    requires Inv(m) && pid in m.tables && size > 0
    ensures var answer := Create(policy, m, pid, id, size, r).1;
      && (answer == -1 <==> Total(m.holes) < size)
      && (answer == 1 <==> Total(m.holes) >= size && forall i :: 0 <= i < |m.holes| ==> m.holes[i].size < size)
      && (answer == 0 <==> exists i :: 0 <= i < |m.holes| && m.holes[i].size >= size)
  {
    match Pick(policy, m.holes, size)
    case None =>
      assert forall i :: 0 <= i < |m.holes| ==> !Fits(m.holes[i], size);
    case Some(i) =>
      HoleWithinTotal(m.holes, i);
  }

  lemma OneHoleHasAll(h: seq<Hueco>)
    ensures |h| == 1 ==> Total(h) == h[0].size
    ensures |h| == 0 ==> Total(h) == 0
  {
    if |h| == 1 { TotalOfOne(h[0]); assert h == [h[0]]; }
  }

  /** Answer 1 means compaction has work to do: at least two holes, and a segment to move. */
  lemma AnswerOneMeansWork(policy: Policy, m: Mem, pid: Pid, id: int, size: int, r: Segmento)
    requires Inv(m) && pid in m.tables && size > 0 && Create(policy, m, pid, id, size, r).1 == 1
    ensures |m.holes| >= 2 && Above(m) != {}
  {
    AnswerMeaning(policy, m, pid, id, size, r);
    assert |m.holes| >= 2 by { OneHoleHasAll(m.holes); }
    var f := FirstHole(m.holes);
    var i := if f == 0 then 1 else 0;
    assert Apart(m.holes[i], m.holes[f]);
    HoleInRange(m, i);
    HoleInRange(m, f);
    EdgesAreTaken(m.holes, f);
    var e := m.holes[f].pos + m.holes[f].size;
    assert Used(m.segs, e);
    var q: Segmento :| q in m.segs && m.segs[q].Has(e);
    SegAvoidsHole(m, q, f);
    assert q in Above(m);
  }

  predicate IsCreate(op: Op) { op.OpCreate? }

  lemma StepKeepsTotal(m: Mem, op: Op)
    requires Inv(m) && Enabled(m, op) && !IsCreate(op)
    ensures Total(Apply(m, op).holes) >= Total(m.holes)
  {
    match op
    case OpNew(pid) =>
    case OpDelete(pid, id) =>
      if pid in m.tables {
        var i := EntryOf(m, m.tables[pid], id).value;
        FreeSegTotal(m.(tables := m.tables[pid := RemoveAt(m.tables[pid], i)]), m.tables[pid][i]);
      }
    case OpExit(pid) =>
      ExitReleases(m, pid);
      FreeAllKeepsPartition(m.(tables := m.tables - {pid}), m.tables[pid][1..]);
    case OpCompact => CompactKeeps(m);
    case OpWrite(addr, value) =>
  }

  lemma {:induction false} RunKeepsTotal(m: Mem, ops: seq<Op>)
    requires Inv(m) && Run(m, ops) && forall i :: 0 <= i < |ops| ==> !IsCreate(ops[i])
    ensures Total(Final(m, ops).holes) >= Total(m.holes)
    decreases |ops|
  {
    if ops != [] {
      StepKeepsTotal(m, ops[0]);
      ApplyKeepsInv(m, ops[0]);
      RunKeepsTotal(Apply(m, ops[0]), ops[1..]);
    }
  }

  /** The retry: after an answer 1, whatever is served in between short of another allocation, the
      same request succeeds right after compaction, under every policy. */
  lemma RetrySucceeds(policy: Policy, m: Mem, pid: Pid, id: int, size: int, r: Segmento, between: seq<Op>,
                      policy': Policy, r': Segmento)
    requires Inv(m) && pid in m.tables && size > 0 && Create(policy, m, pid, id, size, r).1 == 1
    requires Run(m, between) && (forall i :: 0 <= i < |between| ==> !IsCreate(between[i]))
    requires pid in Final(m, between).tables
    ensures |Final(m, between).holes| > 0 && Inv(Final(m, between))
    ensures pid in Compact(Final(m, between)).tables
    ensures Create(policy', Compact(Final(m, between)), pid, id, size, r').1 == 0
  {
    hide Create, Canonical, SegsOk;
    AnswerMeaning(policy, m, pid, id, size, r);
    RunKeepsInv(m, between);
    RunKeepsTotal(m, between);
    var m1 := Final(m, between);
    assert |m1.holes| > 0;
    CompactLeavesOneHole(m1);
    CompactKeepsTables(m1);
    CompactKeeps(m1);
    AnswerMeaning(policy', Compact(m1), pid, id, size, r');
    assert Compact(m1).holes[0].size >= size;
  }

  // ----- compaction can lose bytes -----

  lemma AfterThen(m: Mem, op: Op, ops: seq<Op>)
    requires Enabled(m, op) && Run(Apply(m, op), ops)
    ensures Run(m, [op] + ops) && Final(m, [op] + ops) == Final(Apply(m, op), ops)
  {
    assert ([op] + ops)[1..] == ops;
  }

  /** Two segments on top of segment 0, the lower one deleted. */
  function LosingState(seg0: Segmento, rb: Segmento): Mem {
    Mem(4, seg0, [Hueco(1, 1)], map[seg0 := Seg(0, 0, 1), rb := Seg(2, 2, 2)], map[1 := [seg0, rb]],
        [BLANK, BLANK, 'x', 'y'])
  }

  /** Two bytes are written to a segment with one free byte below it; compaction blanks the second. */
  lemma CompactionLosesAByte(seg0: Segmento, ra: Segmento, rb: Segmento) returns (ops: seq<Op>)
    requires seg0 != ra && seg0 != rb && ra != rb
    ensures Run(Start(4, 1, seg0), ops) && Final(Start(4, 1, seg0), ops) == LosingState(seg0, rb)
    ensures Partition(LosingState(seg0, rb)) && Gap(LosingState(seg0, rb), rb) == 1
    ensures Bytes(LosingState(seg0, rb), rb) == "xy"
    ensures Bytes(Compact(LosingState(seg0, rb)), rb) == ['x', BLANK]
  {
    var m0 := Start(4, 1, seg0);
    var o1, o2, o3 := OpNew(1), OpCreate(First, 1, 1, 1, ra), OpCreate(First, 1, 2, 2, rb);
    var m1 := Apply(m0, o1);
    var m2 := Apply(m1, o2);
    assert m2.holes == [Hueco(2, 2)];
    var m3 := Apply(m2, o3);
    assert m3 == BothThere(seg0, ra, rb) by { assert m3.tables[1] == [seg0, ra, rb]; }
    var rest := ThenDelete(seg0, ra, rb);
    AfterThen(m2, o3, rest);
    AfterThen(m1, o2, [o3] + rest);
    AfterThen(m0, o1, [o2] + ([o3] + rest));
    ops := [o1] + ([o2] + ([o3] + rest));
    StartIsOk(4, 1, seg0);
    RunKeepsInv(m0, ops);
    ByteIsLost(seg0, rb);
  }

  function BothThere(seg0: Segmento, ra: Segmento, rb: Segmento): Mem {
    Mem(4, seg0, [], map[seg0 := Seg(0, 0, 1), ra := Seg(1, 1, 1), rb := Seg(2, 2, 2)], map[1 := [seg0, ra, rb]],
        seq(4, _ => BLANK))
  }

  lemma ThenDelete(seg0: Segmento, ra: Segmento, rb: Segmento) returns (ops: seq<Op>)
    requires seg0 != ra && seg0 != rb && ra != rb
    ensures Run(BothThere(seg0, ra, rb), ops) && Final(BothThere(seg0, ra, rb), ops) == LosingState(seg0, rb)
  {
    var m3, o4, o5 := BothThere(seg0, ra, rb), OpWrite(2, "xy"), OpDelete(1, 1);
    var m4 := Apply(m3, o4);
    assert m4.segs[seg0].id == 0 && m4.segs[ra].id == 1 && m4.segs[rb].id == 2;
    assert m4.tables[1][1] == ra;
    assert EntryOf(m4, m4.tables[1], 1) == Some(1);
    var m5 := Apply(m4, o5);
    assert m5 == LosingState(seg0, rb) by {
      assert m5.segs == LosingState(seg0, rb).segs;
      assert m5.holes == [Hueco(1, 1)];
      assert m5.tables[1] == [seg0, rb];
      assert m5.space == [BLANK, BLANK, 'x', 'y'];
    }
    AfterThen(m4, o5, []);
    AfterThen(m3, o4, [o5] + []);
    ops := [o4] + ([o5] + []);
  }

  lemma ByteIsLost(seg0: Segmento, rb: Segmento)
    requires seg0 != rb && Partition(LosingState(seg0, rb))
    ensures Gap(LosingState(seg0, rb), rb) == 1
    ensures Bytes(LosingState(seg0, rb), rb) == "xy"
    ensures Bytes(Compact(LosingState(seg0, rb)), rb) == ['x', BLANK]
  {
    var m := LosingState(seg0, rb);
    var below := SizesBelow(m.segs, 2);
    assert below == map[seg0 := 1];
    SumMinus(below, seg0);
    assert below - {seg0} == map[];
    BytesAfterCompact(m, rb);
  }

  // ----- the hole set is canonical -----

  /** Two states with the same live segments have the same holes. */
  lemma HolesFollowSegments(m1: Mem, m2: Mem)
    requires Partition(m1) && Partition(m2) && m1.total == m2.total && m1.segs == m2.segs
    ensures forall x :: x in m1.holes <==> x in m2.holes
  {
    HoleSetIsUnique(m1.holes, m2.holes);
  }

  /** Allocating a segment and deleting it again restores the state, holes as a set. */
  lemma CreateThenDelete(policy: Policy, m: Mem, pid: Pid, id: int, size: int, r: Segmento)
    requires Inv(m) && pid in m.tables && size > 0 && r !in m.segs
    requires EntryOf(m, m.tables[pid], id) == None && Create(policy, m, pid, id, size, r).1 == 0
    ensures var m2 := Delete(Create(policy, m, pid, id, size, r).0, pid, id);
      && m2 == m.(holes := m2.holes)
      && forall x :: x in m2.holes <==> x in m.holes
  {
    hide Partition, Place, Alojar;
    var m1 := Create(policy, m, pid, id, size, r).0;
    CreateKeepsPartition(policy, m, pid, id, size, r);
    CreateKeepsTables(policy, m, pid, id, size, r);
    NewEntryIsLast(m, m1, pid, id, r);
    DeleteKeepsInv(m1, pid, id);
    var t := m.tables[pid];
    assert m1.segs - {r} == m.segs;
    assert RemoveAt(t + [r], |t|) == t;
    assert m.tables[pid := t + [r]][pid := t] == m.tables;
    HolesFollowSegments(m, Delete(m1, pid, id));
  }

  lemma NewEntryIsLast(m: Mem, m1: Mem, pid: Pid, id: int, r: Segmento)
    requires TablesOk(m) && pid in m.tables && r !in m.segs && pid in m1.tables
    requires m1.tables[pid] == m.tables[pid] + [r]
    requires r in m1.segs && m1.segs[r].id == id && m1.segs - {r} == m.segs
    requires EntryOf(m, m.tables[pid], id) == None
    ensures EntryOf(m1, m1.tables[pid], id) == Some(|m.tables[pid]|)
  {
    var t := m.tables[pid];
    forall i | 0 <= i < |t| ensures t[i] in m1.segs && m1.segs[t[i]].id != id {
      assert i > 0 ==> At(m.tables, pid, i, t[i]);
      assert m1.segs[t[i]] == m.segs[t[i]];
    }
    assert (t + [r])[|t|] == r;
  }

  /** Releasing a group of segments gives the same holes in any order. */
  lemma ReleaseOrderIsIrrelevant(m: Mem, rs: seq<Segmento>, us: seq<Segmento>)
    requires Partition(m) && Releasable(m, rs) && Releasable(m, us) && Elems(rs) == Elems(us)
    ensures FreeAll(m, us) == FreeAll(m, rs).(holes := FreeAll(m, us).holes)
    ensures forall x :: x in FreeAll(m, rs).holes <==> x in FreeAll(m, us).holes
  {
    FreeAllKeepsPartition(m, rs);
    FreeAllKeepsPartition(m, us);
    FreeAllRemoves(m, rs);
    FreeAllRemoves(m, us);
    HolesFollowSegments(FreeAll(m, rs), FreeAll(m, us));
  }
}
