/** A run from start-up in which two replies are taken crosswise: kernel and memory disagree for good, and
    one process reaches another's segment. */
module ExchangeCrossed {
  import opened Sums
  import opened Holes
  import opened Memory
  import opened Compaction
  import opened MemoryRuns
  import opened Mmu
  import opened Wire
  import opened TableSync
  import opened Exchange
  import opened ExchangeRuns
  import opened ExchangeRetry

  // ----- small memories fit the wire -----

  lemma {:induction false} BytesBound(t: map<Pid, seq<Segmento>>, order: seq<Pid>, n: nat)
    requires forall i :: 0 <= i < |order| ==> order[i] in t && |t[order[i]]| <= n
    ensures BroadcastBytes(t, order) <= INT_SIZE + |order| * (INT_SIZE + TableBytes(n))
  {
    if order != [] {
      var k := |order| - 1;
      BytesBound(t, order[..k], n);
      assert (k + 1) * (INT_SIZE + TableBytes(n)) == k * (INT_SIZE + TableBytes(n)) + (INT_SIZE + TableBytes(n));
    }
  }

  lemma {:induction false} ListLength(order: seq<Pid>, keys: set<Pid>)
    requires Lists(order, keys)
    ensures |order| == |keys|
    decreases |order|
  {
    if order == [] {
      assert forall p :: p in keys ==> p in order;
      assert keys == {};
    } else {
      var k := |order| - 1;
      var last := order[k];
      forall p | p in keys - {last} ensures p in order[..k] {
        var i :| 0 <= i < |order| && order[i] == p;
        assert order[..k][i] == p;
      }
      ListLength(order[..k], keys - {last});
    }
  }

  lemma SmallIsSendable(m: Mem)
    requires 0 <= m.total <= MAX_INT && |m.tables.Keys| <= 2
    requires forall p :: p in m.tables ==> IsInt(p) && |m.tables[p]| <= 2
    requires forall r :: r in m.segs ==> IsInt(m.segs[r].id)
    ensures Sendable(m)
  {
    forall order | Lists(order, m.tables.Keys) ensures BroadcastBytes(m.tables, order) <= MAX_INT {
      ListLength(order, m.tables.Keys);
      forall i | 0 <= i < |order| ensures order[i] in m.tables && |m.tables[order[i]]| <= 2 {
        var p: Pid := order[i];
        assert p in m.tables.Keys && IsInt(p);
      }
      BytesBound(m.tables, order, 2);
      assert |order| * (INT_SIZE + TableBytes(2)) <= 2 * (INT_SIZE + TableBytes(2));
    }
  }

  // ----- the memories of the run -----

  function M0(seg0: Segmento): Mem { Start(4, 1, seg0) }

  function M1(seg0: Segmento): Mem { NewProcess(M0(seg0), 1) }

  function M2(seg0: Segmento): Mem { NewProcess(M1(seg0), 2) }

  function ASegment(ra: Segmento): Op { OpCreate(First, 1, 1, 2, ra) }

  function M3(seg0: Segmento, ra: Segmento): Mem {
    Mem(4, seg0, [Hueco(3, 1)], map[seg0 := Seg(0, 0, 1), ra := Seg(1, 1, 2)], map[1 := [seg0, ra], 2 := [seg0]],
        seq(4, _ => BLANK))
  }

  lemma Memories(seg0: Segmento, ra: Segmento)
    requires seg0 != ra
    ensures Inv(M0(seg0)) && Sendable(M0(seg0)) && Servable(M0(seg0), OpNew(1)) && Apply(M0(seg0), OpNew(1)) == M1(seg0)
    ensures Inv(M1(seg0)) && Sendable(M1(seg0)) && Servable(M1(seg0), OpNew(2)) && Apply(M1(seg0), OpNew(2)) == M2(seg0)
    ensures Inv(M2(seg0)) && Sendable(M2(seg0)) && Servable(M2(seg0), ASegment(ra))
    ensures Apply(M2(seg0), ASegment(ra)) == M3(seg0, ra) && Answer(M2(seg0), ASegment(ra)) == 0
    ensures Inv(M3(seg0, ra)) && Sendable(M3(seg0, ra))
  {
    Fitting(seg0, ra);
    Created(seg0, ra);
    Arrivals(seg0);
    StartIsOk(4, 1, seg0);
    hide Inv, Sendable, Apply, Answer, Enabled, M0, M1, M2, M3;
    ApplyKeepsInv(M0(seg0), OpNew(1));
    ApplyKeepsInv(M1(seg0), OpNew(2));
    ApplyKeepsInv(M2(seg0), ASegment(ra));
  }

  lemma Arrivals(seg0: Segmento)
    ensures Enabled(M0(seg0), OpNew(1)) && Apply(M0(seg0), OpNew(1)) == M1(seg0) && M0(seg0) == Start(4, 1, seg0)
    ensures Enabled(M1(seg0), OpNew(2)) && Apply(M1(seg0), OpNew(2)) == M2(seg0)
  {
  }

  lemma Fitting(seg0: Segmento, ra: Segmento)
    requires seg0 != ra
    ensures Sendable(M0(seg0)) && Sendable(M1(seg0)) && Sendable(M2(seg0)) && Sendable(M3(seg0, ra))
  {
    assert M0(seg0).tables.Keys == {} && M1(seg0).tables.Keys == {1};
    assert M2(seg0).tables.Keys == {1, 2} && M3(seg0, ra).tables.Keys == {1, 2};
    hide Sendable;
    SmallIsSendable(M0(seg0));
    SmallIsSendable(M1(seg0));
    SmallIsSendable(M2(seg0));
    SmallIsSendable(M3(seg0, ra));
  }

  lemma Created(seg0: Segmento, ra: Segmento)
    requires seg0 != ra
    ensures Enabled(M2(seg0), ASegment(ra)) && Apply(M2(seg0), ASegment(ra)) == M3(seg0, ra)
    ensures Answer(M2(seg0), ASegment(ra)) == 0
  {
    var m := M2(seg0);
    assert m.holes == [Hueco(1, 3)];
    assert Pick(First, m.holes, 2) == Some(0);
    assert m.tables[1] + [ra] == [seg0, ra];
  }

  // ----- the run -----

  function Taken(seg0: Segmento): Tablas { map[1 := [Seg(0, 0, 1)]] }

  /** Process 1 is admitted. */
  function Ready1(seg0: Segmento): EState {
    EState(M1(seg0), [], [], Taken(seg0), {1}, AIdle, SIdle, None, 0, false, false)
  }

  /** Both requests are served, in order. */
  ghost function BothServed(seg0: Segmento, ra: Segmento): EState
    requires seg0 != ra
  {
    Memories(seg0, ra);
    EState(M3(seg0, ra), [], [TableReply(M2(seg0), 2, 0), TableReply(M3(seg0, ra), 1, 0)], Taken(seg0), {1},
           ASent(2), SSent(ASegment(ra), 0), None, 0, false, false)
  }

  /** Each thread has the other's table. */
  function Swapped(seg0: Segmento, ra: Segmento): EState {
    EState(M3(seg0, ra), [], [], map[1 := [Seg(0, 0, 1)], 2 := [Seg(0, 0, 1), Seg(1, 1, 2)]], {1},
           AGot(2), SIdle, None, 0, false, false)
  }

  lemma RunThen(e: EState, s: EStep, ss: seq<EStep>)
    requires EEnabled(e, s) && ERun(ENext(e, s), ss)
    ensures ERun(e, [s] + ss) && EFinal(e, [s] + ss) == EFinal(ENext(e, s), ss)
  {
    assert ([s] + ss)[1..] == ss;
  }

  // ----- single steps -----

  lemma SendNewIs(e: EState, q: Pid)
    requires !e.failed && e.admitter.AIdle? && q !in e.pcbs && q !in e.mem.tables && CanSend(e, OpNew(q))
    ensures EEnabled(e, SendNew(q)) && ENext(e, SendNew(q)) == e.(requests := e.requests + [OpNew(q)], admitter := ASent(q))
  {
    hide CanSend;
  }

  lemma SendOpIs(e: EState, op: Op)
    requires !e.failed && e.sched.SIdle? && op.OpCreate? && op.pid in e.listed && CanSend(e, op)
    ensures EEnabled(e, SendOp(op)) && ENext(e, SendOp(op)) == e.(requests := e.requests + [op], sched := SSent(op, 0))
  {
    hide CanSend;
  }

  lemma ServeTableIs(e: EState, op: Op, m': Mem)
    requires !e.failed && e.requests != [] && e.requests[0] == op && Inv(e.mem) && Sendable(e.mem) && Servable(e.mem, op)
    requires (op.OpNew? || op.OpCreate?) && m' == Apply(e.mem, op) && Inv(m') && Sendable(m') && op.pid in m'.tables
    ensures EEnabled(e, Serve([]))
    ensures ENext(e, Serve([])) ==
      e.(mem := m', requests := e.requests[1..], replies := e.replies + [TableReply(m', op.pid, Answer(e.mem, op))],
         answer := if op.OpCreate? then Answer(e.mem, op) else e.answer)
  {
    hide Inv, Sendable, Servable, Apply, TableReply, Answer;
    assert EEnabled(e, Serve([]));
    ServeIs(e, []);
    NoFlag(e.mem, op);
    hide ENext, EEnabled;
  }

  lemma NoFlag(m: Mem, op: Op)
    ensures op.OpNew? ==> Answer(m, op) == 0
  {
  }

  lemma TakesTable(pcbs: Tablas, pid: Pid, m: Mem, x: Pid, flag: int)
    requires Inv(m) && Sendable(m) && x in m.tables && IsInt(flag)
    ensures TablesOk(m) && TakeReply(pcbs, pid, TableReply(m, x, flag)) == Some((pcbs[pid := TableOf(m, x)], flag))
  {
    TableIsSendable(m, x);
    ReplyInstallsTable(pcbs, pid, TableOf(m, x), flag);
  }

  lemma TakeNewIs(e: EState, q: Pid, m: Mem, x: Pid)
    requires !e.failed && e.admitter == ASent(q) && Inv(m) && Sendable(m) && x in m.tables && e.replies != []
    requires e.replies[0] == TableReply(m, x, 0) && TablesOk(m)
    ensures EEnabled(e, TakeNew)
    ensures ENext(e, TakeNew) == e.(replies := e.replies[1..], pcbs := e.pcbs[q := TableOf(m, x)], admitter := AGot(q))
  {
    hide Inv, Sendable, TableOf, TableReply, TakeReply;
    TakesTable(e.pcbs, q, m, x, 0);
  }

  lemma TakeOpIs(e: EState, op: Op, m: Mem, x: Pid)
    requires !e.failed && e.sched.SSent? && e.sched.op == op && op.OpCreate? && Inv(m) && Sendable(m) && x in m.tables
    requires e.replies != [] && e.replies[0] == TableReply(m, x, 0) && TablesOk(m) && e.answer == 0
    ensures EEnabled(e, TakeOp)
    ensures ENext(e, TakeOp) == e.(replies := e.replies[1..], pcbs := e.pcbs[op.pid := TableOf(m, x)], sched := SIdle)
  {
    hide Inv, Sendable, TableOf, TableReply, TakeReply;
    TakesTable(e.pcbs, op.pid, m, x, 0);
  }

  lemma EnlistIs(e: EState)
    requires !e.failed && e.admitter.AGot?
    ensures EEnabled(e, Enlist) && ENext(e, Enlist) == e.(listed := e.listed + {e.admitter.pid}, admitter := AIdle)
  {
  }

  lemma Empty(m: Mem)
    ensures Ready(m, []) && Served(m, []) == m
  {
  }

  // ----- the run, in three parts -----

  lemma TablesThen(seg0: Segmento, ra: Segmento)
    requires seg0 != ra
    ensures TablesOk(M1(seg0)) && TablesOk(M2(seg0)) && TablesOk(M3(seg0, ra))
    ensures TableOf(M1(seg0), 1) == [Seg(0, 0, 1)] && TableOf(M2(seg0), 2) == [Seg(0, 0, 1)]
    ensures TableOf(M3(seg0, ra), 1) == [Seg(0, 0, 1), Seg(1, 1, 2)]
  {
    Memories(seg0, ra);
  }

  /** The first table of process 1 is on its way. */
  ghost function FirstTable(seg0: Segmento, ra: Segmento): EState
    requires seg0 != ra
  {
    Memories(seg0, ra);
    EBoot(4, 1, seg0).(mem := M1(seg0), replies := [TableReply(M1(seg0), 1, 0)], admitter := ASent(1))
  }

  lemma FirstAsked(seg0: Segmento, ra: Segmento, rest: seq<EStep>) returns (ss: seq<EStep>)
    requires seg0 != ra && ERun(FirstTable(seg0, ra), rest)
    ensures ERun(EBoot(4, 1, seg0), ss) && EFinal(EBoot(4, 1, seg0), ss) == EFinal(FirstTable(seg0, ra), rest)
  {
    var m0, m1, e0 := M0(seg0), M1(seg0), EBoot(4, 1, seg0);
    var e1 := e0.(requests := e0.requests + [OpNew(1)], admitter := ASent(1));
    FirstTableIs(seg0, ra);
    hide Inv, Sendable, Servable, Apply, TableReply, M0, M1, Ready, Served, EEnabled, ENext, Answer, ERun, EFinal, EBoot, FirstTable;
    Memories(seg0, ra);
    Empty(m0);
    SendNewIs(e0, 1);
    ServeTableIs(e1, OpNew(1), m1);
    NoFlag(m0, OpNew(1));
    RunThen(e1, Serve([]), rest);
    RunThen(e0, SendNew(1), [Serve([])] + rest);
    ss := [SendNew(1)] + ([Serve([])] + rest);
  }

  lemma FirstTableIs(seg0: Segmento, ra: Segmento)
    requires seg0 != ra
    ensures Inv(M1(seg0)) && Sendable(M1(seg0)) && 1 in M1(seg0).tables && 1 !in M0(seg0).tables
    ensures var e0, reply := EBoot(4, 1, seg0), TableReply(M1(seg0), 1, 0);
      var e1 := e0.(requests := e0.requests + [OpNew(1)], admitter := ASent(1));
      && e0.mem == M0(seg0) && !e0.failed && e0.admitter.AIdle? && e0.requests == [] && 1 !in e0.pcbs
      && e1.requests != [] && e1.requests[0] == OpNew(1)
      && FirstTable(seg0, ra) == e1.(mem := M1(seg0), requests := e1.requests[1..], replies := e1.replies + [reply])
  {
    Memories(seg0, ra);
    hide Inv, Sendable, Servable, Apply, TableReply;
    assert [] + [OpNew(1)] == [OpNew(1)];
  }

  lemma FirstTaken(seg0: Segmento, ra: Segmento) returns (ss: seq<EStep>)
    requires seg0 != ra
    ensures ERun(FirstTable(seg0, ra), ss) && EFinal(FirstTable(seg0, ra), ss) == Ready1(seg0)
  {
    Memories(seg0, ra);
    TablesThen(seg0, ra);
    var m1, e2 := M1(seg0), FirstTable(seg0, ra);
    var e3 := e2.(replies := [], pcbs := map[1 := [Seg(0, 0, 1)]], admitter := AGot(1));
    assert 1 in m1.tables && {} + {1} == {1};
    hide Inv, Sendable, Servable, Apply, TableOf, TableReply, TablesOk, M1, EEnabled, ENext;
    TakeNewIs(e2, 1, m1, 1);
    EnlistIs(e3);
    assert ENext(e3, Enlist) == Ready1(seg0);
    RunThen(e3, Enlist, []);
    RunThen(e2, TakeNew, [Enlist] + []);
    ss := [TakeNew] + ([Enlist] + []);
  }

  /** The first request of process 2 and the creation for process 1 are both sent. */
  lemma BothSent(seg0: Segmento, ra: Segmento, rest: seq<EStep>) returns (ss: seq<EStep>)
    requires seg0 != ra && ERun(Waiting(seg0, ra), rest)
    ensures ERun(Ready1(seg0), ss) && EFinal(Ready1(seg0), ss) == EFinal(Waiting(seg0, ra), rest)
  {
    Memories(seg0, ra);
    var m1, op, e4 := M1(seg0), ASegment(ra), Ready1(seg0);
    var e5 := e4.(requests := [OpNew(2)], admitter := ASent(2));
    Empty(m1);
    Lines(seg0, ra);
    assert 2 !in m1.tables && [] + [OpNew(2)] == [OpNew(2)];
    hide Inv, Sendable, Servable, Apply, M1, M2, Ready, Served, EEnabled, ENext, ERun, EFinal;
    SendNewIs(e4, 2);
    SendOpIs(e5, op);
    assert ENext(e5, SendOp(op)) == Waiting(seg0, ra);
    RunThen(e5, SendOp(op), rest);
    RunThen(e4, SendNew(2), [SendOp(op)] + rest);
    ss := [SendNew(2)] + ([SendOp(op)] + rest);
  }

  /** Both are in line. */
  function Waiting(seg0: Segmento, ra: Segmento): EState {
    Ready1(seg0).(requests := [OpNew(2), ASegment(ra)], admitter := ASent(2), sched := SSent(ASegment(ra), 0))
  }

  /** Memory serves the first of them. */
  ghost function OneServed(seg0: Segmento, ra: Segmento): EState
    requires seg0 != ra
  {
    Memories(seg0, ra);
    Waiting(seg0, ra).(mem := M2(seg0), requests := [ASegment(ra)], replies := [TableReply(M2(seg0), 2, 0)])
  }

  lemma OneServedIs(seg0: Segmento, ra: Segmento)
    requires seg0 != ra
    ensures Inv(M2(seg0)) && Sendable(M2(seg0)) && 2 in M2(seg0).tables
    ensures var e6, reply := Waiting(seg0, ra), TableReply(M2(seg0), 2, 0);
      && e6.mem == M1(seg0) && !e6.failed && e6.requests != [] && e6.requests[0] == OpNew(2)
      && OneServed(seg0, ra) == e6.(mem := M2(seg0), requests := e6.requests[1..], replies := e6.replies + [reply])
  {
    Memories(seg0, ra);
    Lines(seg0, ra);
    hide Inv, Sendable, Servable, Apply, TableReply, M1;
  }

  lemma OneAnswered(seg0: Segmento, ra: Segmento, rest: seq<EStep>) returns (ss: seq<EStep>)
    requires seg0 != ra && ERun(OneServed(seg0, ra), rest)
    ensures ERun(Waiting(seg0, ra), ss) && EFinal(Waiting(seg0, ra), ss) == EFinal(OneServed(seg0, ra), rest)
  {
    hide Inv, Sendable, Servable, Apply, TableReply, M1, M2, EEnabled, ENext, ERun, EFinal, Answer, Waiting, OneServed;
    Memories(seg0, ra);
    OneServedIs(seg0, ra);
    ServeTableIs(Waiting(seg0, ra), OpNew(2), M2(seg0));
    NoFlag(M1(seg0), OpNew(2));
    RunThen(Waiting(seg0, ra), Serve([]), rest);
    ss := [Serve([])] + rest;
  }

  lemma BothServedIs(seg0: Segmento, ra: Segmento)
    requires seg0 != ra
    ensures Inv(M3(seg0, ra)) && Sendable(M3(seg0, ra)) && 1 in M3(seg0, ra).tables
    ensures var e7, reply := OneServed(seg0, ra), TableReply(M3(seg0, ra), 1, 0);
      && e7.mem == M2(seg0) && !e7.failed && e7.requests == [ASegment(ra)]
      && BothServed(seg0, ra) == e7.(mem := M3(seg0, ra), requests := e7.requests[1..], replies := e7.replies + [reply], answer := 0)
  {
    Memories(seg0, ra);
    hide Inv, Sendable, Servable, Apply, TableReply, M2;
  }

  /** And the second. */
  lemma BothAnswered(seg0: Segmento, ra: Segmento, rest: seq<EStep>) returns (ss: seq<EStep>)
    requires seg0 != ra && ERun(BothServed(seg0, ra), rest)
    ensures ERun(OneServed(seg0, ra), ss) && EFinal(OneServed(seg0, ra), ss) == EFinal(BothServed(seg0, ra), rest)
  {
    hide Inv, Sendable, Servable, Apply, TableReply, M2, M3, EEnabled, ENext, ERun, EFinal, Answer, BothServed, OneServed;
    Memories(seg0, ra);
    BothServedIs(seg0, ra);
    ServeTableIs(OneServed(seg0, ra), ASegment(ra), M3(seg0, ra));
    RunThen(OneServed(seg0, ra), Serve([]), rest);
    ss := [Serve([])] + rest;
  }

  lemma Lines(seg0: Segmento, ra: Segmento)
    requires seg0 != ra
    ensures Ready(M1(seg0), [OpNew(2)]) && Served(M1(seg0), [OpNew(2)]) == M2(seg0)
    ensures [OpNew(2)] + [ASegment(ra)] == [OpNew(2), ASegment(ra)]
    ensures [OpNew(2), ASegment(ra)][1..] == [ASegment(ra)]
  {
    Memories(seg0, ra);
    hide Inv, Sendable, Servable, Apply;
    assert [OpNew(2)][1..] == [];
    assert Ready(M2(seg0), []) && Served(M2(seg0), []) == M2(seg0);
  }

  /** The scheduler takes the table of process 2. */
  ghost function HalfCrossed(seg0: Segmento, ra: Segmento): EState
    requires seg0 != ra
  {
    Memories(seg0, ra);
    BothServed(seg0, ra).(replies := [TableReply(M3(seg0, ra), 1, 0)], pcbs := map[1 := [Seg(0, 0, 1)]], sched := SIdle)
  }

  lemma HalfCrossedIs(seg0: Segmento, ra: Segmento)
    requires seg0 != ra
    ensures Inv(M2(seg0)) && Sendable(M2(seg0)) && 2 in M2(seg0).tables
    ensures var e8 := BothServed(seg0, ra);
      && !e8.failed && e8.sched == SSent(ASegment(ra), 0) && e8.answer == 0 && e8.replies != []
      && e8.replies[0] == TableReply(M2(seg0), 2, 0)
      && HalfCrossed(seg0, ra) == e8.(replies := e8.replies[1..], pcbs := e8.pcbs[1 := [Seg(0, 0, 1)]], sched := SIdle)
  {
    Memories(seg0, ra);
    hide Inv, Sendable, Servable, Apply, TableReply, M3;
  }

  lemma CrossedOnce(seg0: Segmento, ra: Segmento)
    requires seg0 != ra
    ensures EEnabled(BothServed(seg0, ra), TakeOp) && ENext(BothServed(seg0, ra), TakeOp) == HalfCrossed(seg0, ra)
  {
    hide Inv, Sendable, TableOf, TableReply, TablesOk, M2, EEnabled, ENext, BothServed, HalfCrossed;
    HalfCrossedIs(seg0, ra);
    TablesThen(seg0, ra);
    TakeOpIs(BothServed(seg0, ra), ASegment(ra), M2(seg0), 2);
  }

  lemma CrossedTwice(seg0: Segmento, ra: Segmento)
    requires seg0 != ra
    ensures EEnabled(HalfCrossed(seg0, ra), TakeNew) && ENext(HalfCrossed(seg0, ra), TakeNew) == Swapped(seg0, ra)
  {
    Memories(seg0, ra);
    TablesThen(seg0, ra);
    var m3, e9 := M3(seg0, ra), HalfCrossed(seg0, ra);
    assert 1 in m3.tables && e9.replies[1..] == [];
    hide Inv, Sendable, Servable, Apply, TableOf, TableReply, TablesOk, M2, M3, EEnabled, ENext;
    TakeNewIs(e9, 2, m3, 1);
  }

  /** Each thread takes the other's reply. */
  lemma Crossed(seg0: Segmento, ra: Segmento) returns (ss: seq<EStep>)
    requires seg0 != ra
    ensures ERun(BothServed(seg0, ra), ss) && EFinal(BothServed(seg0, ra), ss) == Swapped(seg0, ra)
  {
    hide EEnabled, ENext, BothServed, HalfCrossed, Swapped;
    CrossedOnce(seg0, ra);
    CrossedTwice(seg0, ra);
    RunThen(HalfCrossed(seg0, ra), TakeNew, []);
    RunThen(BothServed(seg0, ra), TakeOp, [TakeNew] + []);
    ss := [TakeOp] + ([TakeNew] + []);
  }

  /** From start-up: process 1 asks for a segment while process 2 is admitted, and the replies cross. All
      is served and taken, no flag is wrong; yet process 1 is refused its own segment, and process 2 is let
      into it, at address 1 of memory. */
  lemma RepliesCross(seg0: Segmento, ra: Segmento, tam: int) returns (ss: seq<EStep>)
    requires seg0 != ra && tam > 1
    ensures ERun(EBoot(4, 1, seg0), ss)
    ensures var e := EFinal(EBoot(4, 1, seg0), ss);
      && Quiet(e) && !e.failed && !e.misread && !Agree(e.mem, e.pcbs) && e.pcbs.Keys == {1, 2}
      && e.mem.tables == map[1 := [seg0, ra], 2 := [seg0]] && ra in e.mem.segs && e.mem.segs[ra].Has(1)
      && !Accepted(e.pcbs[1], tam, tam, 1) && Translate(e.pcbs[2], tam, tam, 1).0 == 1
  {
    var cross := Crossed(seg0, ra);
    var second := BothAnswered(seg0, ra, cross);
    var served := OneAnswered(seg0, ra, second);
    var sent := BothSent(seg0, ra, served);
    var taken := FirstTaken(seg0, ra);
    RunOn(FirstTable(seg0, ra), taken, sent);
    ss := FirstAsked(seg0, ra, taken + sent);
    hide ERun, EFinal;
    TablesThen(seg0, ra);
    Reached(seg0, ra, tam);
  }

  lemma {:induction false} RunOn(e: EState, ss: seq<EStep>, rest: seq<EStep>)
    requires ERun(e, ss) && ERun(EFinal(e, ss), rest)
    ensures ERun(e, ss + rest) && EFinal(e, ss + rest) == EFinal(EFinal(e, ss), rest)
    decreases |ss|
  {
    hide EEnabled, ENext;
    if ss == [] {
      assert ss + rest == rest;
    } else {
      RunOn(ENext(e, ss[0]), ss[1..], rest);
      assert (ss + rest)[1..] == ss[1..] + rest;
    }
  }

  lemma Reached(seg0: Segmento, ra: Segmento, tam: int)
    requires seg0 != ra && tam > 1
    ensures Swapped(seg0, ra).pcbs.Keys == {1, 2}
    ensures var e := Swapped(seg0, ra);
      !Accepted(e.pcbs[1], tam, tam, 1) && Translate(e.pcbs[2], tam, tam, 1).0 == 1
  {
    assert TDiv(tam, tam) == 1 && TRem(tam, tam) == 0;
    var t := Swapped(seg0, ra).pcbs[2];
    assert t[1].id == TDiv(tam, tam);
    assert Target(t, tam, tam) == Some(1);
  }
}
