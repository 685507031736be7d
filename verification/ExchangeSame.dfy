/** The one overlap that does no harm: a deletion that leaves a process with segment 0 alone, beside the
    first request of another process. Both replies are the same bytes. */
module ExchangeSame {
  import opened Sums
  import opened Holes
  import opened Memory
  import opened Compaction
  import opened MemoryRuns
  import opened Mmu
  import opened Wire
  import opened TableSync
  import opened Exchange
  import opened ExchangeRuns
  import opened ExchangeRetry
  import opened ExchangeRace

  /** The table with segment 0 alone. */
  function OnlyZero(m: Mem): seq<Seg>
    requires m.seg0 in m.segs
  {
    [m.segs[m.seg0]]
  }

  /** The reply that carries it. */
  ghost function ZeroReply(m: Mem): seq<Byte>
    requires Inv(m) && Sendable(m)
  {
    ZeroFits(m);
    Reply(OnlyZero(m), 0)
  }

  lemma ZeroFits(m: Mem)
    requires Inv(m) && Sendable(m)
    ensures m.seg0 in m.segs && IsTable(OnlyZero(m)) && |EncTable(OnlyZero(m))| <= MAX_INT
  {
    var s := m.segs[m.seg0];
    assert s.base + s.limite <= m.total;
    EncSegsSize(OnlyZero(m));
  }

  lemma ShortTable(m: Mem, x: Pid)
    requires Inv(m) && Sendable(m) && x in m.tables && |m.tables[x]| == 1
    ensures TablesOk(m) && m.seg0 in m.segs && TableOf(m, x) == OnlyZero(m) && TableReply(m, x, 0) == ZeroReply(m)
  {
    assert m.tables[x] == [m.seg0];
    assert TableOf(m, x) == OnlyZero(m);
  }

  lemma Seg0Stays(m: Mem, op: Op)
    requires Inv(m) && Enabled(m, op) && (op.OpNew? || op.OpDelete? || op.OpExit?)
    ensures Inv(Apply(m, op)) && m.seg0 in m.segs && m.seg0 in Apply(m, op).segs && Apply(m, op).seg0 == m.seg0
    ensures OnlyZero(Apply(m, op)) == OnlyZero(m)
  {
    ApplyKeepsInv(m, op);
    KeysAfterApply(m, op);
    assert m.seg0 in m.segs;
    hide Partition, Alojar;
    match op
    case OpNew(_) =>
    case OpDelete(pid, id) =>
      if pid in m.tables {
        var k := EntryOf(m, m.tables[pid], id).value;
        assert At(m.tables, pid, k, m.tables[pid][k]);
      }
    case OpExit(pid) =>
      ExitReleases(m, pid);
      FreeAllRemoves(m.(tables := m.tables - {pid}), m.tables[pid][1..]);
      var t := m.tables[pid];
      forall i | 0 <= i < |t[1..]| ensures t[1..][i] != m.seg0 { assert At(m.tables, pid, i + 1, t[1..][i]); }
  }

  // ----- the invariant -----

  predicate AWaits(e: EState, q: Pid) { e.admitter == ASent(q) }

  predicate SWaits(e: EState, op: Op) { e.sched.SSent? && e.sched.op == op }

  function Waiting(e: EState, q: Pid, op: Op): nat { (if AWaits(e, q) then 1 else 0) + if SWaits(e, op) then 1 else 0 }

  /** The requests of the two threads that are still in line, each at most once. */
  predicate InLine(l: seq<Op>, q: Pid, op: Op) {
    l == [] || l == [OpNew(q)] || l == [op] || l == [OpNew(q), op] || l == [op, OpNew(q)]
  }

  predicate Threads(e: EState, q: Pid, op: Op) {
    && (AWaits(e, q) || e.admitter == AGot(q) || e.admitter == AIdle) && (SWaits(e, op) || e.sched == SIdle)
    && InLine(Answered(e.requests), q, op) && |e.replies| + |Answered(e.requests)| == Waiting(e, q, op)
  }

  /** Memory's side: what is served has left the tables with one entry each. */
  ghost predicate MemorySide(e: EState, q: Pid, op: Op) {
    && MemoryFine(e) && op.OpDelete? && op.pid != q && op.pid in e.mem.tables
    && (if OpNew(q) in Answered(e.requests) then q !in e.mem.tables else q in e.mem.tables && |e.mem.tables[q]| == 1)
    && |e.mem.tables[op.pid]| == (if op in Answered(e.requests) then 2 else 1)
    && forall i :: 0 <= i < |e.replies| ==> e.replies[i] == ZeroReply(e.mem)
  }

  /** The kernel's side: who took a reply has the table with segment 0 alone. */
  ghost predicate KernelSide(e: EState, q: Pid, op: Op) {
    && MemoryFine(e) && op.OpDelete? && e.mem.seg0 in e.mem.segs && TablesOk(e.mem)
    && (if AWaits(e, q) then q !in e.pcbs else q in e.pcbs && e.pcbs[q] == OnlyZero(e.mem))
    && op.pid in e.pcbs && (!SWaits(e, op) ==> e.pcbs[op.pid] == OnlyZero(e.mem))
    && (forall x :: x in e.pcbs && x != q && x != op.pid ==> x in e.mem.tables && e.pcbs[x] == TableOf(e.mem, x))
    && (e.leaver.Some? ==> e.leaver.value in e.pcbs && e.leaver.value != q && e.leaver.value != op.pid)
  }

  ghost predicate BothKeys(e: EState, q: Pid) {
    && NoTwice(Exits(e.requests)) && e.pcbs.Keys !! InSeq(Exits(e.requests)) && q !in Exits(e.requests)
    && e.mem.tables.Keys + {q} == e.pcbs.Keys + InSeq(Exits(e.requests)) + {q}
  }

  ghost predicate Twin(e: EState, q: Pid, op: Op) {
    Clean(e) && Threads(e, q, op) && MemorySide(e, q, op) && KernelSide(e, q, op) && BothKeys(e, q)
  }

  lemma TwinIsFine(e: EState, q: Pid, op: Op)
    requires Twin(e, q, op)
    ensures Fine(e)
  {
    if Quiet(e) {
      assert Answered([]) == [] && Exits([]) == [];
      assert Waiting(e, q, op) == 0;
      FineOf(e);
      ShortTable(e.mem, q);
      ShortTable(e.mem, op.pid);
      hide Inv, Sendable, TablesOk, TableOf, Ready;
      assert InSeq([]) == {};
      assert e.pcbs.Keys == e.mem.tables.Keys;
      forall x | x in e.pcbs ensures e.pcbs[x] == TableOf(e.mem, x) {}
    }
  }

  // ----- steps -----

  lemma GetNewIs(e: EState, q: Pid, op: Op)
    requires Twin(e, q, op) && EEnabled(e, TakeNew)
    ensures e.admitter == ASent(q) && e.replies != [] && e.mem.seg0 in e.mem.segs
    ensures ENext(e, TakeNew) == e.(replies := e.replies[1..], pcbs := e.pcbs[q := OnlyZero(e.mem)], admitter := AGot(q))
  {
    FineOf(e);
    ZeroFits(e.mem);
    assert e.admitter == ASent(q) && e.replies[0] == ZeroReply(e.mem);
    hide Twin, Inv, Sendable, TakeReply, Reply;
    ReplyInstallsTable(e.pcbs, q, OnlyZero(e.mem), 0);
  }

  lemma GetNewKeeps(e: EState, e': EState, q: Pid, op: Op)
    requires Twin(e, q, op) && e.admitter == ASent(q) && e.replies != [] && e.mem.seg0 in e.mem.segs
    requires e' == e.(replies := e.replies[1..], pcbs := e.pcbs[q := OnlyZero(e.mem)], admitter := AGot(q))
    ensures Twin(e', q, op)
  {
    hide Inv, Sendable, TablesOk, TableOf, Ready, Answered, Exits, ZeroReply, OnlyZero;
    assert e.pcbs.Keys + {q} == e'.pcbs.Keys;
  }

  lemma GetOpIs(e: EState, q: Pid, op: Op)
    requires Twin(e, q, op) && EEnabled(e, TakeOp)
    ensures SWaits(e, op) && e.replies != [] && e.mem.seg0 in e.mem.segs && op.OpDelete?
    ensures ENext(e, TakeOp) == e.(replies := e.replies[1..], pcbs := e.pcbs[op.pid := OnlyZero(e.mem)], sched := SIdle)
  {
    FineOf(e);
    ZeroFits(e.mem);
    assert SWaits(e, op) && e.replies[0] == ZeroReply(e.mem) && op.OpDelete?;
    hide Twin, Inv, Sendable, TakeReply, Reply;
    ReplyInstallsTable(e.pcbs, op.pid, OnlyZero(e.mem), 0);
  }

  lemma GetOpKeeps(e: EState, e': EState, q: Pid, op: Op)
    requires Twin(e, q, op) && SWaits(e, op) && e.replies != [] && e.mem.seg0 in e.mem.segs && op.OpDelete?
    requires e' == e.(replies := e.replies[1..], pcbs := e.pcbs[op.pid := OnlyZero(e.mem)], sched := SIdle)
    ensures Twin(e', q, op)
  {
    hide Inv, Sendable, TablesOk, TableOf, Ready, Answered, Exits, ZeroReply, OnlyZero;
    assert e.pcbs.Keys == e'.pcbs.Keys;
  }

  lemma PutOnListKeeps(e: EState, q: Pid, op: Op)
    requires Twin(e, q, op) && EEnabled(e, Enlist)
    ensures Twin(ENext(e, Enlist), q, op)
  {
    hide Inv, Sendable, TablesOk, TableOf, Ready, Answered, Exits, ZeroReply;
  }

  lemma SayExitKeys(e: EState, e': EState, q: Pid, op: Op, x: Pid)
    requires Twin(e, q, op) && e.leaver == Some(x)
    requires e' == e.(requests := e.requests + [OpExit(x)], pcbs := e.pcbs - {x}, leaver := None)
    ensures BothKeys(e', q) && Answered(e'.requests) == Answered(e.requests)
    ensures x in e.mem.tables && x !in Exits(e.requests)
  {
    hide Inv, Sendable, TablesOk, TableOf, Ready, Exits, Answered, ZeroReply, OnlyZero;
    ExitsThen(e.requests, OpExit(x));
    AnsweredThen(e.requests, OpExit(x));
    assert Answered(e.requests) + [] == Answered(e.requests);
    assert InSeq(Exits(e'.requests)) == InSeq(Exits(e.requests)) + {x};
    assert e'.pcbs.Keys == e.pcbs.Keys - {x};
  }

  lemma SayExitKeeps(e: EState, e': EState, q: Pid, op: Op, x: Pid)
    requires Twin(e, q, op) && e.leaver == Some(x)
    requires e' == e.(requests := e.requests + [OpExit(x)], pcbs := e.pcbs - {x}, leaver := None)
    ensures Twin(e', q, op)
  {
    hide Inv, Sendable, TablesOk, TableOf, Exits, Answered, ZeroReply, OnlyZero;
    SayExitKeys(e, e', q, op, x);
    ServedKeys(e.mem, e.requests, x);
    hide BothKeys;
    assert Servable(Served(e.mem, e.requests), OpExit(x));
    ReadyThen(e.mem, e.requests, OpExit(x));
    hide Ready;
  }

  // ----- memory serves -----

  lemma SameZero(m: Mem, m': Mem)
    requires Inv(m) && Sendable(m) && Inv(m') && Sendable(m')
    requires m.seg0 in m.segs && m'.seg0 in m'.segs && OnlyZero(m') == OnlyZero(m)
    ensures ZeroReply(m') == ZeroReply(m)
  {
    hide Inv, Sendable;
    ZeroFits(m);
  }

  lemma WorkExitKeeps(e: EState, e': EState, q: Pid, op: Op, x: Pid)
    requires Twin(e, q, op) && e.requests != [] && e.requests[0] == OpExit(x) && Enabled(e.mem, OpExit(x))
    requires e' == e.(mem := Apply(e.mem, OpExit(x)), requests := e.requests[1..])
    ensures Twin(e', q, op)
  {
    hide Inv, Sendable, TablesOk, TableOf, Ready, Exits, Answered, ZeroReply, OnlyZero, Apply, Enabled;
    ServeMemory(e, e', OpExit(x));
    FineOf(e);
    FineOf(e');
    HeadOf(e.requests);
    Seg0Stays(e.mem, OpExit(x));
    WorkExitKeys(e, e', q, op, x);
    OthersAfter(e.mem, OpExit(x), e.mem.tables.Keys - {x});
    SameZero(e.mem, e'.mem);
    assert op.pid != x;
    OtherLength(e.mem, OpExit(x), op.pid);
    if q in e.mem.tables { OtherLength(e.mem, OpExit(x), q); }
    hide BothKeys, MemoryFine;
    assert MemorySide(e', q, op);
    assert KernelSide(e', q, op);
  }

  lemma WorkExitKeys(e: EState, e': EState, q: Pid, op: Op, x: Pid)
    requires Twin(e, q, op) && e.requests != [] && e.requests[0] == OpExit(x)
    requires e' == e.(mem := e'.mem, requests := e.requests[1..]) && e'.mem.tables.Keys == e.mem.tables.Keys - {x}
    ensures BothKeys(e', q) && x !in e.pcbs && x != q
  {
    hide MemorySide, KernelSide, Threads;
    HeadOf(e.requests);
    hide Exits, NoTwice;
    TailOf(x, Exits(e'.requests));
    assert Exits(e.requests)[0] == x;
    assert x in InSeq(Exits(e.requests));
  }

  /** What both replies have in common when one is sent. */
  lemma AnswerIsZero(e: EState, m': Mem, x: Pid)
    requires Inv(e.mem) && Sendable(e.mem) && Inv(m') && Sendable(m') && x in m'.tables && |m'.tables[x]| == 1
    requires e.mem.seg0 in e.mem.segs && m'.seg0 in m'.segs && OnlyZero(m') == OnlyZero(e.mem)
    requires forall i :: 0 <= i < |e.replies| ==> e.replies[i] == ZeroReply(e.mem)
    ensures TableReply(m', x, 0) == ZeroReply(m')
    ensures forall i :: 0 <= i < |e.replies| ==> e.replies[i] == ZeroReply(m')
  {
    hide Inv, Sendable, ZeroReply, TableReply, OnlyZero;
    SameZero(e.mem, m');
    ShortTable(m', x);
  }

  lemma WorkNewKeeps(e: EState, e': EState, q: Pid, op: Op)
    requires Twin(e, q, op) && e.requests != [] && e.requests[0] == OpNew(q) && Enabled(e.mem, OpNew(q))
    requires Inv(e'.mem) && Sendable(e'.mem) && q in e'.mem.tables
    requires e' == e.(mem := Apply(e.mem, OpNew(q)), requests := e.requests[1..],
                      replies := e.replies + [TableReply(e'.mem, q, 0)])
    ensures Twin(e', q, op)
  {
    hide Inv, Sendable, TablesOk, TableOf, Ready, Exits, Answered, ZeroReply, OnlyZero, Apply, Enabled, TableReply;
    ServeMemory(e, e', OpNew(q));
    FineOf(e);
    HeadOf(e.requests);
    assert OpNew(q) in Answered(e.requests) by { assert Answered(e.requests)[0] == OpNew(q); }
    Seg0Stays(e.mem, OpNew(q));
    NewTables(e.mem, q);
    AnswerIsZero(e, e'.mem, q);
    OthersAfter(e.mem, OpNew(q), e.mem.tables.Keys);
    hide MemoryFine;
    assert Threads(e', q, op);
    assert MemorySide(e', q, op);
    assert KernelSide(e', q, op);
  }

  lemma WorkOpKeeps(e: EState, e': EState, q: Pid, op: Op)
    requires Twin(e, q, op) && e.requests != [] && e.requests[0] == op && op.OpDelete? && Enabled(e.mem, op)
    requires Inv(e'.mem) && Sendable(e'.mem) && op.pid in e'.mem.tables && e'.answer == Answer(e.mem, op)
    requires e' == e.(mem := Apply(e.mem, op), requests := e.requests[1..],
                      replies := e.replies + [TableReply(e'.mem, op.pid, e'.answer)], answer := e'.answer)
    ensures Twin(e', q, op)
  {
    hide Inv, Sendable, TablesOk, TableOf, Ready, Exits, Answered, ZeroReply, OnlyZero, Apply, Enabled, TableReply, Answer;
    ServeMemory(e, e', op);
    FineOf(e);
    HeadOf(e.requests);
    assert op in Answered(e.requests) by { assert Answered(e.requests)[0] == op; }
    Seg0Stays(e.mem, op);
    OpSizes(e.mem, op);
    AnswerIsZero(e, e'.mem, op.pid);
    OthersAfter(e.mem, op, e.mem.tables.Keys - {op.pid});
    QStays(e, e', q, op);
    hide MemoryFine;
    assert Threads(e', q, op);
    assert MemorySide(e', q, op);
    assert KernelSide(e', q, op);
  }

  /** The new process's table is not the deletion's affair. */
  lemma QStays(e: EState, e': EState, q: Pid, op: Op)
    requires Inv(e.mem) && op.OpDelete? && Enabled(e.mem, op) && op.pid != q && e'.mem == Apply(e.mem, op)
    ensures q in e'.mem.tables <==> q in e.mem.tables
    ensures q in e.mem.tables ==> |e'.mem.tables[q]| == |e.mem.tables[q]|
  {
    KeysAfterApply(e.mem, op);
    hide Inv, Apply, Enabled, TableOf, TablesOk;
    if q in e.mem.tables {
      OthersAfter(e.mem, op, {q});
      SameLength(e.mem, e'.mem, q);
    }
  }

  lemma WorkKeeps(e: EState, order: seq<Pid>, q: Pid, op: Op)
    requires Twin(e, q, op) && EEnabled(e, Serve(order))
    ensures Twin(ENext(e, Serve(order)), q, op)
  {
    ServeIs(e, order);
    var e', head := ENext(e, Serve(order)), e.requests[0];
    HeadInLine(e, q, op);
    hide Twin, Inv, Sendable, Apply, Enabled, TableReply, AllTables, ENext, EEnabled, Answer;
    if head.OpExit? {
      WorkExitKeeps(e, e', q, op, head.pid);
    } else if head == op {
      WorkOpKeeps(e, e', q, op);
    } else {
      WorkNewKeeps(e, e', q, op);
    }
  }

  lemma HeadInLine(e: EState, q: Pid, op: Op)
    requires Twin(e, q, op) && e.requests != []
    ensures op.OpDelete? && (e.requests[0].OpExit? || e.requests[0] == op || e.requests[0] == OpNew(q))
  {
    hide KernelSide, BothKeys, Answered;
    HeadOf(e.requests);
    assert !e.requests[0].OpExit? ==> Answered(e.requests)[0] == e.requests[0];
  }

  lemma {:induction false} TwinSettles(e: EState, q: Pid, op: Op, ss: seq<Settle>)
    requires Twin(e, q, op) && SRun(e, ss)
    ensures Fine(SFinal(e, ss))
    decreases |ss|
  {
    if ss == [] {
      TwinIsFine(e, q, op);
    } else {
      TwinStep(e, q, op, ss[0]);
      hide Twin, EEnabled, ENext;
      TwinSettles(ENext(e, StepOf(ss[0])), q, op, ss[1..]);
    }
  }

  lemma TwinStep(e: EState, q: Pid, op: Op, s: Settle)
    requires Twin(e, q, op) && EEnabled(e, StepOf(s))
    ensures Twin(ENext(e, StepOf(s)), q, op)
  {
    assert !e.sched.SWaits?;
    hide Twin;
    var e' := ENext(e, StepOf(s));
    match s
    case GetNew => GetNewIs(e, q, op); GetNewKeeps(e, e', q, op);
    case PutOnList => PutOnListKeeps(e, q, op);
    case GetOp => GetOpIs(e, q, op); GetOpKeeps(e, e', q, op);
    case GetAll =>
    case SayExit => SayExitKeeps(e, e', q, op, e.leaver.value);
    case Work(order) => WorkKeeps(e, order, q, op);
  }

  // ----- where it starts -----

  lemma TwinStarts(e: EState, e': EState, q: Pid, op: Op)
    requires e'.sched.SSent? && e' == e.(requests := e'.requests, admitter := ASent(q), sched := SSent(op, e'.sched.compactions))
    requires Clean(e) && MemoryFine(e') && TablesOk(e.mem) && e.mem.seg0 in e.mem.segs && op.OpDelete? && op.pid != q
    requires InLine(Answered(e'.requests), q, op) && |e.replies| + |Answered(e'.requests)| == 2
    requires if OpNew(q) in Answered(e'.requests) then q !in e.mem.tables else q in e.mem.tables && |e.mem.tables[q]| == 1
    requires op.pid in e.mem.tables && |e.mem.tables[op.pid]| == (if op in Answered(e'.requests) then 2 else 1)
    requires forall i :: 0 <= i < |e.replies| ==> e.replies[i] == ZeroReply(e.mem)
    requires q !in e.pcbs && op.pid in e.pcbs && BothKeys(e', q)
    requires forall x :: x in e.pcbs && x != op.pid ==> x in e.mem.tables && e.pcbs[x] == TableOf(e.mem, x)
    requires e.leaver.Some? ==> e.leaver.value in e.pcbs && e.leaver.value != op.pid
    ensures Twin(e', q, op)
  {
    hide Inv, Sendable, TablesOk, TableOf, Ready, Answered, Exits, ZeroReply, OnlyZero;
  }

  lemma InLineWith(l: seq<Op>, q: Pid, op: Op)
    requires op.OpDelete? && op.pid != q && (l == [] || l == [OpNew(q)] || l == [op])
    ensures l == [] || l == [OpNew(q)] ==> InLine(l + [op], q, op) && (OpNew(q) in l + [op] <==> l != []) && op in l + [op]
    ensures l == [] || l == [op] ==> InLine(l + [OpNew(q)], q, op) && OpNew(q) in l + [OpNew(q)] && (op in l + [OpNew(q)] <==> l != [])
  {
    assert (l + [op])[|l|] == op && (l + [OpNew(q)])[|l|] == OpNew(q);
    assert [] + [op] == [op] && [OpNew(q)] + [op] == [OpNew(q), op];
    assert [] + [OpNew(q)] == [OpNew(q)] && [op] + [OpNew(q)] == [op, OpNew(q)];
  }

  /** The line one request longer. */
  lemma LongerLine(e: EState, e': EState, q: Pid, op: Op)
    requires e'.requests == e.requests + [op] && !op.OpExit? && e'.pcbs == e.pcbs && e'.mem == e.mem
    requires MemoryFine(e) && Ready(e.mem, e.requests + [op])
    ensures Answered(e'.requests) == Answered(e.requests) + [op] && Exits(e'.requests) == Exits(e.requests)
    ensures MemoryFine(e') && (BothKeys(e, q) ==> BothKeys(e', q))
  {
    AnsweredThen(e.requests, op);
    ExitsThen(e.requests, op);
    assert Exits(e.requests) + [] == Exits(e.requests);
    hide Inv, Sendable, Ready, Answered, Exits;
  }

  lemma DeleteSent(e: EState, op: Op)
    requires EEnabled(e, SendOp(op))
    ensures ENext(e, SendOp(op)) == e.(requests := e.requests + [op], sched := SSent(op, 0)) && op.pid in e.listed
    ensures Ready(e.mem, e.requests + [op])
  {
    Queued(e, op);
    hide CanSend, Ready;
  }

  lemma NewSent(e: EState, q: Pid)
    requires EEnabled(e, SendNew(q))
    ensures ENext(e, SendNew(q)) == e.(requests := e.requests + [OpNew(q)], admitter := ASent(q))
    ensures q !in e.pcbs && q !in e.mem.tables && Ready(e.mem, e.requests + [OpNew(q)])
  {
    Queued(e, OpNew(q));
    hide CanSend, Ready;
  }

  /** The deletion is sent beside a first request. */
  lemma DeleteIsTwin(e: EState, op: Op)
    requires RaceInv(e) && EEnabled(e, SendOp(op)) && e.admitter.ASent? && SameEitherWay(e, op)
    ensures Twin(ENext(e, SendOp(op)), e.admitter.pid, op)
  {
    DeleteSent(e, op);
    hide RaceInv, EEnabled, ENext, Twin, Ready;
    DeleteTwin(e, ENext(e, SendOp(op)), e.admitter.pid, op);
  }

  lemma DeleteTwin(e: EState, e': EState, q: Pid, op: Op)
    requires RaceInv(e) && e.admitter == ASent(q) && SameEitherWay(e, op) && op.pid in e.listed
    requires Ready(e.mem, e.requests + [op]) && e' == e.(requests := e.requests + [op], sched := SSent(op, 0))
    ensures Twin(e', q, op)
  {
    hide RaceInv, Inv, Sendable, TablesOk, TableOf, Ready, Answered, Exits, ZeroReply, OnlyZero, BothKeys, MemoryFine, Twin, InLine;
    MemoryIsFine(e);
    NewPending(e);
    InStep(e, op.pid);
    LongerLine(e, e', q, op);
    InLineWith(Answered(e.requests), q, op);
    TwinStarts(e, e', q, op);
  }

  /** A first request that is awaited, with its reply if memory has answered. */
  lemma NewPending(e: EState)
    requires RaceInv(e) && e.admitter.ASent?
    ensures var q := e.admitter.pid;
      && !SchedWaits(e) && q !in e.pcbs && q !in Exits(e.requests) && TablesOk(e.mem) && e.mem.seg0 in e.mem.segs
      && (e.replies == [] ==> Answered(e.requests) == [OpNew(q)] && q !in e.mem.tables)
      && (e.replies != [] ==>
            && Answered(e.requests) == [] && q in e.mem.tables && |e.mem.tables[q]| == 1
            && Inv(e.mem) && Sendable(e.mem) && e.replies == [ZeroReply(e.mem)])
    ensures BothKeys(e, e.admitter.pid) && e.leaver != Some(e.admitter.pid) && e.admitter.pid !in e.listed
    ensures forall x :: x in e.pcbs ==> x in e.mem.tables && e.pcbs[x] == TableOf(e.mem, x)
    ensures e.leaver.Some? ==> e.leaver.value in e.pcbs && e.leaver.value !in e.listed
  {
    QuietAgrees(e);
    MemoryIsFine(e);
    assert e.mem.seg0 in e.mem.segs;
    if e.replies != [] { ShortTable(e.mem, e.admitter.pid); }
    hide Inv, Sendable, TablesOk, TableOf, Ready, Exits, Answered, ZeroReply, TableReply, Call;
  }

  /** A deletion that is awaited, with its reply if memory has answered. */
  lemma DeletePending(e: EState)
    requires RaceInv(e) && e.sched.SSent? && SameEitherWay(e, e.sched.op)
    ensures var op := e.sched.op;
      && !AdmitterWaits(e) && op.pid in e.pcbs && op.pid in e.mem.tables && TablesOk(e.mem) && e.mem.seg0 in e.mem.segs
      && (e.replies == [] ==> Answered(e.requests) == [op] && |e.mem.tables[op.pid]| == 2)
      && (e.replies != [] ==>
            && Answered(e.requests) == [] && |e.mem.tables[op.pid]| == 1
            && Inv(e.mem) && Sendable(e.mem) && e.replies == [ZeroReply(e.mem)])
    ensures forall x :: x in e.pcbs && x != e.sched.op.pid ==> x in e.mem.tables && e.pcbs[x] == TableOf(e.mem, x)
    ensures e.leaver.Some? ==> e.leaver.value in e.pcbs && e.leaver.value != e.sched.op.pid
    ensures NoTwice(Exits(e.requests)) && e.pcbs.Keys !! InSeq(Exits(e.requests))
    ensures e.mem.tables.Keys == e.pcbs.Keys + InSeq(Exits(e.requests))
  {
    QuietAgrees(e);
    MemoryIsFine(e);
    assert e.mem.seg0 in e.mem.segs;
    PcbsHaveTables(e, e.sched.op.pid);
    if e.replies != [] { ShortTable(e.mem, e.sched.op.pid); }
    hide Inv, Sendable, TablesOk, TableOf, Ready, Exits, Answered, ZeroReply, TableReply, Call;
  }

  /** A first request is sent beside the deletion. */
  lemma NewIsTwin(e: EState, q: Pid)
    requires RaceInv(e) && EEnabled(e, SendNew(q)) && e.sched.SSent? && SameEitherWay(e, e.sched.op)
    ensures Twin(ENext(e, SendNew(q)), q, e.sched.op)
  {
    NewSent(e, q);
    hide RaceInv, EEnabled, ENext, Twin, Ready;
    NewTwin(e, ENext(e, SendNew(q)), q, e.sched.op);
  }

  lemma NewTwin(e: EState, e': EState, q: Pid, op: Op)
    requires RaceInv(e) && e.sched.SSent? && e.sched.op == op && SameEitherWay(e, op) && q !in e.pcbs && q !in e.mem.tables
    requires Ready(e.mem, e.requests + [OpNew(q)]) && e' == e.(requests := e.requests + [OpNew(q)], admitter := ASent(q))
    ensures Twin(e', q, op)
  {
    hide RaceInv, Inv, Sendable, TablesOk, TableOf, Ready, Answered, Exits, ZeroReply, OnlyZero, MemoryFine, NoTwice, Twin, InLine,
         BothKeys, InSeq;
    MemoryIsFine(e);
    DeletePending(e);
    NotExiting(e, q);
    LongerLine(e, e', q, OpNew(q));
    InLineWith(Answered(e.requests), q, op);
    TwinStarts(e, e', q, op);
  }

  lemma NotExiting(e: EState, q: Pid)
    requires e.mem.tables.Keys == e.pcbs.Keys + InSeq(Exits(e.requests)) && q !in e.mem.tables
    requires NoTwice(Exits(e.requests)) && e.pcbs.Keys !! InSeq(Exits(e.requests))
    ensures BothKeys(e, q)
  {
    assert q in Exits(e.requests) ==> q in InSeq(Exits(e.requests));
    hide Exits, NoTwice;
  }

  // ----- the question settled -----

  lemma AgainNeedsGuard(e: EState, r: Segmento)
    requires RaceInv(e) && EEnabled(e, Again(r)) && e.admitter.ASent?
    ensures !AlwaysFine(ENext(e, Again(r)))
  {
    var op := e.sched.op.(r := r);
    hide RaceInv, AlwaysFine, ENext, CanSend;
    SendOpGuard(e, Again(r), op);
  }

  /** A request of the kernel does no harm however it goes on, in no order in which memory serves and the
      threads take their replies, exactly when nobody else waits for an answer, or the two answers are the
      same bytes; for compaction, when moreover no PCB is on its way to the global list or off it. */
  lemma SendIsSafeIff(e: EState, s: EStep)
    requires RaceInv(e) && EEnabled(e, s) && IsSend(s)
    ensures AlwaysFine(ENext(e, s)) <==> SendGuard(e, s)
  {
    hide RaceInv, AlwaysFine, EEnabled, ENext;
    if SendGuard(e, s) {
      GuardSuffices(e, s);
    } else {
      GuardIsNeeded(e, s);
    }
  }

  lemma GuardIsNeeded(e: EState, s: EStep)
    requires RaceInv(e) && EEnabled(e, s) && IsSend(s) && !SendGuard(e, s)
    ensures !AlwaysFine(ENext(e, s))
  {
    hide RaceInv, AlwaysFine, EEnabled, ENext;
    match s
    case SendNew(q) => SendNewGuard(e, q);
    case SendOp(op) => SendOpGuard(e, s, op);
    case Again(r) => AgainNeedsGuard(e, r);
    case SendCompact => CompactGuard(e);
  }

  lemma GuardSuffices(e: EState, s: EStep)
    requires RaceInv(e) && EEnabled(e, s) && IsSend(s) && SendGuard(e, s)
    ensures AlwaysFine(ENext(e, s))
  {
    hide RaceInv, EEnabled, ENext, Fine, SRun, SFinal, Twin;
    if Guard(e, s) {
      StepKeepsRaceInv(e, s);
      RunInvOf(ENext(e, s));
      GuardedIsFine(ENext(e, s));
    } else if s.SendNew? {
      NewIsTwin(e, s.pid);
      forall ss | SRun(ENext(e, s), ss) ensures Fine(SFinal(ENext(e, s), ss)) {
        TwinSettles(ENext(e, s), s.pid, e.sched.op, ss);
      }
    } else {
      DeleteIsTwin(e, s.op);
      forall ss | SRun(ENext(e, s), ss) ensures Fine(SFinal(ENext(e, s), ss)) {
        TwinSettles(ENext(e, s), e.admitter.pid, s.op, ss);
      }
    }
  }

  lemma RunInvOf(e: EState)
    requires RaceInv(e)
    ensures RunInv(e)
  {
  }

  lemma {:induction false} RunKeepsRaceInv(e: EState, ss: seq<EStep>)
    requires RaceInv(e) && ERun(e, ss) && GuardedRun(e, ss)
    ensures RaceInv(EFinal(e, ss))
    decreases |ss|
  {
    hide RaceInv, EEnabled, ENext, Guard;
    if ss != [] {
      StepKeepsRaceInv(e, ss[0]);
      RunKeepsRaceInv(ENext(e, ss[0]), ss[1..]);
    }
  }

  /** From start-up, after every run whose requests met their guard, the next request is settled by what
      can be read off when it is sent. */
  lemma EverySendIsDecided(total: int, size0: int, seg0: Segmento, ss: seq<EStep>, s: EStep)
    requires 0 < size0 <= total <= MAX_INT && ERun(EBoot(total, size0, seg0), ss) && GuardedRun(EBoot(total, size0, seg0), ss)
    requires EEnabled(EFinal(EBoot(total, size0, seg0), ss), s) && IsSend(s)
    ensures var e := EFinal(EBoot(total, size0, seg0), ss); AlwaysFine(ENext(e, s)) <==> SendGuard(e, s)
  {
    hide AlwaysFine, EEnabled, ENext, ERun, EFinal, GuardedRun, SendGuard;
    BootRace(total, size0, seg0);
    RunKeepsRaceInv(EBoot(total, size0, seg0), ss);
    SendIsSafeIff(EFinal(EBoot(total, size0, seg0), ss), s);
  }

  lemma BootRace(total: int, size0: int, seg0: Segmento)
    requires 0 < size0 <= total <= MAX_INT
    ensures RaceInv(EBoot(total, size0, seg0))
  {
    BootIsExchanging(total, size0, seg0);
    hide Exchanging;
  }

  // ----- a process leaves the list -----

  /** `e'` is `e` with one process off the list, its EXIT not yet sent. */
  predicate Without(e: EState, e': EState, x: Pid) {
    e' == e.(listed := e'.listed, leaver := Some(x)) && x !in e'.listed
  }

  lemma ServeWithout(e: EState, e': EState, x: Pid, order: seq<Pid>)
    requires Without(e, e', x) && EEnabled(e, Serve(order))
    ensures EEnabled(e', Serve(order)) && Without(ENext(e, Serve(order)), ENext(e', Serve(order)), x)
    ensures SameKernel(e, ENext(e, Serve(order))) && |ENext(e, Serve(order)).requests| == |e.requests| - 1
  {
    hide Inv, Sendable, Servable, Apply, Messages, Answer;
  }

  lemma {:induction false} CatchUpWithout(e: EState, e': EState, x: Pid) returns (f: EState, f': EState)
    requires RaceInv(e) && AlwaysFine(e') && Without(e, e', x)
    ensures RaceInv(f) && AlwaysFine(f') && Without(f, f', x) && f.requests == [] && SameKernel(e, f)
    decreases |e.requests|
  {
    hide RaceInv, AlwaysFine, Ready, Without, EEnabled, ENext;
    if e.requests == [] {
      f, f' := e, e';
    } else {
      MemoryIsFine(e);
      var order := ServeEnabled(e);
      ServeWithout(e, e', x, order);
      StillFine(e', Work(order));
      assert Guard(e, Serve(order));
      StepKeepsRaceInv(e, Serve(order));
      f, f' := CatchUpWithout(ENext(e, Serve(order)), ENext(e', Serve(order)), x);
    }
  }

  lemma BroadcastWaiting(f: EState) returns (order: seq<Pid>)
    requires RaceInv(f) && f.requests == [] && f.sched.SWaits?
    ensures Inv(f.mem) && Sendable(f.mem) && Lists(order, f.mem.tables.Keys) && f.replies == [AllTables(f.mem, order)]
  {
    hide Inv, Sendable, Keys, Synced, Global, Still, Call, TableReply, AllTables, Lists;
    assert Answered([]) == [];
    order :| Lists(order, f.mem.tables.Keys) && f.replies[0] == AllTables(f.mem, order);
  }

  lemma LeavingDuringCompaction(e: EState, x: Pid)
    requires RaceInv(e) && EEnabled(e, Delist(x)) && e.sched.SWaits?
    ensures !AlwaysFine(ENext(e, Delist(x)))
  {
    DelistIs(e, x);
    hide RaceInv, AlwaysFine, Without, EEnabled, ENext;
    ListedHasPcb(e, x);
    LeftTooSoon(e, ENext(e, Delist(x)), x);
  }

  lemma DelistIs(e: EState, x: Pid)
    requires EEnabled(e, Delist(x))
    ensures Without(e, ENext(e, Delist(x)), x) && x in e.listed
  {
  }

  lemma LeftTooSoon(e: EState, e': EState, x: Pid)
    requires RaceInv(e) && Without(e, e', x) && e.sched.SWaits? && x in e.pcbs
    ensures !AlwaysFine(e')
  {
    hide RaceInv, AlwaysFine, Without, EEnabled, ENext, AllTables, Inv, Sendable, Lists;
    if AlwaysFine(e') {
      var f, f' := CatchUpWithout(e, e', x);
      var order := BroadcastWaiting(f);
      PcbsHaveTables(f, x);
      NotFailed(f);
      WithoutIs(f, f', x);
      TakesNothing(f', order, x);
      StillFine(f', GetAll);
      FineNow(ENext(f', TakeAll));
    }
  }

  lemma WithoutIs(f: EState, f': EState, x: Pid)
    requires Without(f, f', x)
    ensures f'.mem == f.mem && f'.replies == f.replies && f'.sched == f.sched && x !in f'.listed && f'.failed == f.failed
  {
  }

  lemma ListedHasPcb(e: EState, x: Pid)
    requires RaceInv(e) && x in e.listed
    ensures x in e.pcbs
  {
    hide MemoryFine, Keys, Channel, Synced, Still, RightReply, Call, Sizes;
  }

  /** A process may leave the global list, however what is under way goes on, exactly when no broadcast is
      awaited. */
  lemma LeavingIsSafeIff(e: EState, x: Pid)
    requires RaceInv(e) && EEnabled(e, Delist(x))
    ensures AlwaysFine(ENext(e, Delist(x))) <==> !e.sched.SWaits?
  {
    hide RaceInv, AlwaysFine, EEnabled, ENext;
    if e.sched.SWaits? {
      LeavingDuringCompaction(e, x);
    } else {
      StepKeepsRaceInv(e, Delist(x)) by { assert Guard(e, Delist(x)); }
      RunInvOf(ENext(e, Delist(x)));
      GuardedIsFine(ENext(e, Delist(x)));
    }
  }
}
