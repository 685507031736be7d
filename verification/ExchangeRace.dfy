/** Exchanges that overlap: exactly which requests may be sent without one reply being taken for another. */
module ExchangeRace {
  import opened Sums
  import opened Holes
  import opened Memory
  import opened Compaction
  import opened MemoryRuns
  import opened Mmu
  import opened Wire
  import opened TableSync
  import opened Exchange
  import opened ExchangeRuns
  import opened ExchangeRetry

  /** A thread sends a request that will be answered. */
  predicate IsSend(s: EStep) { s.SendNew? || s.SendOp? || s.SendCompact? || s.Again? }

  /** The steps that end what is under way; nobody sends anything more but an EXIT. */
  datatype Settle = GetNew | PutOnList | GetOp | GetAll | SayExit | Work(order: seq<Pid>)

  function StepOf(s: Settle): EStep {
    match s
    case GetNew => TakeNew
    case PutOnList => Enlist
    case GetOp => TakeOp
    case GetAll => TakeAll
    case SayExit => SendExit
    case Work(order) => Serve(order)
  }

  ghost predicate SRun(e: EState, ss: seq<Settle>)
    decreases |ss|
  {
    ss == [] || (EEnabled(e, StepOf(ss[0])) && SRun(ENext(e, StepOf(ss[0])), ss[1..]))
  }

  ghost function SFinal(e: EState, ss: seq<Settle>): EState
    requires SRun(e, ss)
    decreases |ss|
  {
    if ss == [] then e else SFinal(ENext(e, StepOf(ss[0])), ss[1..])
  }

  /** No wrong flag, no missing PCB, and agreement once everything is served and taken. */
  ghost predicate Fine(e: EState) { Clean(e) && (Quiet(e) ==> Agree(e.mem, e.pcbs)) }

  /** However what is under way ends, it does no harm. */
  ghost predicate AlwaysFine(e: EState) {
    forall ss {:trigger SFinal(e, ss)} :: SRun(e, ss) ==> Fine(SFinal(e, ss))
  }

  /** The two replies are the same bytes: a deletion that leaves segment 0 alone, and a first table. */
  predicate SameEitherWay(e: EState, op: Op) {
    op.OpDelete? && op.pid in e.pcbs && |e.pcbs[op.pid]| == 2
  }

  /** What can be read off before the send. */
  predicate SendGuard(e: EState, s: EStep) {
    match s
    case SendNew(_) => !e.sched.SWaits? && (e.sched.SSent? ==> SameEitherWay(e, e.sched.op))
    case SendOp(op) => e.admitter.ASent? ==> SameEitherWay(e, op)
    case Again(_) => !e.admitter.ASent?
    case SendCompact => e.admitter.AIdle? && e.leaver.None?
    case _ => true
  }

  // ----- runs by hand -----

  lemma SettleThen(e: EState, s: Settle, ss: seq<Settle>)
    requires EEnabled(e, StepOf(s)) && SRun(ENext(e, StepOf(s)), ss)
    ensures SRun(e, [s] + ss) && SFinal(e, [s] + ss) == SFinal(ENext(e, StepOf(s)), ss)
  {
    assert ([s] + ss)[1..] == ss;
  }

  /** A step that settles something passes harm on. */
  lemma StillFine(e: EState, s: Settle)
    requires AlwaysFine(e) && EEnabled(e, StepOf(s))
    ensures AlwaysFine(ENext(e, StepOf(s)))
  {
    var e1 := ENext(e, StepOf(s));
    forall ss | SRun(e1, ss) ensures Fine(SFinal(e1, ss)) {
      SettleThen(e, s, ss);
      assert Fine(SFinal(e, [s] + ss));
    }
  }

  lemma FineNow(e: EState)
    requires AlwaysFine(e)
    ensures Fine(e)
  {
    assert SRun(e, []) && SFinal(e, []) == e;
  }

  /** Exchanges that do not overlap end well. */
  lemma {:induction false} SettlesWell(e: EState, ss: seq<Settle>)
    requires RunInv(e) && SRun(e, ss)
    ensures RunInv(SFinal(e, ss))
    decreases |ss|
  {
    hide RunInv, EEnabled, ENext;
    if ss != [] {
      assert Guard(e, StepOf(ss[0]));
      StepKeepsRunInv(e, StepOf(ss[0]));
      SettlesWell(ENext(e, StepOf(ss[0])), ss[1..]);
    }
  }

  lemma GuardedIsFine(e: EState)
    requires RunInv(e)
    ensures AlwaysFine(e)
  {
    hide RunInv, SRun, SFinal, Fine;
    forall ss | SRun(e, ss) ensures Fine(SFinal(e, ss)) {
      SettlesWell(e, ss);
      RunInvIsFine(SFinal(e, ss));
    }
  }

  lemma RunInvIsFine(e: EState)
    requires RunInv(e)
    ensures Fine(e)
  {
    hide Exchanging, Call;
    QuietAgrees(e);
  }

  // ----- the sizes of tables -----

  /** A first table has one entry; a created segment makes it two at least; a deleted one shortens it. */
  ghost predicate Sizes(e: EState) {
    && (e.admitter.ASent? && e.replies != [] && e.admitter.pid in e.mem.tables ==> |e.mem.tables[e.admitter.pid]| == 1)
    && (e.sched.SSent? && e.sched.op.OpCreate? && e.replies != [] && e.answer == 0 && e.sched.op.pid in e.mem.tables ==>
          |e.mem.tables[e.sched.op.pid]| >= 2)
    && (e.sched.SSent? && e.sched.op.OpDelete? && e.sched.op.pid in e.mem.tables && e.sched.op.pid in e.pcbs ==>
          |e.mem.tables[e.sched.op.pid]| == |e.pcbs[e.sched.op.pid]| - if e.replies == [] then 0 else 1)
    && (e.sched.SSent? && e.sched.op.OpDelete? && e.replies != [] ==> e.answer == 0)
  }

  ghost predicate RaceInv(e: EState) { RunInv(e) && Sizes(e) }

  lemma OpSizes(m: Mem, op: Op)
    requires Inv(m) && (op.OpCreate? || op.OpDelete?) && Servable(m, op)
    ensures op.pid in m.tables && op.pid in Apply(m, op).tables
    ensures op.OpCreate? && Answer(m, op) == 0 ==> |Apply(m, op).tables[op.pid]| >= 2
    ensures op.OpDelete? ==> |m.tables[op.pid]| >= 2 && |Apply(m, op).tables[op.pid]| == |m.tables[op.pid]| - 1
    ensures op.OpDelete? ==> Answer(m, op) == 0
  {
    assert op.pid in m.tables && |m.tables[op.pid]| > 0;
    hide Inv, Place, Alojar, Sendable;
  }

  lemma ServeKeepsSizes(e: EState, order: seq<Pid>)
    requires RaceInv(e) && EEnabled(e, Serve(order))
    ensures Sizes(ENext(e, Serve(order)))
  {
    hide Inv, Sendable, Apply, Enabled, Call, ENext, EEnabled, Answer, TableReply, AllTables, Exchanging, Sizes;
    ServeIs(e, order);
    var e', op := ENext(e, Serve(order)), e.requests[0];
    ServeWho(e);
    OneWaits(e);
    if op.OpCreate? || op.OpDelete? {
      OpSizes(e.mem, op);
      OpKeepsSizes(e, e', op);
    } else if op.OpNew? {
      NewWho(e);
      NewKeepsSizes(e, e', op.pid);
    } else if op.OpExit? {
      ExitOfOthers(e);
      ExitKeepsSizes(e, e', op.pid);
    } else {
      CompactKeepsSizes(e, e');
    }
  }

  lemma OneWaits(e: EState)
    requires Exchanging(e)
    ensures !(AdmitterWaits(e) && SchedWaits(e))
  {
  }

  lemma OpKeepsSizes(e: EState, e': EState, op: Op)
    requires Sizes(e) && (op.OpCreate? || op.OpDelete?) && e.sched.SSent? && e.sched.op == op && e.replies == []
    requires !AdmitterWaits(e) && op.pid in e.mem.tables && op.pid in e'.mem.tables && |e'.replies| == 1
    requires op.OpCreate? && e'.answer == 0 ==> |e'.mem.tables[op.pid]| >= 2
    requires op.OpDelete? ==> |e'.mem.tables[op.pid]| == |e.mem.tables[op.pid]| - 1 && e'.answer == 0
    requires e' == e.(mem := e'.mem, requests := e'.requests, replies := e'.replies, answer := e'.answer)
    ensures Sizes(e')
  {
  }

  lemma NewKeepsSizes(e: EState, e': EState, q: Pid)
    requires Sizes(e) && !SchedWaits(e) && e.admitter == ASent(q) && Enabled(e.mem, OpNew(q))
    requires e' == e.(mem := Apply(e.mem, OpNew(q)), requests := e'.requests, replies := e'.replies)
    ensures Sizes(e')
  {
    NewTables(e.mem, q);
    hide Apply;
  }

  lemma ExitKeepsSizes(e: EState, e': EState, x: Pid)
    requires Sizes(e) && Inv(e.mem) && Enabled(e.mem, OpExit(x)) && x !in e.pcbs
    requires e.admitter.ASent? ==> e.admitter.pid != x
    requires e.sched.SSent? ==> (e.sched.op.OpCreate? || e.sched.op.OpDelete?) && e.sched.op.pid != x
    requires e' == e.(mem := Apply(e.mem, OpExit(x)), requests := e'.requests)
    ensures Sizes(e')
  {
    KeysAfterApply(e.mem, OpExit(x));
    hide Inv, Apply, Enabled;
    if e.admitter.ASent? && e.admitter.pid in e.mem.tables { OtherLength(e.mem, OpExit(x), e.admitter.pid); }
    if e.sched.SSent? && (e.sched.op.OpCreate? || e.sched.op.OpDelete?) && e.sched.op.pid in e.mem.tables {
      OtherLength(e.mem, OpExit(x), e.sched.op.pid);
    }
  }

  lemma CompactKeepsSizes(e: EState, e': EState)
    requires Sizes(e) && e.sched.SWaits? && !AdmitterWaits(e) && e'.sched == e.sched && e'.admitter == e.admitter
    ensures Sizes(e')
  {
  }

  lemma NewTables(m: Mem, q: Pid)
    requires Enabled(m, OpNew(q))
    ensures Apply(m, OpNew(q)).tables == m.tables[q := [m.seg0]]
  {
  }

  lemma NewWho(e: EState)
    requires Exchanging(e) && e.requests != [] && e.requests[0].OpNew?
    ensures e.admitter == ASent(e.requests[0].pid) && e.replies == []
  {
    hide MemoryFine, Keys, Synced, Still, RightReply, Answered, Exits;
    HeadOf(e.requests);
    assert Awaited(e) == [e.requests[0]] + Answered(e.requests[1..]);
    assert Awaited(e)[0] == e.requests[0];
  }

  /** An EXIT served is of no process that waits for an answer. */
  lemma ExitOfOthers(e: EState)
    requires Exchanging(e) && e.requests != [] && e.requests[0].OpExit?
    ensures (e.sched.SSent? ==> e.sched.op.OpCreate? || e.sched.op.OpDelete?)
    ensures e.requests[0].pid !in e.pcbs && (e.admitter.ASent? ==> e.admitter.pid != e.requests[0].pid)
    ensures e.sched.SSent? ==> e.sched.op.pid != e.requests[0].pid
  {
    hide MemoryFine, Channel, Synced, Still, RightReply, Answered, Exits;
    HeadOf(e.requests);
    assert Exits(e.requests)[0] == e.requests[0].pid;
    assert e.requests[0].pid in InSeq(Exits(e.requests));
  }

  lemma OtherLength(m: Mem, op: Op, p: Pid)
    requires Inv(m) && Enabled(m, op) && (op.OpNew? || op.OpExit?) && op.pid != p && p in m.tables
    ensures p in Apply(m, op).tables && |Apply(m, op).tables[p]| == |m.tables[p]|
  {
    hide Inv, Apply, Enabled, TableOf, TablesOk;
    OthersAfter(m, op, {p});
    SameLength(m, Apply(m, op), p);
  }

  lemma SameLength(m: Mem, m': Mem, p: Pid)
    requires TablesOk(m) && TablesOk(m') && p in m.tables && p in m'.tables && TableOf(m', p) == TableOf(m, p)
    ensures |m'.tables[p]| == |m.tables[p]|
  {
    assert |TableOf(m, p)| == |m.tables[p]| && |TableOf(m', p)| == |m'.tables[p]|;
  }

  lemma SendsKeepSizes(e: EState, s: EStep)
    requires RaceInv(e) && EEnabled(e, s) && Guard(e, s) && !s.Serve? && !s.TakeNew? && !s.TakeOp? && !s.TakeAll?
    ensures Sizes(ENext(e, s))
  {
    QuietAgrees(e);
    assert s.SendNew? || s.SendOp? || s.Again? ==> e.replies == [];
    assert s.SendOp? ==> s.op.pid in e.pcbs;
    assert s.SendOp? && s.op.OpDelete? ==> |e.mem.tables[s.op.pid]| == |e.pcbs[s.op.pid]|;
    hide Exchanging, CanSend, Call;
  }

  lemma TakesKeepSizes(e: EState, s: EStep)
    requires RaceInv(e) && EEnabled(e, s) && (s.TakeNew? || s.TakeOp? || s.TakeAll?)
    ensures Sizes(ENext(e, s))
  {
    OneWaits(e);
    hide Exchanging, Call;
    match s
    case TakeNew => TakeNewIs(e);
    case TakeOp => TakeOpIs(e);
    case TakeAll => TakeAllIs(e);
  }

  lemma StepKeepsRaceInv(e: EState, s: EStep)
    requires RaceInv(e) && EEnabled(e, s) && Guard(e, s)
    ensures RaceInv(ENext(e, s))
  {
    hide RunInv, Sizes, EEnabled, ENext, Guard;
    StepKeepsRunInv(e, s);
    match s
    case Serve(order) => ServeKeepsSizes(e, order);
    case TakeNew => TakesKeepSizes(e, s);
    case TakeOp => TakesKeepSizes(e, s);
    case TakeAll => TakesKeepSizes(e, s);
    case _ => SendsKeepSizes(e, s);
  }

  // ----- one request too many -----

  /** `e'` is `e` with one request more at the end of the line, and its sender waiting. */
  predicate Beside(e: EState, e': EState, op: Op) {
    e' == e.(requests := e.requests + [op], admitter := e'.admitter, sched := e'.sched)
  }

  /** What stays as it is while memory serves. */
  predicate SameKernel(e: EState, e': EState) {
    && e'.pcbs == e.pcbs && e'.listed == e.listed && e'.admitter == e.admitter && e'.sched == e.sched
    && e'.leaver == e.leaver
  }

  lemma ServeBeside(e: EState, e': EState, op: Op, order: seq<Pid>)
    requires Beside(e, e', op) && EEnabled(e, Serve(order))
    ensures EEnabled(e', Serve(order)) && Beside(ENext(e, Serve(order)), ENext(e', Serve(order)), op)
    ensures ENext(e', Serve(order)).admitter == e'.admitter && ENext(e', Serve(order)).sched == e'.sched
    ensures SameKernel(e, ENext(e, Serve(order))) && |ENext(e, Serve(order)).requests| == |e.requests| - 1
  {
    assert e'.requests[0] == e.requests[0] && e'.requests[1..] == e.requests[1..] + [op];
    hide Inv, Sendable, Servable, Apply, Messages, Answer;
  }

  lemma ReadyTail(e: EState, order: seq<Pid>)
    requires Ready(e.mem, e.requests) && EEnabled(e, Serve(order))
    ensures Ready(ENext(e, Serve(order)).mem, ENext(e, Serve(order)).requests)
  {
    hide Inv, Sendable, Servable, Apply, Messages, Answer, Enabled;
  }

  lemma ServeEnabled(e: EState) returns (order: seq<Pid>)
    requires !e.failed && e.requests != [] && Inv(e.mem) && Sendable(e.mem) && Ready(e.mem, e.requests)
    ensures EEnabled(e, Serve(order))
  {
    hide Inv, Sendable, Enabled;
    order := ListOf(e.mem.tables.Keys);
  }

  /** Memory catches up with the line, the last request apart. */
  lemma {:induction false} CatchUp(e: EState, e': EState, op: Op) returns (f: EState, f': EState)
    requires RaceInv(e) && AlwaysFine(e') && Beside(e, e', op) && Ready(e'.mem, e'.requests)
    ensures RaceInv(f) && AlwaysFine(f') && Beside(f, f', op) && Ready(f'.mem, f'.requests) && f.requests == []
    ensures SameKernel(e, f) && f'.admitter == e'.admitter && f'.sched == e'.sched
    decreases |e.requests|
  {
    hide Sizes, Exchanging, Call, AlwaysFine, Ready, Beside, EEnabled, ENext;
    if e.requests == [] {
      f, f' := e, e';
    } else {
      MemoryIsFine(e);
      var order := ServeEnabled(e);
      ServeBeside(e, e', op, order);
      ReadyTail(e', order);
      StillFine(e', Work(order));
      assert Guard(e, Serve(order));
      StepKeepsRaceInv(e, Serve(order));
      f, f' := CatchUp(ENext(e, Serve(order)), ENext(e', Serve(order)), op);
    }
  }

  /** Memory has served the whole line, and the request too many last of all. */
  lemma LastServed(e: EState, e': EState, op: Op) returns (f: EState, g: EState, order: seq<Pid>)
    requires RaceInv(e) && AlwaysFine(e') && Beside(e, e', op) && Ready(e'.mem, e'.requests)
    ensures RaceInv(f) && f.requests == [] && SameKernel(e, f)
    ensures Inv(f.mem) && Sendable(f.mem) && Servable(f.mem, op) && g.mem == Apply(f.mem, op)
    ensures AlwaysFine(g) && !g.failed && g.requests == [] && Inv(g.mem) && Sendable(g.mem)
    ensures g.pcbs == f.pcbs && g.listed == f.listed && g.admitter == e'.admitter && g.sched == e'.sched
    ensures op.OpNew? ==> op.pid in g.mem.tables && g.answer == f.answer && g.replies == f.replies + [TableReply(g.mem, op.pid, 0)]
    ensures op.OpCreate? || op.OpDelete? ==>
      op.pid in g.mem.tables && g.answer == Answer(f.mem, op) && g.replies == f.replies + [TableReply(g.mem, op.pid, g.answer)]
    ensures op.OpCompact? ==> Lists(order, g.mem.tables.Keys) && g.replies == f.replies + [AllTables(g.mem, order)]
  {
    hide RaceInv, AlwaysFine, Ready, TableReply, AllTables, EEnabled, ENext, Inv, Sendable, Servable, Enabled, Apply, Answer, Lists;
    var f';
    f, f' := CatchUp(e, e', op);
    MemoryIsFine(f);
    assert f'.requests == [op] by { assert [] + [op] == [op]; }
    ReadyHead(f');
    order := ServeEnabled(f');
    StillFine(f', Work(order));
    ServeIs(f', order);
    ServeFrame(f', order);
    g := ENext(f', Serve(order));
  }

  lemma ServeFrame(e: EState, order: seq<Pid>)
    requires EEnabled(e, Serve(order))
    ensures SameKernel(e, ENext(e, Serve(order))) && ENext(e, Serve(order)).failed == e.failed
    ensures e.requests != [] && ENext(e, Serve(order)).requests == e.requests[1..]
  {
  }

  lemma MemoryIsFine(e: EState)
    requires RaceInv(e)
    ensures MemoryFine(e) && Inv(e.mem) && Sendable(e.mem) && Ready(e.mem, e.requests) && !e.failed && !e.misread
  {
  }

  lemma TakesTable(pcbs: Tablas, pid: Pid, m: Mem, x: Pid, flag: int)
    requires Inv(m) && Sendable(m) && x in m.tables && IsInt(flag)
    ensures TablesOk(m) && TakeReply(pcbs, pid, TableReply(m, x, flag)) == Some((pcbs[pid := TableOf(m, x)], flag))
  {
    TableIsSendable(m, x);
    ReplyInstallsTable(pcbs, pid, TableOf(m, x), flag);
  }

  /** Two tables on their way, the first thread's reply taken by the second. */
  lemma CrossedFirst(g: EState, q: Pid, op: Op, m: Mem, a: int)
    requires AlwaysFine(g) && !g.failed && g.requests == [] && g.admitter == ASent(q) && g.sched.SSent? && g.sched.op == op
    requires (op.OpCreate? || op.OpDelete?) && op.pid != q && IsInt(a) && g.answer == a
    requires Inv(m) && Sendable(m) && q in m.tables && Inv(g.mem) && Sendable(g.mem) && op.pid in g.mem.tables
    requires g.replies == [TableReply(m, q, 0), TableReply(g.mem, op.pid, a)]
    ensures op.OpCreate? ==> a == 0
    ensures |m.tables[q]| == |g.mem.tables[op.pid]|
  {
    hide Inv, Sendable, TableOf, TableReply, AlwaysFine, TakeReply, TablesOk;
    TakesTable(g.pcbs, op.pid, m, q, 0);
    StillFine(g, GetOp);
    var h := ENext(g, TakeOp);
    assert h == g.(replies := [TableReply(g.mem, op.pid, a)], pcbs := g.pcbs[op.pid := TableOf(m, q)],
                   misread := g.misread || (op.OpCreate? && a != 0), sched := SIdle);
    TakesTable(h.pcbs, q, g.mem, op.pid, a);
    StillFine(h, GetNew);
    var z := ENext(h, TakeNew);
    assert z == h.(replies := [], pcbs := h.pcbs[q := TableOf(g.mem, op.pid)], admitter := AGot(q));
    FineNow(z);
    assert z.pcbs[op.pid] == TableOf(m, q);
    SizesOfTables(m, q);
    SizesOfTables(g.mem, op.pid);
  }

  lemma SizesOfTables(m: Mem, x: Pid)
    requires TablesOk(m) && x in m.tables
    ensures |TableOf(m, x)| == |m.tables[x]|
  {
  }

  lemma CrossedSecond(g: EState, q: Pid, op: Op, m: Mem, a: int)
    requires AlwaysFine(g) && !g.failed && g.requests == [] && g.admitter == ASent(q) && g.sched.SSent? && g.sched.op == op
    requires (op.OpCreate? || op.OpDelete?) && op.pid != q && IsInt(a) && g.answer == a
    requires Inv(m) && Sendable(m) && op.pid in m.tables && Inv(g.mem) && Sendable(g.mem) && q in g.mem.tables && op.pid in g.mem.tables
    requires g.replies == [TableReply(m, op.pid, a), TableReply(g.mem, q, 0)]
    ensures op.OpCreate? ==> a == 0
    ensures |g.mem.tables[q]| == |g.mem.tables[op.pid]|
  {
    hide Inv, Sendable, TableOf, TableReply, AlwaysFine, TakeReply, TablesOk;
    TakesTable(g.pcbs, q, m, op.pid, a);
    StillFine(g, GetNew);
    var h := ENext(g, TakeNew);
    assert h == g.(replies := [TableReply(g.mem, q, 0)], pcbs := g.pcbs[q := TableOf(m, op.pid)], admitter := AGot(q));
    TakesTable(h.pcbs, op.pid, g.mem, q, 0);
    StillFine(h, GetOp);
    var z := ENext(h, TakeOp);
    assert z == h.(replies := [], pcbs := h.pcbs[op.pid := TableOf(g.mem, q)],
                   misread := g.misread || (op.OpCreate? && a != 0), sched := SIdle);
    FineNow(z);
    assert z.pcbs[op.pid] == TableOf(g.mem, q);
    SizesOfTables(g.mem, q);
    SizesOfTables(g.mem, op.pid);
  }

  /** The admitting thread's reply is all there is once memory has caught up. */
  lemma NewAnswered(f: EState, q: Pid)
    requires RaceInv(f) && f.requests == [] && f.admitter == ASent(q)
    ensures !SchedWaits(f) && Inv(f.mem) && Sendable(f.mem) && q in f.mem.tables && |f.mem.tables[q]| == 1
    ensures f.replies == [TableReply(f.mem, q, 0)] && q !in f.pcbs
  {
    assert Answered([]) == [];
    hide Inv, Sendable, Global, Synced, Still, Call, TableReply;
  }

  lemma OpAnswered(f: EState, op: Op)
    requires RaceInv(f) && f.requests == [] && f.sched.SSent? && f.sched.op == op
    ensures !AdmitterWaits(f) && Inv(f.mem) && Sendable(f.mem) && (op.OpCreate? || op.OpDelete?)
    ensures op.pid in f.mem.tables && op.pid in f.pcbs && IsInt(f.answer) && f.replies == [TableReply(f.mem, op.pid, f.answer)]
    ensures op.OpCreate? && f.answer == 0 ==> |f.mem.tables[op.pid]| >= 2
    ensures op.OpDelete? ==> |f.mem.tables[op.pid]| == |f.pcbs[op.pid]| - 1 && f.answer == 0
  {
    assert Answered([]) == [];
    hide Inv, Sendable, Keys, Synced, Still, Call, TableReply;
  }

  /** A create or a delete sent while a first table is awaited. */
  lemma OpTooMany(e: EState, e': EState, op: Op)
    requires RaceInv(e) && AlwaysFine(e') && Beside(e, e', op) && Ready(e'.mem, e'.requests)
    requires e.admitter.ASent? && e'.admitter == e.admitter && e'.sched.SSent? && e'.sched.op == op
    requires (op.OpCreate? || op.OpDelete?) && op.pid in e.pcbs
    ensures SameEitherWay(e, op)
  {
    hide RaceInv, AlwaysFine, Ready, TableReply, Inv, Sendable, Servable, Enabled, Apply, Answer;
    var f, g, order := LastServed(e, e', op);
    NewAnswered(f, e.admitter.pid);
    InStep(f, op.pid);
    OpSizes(f.mem, op);
    CrossedFirst(g, e.admitter.pid, op, f.mem, g.answer);
  }

  lemma NotFailed(f: EState)
    requires RaceInv(f)
    ensures !f.failed
  {
  }

  lemma ReadyHead(f: EState)
    requires Ready(f.mem, f.requests) && f.requests != []
    ensures Servable(f.mem, f.requests[0])
  {
  }

  /** A PCB that no reply is about to replace is as long as memory's table. */
  lemma InStep(f: EState, p: Pid)
    requires RaceInv(f) && p in f.pcbs && !SchedWaits(f)
    ensures p in f.mem.tables && |f.mem.tables[p]| == |f.pcbs[p]|
  {
    hide Call, Sizes;
    QuietAgrees(f);
    hide Exchanging;
    SizesOfTables(f.mem, p);
  }

  /** A first request sent while a create or a delete is unanswered. */
  lemma NewTooMany(e: EState, e': EState, q: Pid)
    requires RaceInv(e) && AlwaysFine(e') && Beside(e, e', OpNew(q)) && Ready(e'.mem, e'.requests)
    requires e.sched.SSent? && e'.sched == e.sched && e'.admitter == ASent(q) && q !in e.pcbs
    ensures SameEitherWay(e, e.sched.op)
  {
    hide RaceInv, AlwaysFine, Ready, TableReply, Inv, Sendable, Servable, Enabled, Apply, Answer;
    var f, g, order := LastServed(e, e', OpNew(q));
    OpAnswered(f, e.sched.op);
    NewServed(f.mem, q);
    assert g.replies == [TableReply(f.mem, e.sched.op.pid, f.answer), TableReply(g.mem, q, 0)];
    CrossedSecond(g, q, e.sched.op, f.mem, f.answer);
  }

  lemma NewServed(m: Mem, q: Pid)
    requires Servable(m, OpNew(q))
    ensures q !in m.tables && Apply(m, OpNew(q)).tables == m.tables[q := [m.seg0]]
  {
  }

  lemma AllAnswered(f: EState)
    requires RaceInv(f) && f.requests == [] && f.sched.SWaits?
    ensures !AdmitterWaits(f) && |f.replies| == 1 && Inv(f.mem) && Sendable(f.mem)
  {
    assert Answered([]) == [];
    hide Inv, Sendable, Keys, Synced, Global, Still, Call, TableReply, AllTables;
  }

  /** A first table, as the bytes a broadcast is read from. */
  lemma FirstTableMisread(m: Mem, q: Pid, pcbs: Tablas, listed: set<Pid>)
    requires Inv(m) && Sendable(m) && q in m.tables && |m.tables[q]| == 1
    ensures TakeBroadcast(pcbs, listed, TableReply(m, q, 0)) == if 0 in listed then Some(pcbs[0 := []]) else None
  {
    TableIsSendable(m, q);
    var t := TableOf(m, q);
    assert t == [t[0]] && t[0].id == 0 && t[0].base == 0;
    hide Inv, Sendable, TableOf, TakeBroadcast, EncTable, Reply;
    FirstTableAsBroadcast(pcbs, listed, t[0], 0);
  }

  /** The admitting thread reads the broadcast, the scheduler the first table: either the message breaks
      off, or a PCB is missing, or PID 0 is left without segments. */
  lemma MixedUp(g: EState, q: Pid)
    requires !g.failed && g.requests == [] && |g.replies| == 2 && g.admitter == ASent(q) && g.sched.SWaits?
    requires Inv(g.mem) && Sendable(g.mem) && q in g.mem.tables && |g.mem.tables[q]| == 1
    requires g.replies[1] == TableReply(g.mem, q, 0)
    ensures EEnabled(g, TakeNew)
    ensures var h := ENext(g, TakeNew); h.failed || (EEnabled(h, TakeAll) && !Fine(ENext(h, TakeAll)))
  {
    hide Inv, Sendable, TableOf, TableReply, TakeReply, TakeBroadcast, TablesOk;
    var h := ENext(g, TakeNew);
    if !h.failed {
      assert h.replies == [TableReply(g.mem, q, 0)] && h.sched == g.sched && h.requests == [];
      FirstTableMisread(g.mem, q, h.pcbs, h.listed);
      var z := ENext(h, TakeAll);
      HasSegments(g.mem, 0);
      assert z.mem == g.mem && z.replies == [] && z.requests == [];
      assert !z.failed ==> 0 in z.pcbs && |z.pcbs[0]| == 0;
    }
  }

  lemma HasSegments(m: Mem, p: Pid)
    requires Inv(m)
    ensures TablesOk(m) && (p in m.tables ==> |TableOf(m, p)| > 0)
  {
  }

  /** A first request sent while the broadcast is awaited. */
  lemma NewDuringCompaction(e: EState, e': EState, q: Pid)
    requires RaceInv(e) && Beside(e, e', OpNew(q)) && Ready(e'.mem, e'.requests)
    requires e.sched.SWaits? && e'.sched == e.sched && e'.admitter == ASent(q)
    ensures !AlwaysFine(e')
  {
    hide RaceInv, AlwaysFine, Ready, TableReply, Inv, Sendable, Servable, Enabled, Apply, Answer, EEnabled, ENext;
    if AlwaysFine(e') {
      var f, g, order := LastServed(e, e', OpNew(q));
      AllAnswered(f);
      NewServed(f.mem, q);
      MixedUp(g, q);
      StillFine(g, GetNew);
      FineNow(ENext(g, TakeNew));
      StillFine(ENext(g, TakeNew), GetAll);
      FineNow(ENext(ENext(g, TakeNew), TakeAll));
    }
  }

  /** Compaction served while a PCB memory has a table for is not on the global list. */
  lemma Unlisted(f: EState, f': EState, x: Pid)
    requires RaceInv(f) && Beside(f, f', OpCompact) && Ready(f'.mem, f'.requests)
    requires !AdmitterWaits(f) && !SchedWaits(f) && f'.sched.SWaits? && x in f.pcbs && x !in f.listed
    ensures !AlwaysFine(f')
  {
    hide RaceInv, AlwaysFine, Ready, AllTables, Inv, Sendable, Servable, Enabled, Apply, EEnabled, ENext;
    if AlwaysFine(f') {
      var f1, g, order := LastServed(f, f', OpCompact);
      NobodyWaits(f1);
      PcbsHaveTables(f1, x);
      CompactedKeys(f1.mem);
      TakesNothing(g, order, x);
      StillFine(g, GetAll);
      FineNow(ENext(g, TakeAll));
    }
  }

  lemma TakesNothing(g: EState, order: seq<Pid>, x: Pid)
    requires Inv(g.mem) && Sendable(g.mem) && Lists(order, g.mem.tables.Keys) && x in g.mem.tables && x !in g.listed
    requires g.replies == [AllTables(g.mem, order)] && !g.failed && g.sched.SWaits?
    ensures EEnabled(g, TakeAll) && ENext(g, TakeAll).failed
  {
    hide Inv, Sendable, AllTables, TakeBroadcast, Lists;
    NotTaken(g, order, x);
  }

  lemma CompactedKeys(m: Mem)
    requires Inv(m) && Servable(m, OpCompact)
    ensures Enabled(m, OpCompact) && Apply(m, OpCompact).tables.Keys == m.tables.Keys
  {
    KeysAfterApply(m, OpCompact);
  }

  lemma NobodyWaits(f: EState)
    requires RaceInv(f) && f.requests == [] && !AdmitterWaits(f) && !SchedWaits(f)
    ensures f.replies == []
  {
    hide MemoryFine, Keys, Global, Synced, Still, RightReply, Call, Sizes;
  }

  lemma NotTaken(g: EState, order: seq<Pid>, x: Pid)
    requires Inv(g.mem) && Sendable(g.mem) && Lists(order, g.mem.tables.Keys) && x in g.mem.tables && x !in g.listed
    requires g.replies == [AllTables(g.mem, order)]
    ensures TakeBroadcast(g.pcbs, g.listed, g.replies[0]) == None
  {
    BroadcastInstallsTables(g.mem, g.pcbs, g.listed, order);
  }

  lemma PcbsHaveTables(f: EState, x: Pid)
    requires RaceInv(f) && x in f.pcbs
    ensures x in f.mem.tables
  {
    hide Call, Sizes, RightReply, Synced, Still, Channel, Global;
  }

  // ----- the question settled -----

  lemma Queued(e: EState, op: Op)
    requires CanSend(e, op)
    ensures Ready(e.mem, e.requests + [op])
  {
    ReadyThen(e.mem, e.requests, op);
  }

  lemma CompactGuard(e: EState)
    requires RaceInv(e) && EEnabled(e, SendCompact) && !(e.admitter.AIdle? && e.leaver.None?)
    ensures !AlwaysFine(ENext(e, SendCompact))
  {
    var e' := ENext(e, SendCompact);
    CompactIsServable(e);
    Queued(e, OpCompact);
    FullWaits(e);
    if e.admitter.ASent? {
      CompactAfterNew(e, e');
    } else {
      var x := if e.admitter.AGot? then e.admitter.pid else e.leaver.value;
      OffTheList(e);
      hide RaceInv, AlwaysFine, Ready, CanSend;
      Unlisted(e, e', x);
    }
  }

  lemma FullWaits(e: EState)
    requires EEnabled(e, SendCompact)
    ensures e.sched.SFull? && Beside(e, ENext(e, SendCompact), OpCompact) && ENext(e, SendCompact).sched.SWaits?
    ensures ENext(e, SendCompact).admitter == e.admitter && !SchedWaits(e)
    ensures ENext(e, SendCompact).requests == e.requests + [OpCompact] && ENext(e, SendCompact).mem == e.mem
  {
  }

  lemma OffTheList(e: EState)
    requires RaceInv(e)
    ensures e.admitter.AGot? ==> e.admitter.pid in e.pcbs && e.admitter.pid !in e.listed
    ensures e.leaver.Some? ==> e.leaver.value in e.pcbs && e.leaver.value !in e.listed
  {
    hide MemoryFine, Keys, Channel, Synced, Still, RightReply, Call, Sizes;
  }

  /** The first table arrives, and the broadcast lists its process before the kernel does. */
  lemma CompactAfterNew(e: EState, e': EState)
    requires RaceInv(e) && Beside(e, e', OpCompact) && Ready(e'.mem, e'.requests)
    requires e.admitter.ASent? && e'.admitter == e.admitter && e.sched.SFull? && e'.sched.SWaits?
    ensures !AlwaysFine(e')
  {
    hide RaceInv, AlwaysFine, Ready, EEnabled, ENext;
    if AlwaysFine(e') {
      var f, f' := CatchUp(e, e', OpCompact);
      NewAnswered(f, e.admitter.pid);
      NotFailed(f);
      BothTakeNew(f, f');
      StillFine(f', GetNew);
      StepKeepsRaceInv(f, TakeNew) by { assert Guard(f, TakeNew); }
      var f1, f1' := ENext(f, TakeNew), ENext(f', TakeNew);
      OffTheList(f1);
      Unlisted(f1, f1', e.admitter.pid);
    }
  }

  lemma BothTakeNew(f: EState, f': EState)
    requires RaceInv(f) && Beside(f, f', OpCompact) && f.admitter.ASent? && f'.admitter == f.admitter && f.replies != []
    requires Ready(f'.mem, f'.requests) && f.sched.SFull? && f'.sched.SWaits?
    ensures EEnabled(f, TakeNew) && EEnabled(f', TakeNew)
    ensures var f1, f1' := ENext(f, TakeNew), ENext(f', TakeNew);
      && Beside(f1, f1', OpCompact) && f1.admitter == AGot(f.admitter.pid) && f1.sched == f.sched && f1'.sched == f'.sched
      && Ready(f1'.mem, f1'.requests)
  {
    NotFailed(f);
    assert EEnabled(f, TakeNew);
    hide Call, Sizes, Ready;
    TakeNewIs(f);
    hide Exchanging, TakeReply;
  }

  lemma SendNewGuard(e: EState, q: Pid)
    requires RaceInv(e) && EEnabled(e, SendNew(q)) && !SendGuard(e, SendNew(q))
    ensures !AlwaysFine(ENext(e, SendNew(q)))
  {
    var e' := ENext(e, SendNew(q));
    assert Beside(e, e', OpNew(q)) && e'.admitter == ASent(q) && e'.sched == e.sched && q !in e.pcbs;
    Queued(e, OpNew(q));
    hide RaceInv, AlwaysFine, Ready, EEnabled, ENext, CanSend;
    if e.sched.SWaits? {
      NewDuringCompaction(e, e', q);
    } else if AlwaysFine(e') {
      NewTooMany(e, e', q);
    }
  }

  lemma SendOpGuard(e: EState, s: EStep, op: Op)
    requires RaceInv(e) && EEnabled(e, s) && e.admitter.ASent? && !SameEitherWay(e, op)
    requires s == SendOp(op) || (s.Again? && e.sched.SAgain? && e.sched.op.OpCreate? && op == e.sched.op.(r := s.r))
    ensures !AlwaysFine(ENext(e, s))
  {
    var e' := ENext(e, s);
    assert Beside(e, e', op) && e'.admitter == e.admitter && e'.sched.SSent? && e'.sched.op == op && CanSend(e, op);
    Queued(e, op);
    SenderHasPcb(e, s);
    hide RaceInv, AlwaysFine, Ready, EEnabled, ENext, CanSend;
    if AlwaysFine(e') { OpTooMany(e, e', op); }
  }

  lemma SenderHasPcb(e: EState, s: EStep)
    requires RaceInv(e) && EEnabled(e, s) && (s.SendOp? || s.Again?)
    ensures s.SendOp? ==> (s.op.OpCreate? || s.op.OpDelete?) && s.op.pid in e.pcbs
    ensures s.Again? ==> e.sched.op.OpCreate? && e.sched.op.pid in e.pcbs
  {
    hide MemoryFine, Keys, Channel, Synced, Still, RightReply, Call, Sizes, CanSend;
  }
}
