/** Exchanges that do not overlap: what every such run keeps. */
module ExchangeRuns {
  import opened Sums
  import opened Holes
  import opened Memory
  import opened Compaction
  import opened MemoryRuns
  import opened Mmu
  import opened Wire
  import opened TableSync
  import opened Exchange

  /** Some thread has sent a request and not taken the answer. */
  predicate AdmitterWaits(e: EState) { e.admitter.ASent? }

  predicate SchedWaits(e: EState) { e.sched.SSent? || e.sched.SWaits? }

  /** What is read off before a step: nobody waits for an answer when a request is sent; a compaction is
      asked for with no PCB on its way to the global list or off it; and no PCB leaves the list while the
      broadcast is awaited. */
  predicate Guard(e: EState, s: EStep) {
    match s
    case SendNew(_) => !SchedWaits(e)
    case SendOp(_) => !AdmitterWaits(e)
    case Again(_) => !AdmitterWaits(e)
    case SendCompact => e.admitter.AIdle? && e.leaver.None?
    case Delist(_) => !e.sched.SWaits?
    case _ => true
  }

  // ----- the line of requests -----

  /** The requests that are answered, and the processes of those that are not. */
  function Answered(rs: seq<Op>): seq<Op> {
    if rs == [] then [] else (if rs[0].OpExit? then [] else [rs[0]]) + Answered(rs[1..])
  }

  function Exits(rs: seq<Op>): seq<Pid> {
    if rs == [] then [] else (if rs[0].OpExit? then [rs[0].pid] else []) + Exits(rs[1..])
  }

  lemma {:induction false} AnsweredThen(rs: seq<Op>, op: Op)
    ensures Answered(rs + [op]) == Answered(rs) + if op.OpExit? then [] else [op]
  {
    if rs == [] {
      assert [op][1..] == [] && rs + [op] == [op];
    } else {
      AnsweredThen(rs[1..], op);
      assert (rs + [op])[1..] == rs[1..] + [op];
    }
  }

  lemma {:induction false} ExitsThen(rs: seq<Op>, op: Op)
    ensures Exits(rs + [op]) == Exits(rs) + if op.OpExit? then [op.pid] else []
  {
    if rs == [] {
      assert [op][1..] == [];
      assert rs + [op] == [op];
    } else {
      ExitsThen(rs[1..], op);
      assert (rs + [op])[1..] == rs[1..] + [op];
    }
  }

  predicate NoTwice(s: seq<Pid>) { forall i, j :: 0 <= i < j < |s| ==> s[i] != s[j] }

  // ----- the invariant -----

  ghost predicate MemoryFine(e: EState) { Inv(e.mem) && Sendable(e.mem) && Ready(e.mem, e.requests) }

  /** The request whose answer is awaited. */
  function Awaited(e: EState): seq<Op> {
    if e.admitter.ASent? then [OpNew(e.admitter.pid)]
    else match e.sched case SSent(op, _) => [op] case SWaits(_, _) => [OpCompact] case _ => []
  }

  /** One exchange at a time: the awaited request is in line, or its answer is the only reply. */
  ghost predicate Channel(e: EState) {
    && !(AdmitterWaits(e) && SchedWaits(e))
    && (e.replies == [] ==> Answered(e.requests) == Awaited(e))
    && (e.replies != [] ==> |e.replies| == 1 && Answered(e.requests) == [] && Awaited(e) != [])
  }

  /** The reply in the channel is the one the awaiting thread should get. */
  ghost predicate RightReply(e: EState)
    requires Inv(e.mem) && Sendable(e.mem)
  {
    e.replies != [] ==>
      && (e.admitter.ASent? ==> e.admitter.pid in e.mem.tables && e.replies[0] == TableReply(e.mem, e.admitter.pid, 0))
      && (e.sched.SSent? ==>
            && (e.sched.op.OpCreate? || e.sched.op.OpDelete?) && e.sched.op.pid in e.mem.tables && IsInt(e.answer)
            && e.replies[0] == TableReply(e.mem, e.sched.op.pid, e.answer))
      && (e.sched.SWaits? ==>
            exists order :: Lists(order, e.mem.tables.Keys) && e.replies[0] == AllTables(e.mem, order))
  }

  /** The process memory has made a table for, whose first table is on its way. */
  function Arriving(e: EState): set<Pid> {
    if e.admitter.ASent? && e.replies != [] then {e.admitter.pid} else {}
  }

  function InSeq(s: seq<Pid>): set<Pid> { set p | p in s }

  /** Memory has tables for the PCBs, for processes whose EXIT is in line, and for one arriving. */
  ghost predicate Keys(e: EState) {
    && NoTwice(Exits(e.requests)) && e.pcbs.Keys !! InSeq(Exits(e.requests))
    && e.mem.tables.Keys == e.pcbs.Keys + InSeq(Exits(e.requests)) + Arriving(e)
    && (e.admitter.ASent? ==> e.admitter.pid !in e.pcbs && e.admitter.pid !in Exits(e.requests))
  }

  function Opt(o: Option<Pid>): set<Pid> { if o.Some? then {o.value} else {} }

  function Admitted(e: EState): set<Pid> { if e.admitter.AGot? then {e.admitter.pid} else {} }

  /** The PCBs are the listed ones, the one about to be, and the one that no longer is. */
  ghost predicate Global(e: EState) {
    && e.pcbs.Keys == e.listed + Admitted(e) + Opt(e.leaver)
    && e.listed !! Admitted(e) && e.listed !! Opt(e.leaver) && Admitted(e) !! Opt(e.leaver)
    && (!e.sched.SIdle? ==> (e.sched.op.OpCreate? || e.sched.op.OpDelete?) && e.sched.op.pid in e.listed)
    && (e.sched.SFull? || e.sched.SWaits? || e.sched.SAgain? ==> e.sched.op.OpCreate?)
  }

  /** The PCB's table is about to be replaced by the reply in the channel. */
  predicate Stale(e: EState, p: Pid) {
    e.replies != [] && (e.sched.SWaits? || (e.sched.SSent? && Hand(e.sched) == Some(p)))
  }

  ghost predicate Synced(e: EState)
    requires TablesOk(e.mem)
  {
    forall p :: p in e.pcbs && p in e.mem.tables && !Stale(e, p) ==> e.pcbs[p] == TableOf(e.mem, p)
  }

  /** While the broadcast is awaited, no process comes or goes, and its request is the last in line. */
  ghost predicate Still(e: EState) {
    e.sched.SWaits? ==>
      && e.admitter.AIdle? && e.leaver.None?
      && (e.replies == [] ==> e.requests != [] && e.requests[|e.requests| - 1] == OpCompact)
      && (e.replies != [] ==> e.requests == [])
  }

  ghost predicate Exchanging(e: EState) {
    && MemoryFine(e) && Channel(e) && RightReply(e) && Keys(e) && Global(e) && Synced(e) && Still(e)
  }

  /** No thread has gone by a wrong flag or followed a PCB that is not there. */
  predicate Clean(e: EState) { !e.failed && !e.misread }

  ghost predicate EInv(e: EState) { Exchanging(e) && Clean(e) }

  lemma BootIsExchanging(total: int, size0: int, seg0: Segmento)
    requires 0 < size0 <= total <= MAX_INT
    ensures EInv(EBoot(total, size0, seg0))
  {
    StartIsOk(total, size0, seg0);
    var m := Start(total, size0, seg0);
    forall order | Lists(order, m.tables.Keys) ensures BroadcastBytes(m.tables, order) <= MAX_INT {
      HeadListed(order, m.tables.Keys);
    }
  }

  lemma HeadListed(order: seq<Pid>, keys: set<Pid>)
    requires Lists(order, keys)
    ensures order != [] ==> order[0] in keys
  {
  }

  // ----- sends -----

  lemma {:induction false} ServedKeys(m: Mem, rs: seq<Op>, p: Pid)
    requires Inv(m) && Sendable(m) && Ready(m, rs) && p in m.tables && p !in Exits(rs)
    ensures Inv(Served(m, rs)) && Sendable(Served(m, rs)) && p in Served(m, rs).tables
    decreases |rs|
  {
    hide Inv, Sendable, Enabled, Apply;
    if rs != [] {
      ServingKeeps(m, rs[0]);
      NotThisExit(m, rs, p);
      ServedKeys(Apply(m, rs[0]), rs[1..], p);
    }
  }

  lemma NotThisExit(m: Mem, rs: seq<Op>, p: Pid)
    requires rs != [] && p in m.tables && p !in Exits(rs)
    ensures p in KeysAfter(m, rs[0]) && p !in Exits(rs[1..])
  {
    if rs[0].OpExit? { assert Exits(rs)[0] == rs[0].pid; }
    assert forall x :: x in Exits(rs[1..]) ==> x in Exits(rs);
  }

  /** A request is put in line. */
  lemma SendKeeps(e: EState, e': EState, op: Op)
    requires Exchanging(e) && CanSend(e, op) && !op.OpExit?
    requires e'.mem == e.mem && e'.requests == e.requests + [op] && e'.pcbs == e.pcbs && e'.replies == e.replies && e'.answer == e.answer
    requires !AdmitterWaits(e) && !SchedWaits(e) && !(AdmitterWaits(e') && SchedWaits(e')) && Awaited(e') == [op]
    requires Global(e') && Still(e')
    requires e'.admitter.ASent? ==> e'.admitter.pid !in e.pcbs && e'.admitter.pid !in e.mem.tables
    ensures Exchanging(e')
  {
    hide Inv, Sendable, Servable, TableOf, Global, Still;
    ReadyThen(e.mem, e.requests, op);
    AnsweredThen(e.requests, op);
    ExitsThen(e.requests, op);
    hide Ready;
    NobodyWaits(e);
    TablesOf(e.mem);
    hide Awaited, Answered, TablesOk;
    SendKeepsKeys(e, e', op);
    hide Keys;
  }

  lemma SendKeepsKeys(e: EState, e': EState, op: Op)
    requires Keys(e) && e.replies == [] && e'.replies == [] && e'.mem == e.mem && e'.pcbs == e.pcbs
    requires Exits(e'.requests) == Exits(e.requests)
    requires e'.admitter.ASent? ==> e'.admitter.pid !in e.pcbs && e'.admitter.pid !in e.mem.tables
    ensures Keys(e')
  {
    hide Exits, NoTwice;
    assert e'.admitter.ASent? ==> e'.admitter.pid !in e.mem.tables.Keys;
  }

  lemma NobodyWaits(e: EState)
    requires Channel(e) && !AdmitterWaits(e) && !SchedWaits(e)
    ensures e.replies == [] && Answered(e.requests) == []
  {
  }

  lemma TablesOf(m: Mem)
    ensures Inv(m) ==> TablesOk(m) && Partition(m)
  {
  }

  lemma SendOpKeeps(e: EState, op: Op)
    requires Exchanging(e) && EEnabled(e, SendOp(op)) && Guard(e, SendOp(op))
    ensures Exchanging(ENext(e, SendOp(op)))
  {
    var e' := ENext(e, SendOp(op));
    assert e' == e.(requests := e.requests + [op], sched := SSent(op, 0));
    hide ENext;
    assert Global(e') && Still(e');
    hide Inv, Sendable, Servable, Ready, Global, Still, Synced, RightReply, Keys, Channel;
    SendKeeps(e, e', op);
  }

  lemma AgainKeeps(e: EState, e': EState, op: Op)
    requires Exchanging(e) && e.sched.SAgain? && op.OpCreate? && CanSend(e, op) && !AdmitterWaits(e)
    requires e.sched.op.OpCreate? && op == e.sched.op.(r := op.r)
    requires e' == e.(requests := e.requests + [op], sched := SSent(op, e.sched.compactions))
    ensures Exchanging(e')
  {
    assert Global(e') && Still(e');
    hide Inv, Sendable, Servable, Ready, Global, Still, Synced, RightReply, Keys, Channel;
    SendKeeps(e, e', op);
  }

  lemma SendNewKeeps(e: EState, pid: Pid)
    requires Exchanging(e) && EEnabled(e, SendNew(pid)) && Guard(e, SendNew(pid))
    ensures Exchanging(ENext(e, SendNew(pid)))
  {
    var e' := ENext(e, SendNew(pid));
    assert Global(e') && Still(e');
    hide Inv, Sendable, Servable, Ready, Global, Still, Synced, RightReply, Keys, Channel;
    SendKeeps(e, e', OpNew(pid));
  }

  lemma SendCompactKeeps(e: EState, e': EState)
    requires Exchanging(e) && e.sched.SFull? && e.admitter.AIdle? && e.leaver.None? && CanSend(e, OpCompact)
    requires e' == e.(requests := e.requests + [OpCompact], sched := SWaits(e.sched.op, e.sched.compactions))
    ensures Exchanging(e')
  {
    assert Global(e') && Still(e');
    hide Inv, Sendable, Servable, Ready, Global, Still, Synced, RightReply, Keys, Channel;
    SendKeeps(e, e', OpCompact);
  }

  lemma SendExitKeys(e: EState, e': EState, p: Pid)
    requires Exchanging(e) && e.leaver == Some(p)
    requires e' == e.(requests := e.requests + [OpExit(p)], pcbs := e.pcbs - {p}, leaver := None)
    ensures Keys(e') && Global(e')
  {
    hide MemoryFine, RightReply, Synced, Channel, Still, Exits, Answered;
    ExitsThen(e.requests, OpExit(p));
    assert InSeq(Exits(e'.requests)) == InSeq(Exits(e.requests)) + {p};
    assert e'.pcbs.Keys == e.pcbs.Keys - {p};
  }

  lemma SendExitKeeps(e: EState, e': EState, p: Pid)
    requires Exchanging(e) && e.leaver == Some(p)
    requires e' == e.(requests := e.requests + [OpExit(p)], pcbs := e.pcbs - {p}, leaver := None)
    ensures Exchanging(e')
  {
    hide Inv, Sendable, Servable, TableOf, Exits, Answered, Ready, TableReply, AllTables;
    TablesOf(e.mem);
    SendExitKeys(e, e', p);
    assert p in e.pcbs;
    ExitIsReady(e, p);
    AnsweredThen(e.requests, OpExit(p));
    hide Keys, Global;
  }

  lemma ExitIsReady(e: EState, p: Pid)
    requires MemoryFine(e) && Keys(e) && p in e.pcbs
    ensures Ready(e.mem, e.requests + [OpExit(p)])
  {
    hide Inv, Sendable, Ready, Exits;
    ServedKeys(e.mem, e.requests, p);
    ReadyThen(e.mem, e.requests, OpExit(p));
  }

  // ----- the lists of the kernel -----

  lemma EnlistKeeps(e: EState, e': EState)
    requires Exchanging(e) && e.admitter.AGot?
    requires e' == e.(listed := e.listed + {e.admitter.pid}, admitter := AIdle)
    ensures Exchanging(e')
  {
    hide Inv, Sendable, Ready, TableOf, Exits, Answered, TableReply, AllTables;
    TablesOf(e.mem);
  }

  lemma DelistKeeps(e: EState, e': EState, p: Pid)
    requires Exchanging(e) && e.leaver.None? && p in e.listed && Hand(e.sched) != Some(p) && !e.sched.SWaits?
    requires e' == e.(listed := e.listed - {p}, leaver := Some(p))
    ensures Exchanging(e')
  {
    hide Inv, Sendable, Ready, TableOf, Exits, Answered, TableReply, AllTables;
    TablesOf(e.mem);
  }

  // ----- replies -----

  lemma TakeNewKeeps(e: EState, e': EState, q: Pid)
    requires Exchanging(e) && e.admitter == ASent(q) && e.replies != []
    requires q in e.mem.tables && TablesOk(e.mem)
    requires e' == e.(replies := e.replies[1..], pcbs := e.pcbs[q := TableOf(e.mem, q)], admitter := AGot(q))
    ensures Exchanging(e')
  {
    hide Inv, Sendable, Ready, TableOf, Exits, Answered, TableReply, AllTables;
    TablesOf(e.mem);
  }

  lemma TakeNewIs(e: EState)
    requires Exchanging(e) && EEnabled(e, TakeNew)
    ensures TablesOk(e.mem) && e.admitter.pid in e.mem.tables
    ensures ENext(e, TakeNew) ==
      e.(replies := e.replies[1..], pcbs := e.pcbs[e.admitter.pid := TableOf(e.mem, e.admitter.pid)],
         admitter := AGot(e.admitter.pid))
  {
    hide Channel, Keys, Global, Synced, Still, Ready, Sendable, TableOf, TakeReply, Reply;
    TablesOf(e.mem);
    TableIsSendable(e.mem, e.admitter.pid);
    ReplyInstallsTable(e.pcbs, e.admitter.pid, TableOf(e.mem, e.admitter.pid), 0);
  }

  lemma TakeOpKeeps(e: EState, e': EState, p: Pid)
    requires Exchanging(e) && e.sched.SSent? && e.sched.op.pid == p && e.replies != []
    requires p in e.mem.tables && TablesOk(e.mem) && (e'.sched.SFull? ==> e.sched.op.OpCreate?)
    requires e'.sched == SIdle || e'.sched == SFull(e.sched.op, e.sched.compactions)
    requires e' == e.(replies := e.replies[1..], pcbs := e.pcbs[p := TableOf(e.mem, p)], sched := e'.sched)
    ensures Exchanging(e')
  {
    hide Inv, Sendable, Ready, TableOf, Exits, Answered, TableReply, AllTables;
    TablesOf(e.mem);
  }

  lemma TakeOpIs(e: EState)
    requires Exchanging(e) && EEnabled(e, TakeOp)
    ensures TablesOk(e.mem) && e.sched.op.pid in e.mem.tables
    ensures ENext(e, TakeOp) ==
      e.(replies := e.replies[1..], pcbs := e.pcbs[e.sched.op.pid := TableOf(e.mem, e.sched.op.pid)],
         sched := if e.sched.op.OpCreate? && e.answer == 1 then SFull(e.sched.op, e.sched.compactions) else SIdle)
  {
    hide Channel, Keys, Global, Synced, Still, Ready, Sendable, TableOf, TakeReply, Reply;
    TablesOf(e.mem);
    TableIsSendable(e.mem, e.sched.op.pid);
    ReplyInstallsTable(e.pcbs, e.sched.op.pid, TableOf(e.mem, e.sched.op.pid), e.answer);
  }

  lemma TakeAllKeeps(e: EState, e': EState)
    requires Exchanging(e) && e.sched.SWaits? && e.replies != [] && TablesOk(e.mem)
    requires e' == e.(replies := e.replies[1..], pcbs := e'.pcbs, sched := SAgain(e.sched.op, e.sched.compactions + 1))
    requires e'.pcbs.Keys == e.pcbs.Keys && forall p :: p in e'.pcbs && p in e.mem.tables ==> e'.pcbs[p] == TableOf(e.mem, p)
    ensures Exchanging(e')
  {
    hide Inv, Sendable, Ready, TableOf, Exits, Answered, TableReply, AllTables;
    TablesOf(e.mem);
  }

  lemma TakeAllIs(e: EState)
    requires Exchanging(e) && EEnabled(e, TakeAll)
    ensures TablesOk(e.mem)
    ensures var e' := ENext(e, TakeAll);
      && e' == e.(replies := e.replies[1..], pcbs := e'.pcbs, sched := SAgain(e.sched.op, e.sched.compactions + 1))
      && e'.pcbs.Keys == e.pcbs.Keys && forall p :: p in e'.pcbs && p in e.mem.tables ==> e'.pcbs[p] == TableOf(e.mem, p)
  {
    hide TableOf, TakeBroadcast, Broadcast, EncBroadcast, Lists, Exchanging, Sendable, Inv, TablesOk, EEnabled, Tables;
    var order := BroadcastAtHead(e);
    TablesOf(e.mem);
    BroadcastInstallsTables(e.mem, e.pcbs, e.listed, order);
    assert ENext(e, TakeAll) == AfterTakeAll(e);
  }

  /** What the scheduler takes is the broadcast, and it lists the processes of the kernel's list. */
  lemma BroadcastAtHead(e: EState) returns (order: seq<Pid>)
    requires Exchanging(e) && EEnabled(e, TakeAll)
    ensures Inv(e.mem) && Sendable(e.mem) && e.sched.SWaits? && e.replies != []
    ensures e.mem.tables.Keys == e.listed == e.pcbs.Keys
    ensures Lists(order, e.mem.tables.Keys) && e.replies[0] == AllTables(e.mem, order)
  {
    hide Channel, Synced, Ready, TableOf, AllTables, Sendable, Lists, Inv;
    order :| Lists(order, e.mem.tables.Keys) && e.replies[0] == AllTables(e.mem, order);
    hide RightReply;
    assert InSeq(Exits(e.requests)) == {};
  }

  // ----- memory serves -----

  lemma OthersAfter(m: Mem, op: Op, keys: set<Pid>)
    requires Inv(m) && Enabled(m, op) && !op.OpCompact? && keys <= m.tables.Keys
    requires op.OpNew? || op.OpWrite? || op.pid !in keys
    ensures Inv(Apply(m, op)) && TablesOk(m) && TablesOk(Apply(m, op))
    ensures forall q :: q in keys ==> q in Apply(m, op).tables && TableOf(Apply(m, op), q) == TableOf(m, q)
  {
    hide TableOf, Inv, TablesOk, Apply, Enabled;
    ApplyKeepsInv(m, op);
    TablesOf(m);
    TablesOf(Apply(m, op));
    forall q | q in keys ensures q in Apply(m, op).tables && TableOf(Apply(m, op), q) == TableOf(m, q) {
      OthersUntouched(m, op, q);
    }
  }

  lemma SameReply(m: Mem, m': Mem, q: Pid, flag: int)
    requires Inv(m) && Sendable(m) && Inv(m') && Sendable(m') && IsInt(flag)
    requires TablesOk(m) && TablesOk(m') && q in m.tables && q in m'.tables && TableOf(m', q) == TableOf(m, q)
    ensures TableReply(m', q, flag) == TableReply(m, q, flag)
  {
    hide Inv, TablesOk, Sendable, TableOf;
    TableIsSendable(m, q);
    TableIsSendable(m', q);
  }

  lemma HeadOf(rs: seq<Op>)
    requires rs != []
    ensures Answered(rs) == if rs[0].OpExit? then Answered(rs[1..]) else [rs[0]] + Answered(rs[1..])
    ensures Exits(rs) == if rs[0].OpExit? then [rs[0].pid] + Exits(rs[1..]) else Exits(rs[1..])
  {
    assert [] + Answered(rs[1..]) == Answered(rs[1..]) && [] + Exits(rs[1..]) == Exits(rs[1..]);
  }

  /** What serving does to the line and to the invariant of memory. */
  lemma ServeMemory(e: EState, e': EState, op: Op)
    requires MemoryFine(e) && e.requests != [] && op == e.requests[0]
    requires Enabled(e.mem, op) && e'.mem == Apply(e.mem, op) && e'.requests == e.requests[1..]
    ensures MemoryFine(e') && Servable(e.mem, op) && e'.mem.tables.Keys == KeysAfter(e.mem, op)
  {
    hide Inv, Sendable, Apply, Enabled;
    ServingKeeps(e.mem, op);
  }

  lemma TailOf(p: Pid, s: seq<Pid>)
    requires NoTwice([p] + s)
    ensures NoTwice(s) && p !in s && InSeq([p] + s) == InSeq(s) + {p}
  {
    var t := [p] + s;
    assert forall i :: 0 <= i < |s| ==> t[i + 1] == s[i];
    forall i | 0 <= i < |s| ensures s[i] != p { assert t[0] != t[i + 1]; }
    forall i, j | 0 <= i < j < |s| ensures s[i] != s[j] { assert t[i + 1] != t[j + 1]; }
    assert forall x :: x in t <==> x == p || x in s;
  }

  lemma ServeExitKeys(e: EState, e': EState, p: Pid)
    requires Keys(e) && e.requests != [] && e.requests[0] == OpExit(p)
    requires e'.requests == e.requests[1..] && e'.mem.tables.Keys == e.mem.tables.Keys - {p}
    requires e'.pcbs == e.pcbs && e'.replies == e.replies && e'.admitter == e.admitter
    ensures Keys(e') && p !in e.pcbs && p !in Arriving(e)
  {
    HeadOf(e.requests);
    hide Exits, NoTwice;
    TailOf(p, Exits(e'.requests));
    assert p in InSeq(Exits(e.requests));
  }

  lemma ServeExitReply(e: EState, e': EState, p: Pid)
    requires Exchanging(e) && e.requests != [] && e.requests[0] == OpExit(p) && Enabled(e.mem, OpExit(p))
    requires e' == e.(mem := Apply(e.mem, OpExit(p)), requests := e.requests[1..])
    requires p !in e.pcbs && p !in Arriving(e) && Inv(e'.mem) && Sendable(e'.mem)
    ensures RightReply(e')
  {
    hide Inv, Sendable, Ready, TableOf, Exits, Answered, Apply, Enabled, TableReply, AllTables, TablesOk;
    OthersAfter(e.mem, OpExit(p), e.pcbs.Keys + Arriving(e));
    if e.replies != [] {
      if e.admitter.ASent? { SameReply(e.mem, e'.mem, e.admitter.pid, 0); }
      if e.sched.SSent? { SameReply(e.mem, e'.mem, e.sched.op.pid, e.answer); }
    }
  }

  lemma ServeExitKeeps(e: EState, e': EState, p: Pid)
    requires Exchanging(e) && e.requests != [] && e.requests[0] == OpExit(p) && Enabled(e.mem, OpExit(p))
    requires e' == e.(mem := Apply(e.mem, OpExit(p)), requests := e.requests[1..])
    ensures Exchanging(e')
  {
    hide Inv, Sendable, Ready, TableOf, Exits, Answered, Apply, Enabled, RightReply, TablesOk;
    ServeMemory(e, e', OpExit(p));
    ServeExitKeys(e, e', p);
    HeadOf(e.requests);
    OthersAfter(e.mem, OpExit(p), e.pcbs.Keys);
    FineOf(e');
    hide MemoryFine, Keys;
    ServeExitReply(e, e', p);
    assert Still(e');
  }

  lemma FineOf(e: EState)
    ensures MemoryFine(e) ==> Inv(e.mem) && Sendable(e.mem) && Ready(e.mem, e.requests)
  {
  }

  lemma ServeNewKeeps(e: EState, e': EState, q: Pid)
    requires Exchanging(e) && e.requests != [] && e.requests[0] == OpNew(q) && Enabled(e.mem, OpNew(q))
    requires Inv(e'.mem) && Sendable(e'.mem) && q in e'.mem.tables
    requires e' == e.(mem := Apply(e.mem, OpNew(q)), requests := e.requests[1..],
                      replies := e.replies + [TableReply(e'.mem, q, 0)])
    ensures Exchanging(e')
  {
    hide Inv, Sendable, Ready, TableOf, Exits, Answered, Apply, Enabled, TableReply, AllTables, TablesOk;
    ServeMemory(e, e', OpNew(q));
    HeadOf(e.requests);
    assert e.admitter == ASent(q) && e.replies == [];
    OthersAfter(e.mem, OpNew(q), e.pcbs.Keys);
    hide MemoryFine;
  }

  lemma ServeOpKeeps(e: EState, e': EState, op: Op)
    requires Exchanging(e) && e.requests != [] && e.requests[0] == op && (op.OpCreate? || op.OpDelete?) && Enabled(e.mem, op)
    requires Inv(e'.mem) && Sendable(e'.mem) && op.pid in e'.mem.tables && IsInt(e'.answer)
    requires e' == e.(mem := Apply(e.mem, op), requests := e.requests[1..],
                      replies := e.replies + [TableReply(e'.mem, op.pid, e'.answer)], answer := e'.answer)
    ensures Exchanging(e') && e.sched.SSent? && e.sched.op == op
  {
    hide Inv, Sendable, Ready, TableOf, Exits, Answered, Apply, Enabled, TableReply, AllTables, TablesOk;
    ServeMemory(e, e', op);
    HeadOf(e.requests);
    assert e.sched.SSent? && e.sched.op == op && e.replies == [];
    OthersAfter(e.mem, op, e.pcbs.Keys - {op.pid});
    hide MemoryFine;
  }

  lemma LastAnswered(rs: seq<Op>, a: Op)
    requires |rs| > 1 && !rs[0].OpExit? && !rs[|rs| - 1].OpExit?
    ensures Answered(rs) != [a]
  {
    var n := |rs| - 1;
    AnsweredThen(rs[..n], rs[n]);
    assert rs[..n] + [rs[n]] == rs;
    HeadOf(rs[..n]);
  }

  lemma ServeCompactKeeps(e: EState, e': EState, order: seq<Pid>)
    requires Exchanging(e) && e.requests != [] && e.requests[0] == OpCompact && Enabled(e.mem, OpCompact)
    requires Inv(e'.mem) && Sendable(e'.mem) && Lists(order, e'.mem.tables.Keys)
    requires e' == e.(mem := Apply(e.mem, OpCompact), requests := e.requests[1..], replies := e.replies + [AllTables(e'.mem, order)])
    ensures Exchanging(e') && e.sched.SWaits?
  {
    hide Inv, Sendable, Ready, TableOf, Exits, Answered, Apply, Enabled, TableReply, AllTables, TablesOk, Lists;
    ServeMemory(e, e', OpCompact);
    HeadOf(e.requests);
    assert e.sched.SWaits? && e.replies == [];
    if |e.requests| > 1 { LastAnswered(e.requests, OpCompact); }
    assert e'.requests == [];
    hide MemoryFine;
    TablesOf(e'.mem);
  }

  lemma NoWrites(e: EState)
    requires Exchanging(e) && e.requests != []
    ensures !e.requests[0].OpWrite?
  {
    HeadOf(e.requests);
  }

  lemma ServeIs(e: EState, order: seq<Pid>)
    requires EEnabled(e, Serve(order))
    ensures e.requests != [] && Inv(e.mem) && Sendable(e.mem) && Servable(e.mem, e.requests[0])
    ensures var e', op := ENext(e, Serve(order)), e.requests[0];
      e'.mem == Apply(e.mem, op) && Inv(e'.mem) && Sendable(e'.mem)
    ensures var e', op := ENext(e, Serve(order)), e.requests[0]; op.OpNew? ==>
      && op.pid in e'.mem.tables
      && e' == e.(mem := e'.mem, requests := e.requests[1..], replies := e.replies + [TableReply(e'.mem, op.pid, 0)])
    ensures var e', op := ENext(e, Serve(order)), e.requests[0]; op.OpCreate? || op.OpDelete? ==>
      && op.pid in e'.mem.tables && e'.answer == Answer(e.mem, op)
      && e' == e.(mem := e'.mem, requests := e.requests[1..],
                  replies := e.replies + [TableReply(e'.mem, op.pid, e'.answer)], answer := e'.answer)
    ensures var e', op := ENext(e, Serve(order)), e.requests[0]; op.OpExit? ==>
      e' == e.(mem := e'.mem, requests := e.requests[1..])
    ensures var e', op := ENext(e, Serve(order)), e.requests[0]; op.OpCompact? ==>
      && Lists(order, e'.mem.tables.Keys)
      && e' == e.(mem := e'.mem, requests := e.requests[1..], replies := e.replies + [AllTables(e'.mem, order)])
  {
    ServingKeeps(e.mem, e.requests[0]);
    assert e.replies + [] == e.replies;
    hide Inv, Sendable, Apply, Enabled, TableReply, AllTables, Lists;
  }

  lemma ServeKeeps(e: EState, order: seq<Pid>)
    requires Exchanging(e) && EEnabled(e, Serve(order))
    ensures Exchanging(ENext(e, Serve(order)))
  {
    hide Exchanging, Inv, Sendable, Lists;
    var e', op := ENext(e, Serve(order)), e.requests[0];
    hide Apply, Enabled, Ready, TableReply, AllTables, ENext, EEnabled;
    ServeIs(e, order);
    NoWrites(e);
    match op
    case OpNew(q) => ServeNewKeeps(e, e', q);
    case OpCreate(_, _, _, _, _) => ServeOpKeeps(e, e', op);
    case OpDelete(_, _) => ServeOpKeeps(e, e', op);
    case OpExit(p) => ServeExitKeeps(e, e', p);
    case OpCompact => ServeCompactKeeps(e, e', order);
    case OpWrite(_, _) =>
  }
}
