/** The exchanges between kernel and memory, step by step. Two kernel threads and the exit thread send over
    one connection, memory serves what it gets in order, and whoever reads first takes the oldest reply. */
module Exchange {
  import opened Sums
  import opened Holes
  import opened Memory
  import opened Compaction
  import opened MemoryRuns
  import opened Mmu
  import opened Wire
  import opened TableSync

  /** `gestionadorReady`: waiting for a first table, or about to put the PCB on the global list. */
  datatype Admitter = AIdle | ASent(pid: Pid) | AGot(pid: Pid)

  /** The scheduler inside `create_segment` or `delete_segment`, and how often that call has compacted. */
  datatype Sched =
    | SIdle
    | SSent(op: Op, compactions: nat)  // waits for a table reply
    | SFull(op: Op, compactions: nat)  // was answered 1
    | SWaits(op: Op, compactions: nat) // waits for the compaction broadcast
    | SAgain(op: Op, compactions: nat) // about to send the request again

  datatype EState = EState(
    mem: Mem,
    requests: seq<Op>,          // sent to memory, oldest first
    replies: seq<seq<Byte>>,    // sent by memory, oldest first
    pcbs: Tablas,
    listed: set<Pid>,           // global_PCB_list
    admitter: Admitter, sched: Sched,
    leaver: Option<Pid>,        // off the list, its EXIT not yet sent
    answer: int,                // memory's last answer to the scheduler
    misread: bool,              // the scheduler went by another flag
    failed: bool)               // a message too short, or a PCB that is not listed

  datatype EStep =
    | SendNew(pid: Pid) | TakeNew | Enlist
    | SendOp(op: Op) | TakeOp | SendCompact | TakeAll | Again(r: Segmento)
    | Delist(pid: Pid) | SendExit
    | Serve(order: seq<Pid>)    // the listing of the dictionary is memory's choice

  // ----- what can be served -----

  /** Memory can serve the request, and its tables then fit the wire. */
  ghost predicate Servable(m: Mem, op: Op) {
    Enabled(m, op) && (op.OpNew? || op.OpCreate? ==> Sendable(Apply(m, op))) && (op.OpDelete? ==> op.pid in m.tables)
  }

  /** Every request in line can be served when its turn comes. */
  ghost predicate Ready(m: Mem, rs: seq<Op>)
    decreases |rs|
  {
    rs == [] || (Servable(m, rs[0]) && Ready(Apply(m, rs[0]), rs[1..]))
  }

  ghost function Served(m: Mem, rs: seq<Op>): Mem
    requires Ready(m, rs)
    decreases |rs|
  {
    if rs == [] then m else Served(Apply(m, rs[0]), rs[1..])
  }

  lemma {:induction false} ReadyThen(m: Mem, rs: seq<Op>, op: Op)
    requires Ready(m, rs) && Servable(Served(m, rs), op)
    ensures Ready(m, rs + [op])
    decreases |rs|
  {
    if rs == [] {
      assert [op][1..] == [];
      assert rs + [op] == [op];
      assert Ready(Apply(m, op), []);
    } else {
      ReadyThen(Apply(m, rs[0]), rs[1..], op);
      assert (rs + [op])[1..] == rs[1..] + [op];
    }
  }

  // ----- requests that shrink the tables keep them sendable -----

  lemma OneOf<T>(s: set<T>) returns (x: T)
    requires s != {}
    ensures x in s
  {
    x :| x in s;
  }

  lemma {:induction false} ListOf(s: set<Pid>) returns (l: seq<Pid>)
    ensures Lists(l, s)
    decreases |s|
  {
    if s == {} {
      l := [];
    } else {
      var x := OneOf(s);
      var rest := ListOf(s - {x});
      l := rest + [x];
      assert forall y :: y in s ==> y == x || y in s - {x};
    }
  }

  lemma {:induction false} BytesGrow(t: map<Pid, seq<Segmento>>, t': map<Pid, seq<Segmento>>, order: seq<Pid>, more: seq<Pid>)
    requires forall i :: 0 <= i < |order| ==> order[i] in t' && order[i] in t && |t'[order[i]]| <= |t[order[i]]|
    requires forall i :: 0 <= i < |more| ==> more[i] in t
    ensures BroadcastBytes(t', order) <= BroadcastBytes(t, order + more)
    decreases |order| + |more|
  {
    if more != [] {
      var n := |more| - 1;
      BytesGrow(t, t', order, more[..n]);
      assert (order + more)[..|order + more| - 1] == order + more[..n];
    } else {
      assert order + more == order;
      if order != [] { BytesGrow(t, t', order[..|order| - 1], []); assert order[..|order| - 1] + [] == order[..|order| - 1]; }
    }
  }

  lemma SmallerIsSendable(m: Mem, m': Mem)
    requires Sendable(m) && m'.total == m.total && m'.tables.Keys <= m.tables.Keys
    requires forall p :: p in m'.tables ==> |m'.tables[p]| <= |m.tables[p]|
    requires forall r :: r in m'.segs ==> IsInt(m'.segs[r].id)
    ensures Sendable(m')
  {
    forall order | Lists(order, m'.tables.Keys) ensures BroadcastBytes(m'.tables, order) <= MAX_INT {
      var more := ListOf(m.tables.Keys - m'.tables.Keys);
      assert Lists(order + more, m.tables.Keys) by {
        assert forall i :: |order| <= i < |order + more| ==> (order + more)[i] == more[i - |order|];
      }
      BytesGrow(m.tables, m'.tables, order, more);
    }
  }

  lemma ServingKeeps(m: Mem, op: Op)
    requires Inv(m) && Sendable(m) && Servable(m, op)
    ensures Inv(Apply(m, op)) && Sendable(Apply(m, op)) && Apply(m, op).tables.Keys == KeysAfter(m, op)
  {
    ApplyKeepsInv(m, op);
    KeysAfterApply(m, op);
    assert forall p :: p in m.tables ==> |m.tables[p]| > 0;
    hide Partition, TablesOk, Sendable, Alojar, Place;
    IdsOf(m);
    match op
    case OpNew(_) =>
    case OpCreate(_, _, _, _, _) =>
    case OpDelete(pid, id) => SmallerIsSendable(m, Apply(m, op));
    case OpExit(pid) =>
      ExitReleases(m, pid);
      FreeAllRemoves(m.(tables := m.tables - {pid}), m.tables[pid][1..]);
      hide Exit, FreeAll;
      SmallerIsSendable(m, Exit(m, pid));
    case OpCompact =>
      CompactKeeps(m);
      SmallerIsSendable(m, Compact(m));
    case OpWrite(_, _) => SmallerIsSendable(m, Apply(m, op));
  }

  lemma IdsOf(m: Mem)
    requires Sendable(m)
    ensures forall r :: r in m.segs ==> IsInt(m.segs[r].id)
  {
  }

  // ----- steps -----

  ghost function TableReply(m: Mem, pid: Pid, flag: int): seq<Byte>
    requires Inv(m) && Sendable(m) && pid in m.tables && IsInt(flag)
  {
    TableIsSendable(m, pid);
    Reply(TableOf(m, pid), flag)
  }

  ghost function AllTables(m: Mem, order: seq<Pid>): seq<Byte>
    requires Inv(m) && Sendable(m) && Lists(order, m.tables.Keys)
  {
    BroadcastFits(m, order);
    Broadcast(Tables(m, order))
  }

  /** The flag that goes with the table. */
  function Answer(m: Mem, op: Op): (flag: int)
    ensures IsInt(flag)
  {
    if op.OpCreate? && op.pid in m.tables then Create(op.policy, m, op.pid, op.id, op.size, op.r).1 else 0
  }

  /** What memory sends back, `m'` being its state once it has served the request. */
  ghost function Messages(m: Mem, m': Mem, op: Op, order: seq<Pid>): (l: seq<seq<Byte>>)
    requires Inv(m') && Sendable(m') && (op.OpNew? || op.OpCreate? || op.OpDelete? ==> op.pid in m'.tables)
    requires op.OpCompact? ==> Lists(order, m'.tables.Keys)
  {
    match op
    case OpNew(pid) => [TableReply(m', pid, 0)]
    case OpCreate(_, pid, _, _, _) => [TableReply(m', pid, Answer(m, op))]
    case OpDelete(pid, _) => [TableReply(m', pid, 0)]
    case OpCompact => [AllTables(m', order)]
    case _ => []
  }

  function Hand(s: Sched): Option<Pid> {
    if s.SIdle? || !(s.op.OpCreate? || s.op.OpDelete?) then None else Some(s.op.pid)
  }

  ghost predicate CanSend(e: EState, op: Op) { Ready(e.mem, e.requests) && Servable(Served(e.mem, e.requests), op) }

  ghost predicate EEnabled(e: EState, s: EStep) {
    !e.failed &&
    match s
    case SendNew(pid) => e.admitter.AIdle? && pid !in e.pcbs && pid !in e.mem.tables && CanSend(e, OpNew(pid))
    case TakeNew => e.admitter.ASent? && e.replies != []
    case Enlist => e.admitter.AGot?
    case SendOp(op) => e.sched.SIdle? && (op.OpCreate? || op.OpDelete?) && op.pid in e.listed && CanSend(e, op)
    case TakeOp => e.sched.SSent? && (e.sched.op.OpCreate? || e.sched.op.OpDelete?) && e.replies != []
    case SendCompact => e.sched.SFull?
    case TakeAll => e.sched.SWaits? && e.replies != []
    case Again(r) => e.sched.SAgain? && e.sched.op.OpCreate? && CanSend(e, e.sched.op.(r := r))
    case Delist(pid) => e.leaver.None? && pid in e.listed && Hand(e.sched) != Some(pid)
    case SendExit => e.leaver.Some?
    case Serve(order) =>
      && e.requests != [] && Inv(e.mem) && Sendable(e.mem) && Servable(e.mem, e.requests[0])
      && (e.requests[0].OpCompact? ==> Lists(order, e.mem.tables.Keys))
  }

  ghost function AfterServe(e: EState, order: seq<Pid>): EState
    requires EEnabled(e, Serve(order))
  {
    var op, m' := e.requests[0], Apply(e.mem, e.requests[0]);
    ServingKeeps(e.mem, op);
    e.(mem := m', requests := e.requests[1..], replies := e.replies + Messages(e.mem, m', op, order),
       answer := if op.OpCreate? || op.OpDelete? then Answer(e.mem, op) else e.answer)
  }

  function AfterTakeNew(e: EState): EState
    requires e.admitter.ASent? && e.replies != []
  {
    var e1 := e.(replies := e.replies[1..]);
    match TakeReply(e.pcbs, e.admitter.pid, e.replies[0])
    case None => e1.(failed := true)
    case Some(t) => e1.(pcbs := t.0, admitter := AGot(e.admitter.pid))
  }

  function AfterTakeOp(e: EState): EState
    requires e.sched.SSent? && (e.sched.op.OpCreate? || e.sched.op.OpDelete?) && e.replies != []
  {
    var op, e1 := e.sched.op, e.(replies := e.replies[1..]);
    match TakeReply(e.pcbs, op.pid, e.replies[0])
    case None => e1.(failed := true)
    case Some(t) =>
      e1.(pcbs := t.0, misread := e.misread || (op.OpCreate? && t.1 != e.answer),
          sched := if op.OpCreate? && t.1 == 1 then SFull(op, e.sched.compactions) else SIdle)
  }

  function AfterTakeAll(e: EState): EState
    requires e.sched.SWaits? && e.replies != []
  {
    var e1 := e.(replies := e.replies[1..]);
    match TakeBroadcast(e.pcbs, e.listed, e.replies[0])
    case None => e1.(failed := true)
    case Some(pcbs) => e1.(pcbs := pcbs, sched := SAgain(e.sched.op, e.sched.compactions + 1))
  }

  ghost function ENext(e: EState, s: EStep): EState
    requires EEnabled(e, s)
  {
    match s
    case SendNew(pid) => e.(requests := e.requests + [OpNew(pid)], admitter := ASent(pid))
    case TakeNew => AfterTakeNew(e)
    case Enlist => e.(listed := e.listed + {e.admitter.pid}, admitter := AIdle)
    case SendOp(op) => e.(requests := e.requests + [op], sched := SSent(op, 0))
    case TakeOp => AfterTakeOp(e)
    case SendCompact => e.(requests := e.requests + [OpCompact], sched := SWaits(e.sched.op, e.sched.compactions))
    case TakeAll => AfterTakeAll(e)
    case Again(r) =>
      var op := e.sched.op.(r := r);
      e.(requests := e.requests + [op], sched := SSent(op, e.sched.compactions))
    case Delist(pid) => e.(listed := e.listed - {pid}, leaver := Some(pid))
    case SendExit => e.(requests := e.requests + [OpExit(e.leaver.value)], pcbs := e.pcbs - {e.leaver.value}, leaver := None)
    case Serve(order) => AfterServe(e, order)
  }

  /** Start-up: nothing sent, no process. */
  function EBoot(total: int, size0: int, seg0: Segmento): EState
    requires 0 < size0 <= total
  {
    EState(Start(total, size0, seg0), [], [], map[], {}, AIdle, SIdle, None, 0, false, false)
  }

  ghost predicate ERun(e: EState, ss: seq<EStep>)
    decreases |ss|
  {
    ss == [] || (EEnabled(e, ss[0]) && ERun(ENext(e, ss[0]), ss[1..]))
  }

  ghost function EFinal(e: EState, ss: seq<EStep>): EState
    requires ERun(e, ss)
    decreases |ss|
  {
    if ss == [] then e else EFinal(ENext(e, ss[0]), ss[1..])
  }
}
