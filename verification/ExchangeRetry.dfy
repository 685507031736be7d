/** `create_segment` in the kernel, through answer 1, compaction and the second request, in runs whose
    exchanges do not overlap; and what every such run keeps. */
module ExchangeRetry {
  import opened Sums
  import opened Holes
  import opened Memory
  import opened Compaction
  import opened MemoryRuns
  import opened Mmu
  import opened Wire
  import opened TableSync
  import opened Exchange
  import opened ExchangeRuns

  // ----- a hole that fits stays -----

  ghost predicate Roomy(h: seq<Hueco>, size: int) { exists i :: 0 <= i < |h| && h[i].size >= size }

  /** When bytes only become free, each hole stays inside one hole. */
  lemma HoleInHole(h: seq<Hueco>, h': seq<Hueco>, i: nat)
    requires i < |h| && h[i].size > 0 && Canonical(h') && forall b :: Free(h, b) ==> Free(h', b)
    ensures exists j :: 0 <= j < |h'| && h'[j].size >= h[i].size
  {
    var x := h[i];
    assert x.Has(x.pos) && Free(h, x.pos);
    var j :| 0 <= j < |h'| && h'[j].Has(x.pos);
    var e := h'[j].pos + h'[j].size;
    EdgesAreTaken(h', j);
    assert x.Has(e) ==> Free(h, e);
  }

  lemma UsedShrinks(m: Mem, m': Mem, b: int)
    requires forall r :: r in m'.segs ==> r in m.segs && m'.segs[r] == m.segs[r]
    ensures Used(m'.segs, b) ==> Used(m.segs, b)
  {
    if Used(m'.segs, b) {
      var r: Segmento :| r in m'.segs && m'.segs[r].Has(b);
      assert m.segs[r].Has(b);
    }
  }

  lemma RoomStays(m: Mem, op: Op, size: int)
    requires Inv(m) && Enabled(m, op) && !IsCreate(op) && Roomy(m.holes, size)
    ensures Roomy(Apply(m, op).holes, size)
  {
    ApplyKeepsInv(m, op);
    KeysAfterApply(m, op);
    var i :| 0 <= i < |m.holes| && m.holes[i].size >= size;
    match op
    case OpNew(_) =>
    case OpWrite(_, _) =>
    case OpCompact => CompactRoom(m, size, i);
    case OpDelete(pid, id) => FreedRoom(m, Delete(m, pid, id), i);
    case OpExit(pid) =>
      ExitReleases(m, pid);
      FreeAllRemoves(m.(tables := m.tables - {pid}), m.tables[pid][1..]);
      FreedRoom(m, Exit(m, pid), i);
  }

  lemma FreedRoom(m: Mem, m': Mem, i: nat)
    requires Partition(m) && Partition(m') && m'.total == m.total && i < |m.holes|
    requires forall r :: r in m'.segs ==> r in m.segs && m'.segs[r] == m.segs[r]
    ensures Roomy(m'.holes, m.holes[i].size)
  {
    forall b | Free(m.holes, b) ensures Free(m'.holes, b) { UsedShrinks(m, m', b); }
    HoleInHole(m.holes, m'.holes, i);
  }

  lemma CompactRoom(m: Mem, size: int, i: nat)
    requires Inv(m) && i < |m.holes| && m.holes[i].size >= size
    ensures Roomy(Compact(m).holes, size)
  {
    HoleWithinTotal(m.holes, i);
    hide Compact, Partition;
    CompactLeavesOneHole(m);
    assert Compact(m).holes[0].size >= size;
  }

  lemma TotalMakesRoom(m: Mem, size: int)
    requires Inv(m) && |m.holes| > 0 && Total(m.holes) >= size
    ensures Roomy(Compact(m).holes, size)
  {
    hide Compact, Partition, TablesOk;
    assert Partition(m) by { TablesOf(m); }
    CompactLeavesOneHole(m);
    assert Compact(m).holes[0].size >= size;
  }

  // ----- the call of create_segment -----

  /** How far the call has come: compaction is asked for once, with enough bytes free in all; it leaves
      room for the segment, which is there when the request is served again. */
  ghost predicate Call(e: EState) {
    match e.sched
    case SIdle => true
    case SSent(op, c) =>
      if !op.OpCreate? then c == 0
      else if c == 0 then e.replies != [] && e.answer == 1 ==> op.size > 0 && Total(e.mem.holes) >= op.size
      else c == 1 && op.size > 0 && (if e.replies == [] then Roomy(e.mem.holes, op.size) else e.answer == 0)
    case SFull(op, c) => c == 0 && op.OpCreate? && op.size > 0 && Total(e.mem.holes) >= op.size
    case SWaits(op, c) =>
      && c == 0 && op.OpCreate? && op.size > 0
      && (if e.replies == [] then Total(e.mem.holes) >= op.size else Roomy(e.mem.holes, op.size))
    case SAgain(op, c) => c == 1 && op.OpCreate? && op.size > 0 && Roomy(e.mem.holes, op.size)
  }

  /** Whose request is served. */
  lemma ServeWho(e: EState)
    requires Exchanging(e) && e.requests != []
    ensures var op := e.requests[0];
      && !op.OpWrite?
      && (op.OpCreate? || op.OpDelete? ==> e.sched.SSent? && e.sched.op == op && e.replies == [])
      && (op.OpCompact? ==> e.sched.SWaits? && e.replies == [])
      && (op.OpNew? ==> !SchedWaits(e) && e.replies == [])
    ensures !e.sched.SIdle? ==> e.sched.op.OpCreate? || e.sched.op.OpDelete?
  {
    hide MemoryFine, Keys, Synced, Still, RightReply, Answered, Exits;
    HeadOf(e.requests);
    assert !e.requests[0].OpExit? ==> Awaited(e) == [e.requests[0]] + Answered(e.requests[1..]);
    assert !e.requests[0].OpExit? ==> Awaited(e)[0] == e.requests[0];
  }

  /** Memory's own steps keep what the call relies on. */
  lemma ServeKeepsCall(e: EState, order: seq<Pid>)
    requires Exchanging(e) && Call(e) && EEnabled(e, Serve(order))
    ensures Call(ENext(e, Serve(order)))
  {
    hide Exchanging, Inv, Sendable, Apply, Enabled, ENext, EEnabled, Call, Roomy, Answer, TableReply, AllTables, Lists;
    ServeIs(e, order);
    var e', op := ENext(e, Serve(order)), e.requests[0];
    ServeWho(e);
    if op.OpCreate? {
      CreateCall(e, e', op);
    } else if op.OpDelete? {
      DeleteCall(e, e');
    } else if op.OpCompact? {
      CompactCall(e, e');
    } else {
      OtherCall(e, e', op);
    }
  }

  lemma CreateCall(e: EState, e': EState, op: Op)
    requires Call(e) && e.sched.SSent? && e.sched.op == op && op.OpCreate? && e.replies == [] && Inv(e.mem) && Enabled(e.mem, op)
    requires e'.sched == e.sched && e'.mem == Apply(e.mem, op) && e'.answer == Answer(e.mem, op) && e'.replies != []
    ensures Call(e')
  {
    hide Inv, Apply, Enabled, Roomy, Answer;
    CreateAnswers(e, op);
  }

  lemma DeleteCall(e: EState, e': EState)
    requires Call(e) && e.sched.SSent? && e.sched.op.OpDelete? && e'.sched == e.sched
    ensures Call(e')
  {
  }

  lemma CompactCall(e: EState, e': EState)
    requires Call(e) && e.sched.SWaits? && e.replies == [] && Inv(e.mem) && Enabled(e.mem, OpCompact)
    requires e'.sched == e.sched && e'.mem == Apply(e.mem, OpCompact) && e'.replies != []
    ensures Call(e')
  {
    hide Inv, Apply, Enabled, Roomy;
    CompactAnswers(e);
  }

  /** An EXIT or another process's first table. */
  lemma OtherCall(e: EState, e': EState, op: Op)
    requires Call(e) && Inv(e.mem) && Enabled(e.mem, op) && !IsCreate(op)
    requires !e.sched.SIdle? ==> e.sched.op.OpCreate? || e.sched.op.OpDelete?
    requires e'.sched == e.sched && e'.mem == Apply(e.mem, op) && e'.answer == e.answer && !op.OpDelete? && !op.OpCompact?
    requires e'.replies == e.replies || (e.replies == [] && op.OpNew?)
    requires e'.replies == e.replies || !SchedWaits(e)
    ensures Call(e')
  {
    hide Inv, Apply, Enabled, Roomy;
    if !e.sched.SIdle? && e.sched.op.OpCreate? {
      if Roomy(e.mem.holes, e.sched.op.size) { RoomStays(e.mem, op, e.sched.op.size); }
      StepKeepsTotal(e.mem, op);
    }
  }

  lemma CreateAnswers(e: EState, op: Op)
    requires Inv(e.mem) && op.OpCreate? && Enabled(e.mem, op)
    ensures op.size > 0 && (Roomy(e.mem.holes, op.size) ==> Answer(e.mem, op) == 0)
    ensures Answer(e.mem, op) == 1 ==> Total(Apply(e.mem, op).holes) >= op.size
    ensures Answer(e.mem, op) == -1 <==> Total(e.mem.holes) < op.size
    ensures Answer(e.mem, op) == 0 || Answer(e.mem, op) == 1 || Answer(e.mem, op) == -1
  {
    AnswerMeaning(op.policy, e.mem, op.pid, op.id, op.size, op.r);
    hide Inv, Place;
  }

  lemma CompactAnswers(e: EState)
    requires Inv(e.mem) && Enabled(e.mem, OpCompact)
    ensures forall size :: Total(e.mem.holes) >= size ==> Roomy(Apply(e.mem, OpCompact).holes, size)
  {
    forall size | Total(e.mem.holes) >= size ensures Roomy(Apply(e.mem, OpCompact).holes, size) {
      TotalMakesRoom(e.mem, size);
    }
  }

  // ----- compaction can be served when it is asked for -----

  lemma {:induction false} TotalServed(m: Mem, rs: seq<Op>)
    requires Inv(m) && Sendable(m) && Ready(m, rs) && forall i :: 0 <= i < |rs| ==> !IsCreate(rs[i])
    ensures Inv(Served(m, rs)) && Total(Served(m, rs).holes) >= Total(m.holes)
    decreases |rs|
  {
    hide Inv, Sendable, Enabled, Apply;
    if rs != [] {
      assert !IsCreate(rs[0]);
      ServingKeeps(m, rs[0]);
      StepKeepsTotal(m, rs[0]);
      TotalServed(Apply(m, rs[0]), rs[1..]);
    }
  }

  lemma {:induction false} OnlyAnswered(rs: seq<Op>, i: nat)
    requires i < |rs| && !rs[i].OpExit?
    ensures rs[i] in Answered(rs)
  {
    HeadOf(rs);
    if i > 0 { OnlyAnswered(rs[1..], i - 1); }
  }

  lemma NoCreates(e: EState)
    requires Exchanging(e) && e.sched.SFull?
    ensures forall i :: 0 <= i < |e.requests| ==> !IsCreate(e.requests[i])
  {
    hide MemoryFine, Keys, Global, Synced, Still, RightReply, Answered;
    forall i | 0 <= i < |e.requests| ensures !IsCreate(e.requests[i]) {
      if !e.requests[i].OpExit? { OnlyAnswered(e.requests, i); }
    }
  }

  lemma CompactIsServable(e: EState)
    requires Exchanging(e) && Call(e) && e.sched.SFull?
    ensures CanSend(e, OpCompact)
  {
    hide Inv, Sendable, Ready, Served, Channel, Keys, Global, Synced, Still, RightReply;
    NoCreates(e);
    TotalServed(e.mem, e.requests);
    HasHoles(Served(e.mem, e.requests).holes);
    assert Servable(Served(e.mem, e.requests), OpCompact);
  }

  lemma HasHoles(h: seq<Hueco>)
    ensures Total(h) > 0 ==> |h| > 0
  {
  }

  // ----- every guarded step -----

  ghost predicate RunInv(e: EState) { EInv(e) && Call(e) }

  /** Where a send leaves the call. */
  lemma SendsKeepCall(e: EState, s: EStep)
    requires RunInv(e) && EEnabled(e, s) && Guard(e, s) && !(s.TakeNew? || s.TakeOp? || s.TakeAll? || s.Serve?)
    ensures Call(ENext(e, s)) && Clean(ENext(e, s))
  {
    hide MemoryFine, Keys, Global, Synced, Still, RightReply, Answered, Roomy, CanSend;
  }

  lemma StepKeepsRunInv(e: EState, s: EStep)
    requires RunInv(e) && EEnabled(e, s) && Guard(e, s)
    ensures RunInv(ENext(e, s))
  {
    match s
    case TakeNew => TakeNewStep(e);
    case TakeOp => TakeOpStep(e);
    case TakeAll => TakeAllStep(e);
    case Serve(order) => ServeStep(e, order);
    case _ => SendsKeepCall(e, s); SendStep(e, s);
  }

  lemma SendStep(e: EState, s: EStep)
    requires RunInv(e) && EEnabled(e, s) && Guard(e, s) && !(s.TakeNew? || s.TakeOp? || s.TakeAll? || s.Serve?)
    ensures Exchanging(ENext(e, s))
  {
    var e' := ENext(e, s);
    hide Exchanging, Call;
    match s
    case SendNew(pid) => SendNewKeeps(e, pid);
    case Enlist => EnlistKeeps(e, e');
    case SendOp(op) => SendOpKeeps(e, op);
    case SendCompact => CompactIsServable(e); SendCompactKeeps(e, e');
    case Again(r) => AgainIs(e, r); AgainKeeps(e, e', e.sched.op.(r := r));
    case Delist(pid) => DelistKeeps(e, e', pid);
    case SendExit => SendExitKeeps(e, e', e.leaver.value);
  }

  lemma AgainIs(e: EState, r: Segmento)
    requires Exchanging(e) && EEnabled(e, Again(r))
    ensures e.sched.SAgain? && e.sched.op.OpCreate? && CanSend(e, e.sched.op.(r := r))
  {
    hide Exchanging, CanSend;
  }

  lemma ServeStep(e: EState, order: seq<Pid>)
    requires RunInv(e) && EEnabled(e, Serve(order))
    ensures RunInv(ENext(e, Serve(order)))
  {
    hide Exchanging, Call, EEnabled;
    ServeKeeps(e, order);
    ServeKeepsCall(e, order);
    hide ENext;
    ServeIsClean(e, order);
  }

  lemma ServeIsClean(e: EState, order: seq<Pid>)
    requires EEnabled(e, Serve(order))
    ensures ENext(e, Serve(order)).failed == e.failed && ENext(e, Serve(order)).misread == e.misread
  {
  }

  lemma TakeNewStep(e: EState)
    requires RunInv(e) && EEnabled(e, TakeNew)
    ensures RunInv(ENext(e, TakeNew))
  {
    assert !SchedWaits(e);
    hide Exchanging;
    TakeNewIs(e);
    TakeNewKeeps(e, ENext(e, TakeNew), e.admitter.pid);
  }

  lemma TakeOpStep(e: EState)
    requires RunInv(e) && EEnabled(e, TakeOp)
    ensures RunInv(ENext(e, TakeOp))
  {
    hide Exchanging;
    TakeOpIs(e);
    TakeOpKeeps(e, ENext(e, TakeOp), e.sched.op.pid);
  }

  lemma TakeAllStep(e: EState)
    requires RunInv(e) && EEnabled(e, TakeAll)
    ensures RunInv(ENext(e, TakeAll))
  {
    hide Exchanging;
    TakeAllIs(e);
    TakeAllKeeps(e, ENext(e, TakeAll));
  }

  // ----- whole runs -----

  /** Every step of the run meets its guard. */
  ghost predicate GuardedRun(e: EState, ss: seq<EStep>)
    requires ERun(e, ss)
    decreases |ss|
  {
    ss == [] || (Guard(e, ss[0]) && GuardedRun(ENext(e, ss[0]), ss[1..]))
  }

  lemma {:induction false} RunKeepsRunInv(e: EState, ss: seq<EStep>)
    requires RunInv(e) && ERun(e, ss) && GuardedRun(e, ss)
    ensures RunInv(EFinal(e, ss))
    decreases |ss|
  {
    hide RunInv, EEnabled, ENext, Guard;
    if ss != [] {
      StepKeepsRunInv(e, ss[0]);
      RunKeepsRunInv(ENext(e, ss[0]), ss[1..]);
    }
  }

  lemma GuardedState(total: int, size0: int, seg0: Segmento, ss: seq<EStep>)
    requires 0 < size0 <= total <= MAX_INT && ERun(EBoot(total, size0, seg0), ss) && GuardedRun(EBoot(total, size0, seg0), ss)
    ensures RunInv(EFinal(EBoot(total, size0, seg0), ss))
  {
    BootIsExchanging(total, size0, seg0);
    RunKeepsRunInv(EBoot(total, size0, seg0), ss);
  }

  /** Nothing is in line and nothing is on its way back. */
  predicate Quiet(e: EState) { e.requests == [] && e.replies == [] }

  lemma QuietAgrees(e: EState)
    requires Exchanging(e)
    ensures TablesOk(e.mem) && (Quiet(e) ==> Agree(e.mem, e.pcbs))
    ensures forall p :: p in e.pcbs && !Stale(e, p) ==> p in e.mem.tables && e.pcbs[p] == TableOf(e.mem, p)
  {
    TablesOf(e.mem);
    assert Exits([]) == [];
    hide Inv, Sendable, TableOf, Ready, TableReply, AllTables, Exits, Answered, TablesOk;
  }

  /** From start-up, in every run of kernel threads and memory whose requests meet their guard: no thread
      goes by a flag that is not the answer to its request or follows a PCB that is not listed; every PCB
      has the table memory has for it, unless the reply to its own request is on its way; and between
      exchanges memory and the kernel have the same processes. */
  lemma EveryRunAgrees(total: int, size0: int, seg0: Segmento, ss: seq<EStep>)
    requires 0 < size0 <= total <= MAX_INT && ERun(EBoot(total, size0, seg0), ss) && GuardedRun(EBoot(total, size0, seg0), ss)
    ensures var e := EFinal(EBoot(total, size0, seg0), ss);
      && !e.failed && !e.misread && TablesOk(e.mem) && (Quiet(e) ==> Agree(e.mem, e.pcbs))
      && forall p :: p in e.pcbs && !Stale(e, p) ==> p in e.mem.tables && e.pcbs[p] == TableOf(e.mem, p)
  {
    GuardedState(total, size0, seg0, ss);
    hide ERun, EFinal, GuardedRun, EBoot, Exchanging;
    QuietAgrees(EFinal(EBoot(total, size0, seg0), ss));
  }

  /** In such a run, ranges two processes translate through their own PCBs meet only inside segment 0. */
  lemma EveryRunIsolates(total: int, size0: int, seg0: Segmento, ss: seq<EStep>,
                         p: Pid, q: Pid, tam: int, la: int, na: int, lb: int, nb: int, b: int)
    requires 0 < size0 <= total <= MAX_INT && ERun(EBoot(total, size0, seg0), ss) && GuardedRun(EBoot(total, size0, seg0), ss)
    requires var e := EFinal(EBoot(total, size0, seg0), ss);
      && p in e.pcbs && q in e.pcbs && p != q && !Stale(e, p) && !Stale(e, q) && tam > 0 && la >= 0 && lb >= 0
      && Accepted(e.pcbs[p], tam, la, na) && Accepted(e.pcbs[q], tam, lb, nb)
      && Translate(e.pcbs[p], tam, la, na).0 <= b < Translate(e.pcbs[p], tam, la, na).0 + na
      && Translate(e.pcbs[q], tam, lb, nb).0 <= b < Translate(e.pcbs[q], tam, lb, nb).0 + nb
    ensures var m := EFinal(EBoot(total, size0, seg0), ss).mem; m.seg0 in m.segs && m.segs[m.seg0].Has(b)
  {
    GuardedState(total, size0, seg0, ss);
    hide ERun, EFinal, GuardedRun, EBoot, Accepted, Translate;
    var e := EFinal(EBoot(total, size0, seg0), ss);
    QuietAgrees(e);
    assert Inv(e.mem);
    hide Exchanging, Inv;
    ProcessesAreIsolated(e.mem, p, q, tam, la, na, lb, nb, b);
  }

  /** In such a run, through one PCB two accepted addresses never name the same byte. */
  lemma EveryRunTranslatesApart(total: int, size0: int, seg0: Segmento, ss: seq<EStep>, p: Pid, tam: int, la: int, lb: int)
    requires 0 < size0 <= total <= MAX_INT && ERun(EBoot(total, size0, seg0), ss) && GuardedRun(EBoot(total, size0, seg0), ss)
    requires var e := EFinal(EBoot(total, size0, seg0), ss);
      && p in e.pcbs && !Stale(e, p) && tam > 0 && la >= 0 && lb >= 0 && la != lb
      && Accepted(e.pcbs[p], tam, la, 1) && Accepted(e.pcbs[p], tam, lb, 1)
    ensures var pcbs := EFinal(EBoot(total, size0, seg0), ss).pcbs;
      Translate(pcbs[p], tam, la, 1).0 != Translate(pcbs[p], tam, lb, 1).0
  {
    GuardedState(total, size0, seg0, ss);
    hide ERun, EFinal, GuardedRun, EBoot, Accepted, Translate;
    var e := EFinal(EBoot(total, size0, seg0), ss);
    QuietAgrees(e);
    assert Inv(e.mem);
    hide Exchanging, Inv;
    TranslationIsInjective(e.mem, p, tam, la, lb);
  }

  /** In such a run, one call of `create_segment` asks for at most one compaction: after it the second
      request is answered 0, whatever else is served in between. An answer 1 means the free bytes suffice
      in all, an answer -1 that they did not when the request was served. */
  lemma CreateCompactsOnce(total: int, size0: int, seg0: Segmento, ss: seq<EStep>)
    requires 0 < size0 <= total <= MAX_INT && ERun(EBoot(total, size0, seg0), ss) && GuardedRun(EBoot(total, size0, seg0), ss)
    ensures var e := EFinal(EBoot(total, size0, seg0), ss);
      && (!e.sched.SIdle? ==> e.sched.compactions <= 1)
      && (e.sched.SFull? ==> e.sched.compactions == 0 && e.sched.op.OpCreate? && Total(e.mem.holes) >= e.sched.op.size)
      && (e.sched.SSent? && e.sched.compactions == 1 && e.replies != [] ==> e.answer == 0)
      && (EEnabled(e, TakeOp) ==>
            ENext(e, TakeOp).sched ==
              if e.sched.op.OpCreate? && e.answer == 1 then SFull(e.sched.op, 0) else SIdle)
    ensures var e := EFinal(EBoot(total, size0, seg0), ss); forall order ::
      EEnabled(e, Serve(order)) && e.requests[0].OpCreate? ==>
        && (ENext(e, Serve(order)).answer == -1 <==> Total(e.mem.holes) < e.requests[0].size)
        && (ENext(e, Serve(order)).answer == 0 <==> Roomy(e.mem.holes, e.requests[0].size))
  {
    hide RunInv, Roomy, ERun, EFinal, GuardedRun, EBoot, ENext, Total;
    GuardedState(total, size0, seg0, ss);
    var e := EFinal(EBoot(total, size0, seg0), ss);
    CallMeans(e);
    forall order | EEnabled(e, Serve(order)) && e.requests[0].OpCreate?
      ensures ENext(e, Serve(order)).answer == -1 <==> Total(e.mem.holes) < e.requests[0].size
      ensures ENext(e, Serve(order)).answer == 0 <==> Roomy(e.mem.holes, e.requests[0].size)
    {
      hide EEnabled;
      ServeAnswers(e, order);
    }
  }

  lemma ServeAnswers(e: EState, order: seq<Pid>)
    requires EEnabled(e, Serve(order)) && e.requests[0].OpCreate?
    ensures ENext(e, Serve(order)).answer == -1 <==> Total(e.mem.holes) < e.requests[0].size
    ensures ENext(e, Serve(order)).answer == 0 <==> Roomy(e.mem.holes, e.requests[0].size)
  {
    ServeIs(e, order);
    hide EEnabled, ENext, Roomy;
    AnswerIs(e, e.requests[0]);
  }

  lemma AnswerIs(e: EState, op: Op)
    requires Inv(e.mem) && op.OpCreate? && Enabled(e.mem, op)
    ensures Answer(e.mem, op) == -1 <==> Total(e.mem.holes) < op.size
    ensures Answer(e.mem, op) == 0 <==> Roomy(e.mem.holes, op.size)
  {
    AnswerMeaning(op.policy, e.mem, op.pid, op.id, op.size, op.r);
  }

  lemma CallMeans(e: EState)
    requires RunInv(e)
    ensures !e.sched.SIdle? ==> e.sched.compactions <= 1
    ensures e.sched.SFull? ==> e.sched.compactions == 0 && e.sched.op.OpCreate? && Total(e.mem.holes) >= e.sched.op.size
    ensures e.sched.SSent? && e.sched.compactions == 1 && e.replies != [] ==> e.answer == 0
    ensures EEnabled(e, TakeOp) ==>
      ENext(e, TakeOp).sched == if e.sched.op.OpCreate? && e.answer == 1 then SFull(e.sched.op, 0) else SIdle
  {
    hide Exchanging, ENext, Roomy;
    if EEnabled(e, TakeOp) { TakeOpIs(e); }
  }
}
