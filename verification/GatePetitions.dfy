/** Reads and writes on their way through the gate, beside the memory they point into: an address is
    translated when the petition is made and used when it is served. */
module GatePetitions {
  import opened Sums
  import opened Memory
  import opened Mmu
  import opened TableSync
  import M = MemoryRuns
  import G = Gate

  /** A read or write that is counted and whose bytes are not yet moved: the process, the logical address and length it
      asked for, the physical address it got, and the segment that was in. */
  datatype Petition = Petition(pid: Pid, logic: int, bytes: int, addr: int, seg: Seg)

  /** `moved`: the petition in service has moved its bytes and made its process ready, and is still counted. */
  datatype CState = CState(g: G.GState, m: Mem, pend: seq<Petition>, moved: bool)

  datatype CStep =
    | Ask(pid: Pid, logic: int, bytes: int) // the CPU translates, the scheduler counts
    | Transfer                              // the oldest petition is served, its process ready again
    | Finish                                // it is no longer counted
    | Turn(s: G.Step)                       // any other step of the gate
    | Serve(op: M.Op)                       // memory serves a request

  /** The process waits for a read or write, so it makes no request of its own until its bytes are moved. */
  predicate Blocked(c: CState, pid: Pid) { exists i :: 0 <= i < |c.pend| && c.pend[i].pid == pid }

  ghost predicate CEnabled(c: CState, tam: int, s: CStep) {
    match s
    case Ask(pid, logic, bytes) =>
      && G.Enabled(c.g, G.Count(true)) && TablesOk(c.m) && pid in c.m.tables && tam > 0 && logic >= 0
      && Accepted(TableOf(c.m, pid), tam, logic, bytes) && !Blocked(c, pid)
    case Transfer => c.g.fs == G.Serving(true) && !c.moved && c.pend != []
    case Finish => G.Enabled(c.g, G.Serve) && c.g.fs == G.Serving(true) && c.moved
    case Turn(t) => G.Enabled(c.g, t) && t != G.Count(true) && !(t == G.Serve && c.g.fs == G.Serving(true))
    case Serve(op) =>
      && M.Enabled(c.m, op) && (op.OpCompact? ==> c.g.sched.Compacting?)
      && (op.OpCreate? || op.OpDelete? || op.OpExit? ==> !Blocked(c, op.pid))
  }

  ghost function CNext(c: CState, tam: int, s: CStep): CState
    requires CEnabled(c, tam, s)
  {
    match s
    case Ask(pid, logic, bytes) =>
      var t := TableOf(c.m, pid);
      c.(g := G.Next(c.g, G.Count(true)),
         pend := c.pend + [Petition(pid, logic, bytes, Translate(t, tam, logic, bytes).0, t[Target(t, tam, logic).value])])
    case Transfer => c.(pend := c.pend[1..], moved := true)
    case Finish => c.(g := G.Next(c.g, G.Serve), moved := false)
    case Turn(t) => c.(g := G.Next(c.g, t))
    case Serve(op) => c.(m := M.Apply(c.m, op))
  }

  /** Translated now, the petition's address is still the one it got, in the segment it was in. */
  ghost predicate Current(m: Mem, tam: int, t: Petition)
    requires TablesOk(m) && tam > 0
  {
    && t.pid in m.tables && t.logic >= 0
    && Accepted(TableOf(m, t.pid), tam, t.logic, t.bytes)
    && Translate(TableOf(m, t.pid), tam, t.logic, t.bytes).0 == t.addr
    && TableOf(m, t.pid)[Target(TableOf(m, t.pid), tam, t.logic).value] == t.seg
  }

  ghost predicate CInv(c: CState, tam: int) {
    && tam > 0 && G.Guarded(c.g) && Inv(c.m) && |c.pend| + (if c.moved then 1 else 0) == c.g.blockers
    && (c.moved ==> c.g.fs == G.Serving(true))
    && forall i :: 0 <= i < |c.pend| ==> Current(c.m, tam, c.pend[i])
  }

  /** A request of another process, or a write, leaves the petition's address current. */
  lemma OthersKeepCurrent(m: Mem, tam: int, t: Petition, op: M.Op)
    requires Inv(m) && tam > 0 && Current(m, tam, t) && M.Enabled(m, op) && !op.OpCompact?
    requires op.OpCreate? || op.OpDelete? || op.OpExit? ==> op.pid != t.pid
    ensures Inv(M.Apply(m, op)) && Current(M.Apply(m, op), tam, t)
  {
    hide Inv, TablesOk, M.Apply, M.Enabled;
    M.ApplyKeepsInv(m, op);
    OthersUntouched(m, op, t.pid);
  }

  lemma MemoryKeepsInv(c: CState, tam: int, op: M.Op)
    requires CInv(c, tam) && CEnabled(c, tam, Serve(op))
    ensures CInv(CNext(c, tam, Serve(op)), tam)
  {
    hide Partition, TablesOk, M.Apply, M.Enabled, Current;
    M.ApplyKeepsInv(c.m, op);
    if op.OpCompact? {
      assert c.pend == [];
    } else {
      forall i | 0 <= i < |c.pend| ensures Current(M.Apply(c.m, op), tam, c.pend[i]) {
        assert Blocked(c, c.pend[i].pid);
        OthersKeepCurrent(c.m, tam, c.pend[i], op);
      }
    }
  }

  lemma StepKeepsCInv(c: CState, tam: int, s: CStep)
    requires CInv(c, tam) && CEnabled(c, tam, s) && (s == Turn(G.Request) ==> G.RequestGuard(c.g))
    ensures CInv(CNext(c, tam, s), tam)
  {
    hide Inv, TablesOk, M.Apply, M.Enabled;
    match s
    case Ask(_, _, _) => G.StepKeepsGuarded(c.g, G.Count(true));
    case Transfer =>
    case Finish => G.StepKeepsGuarded(c.g, G.Serve);
    case Turn(t) => G.StepKeepsGuarded(c.g, t);
    case Serve(op) => MemoryKeepsInv(c, tam, op);
  }

  /** A run in which every request for compaction meets its guard. */
  ghost predicate CRun(c: CState, tam: int, ss: seq<CStep>)
    decreases |ss|
  {
    ss == [] ||
    (&& CEnabled(c, tam, ss[0]) && (ss[0] == Turn(G.Request) ==> G.RequestGuard(c.g))
     && CRun(CNext(c, tam, ss[0]), tam, ss[1..]))
  }

  ghost function CFinal(c: CState, tam: int, ss: seq<CStep>): CState
    requires CRun(c, tam, ss)
    decreases |ss|
  {
    if ss == [] then c else CFinal(CNext(c, tam, ss[0]), tam, ss[1..])
  }

  lemma {:induction false} RunKeepsCInv(c: CState, tam: int, ss: seq<CStep>)
    requires CInv(c, tam) && CRun(c, tam, ss)
    ensures CInv(CFinal(c, tam, ss), tam)
    decreases |ss|
  {
    hide CInv, CEnabled, CNext;
    if ss != [] {
      StepKeepsCInv(c, tam, ss[0]);
      RunKeepsCInv(CNext(c, tam, ss[0]), tam, ss[1..]);
    }
  }

  /** From start-up, in every run of scheduler, file-system thread and memory in which each request for
      compaction meets its guard: until a read or write has moved its bytes, the address it was given is the
      one its logical address still has, inside the same segment at the same place. */
  lemma EveryGuardedRunKeepsAddresses(total: int, size0: int, seg0: Segmento, tam: int, ss: seq<CStep>, i: int)
    requires 0 < size0 <= total && tam > 0 && CRun(CState(G.BOOT, M.Start(total, size0, seg0), [], false), tam, ss)
    requires 0 <= i < |CFinal(CState(G.BOOT, M.Start(total, size0, seg0), [], false), tam, ss).pend|
    ensures var c := CFinal(CState(G.BOOT, M.Start(total, size0, seg0), [], false), tam, ss);
      var t := c.pend[i];
      && TablesOk(c.m) && Current(c.m, tam, t)
      && t.seg.base <= t.addr && t.addr + t.bytes <= t.seg.base + t.seg.limite
  {
    M.StartIsOk(total, size0, seg0);
    RunKeepsCInv(CState(G.BOOT, M.Start(total, size0, seg0), [], false), tam, ss);
    var c := CFinal(CState(G.BOOT, M.Start(total, size0, seg0), [], false), tam, ss);
    var t := c.pend[i];
    hide CRun, CFinal;
    TablesHaveBases(c.m, t.pid);
    RefusedIsMinusOne(TableOf(c.m, t.pid), tam, t.logic, t.bytes);
  }

  lemma TablesHaveBases(m: Mem, pid: Pid)
    requires Inv(m) && pid in m.tables
    ensures forall i :: 0 <= i < |TableOf(m, pid)| ==> TableOf(m, pid)[i].base >= 0
  {
  }
}
