/** Runs from start-up that end where a call and the exit thread race: F_OPEN for a file, WAIT for a
    resource, nobody being in line. */
module KernelRaceRun {
  import opened Sums
  import opened Kernel
  import opened KernelPlaces
  import opened KernelFiles
  import opened KernelSteps
  import opened KernelRuns
  import opened KernelRace

  /** One more step of a run from start-up. */
  lemma Then(recursos: map<Res, int>, grado: nat, ss: seq<Step>, k: KState, s: Step) returns (ss': seq<Step>)
    requires Run(Boot(recursos, grado), ss) && Final(Boot(recursos, grado), ss) == k && Enabled(k, s)
    ensures Safe(k, s) && Run(Boot(recursos, grado), ss') && Final(Boot(recursos, grado), ss') == Next(k, s)
  {
    hide Boot, Enabled, Safe, Next, Inv, Run, Final;
    BootIsOk(recursos, grado);
    var w, h := RunKeepsInv(Boot(recursos, grado), map[], map[], grado, ss);
    EnabledIsSafe(k, w, h, grado, s);
    RunThen(Boot(recursos, grado), ss, s);
    ss' := ss + [s];
  }

  lemma {:induction false} RunThen(k: KState, ss: seq<Step>, s: Step)
    requires Run(k, ss) && Enabled(Final(k, ss), s) && Safe(Final(k, ss), s)
    ensures Run(k, ss + [s]) && Final(k, ss + [s]) == Next(Final(k, ss), s)
    decreases |ss|
  {
    hide Enabled, Safe, Next;
    if ss == [] {
      assert [s][1..] == [];
      assert [] + [s] == [s];
      assert Run(Apply(k, s), []) && Final(Apply(k, s), []) == Apply(k, s);
    } else {
      RunThen(Apply(k, ss[0]), ss[1..], s);
      assert (ss + [s])[1..] == ss[1..] + [s];
    }
  }

  const UP := Sem(0, 0, false)
  const OWED := Sem(0, 1, false)
  const POSTED := Sem(1, 0, false)
  const TAKEN := Sem(0, 0, true)

  /** The step can happen, and leads to `k'`. */
  predicate Goes(k: KState, s: Step, k': KState) { Enabled(k, s) && (Safe(k, s) ==> Next(k, s) == k') }

  // Each of the next lemmas says what the steps of one scheduler list come down to.

  lemma NewSteps(k: KState)
    ensures k.semNew == OWED ==> Goes(k, PostNew, k.(semNew := POSTED))
    ensures k.semNew == POSTED ==> Goes(k, WaitNew, k.(semNew := TAKEN))
    ensures k.semNew == TAKEN && !k.admitting && k.espacio > 0 ==>
      Goes(k, WaitSlot, k.(espacio := k.espacio - 1, admitting := true))
  {
    hide QueuesOk, FilesReady;
  }

  lemma AdmitStep(k: KState)
    requires k.semNew == TAKEN && k.admitting && k.nuevos != []
    ensures Goes(k, Admit, k.(nuevos := k.nuevos[1..], semNew := UP, admitting := false,
                              ready := k.ready + [k.nuevos[0]], semReady := Owe(k.semReady)))
  {
    hide QueuesOk, FilesReady;
  }

  lemma ReadySteps(k: KState)
    requires k.running.None?
    ensures k.semReady == OWED ==> Goes(k, PostReady, k.(semReady := POSTED))
    ensures k.semReady == POSTED ==> Goes(k, WaitReady, k.(semReady := TAKEN))
    ensures k.semReady == TAKEN && k.ready != [] ==>
      Goes(k, Dispatch, k.(running := Some(k.ready[0]), ready := k.ready[1..], semReady := UP))
  {
    hide QueuesOk, FilesReady;
  }

  lemma PetitionSteps(k: KState)
    requires k.serving.None?
    ensures k.semBlocked == OWED ==> Goes(k, PostBlocked, k.(semBlocked := POSTED))
    ensures k.semBlocked == POSTED ==> Goes(k, WaitBlocked, k.(semBlocked := TAKEN))
    ensures k.semBlocked == TAKEN && k.fsQueue != [] ==>
      Goes(k, TakeBlocked, k.(serving := Some(k.fsQueue[0]), fsQueue := k.fsQueue[1..], semBlocked := UP))
  {
    hide QueuesOk, FilesReady;
  }

  lemma ExitSteps(k: KState)
    requires k.leaving.None?
    ensures k.semExit == OWED ==> Goes(k, PostExit, k.(semExit := POSTED))
    ensures k.semExit == POSTED ==> Goes(k, WaitExit, k.(semExit := TAKEN))
    ensures k.semExit == TAKEN && k.exiting != [] ==>
      Goes(k, TakeExit, k.(leaving := Some(k.exiting[0]), exiting := k.exiting[1..], semExit := UP))
  {
    hide QueuesOk, FilesReady;
  }

  lemma RunningSteps(k: KState, req: Request)
    requires k.running.Some?
    ensures Goes(k, CallFs(req), k.(running := None, fsQueue := k.fsQueue + [Node(k.running.value, req)],
                                    semBlocked := Owe(k.semBlocked)))
    ensures Goes(k, Finish, k.(running := None, exiting := k.exiting + [k.running.value], semExit := Owe(k.semExit)))
  {
    hide QueuesOk, FilesReady;
  }

  /** A console arrives and is admitted. */
  lemma ThenAdmitted(recursos: map<Res, int>, grado: nat, ss: seq<Step>, k: KState, p: Pid) returns (ss': seq<Step>)
    requires Run(Boot(recursos, grado), ss) && Final(Boot(recursos, grado), ss) == k
    requires p !in k.seen && k.nuevos == [] && k.semNew == UP && !k.admitting && k.espacio > 0
    ensures Run(Boot(recursos, grado), ss')
    ensures Final(Boot(recursos, grado), ss') ==
      k.(ready := k.ready + [p], semReady := Owe(k.semReady), espacio := k.espacio - 1,
         abiertos := k.abiertos[p := []], seen := k.seen + {p})
  {
    hide Boot, Run, Final, Safe;
    var k1 := k.(nuevos := [p], semNew := OWED, abiertos := k.abiertos[p := []], seen := k.seen + {p});
    assert Goes(k, Arrive(p), k1);
    hide Next, Enabled, Owe;
    var k2, k3 := k1.(semNew := POSTED), k1.(semNew := TAKEN);
    var k4 := k3.(espacio := k.espacio - 1, admitting := true);
    NewSteps(k1);
    NewSteps(k2);
    NewSteps(k3);
    AdmitStep(k4);
    ss' := Then(recursos, grado, ss, k, Arrive(p));
    ss' := Then(recursos, grado, ss', k1, PostNew);
    ss' := Then(recursos, grado, ss', k2, WaitNew);
    ss' := Then(recursos, grado, ss', k3, WaitSlot);
    ss' := Then(recursos, grado, ss', k4, Admit);
  }

  /** The only ready process goes to the CPU. */
  lemma ThenRunning(recursos: map<Res, int>, grado: nat, ss: seq<Step>, k: KState, p: Pid) returns (ss': seq<Step>)
    requires Run(Boot(recursos, grado), ss) && Final(Boot(recursos, grado), ss) == k
    requires k.ready == [p] && k.semReady == OWED && k.running.None?
    ensures Run(Boot(recursos, grado), ss')
    ensures Final(Boot(recursos, grado), ss') == k.(ready := [], running := Some(p), semReady := UP)
  {
    hide Boot, Run, Final, Next, Enabled, Safe;
    var k1, k2 := k.(semReady := POSTED), k.(semReady := TAKEN);
    ReadySteps(k);
    ReadySteps(k1);
    ReadySteps(k2);
    ss' := Then(recursos, grado, ss, k, PostReady);
    ss' := Then(recursos, grado, ss', k1, WaitReady);
    ss' := Then(recursos, grado, ss', k2, Dispatch);
  }

  /** The running process makes a file petition, which is taken at once. */
  lemma ThenServing(recursos: map<Res, int>, grado: nat, ss: seq<Step>, k: KState, req: Request) returns (ss': seq<Step>)
    requires Run(Boot(recursos, grado), ss) && Final(Boot(recursos, grado), ss) == k
    requires k.running.Some? && k.fsQueue == [] && k.semBlocked == UP && k.serving.None?
    ensures Run(Boot(recursos, grado), ss')
    ensures Final(Boot(recursos, grado), ss') == k.(running := None, serving := Some(Node(k.running.value, req)))
  {
    hide Boot, Run, Final, Next, Enabled, Safe;
    var k1 := k.(running := None, fsQueue := [Node(k.running.value, req)], semBlocked := OWED);
    var k2, k3 := k1.(semBlocked := POSTED), k1.(semBlocked := TAKEN);
    RunningSteps(k, req);
    PetitionSteps(k1);
    PetitionSteps(k2);
    PetitionSteps(k3);
    ss' := Then(recursos, grado, ss, k, CallFs(req));
    ss' := Then(recursos, grado, ss', k1, PostBlocked);
    ss' := Then(recursos, grado, ss', k2, WaitBlocked);
    ss' := Then(recursos, grado, ss', k3, TakeBlocked);
  }

  /** The running process finishes, and the exit thread takes it. */
  lemma ThenLeaving(recursos: map<Res, int>, grado: nat, ss: seq<Step>, k: KState, req: Request) returns (ss': seq<Step>)
    requires Run(Boot(recursos, grado), ss) && Final(Boot(recursos, grado), ss) == k
    requires k.running.Some? && k.exiting == [] && k.semExit == UP && k.leaving.None?
    ensures Run(Boot(recursos, grado), ss')
    ensures Final(Boot(recursos, grado), ss') == k.(running := None, leaving := k.running)
  {
    hide Boot, Run, Final, Next, Enabled, Safe;
    var k1 := k.(running := None, exiting := [k.running.value], semExit := OWED);
    var k2, k3 := k1.(semExit := POSTED), k1.(semExit := TAKEN);
    RunningSteps(k, req);
    ExitSteps(k1);
    ExitSteps(k2);
    ExitSteps(k3);
    ss' := Then(recursos, grado, ss, k, Finish);
    ss' := Then(recursos, grado, ss', k1, PostExit);
    ss' := Then(recursos, grado, ss', k2, WaitExit);
    ss' := Then(recursos, grado, ss', k3, TakeExit);
  }

  /** A process opens a new file. */
  lemma ThenOpened(recursos: map<Res, int>, grado: nat, ss: seq<Step>, k: KState, p: Pid, f: File) returns (ss': seq<Step>)
    requires Run(Boot(recursos, grado), ss) && Final(Boot(recursos, grado), ss) == k
    requires k.serving == Some(Node(p, FOpen(f))) && k.gdt == [] && k.ready == [] && k.semReady == UP
    requires p in k.abiertos && k.abiertos[p] == [] && k.colas == map[]
    ensures Run(Boot(recursos, grado), ss')
    ensures Final(Boot(recursos, grado), ss') ==
      k.(serving := None, gdt := [f], colas := map[f := []], abiertos := k.abiertos[p := [f]], ready := [p], semReady := OWED)
  {
    OpenStep(k, p, f);
    hide Boot, Run, Final, Next, Enabled, Safe;
    ss' := Then(recursos, grado, ss, k, Serve(true));
  }

  lemma OpenStep(k: KState, p: Pid, f: File)
    requires k.serving == Some(Node(p, FOpen(f))) && k.gdt == [] && k.ready == [] && k.semReady == UP
    requires p in k.abiertos && k.abiertos[p] == [] && k.colas == map[]
    ensures Goes(k, Serve(true), k.(serving := None, gdt := [f], colas := map[f := []], abiertos := k.abiertos[p := [f]],
                                    ready := [p], semReady := OWED))
  {
    hide QueuesOk;
    assert [f] + [] == [f];
    if Safe(k, Serve(true)) {
      assert Next(k, Serve(true)) == Attend(k, true) == OpenFile(Served(k), p, f);
    }
  }

  /** Process 1 opens a file and finishes; process 2 opens the same file while 1 is being torn down. */
  lemma HolderLeavesAlone() returns (ss: seq<Step>)
    ensures Run(Boot(map[], 2), ss)
    ensures var k := Final(Boot(map[], 2), ss);
      && k.serving == Some(Node(2, FOpen("a"))) && k.leaving == Some(1)
      && Table(k, 1) == ["a"] && At(k.colas, "a") == []
  {
    hide Run, Final;
    var k := Boot(map[], 2);
    assert Run(k, []) && Final(k, []) == k by { StandStill(k); }
    ss := ThenAdmitted(map[], 2, [], k, 1);
    ss := ThenRunning(map[], 2, ss, k.(ready := [1], semReady := OWED, espacio := 1, abiertos := map[1 := []], seen := {1}), 1);
    ss := ThenServing(map[], 2, ss, k.(running := Some(1), espacio := 1, abiertos := map[1 := []], seen := {1}), FOpen("a"));
    ss := ThenOpened(map[], 2, ss, k.(serving := Some(Node(1, FOpen("a"))), espacio := 1, abiertos := map[1 := []], seen := {1}), 1, "a");
    var k1 := k.(espacio := 1, gdt := ["a"], colas := map["a" := []], abiertos := map[1 := ["a"]], seen := {1});
    ss := ThenRunning(map[], 2, ss, k1.(ready := [1], semReady := OWED), 1);
    ss := ThenLeaving(map[], 2, ss, k1.(running := Some(1)), FOpen("a"));
    ss := ThenAdmitted(map[], 2, ss, k1.(leaving := Some(1)), 2);
    var k2 := k1.(leaving := Some(1), espacio := 0, abiertos := map[1 := ["a"], 2 := []], seen := {1, 2});
    ss := ThenRunning(map[], 2, ss, k2.(ready := [2], semReady := OWED), 2);
    ss := ThenServing(map[], 2, ss, k2.(running := Some(2)), FOpen("a"));
  }

  lemma StandStill(k: KState)
    ensures Run(k, []) && Final(k, []) == k
  {
  }

  /** The running process takes the only instance. */
  lemma ThenHolding(grado: nat, ss: seq<Step>, k: KState, p: Pid) returns (ss': seq<Step>)
    requires Run(Boot(map["r" := 1], grado), ss) && Final(Boot(map["r" := 1], grado), ss) == k
    requires k.running == Some(p) && k.ready == [] && k.semReady == UP && k.disponibles == map["r" := 1] && k.porProceso == map[]
    ensures Run(Boot(map["r" := 1], grado), ss')
    ensures Final(Boot(map["r" := 1], grado), ss') ==
      k.(running := None, disponibles := map["r" := 0], porProceso := map[p := ["r"]], ready := [p], semReady := OWED)
  {
    WaitStep(k, p);
    hide Boot, Run, Final, Next, Enabled, Safe;
    ss' := Then(map["r" := 1], grado, ss, k, CallWait("r"));
  }

  lemma WaitStep(k: KState, p: Pid)
    requires k.running == Some(p) && k.ready == [] && k.semReady == UP && k.disponibles == map["r" := 1] && k.porProceso == map[]
    ensures Goes(k, CallWait("r"), k.(running := None, disponibles := map["r" := 0], porProceso := map[p := ["r"]],
                                     ready := [p], semReady := OWED))
  {
    hide QueuesOk, FilesReady;
    assert [] + ["r"] == ["r"] && [p] + [] == [p];
    assert map["r" := 1]["r" := 0] == map["r" := 0];
  }

  /** Process 1 takes the only instance of a resource and finishes; process 2 runs while 1 is being torn
      down, and nobody is in line. */
  lemma HolderOfTheOnlyInstance() returns (ss: seq<Step>)
    ensures Run(Boot(map["r" := 1], 2), ss)
    ensures var k := Final(Boot(map["r" := 1], 2), ss);
      && k.running == Some(2) && k.leaving == Some(1) && Registered(k, 1) == ["r"]
      && k.disponibles == map["r" := 0] && "r" !in k.enUso
  {
    hide Run, Final;
    var rec: map<Res, int> := map["r" := 1];
    var k := Boot(rec, 2);
    assert Run(k, []) && Final(k, []) == k by { StandStill(k); }
    ss := ThenAdmitted(rec, 2, [], k, 1);
    ss := ThenRunning(rec, 2, ss, k.(ready := [1], semReady := OWED, espacio := 1, abiertos := map[1 := []], seen := {1}), 1);
    ss := ThenHolding(2, ss, k.(running := Some(1), espacio := 1, abiertos := map[1 := []], seen := {1}), 1);
    var k1 := k.(disponibles := map["r" := 0], porProceso := map[1 := ["r"]], espacio := 1, abiertos := map[1 := []], seen := {1});
    ss := ThenRunning(rec, 2, ss, k1.(ready := [1], semReady := OWED), 1);
    ss := ThenLeaving(rec, 2, ss, k1.(running := Some(1)), FOpen("a"));
    ss := ThenAdmitted(rec, 2, ss, k1.(leaving := Some(1)), 2);
    var k2 := k1.(leaving := Some(1), espacio := 0, abiertos := map[1 := [], 2 := []], seen := {1, 2});
    ss := ThenRunning(rec, 2, ss, k2.(ready := [2], semReady := OWED), 2);
  }
}
