/** What every run of the kernel keeps, from start-up on. */
module KernelRuns {
  import opened Sums
  import opened Kernel
  import opened KernelPlaces
  import opened KernelResources
  import opened KernelFiles
  import opened KernelSteps

  function Apply(k: KState, s: Step): KState
    requires Enabled(k, s)
  {
    if Safe(k, s) then Next(k, s) else k
  }

  predicate Run(k: KState, ss: seq<Step>)
    decreases |ss|
  {
    ss == [] || (Enabled(k, ss[0]) && Run(Apply(k, ss[0]), ss[1..]))
  }

  function Final(k: KState, ss: seq<Step>): KState
    requires Run(k, ss)
    decreases |ss|
  {
    if ss == [] then k else Final(Apply(k, ss[0]), ss[1..])
  }

  lemma BootIsOk(recursos: map<Res, int>, grado: nat)
    ensures Inv(Boot(recursos, grado), map[], map[], grado)
  {
    var k := Boot(recursos, grado);
    forall l ensures List(k, l) == [] {}
    forall p, f ensures Count(k, p, f) == 0 && Share(k, map[], p, f) == 0 {}
    hide List, Count, Share;
  }

  lemma {:induction false} RunKeepsInv(k: KState, w: map<Pid, Loc>, h: map<File, Pid>, grado: nat, ss: seq<Step>)
    returns (w': map<Pid, Loc>, h': map<File, Pid>)
    requires Inv(k, w, h, grado) && Run(k, ss)
    ensures Inv(Final(k, ss), w', h', grado)
    decreases |ss|
  {
    hide Inv, Next, Enabled, Safe;
    if ss == [] {
      w', h' := w, h;
    } else {
      var w1, h1 := StepKeepsInv(k, w, h, grado, ss[0]);
      w', h' := RunKeepsInv(Apply(k, ss[0]), w1, h1, grado, ss[1..]);
    }
  }

  // ----- safety and conservation -----

  /** In every reachable state, whatever can happen next removes from no empty list and finds every
      dictionary entry it looks up. */
  lemma EveryRunIsSafe(recursos: map<Res, int>, grado: nat, ss: seq<Step>, s: Step)
    requires Run(Boot(recursos, grado), ss) && Enabled(Final(Boot(recursos, grado), ss), s)
    ensures Safe(Final(Boot(recursos, grado), ss), s)
  {
    hide Inv, Enabled, Safe, Boot;
    BootIsOk(recursos, grado);
    var w, h := RunKeepsInv(Boot(recursos, grado), map[], map[], grado, ss);
    EnabledIsSafe(Final(Boot(recursos, grado), ss), w, h, grado, s);
  }

  /** Every live process is on exactly one list, once; no list holds anybody else. */
  ghost predicate Conserved(k: KState) {
    && (forall p :: p in k.abiertos <==> exists l {:trigger List(k, l)} :: p in List(k, l))
    && (forall l, m, i, j {:trigger List(k, l)[i], List(k, m)[j]} ::
          0 <= i < |List(k, l)| && 0 <= j < |List(k, m)| && List(k, l)[i] == List(k, m)[j] ==> l == m && i == j)
  }

  lemma PlacedIsConserved(k: KState, w: map<Pid, Loc>)
    requires Placed(k, w) && w.Keys == k.abiertos.Keys
    ensures Conserved(k)
  {
    hide List;
    forall p ensures p in k.abiertos <==> exists l :: p in List(k, l) {
      if p in w { assert Holds(List(k, w[p]), w, w[p]); assert p in List(k, w[p]); }
      if l :| p in List(k, l) { assert Holds(List(k, l), w, l); }
    }
    forall l, m, i, j | 0 <= i < |List(k, l)| && 0 <= j < |List(k, m)| && List(k, l)[i] == List(k, m)[j]
      ensures l == m && i == j
    {
      assert Holds(List(k, l), w, l) && Holds(List(k, m), w, m);
      assert List(k, l)[i] in List(k, l) && List(k, m)[j] in List(k, m);
    }
  }

  function Elems(q: seq<Pid>): set<Pid> { set p | p in q }

  lemma {:induction false} DistinctSize(q: seq<Pid>)
    requires Distinct(q)
    ensures |Elems(q)| == |q|
  {
    if q != [] {
      var rest, last := q[..|q| - 1], q[|q| - 1];
      DistinctSize(rest);
      assert q == rest + [last] && last !in rest;
      assert Elems(q) == Elems(rest) + {last};
    }
  }

  /** After any run, every process that arrived and was not torn down is in exactly one place, each
      semaphore counts its list up to in-flight posts and waits, and the slots taken by admitted
      processes and the free ones make the configured degree of multiprogramming. */
  lemma EveryRunConservesProcesses(recursos: map<Res, int>, grado: nat, ss: seq<Step>)
    requires Run(Boot(recursos, grado), ss)
    ensures var k := Final(Boot(recursos, grado), ss);
      && Conserved(k) && SemsOk(k)
      && k.espacio + (if k.admitting then 1 else 0) + |k.abiertos.Keys - Elems(k.nuevos)| == grado
  {
    hide Boot, Run, Final;
    BootIsOk(recursos, grado);
    var w, h := RunKeepsInv(Boot(recursos, grado), map[], map[], grado, ss);
    var k := Final(Boot(recursos, grado), ss);
    PlacedIsConserved(k, w);
    SlotCount(k, w);
  }

  lemma SlotCount(k: KState, w: map<Pid, Loc>)
    requires Placed(k, w) && w.Keys == k.abiertos.Keys
    ensures |k.abiertos.Keys - Elems(k.nuevos)| == |k.abiertos.Keys| - |k.nuevos|
  {
    assert Holds(List(k, New), w, New);
    DistinctSize(k.nuevos);
    forall p | p in Elems(k.nuevos) ensures p in k.abiertos.Keys {
      assert p in List(k, New);
    }
    assert Elems(k.nuevos) <= k.abiertos.Keys;
  }

  // ----- resources -----

  /** A SIGNAL by a process that has the resource not registered makes an instance out of nothing. */
  function Phantom(k: KState, s: Step, r: Res): nat
    requires Enabled(k, s)
  {
    if s.CallSignal? && s.r == r && r !in Registered(k, k.running.value) then 1 else 0
  }

  function Phantoms(k: KState, ss: seq<Step>, r: Res): nat
    requires Run(k, ss)
    decreases |ss|
  {
    if ss == [] then 0 else Phantom(k, ss[0], r) + Phantoms(Apply(k, ss[0]), ss[1..], r)
  }

  lemma AttendBooks(k: KState, ok: bool)
    requires k.serving.Some? && FilesReady(k)
    ensures var k' := Attend(k, ok); k'.enUso == k.enUso && k'.disponibles == k.disponibles && k'.porProceso == k.porProceso
  {
    hide OpenFile, CloseFile, UnshiftReady, PushExit;
    Requeue(Served(k), k.serving.value.pid);
    match k.serving.value.req
    case FOpen(f) => OpenFrame(Served(k), k.serving.value.pid, f);
    case FClose(f) => CloseFrame(Served(k), k.serving.value.pid, f);
    case FTruncate(_) =>
    case FSeek(_) =>
    case FUse(_) =>
  }

  lemma SameBalance(k: KState, k': KState, r: Res)
    requires k'.enUso == k.enUso && k'.disponibles == k.disponibles && k'.porProceso == k.porProceso
    ensures r in k.disponibles ==> Balance(k', r) == Balance(k, r)
  {
  }

  lemma DismissBalance(k: KState, w: map<Pid, Loc>, h: map<File, Pid>, grado: nat, r: Res)
    requires Inv(k, w, h, grado) && k.leaving.Some? && r in k.disponibles
    ensures var k' := Dismiss(k, k.leaving.value); r in k'.disponibles && Balance(k', r) == Balance(k, r)
  {
    var p, k0 := k.leaving.value, k.(leaving := None);
    TakeOver(k, w, h, grado);
    InHandWaitsNowhere(k0, w - {p}, p);
    hide ReleaseAll, CloseAll, Balance, Placed, FilesOk, QueuesOk, SemsOk, SlotsOk, Inv;
    ReleaseAllResources(k0, p);
    CloseAllFrame(ReleaseAll(k0, p), p);
    SameBalance(k, k0, r);
    assert Shifts(k0, ReleaseAll(k0, p), r, 0);
    SameBalance(ReleaseAll(k0, p), Dismiss(k, p), r);
  }

  lemma CallWaitBalance(k: KState, w: map<Pid, Loc>, h: map<File, Pid>, grado: nat, x: Res, r: Res)
    requires Inv(k, w, h, grado) && k.running.Some? && r in k.disponibles
    ensures var k' := Wait(Stopped(k), k.running.value, x); r in k'.disponibles && Balance(k', r) == Balance(k, r)
  {
    hide Inv, Wait, Balance;
    WaitShifts(Stopped(k), k.running.value, x);
    SameBalance(k, Stopped(k), r);
  }

  lemma CallSignalBalance(k: KState, w: map<Pid, Loc>, h: map<File, Pid>, grado: nat, x: Res, r: Res)
    requires Inv(k, w, h, grado) && k.running.Some? && r in k.disponibles
    requires x in k.disponibles ==> k.running.value in k.porProceso
    ensures QueuesOk(Stopped(k))
    ensures var k' := Signal(Stopped(k), k.running.value, x);
      r in k'.disponibles && Balance(k', r) == Balance(k, r) + if x == r && r !in Registered(k, k.running.value) then 1 else 0
  {
    TakeOver(k, w, h, grado);
    InHandWaitsNowhere(Stopped(k), w - {k.running.value}, k.running.value);
    assert QueuesOk(Stopped(k));
    hide Inv, Signal, Balance, Placed, FilesOk, QueuesOk, SemsOk, SlotsOk;
    SignalResources(Stopped(k), k.running.value, x);
    SameBalance(k, Stopped(k), r);
  }

  /** One step moves a resource's balance only by a phantom signal. */
  lemma StepBalance(k: KState, w: map<Pid, Loc>, h: map<File, Pid>, grado: nat, s: Step, r: Res)
    requires Inv(k, w, h, grado) && Enabled(k, s) && Safe(k, s) && r in k.disponibles
    ensures r in Next(k, s).disponibles && Balance(Next(k, s), r) == Balance(k, r) + Phantom(k, s, r)
  {
    hide Inv, Balance, Wait, Signal, Attend, Dismiss, Move, Tick, Stopped, QueuesOk, FilesReady, Registered;
    if Signalling(s) || Plain(s) {
      SameBalance(k, Next(k, s), r);
    } else {
      match s
      case Arrive(p) => SameBalance(k, Arrived(k, p), r);
      case CallWait(x) => CallWaitBalance(k, w, h, grado, x, r);
      case CallSignal(x) => CallSignalBalance(k, w, h, grado, x, r);
      case Serve(ok) => AttendBooks(k, ok); SameBalance(k, Attend(k, ok), r);
      case Teardown => DismissBalance(k, w, h, grado, r);
    }
  }

  lemma {:induction false} RunBalance(k: KState, w: map<Pid, Loc>, h: map<File, Pid>, grado: nat, ss: seq<Step>, r: Res)
    requires Inv(k, w, h, grado) && Run(k, ss) && r in k.disponibles
    ensures r in Final(k, ss).disponibles && Balance(Final(k, ss), r) == Balance(k, r) + Phantoms(k, ss, r)
    decreases |ss|
  {
    hide Inv, Next, Enabled, Safe, Balance, Phantom;
    if ss != [] {
      var w1, h1 := StepKeepsInv(k, w, h, grado, ss[0]);
      StepBalance(k, w, h, grado, ss[0], r);
      RunBalance(Apply(k, ss[0]), w1, h1, grado, ss[1..], r);
    }
  }

  lemma BootBalance(recursos: map<Res, int>, grado: nat, r: Res)
    requires r in recursos
    ensures r in Boot(recursos, grado).disponibles && Balance(Boot(recursos, grado), r) == recursos[r]
  {
    var pp: map<Pid, seq<Res>> := map[];
    var m: map<Pid, int> := map p | p in pp :: multiset(pp[p])[r];
    assert m == map[];
  }

  /** After any run, the free instances of a resource and those in the hands of processes are the
      configured ones plus phantom signals; an instance is free only when nobody queues for it, and a
      queue is in the dictionary exactly while somebody is in it. */
  lemma EveryRunAccountsForResources(recursos: map<Res, int>, grado: nat, ss: seq<Step>, r: Res)
    requires Run(Boot(recursos, grado), ss) && r in recursos
    ensures var k := Final(Boot(recursos, grado), ss);
      && r in k.disponibles
      && k.disponibles[r] + Sum(map p | p in k.porProceso :: Held(k, p, r)) == recursos[r] + Phantoms(Boot(recursos, grado), ss, r)
      && (k.disponibles[r] > 0 ==> r !in k.enUso)
      && (r in k.enUso <==> List(k, ResQ(r)) != [])
      && forall p :: p in List(k, ResQ(r)) ==> r in Registered(k, p)
  {
    hide Boot, Run, Final, Phantoms, Balance;
    BootIsOk(recursos, grado);
    BootBalance(recursos, grado, r);
    var w, h := RunKeepsInv(Boot(recursos, grado), map[], map[], grado, ss);
    RunBalance(Boot(recursos, grado), map[], map[], grado, ss, r);
    var k := Final(Boot(recursos, grado), ss);
    hide Placed, FilesOk, SemsOk, SlotsOk, Held;
    BalanceIsFreePlusHeld(k, r);
  }

  /** Once torn down, a process is nowhere, holds no resource and has no file open. */
  lemma TeardownLeavesNothing(k: KState, w: map<Pid, Loc>, h: map<File, Pid>, grado: nat)
    requires Inv(k, w, h, grado) && k.leaving.Some?
    ensures Enabled(k, Teardown) && Safe(k, Teardown)
    ensures var k', p := Next(k, Teardown), k.leaving.value;
      && Registered(k', p) == [] && Table(k', p) == []
      && forall l :: p !in List(k', l)
  {
    EnabledIsSafe(k, w, h, grado, Teardown);
    var w', h' := DismissKeepsInv(k, w, h, grado);
    var k', p := Dismiss(k, k.leaving.value), k.leaving.value;
    assert p !in k'.abiertos;
    assert forall l :: Holds(List(k', l), w', l);
    hide Dismiss, List;
  }

  // ----- files -----

  /** An open file has one entry more, over all tables, than processes in line; only one process that
      lists it is not in line; and nobody lists a file that is not open. */
  ghost predicate Exclusive(k: KState, f: File) {
    && (f in k.gdt <==> f in k.colas)
    && (f in k.gdt ==> Sum(map p | p in k.abiertos :: multiset(k.abiertos[p])[f]) == 1 + |k.colas[f]|)
    && (forall p :: f in Table(k, p) ==> f in k.gdt)
    && (forall p, q :: f in Table(k, p) && f in Table(k, q) && p !in At(k.colas, f) && q !in At(k.colas, f) ==> p == q)
    && (f in k.gdt ==> exists p :: multiset(Table(k, p))[f] == 1 + multiset(k.colas[f])[p])
  }

  lemma FilesAreExclusive(k: KState, h: map<File, Pid>, f: File)
    requires FilesOk(k, h)
    ensures Exclusive(k, f)
  {
    if f in k.gdt {
      EntriesOfOpenFile(k, h, f);
      assert Count(k, h[f], f) == Share(k, h, h[f], f);
    }
    forall p | f in Table(k, p) ensures f in k.gdt && (p in At(k.colas, f) || h[f] == p) {
      assert Count(k, p, f) == Share(k, h, p, f);
    }
  }

  lemma EveryRunKeepsFilesExclusive(recursos: map<Res, int>, grado: nat, ss: seq<Step>, f: File)
    requires Run(Boot(recursos, grado), ss)
    ensures Exclusive(Final(Boot(recursos, grado), ss), f)
  {
    hide Boot, Run, Final, Exclusive;
    BootIsOk(recursos, grado);
    var w, h := RunKeepsInv(Boot(recursos, grado), map[], map[], grado, ss);
    FilesAreExclusive(Final(Boot(recursos, grado), ss), h, f);
  }

  /** Only the process being served or dismissed has its table changed. */
  lemma StepKeepsTable(k: KState, s: Step, p: Pid)
    requires Enabled(k, s) && Safe(k, s) && p in k.abiertos && p in k.seen
    requires k.serving.Some? ==> p != k.serving.value.pid
    requires k.leaving.Some? ==> p != k.leaving.value
    ensures Table(Next(k, s), p) == Table(k, p)
  {
    hide Wait, Signal, Attend, Dismiss, Move, Tick, FilesReady;
    if Signalling(s) || Plain(s) {
      assert Next(k, s).abiertos == k.abiertos;
    } else {
      match s
      case Arrive(q) =>
      case CallWait(r) => WaitFrame(Stopped(k), k.running.value, r);
      case CallSignal(r) => SignalFrame(Stopped(k), k.running.value, r);
      case Serve(ok) => AttendKeepsTable(k, ok, p);
      case Teardown => DismissKeepsTable(k, k.leaving.value, p);
    }
  }

  lemma CloseKeepsTable(k: KState, q: Pid, f: File, p: Pid)
    requires p != q && (f in Table(k, q) ==> f in k.colas)
    ensures Table(CloseFile(k, q, f), p) == Table(k, p)
  {
    match Position(Table(k, q), f)
    case None =>
    case Some(i) =>
      var k1 := PushReady(k.(abiertos := k.abiertos[q := RemoveAt(Table(k, q), i)]), q);
      FreeFrame(k1, f);
      hide FreeFile;
  }

  lemma OpenKeepsTable(k: KState, q: Pid, f: File, p: Pid)
    requires p != q && (f in k.gdt ==> f in k.colas)
    ensures Table(OpenFile(k, q, f), p) == Table(k, p)
  {
  }

  lemma AttendKeepsTable(k: KState, ok: bool, p: Pid)
    requires k.serving.Some? && FilesReady(k) && p != k.serving.value.pid
    ensures Table(Attend(k, ok), p) == Table(k, p)
  {
    hide OpenFile, CloseFile, UnshiftReady, PushExit;
    var k0, q := Served(k), k.serving.value.pid;
    Requeue(k0, q);
    assert Table(k0, p) == Table(k, p);
    match k.serving.value.req
    case FOpen(f) => OpenKeepsTable(k0, q, f, p);
    case FClose(f) => CloseKeepsTable(k0, q, f, p);
    case FTruncate(_) =>
    case FSeek(_) =>
    case FUse(_) =>
  }

  lemma {:induction false} CloseAllKeepsTable(k: KState, q: Pid, p: Pid)
    requires p != q
    ensures Table(CloseAll(k, q), p) == Table(k, p)
    decreases |Table(k, q)|
  {
    var fs := Table(k, q);
    if fs != [] && fs[0] in k.colas {
      var k1 := k.(abiertos := k.abiertos[q := fs[1..]]);
      FreeFrame(k1, fs[0]);
      hide FreeFile;
      CloseAllKeepsTable(FreeFile(k1, fs[0]), q, p);
    }
  }

  lemma DismissKeepsTable(k: KState, q: Pid, p: Pid)
    requires QueuesOk(k) && p != q
    ensures Table(Dismiss(k, q), p) == Table(k, p)
  {
    var k0 := k.(leaving := None);
    ReleaseAllFrame(k0, q);
    CloseAllKeepsTable(ReleaseAll(k0, q), q, p);
    hide ReleaseAll, CloseAll, QueuesOk;
  }

  lemma InHandIsPlaced(k: KState, w: map<Pid, Loc>)
    requires Placed(k, w)
    ensures k.serving.Some? ==> k.serving.value.pid in w && w[k.serving.value.pid] == Serving
    ensures k.leaving.Some? ==> k.leaving.value in w && w[k.leaving.value] == Leaving
  {
    assert Holds(List(k, Serving), w, Serving) && Holds(List(k, Leaving), w, Leaving);
    assert k.serving.Some? ==> List(k, Serving)[0] == k.serving.value.pid;
    assert k.leaving.Some? ==> List(k, Leaving)[0] == k.leaving.value;
  }

  lemma ListedTwiceIsQueued(k: KState, w: map<Pid, Loc>, h: map<File, Pid>, grado: nat, p: Pid, f: File)
    requires Inv(k, w, h, grado) && multiset(Table(k, p))[f] >= 2
    ensures p in At(k.colas, f) && p in k.abiertos && p in k.seen
    ensures k.serving.Some? ==> p != k.serving.value.pid
    ensures k.leaving.Some? ==> p != k.leaving.value
  {
    assert Count(k, p, f) == Share(k, h, p, f);
    assert Holds(List(k, FileQ(f)), w, FileQ(f));
    InHandIsPlaced(k, w);
  }

  /** A process that opened the same file twice waits for it in every state from then on. */
  lemma {:induction false} OpenedTwiceWaitsForever(k: KState, w: map<Pid, Loc>, h: map<File, Pid>, grado: nat,
                                                  ss: seq<Step>, p: Pid, f: File)
    requires Inv(k, w, h, grado) && Run(k, ss) && multiset(Table(k, p))[f] >= 2
    ensures p in List(Final(k, ss), FileQ(f))
    decreases |ss|
  {
    hide Inv, Next, Enabled, Safe, Table;
    ListedTwiceIsQueued(k, w, h, grado, p, f);
    if ss != [] {
      var w1, h1 := StepKeepsInv(k, w, h, grado, ss[0]);
      StepKeepsTable(k, ss[0], p);
      OpenedTwiceWaitsForever(Apply(k, ss[0]), w1, h1, grado, ss[1..], p, f);
    }
  }
}
