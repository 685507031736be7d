/** One step of the kernel keeps the whole invariant: places, semaphores, slots, resources and files. */
module KernelSteps {
  import opened Sums
  import opened Kernel
  import opened KernelPlaces
  import opened KernelResources
  import opened KernelFiles

  // ----- frames of the operations -----

  function Size(s: Sem): nat { s.count + s.owed + if s.taken then 1 else 0 }

  /** Nothing changed except the ready and exit lists, in step with their semaphores, and the books. */
  ghost predicate Quiet(k: KState, k': KState) {
    && |k'.ready| - Size(k'.semReady) == |k.ready| - Size(k.semReady)
    && |k'.exiting| - Size(k'.semExit) == |k.exiting| - Size(k.semExit)
    && k'.nuevos == k.nuevos && k'.running == k.running && k'.sleeping == k.sleeping && k'.fsQueue == k.fsQueue
    && k'.serving == k.serving && k'.leaving == k.leaving && k'.semNew == k.semNew && k'.semBlocked == k.semBlocked
    && k'.espacio == k.espacio && k'.admitting == k.admitting && k'.seen == k.seen
  }

  ghost predicate OnlyResources(k: KState, k': KState) {
    Quiet(k, k') && k'.gdt == k.gdt && k'.colas == k.colas && k'.abiertos == k.abiertos
  }

  ghost predicate OnlyFiles(k: KState, k': KState) {
    Quiet(k, k') && k'.enUso == k.enUso && k'.disponibles == k.disponibles && k'.porProceso == k.porProceso
  }

  lemma Requeue(k: KState, p: Pid)
    ensures OnlyResources(k, PushReady(k, p)) && OnlyFiles(k, PushReady(k, p))
    ensures OnlyResources(k, UnshiftReady(k, p)) && OnlyFiles(k, UnshiftReady(k, p))
    ensures OnlyResources(k, PushExit(k, p)) && OnlyFiles(k, PushExit(k, p))
  {
  }

  lemma ReleaseFrame(k: KState, r: Res)
    requires QueuesOk(k) && r in k.disponibles
    ensures OnlyResources(k, Release(k, r)) && Release(k, r).porProceso == k.porProceso
  {
    if r in k.enUso {
      var k1 := k.(enUso := Dequeue(k.enUso, r));
      Requeue(k1, k.enUso[r][0]);
      hide PushReady, Dequeue;
    }
  }

  lemma WaitIs(k: KState, p: Pid, r: Res)
    ensures r !in k.disponibles ==> Wait(k, p, r) == PushExit(k, p)
    ensures r in k.disponibles && k.disponibles[r] >= 1 ==>
      Wait(k, p, r) == UnshiftReady(Register(k, p, r).(disponibles := k.disponibles[r := k.disponibles[r] - 1]), p)
    ensures r in k.disponibles && k.disponibles[r] < 1 ==>
      Wait(k, p, r) == Register(k, p, r).(enUso := k.enUso[r := At(k.enUso, r) + [p]])
  {
    hide UnshiftReady, PushExit, Register;
    if r in k.disponibles {}
  }

  lemma WaitFrame(k: KState, p: Pid, r: Res)
    ensures OnlyResources(k, Wait(k, p, r))
  {
    hide PushExit, UnshiftReady, Registered;
    if r !in k.disponibles {
      Requeue(k, p);
    } else if k.disponibles[r] >= 1 {
      var k1 := Register(k, p, r).(disponibles := k.disponibles[r := k.disponibles[r] - 1]);
      Requeue(k1, p);
      assert OnlyResources(k, k1);
    }
  }

  lemma SignalFrame(k: KState, p: Pid, r: Res)
    requires QueuesOk(k) && (r in k.disponibles ==> p in k.porProceso)
    ensures OnlyResources(k, Signal(k, p, r))
  {
    if r in k.disponibles {
      var k1 := Unregister(k, p, r);
      assert OnlyResources(k, k1);
      Requeue(k1, p);
      ReleaseFrame(UnshiftReady(k1, p), r);
      hide Release, Unregister, UnshiftReady;
    } else {
      Requeue(k, p);
    }
  }

  lemma {:induction false} ReleaseAllFrame(k: KState, p: Pid)
    requires QueuesOk(k)
    ensures OnlyResources(k, ReleaseAll(k, p))
    decreases |Registered(k, p)|
  {
    var rs := Registered(k, p);
    if rs != [] && rs[0] in k.disponibles {
      var k1 := k.(porProceso := k.porProceso[p := rs[1..]]);
      ReleaseKeepsQueues(k1, rs[0]);
      ReleaseFrame(k1, rs[0]);
      hide Release;
      ReleaseAllFrame(Release(k1, rs[0]), p);
    }
  }

  lemma FreeFrame(k: KState, f: File)
    requires f in k.colas
    ensures OnlyFiles(k, FreeFile(k, f)) && FreeFile(k, f).abiertos == k.abiertos
  {
    hide PushReady, WithoutFirst;
    if k.colas[f] != [] {
      var k1 := k.(colas := k.colas[f := k.colas[f][1..]]);
      Requeue(k1, k.colas[f][0]);
    }
  }

  lemma OpenFrame(k: KState, p: Pid, f: File)
    requires f in k.gdt ==> f in k.colas
    ensures OnlyFiles(k, OpenFile(k, p, f)) && OpenFile(k, p, f).abiertos.Keys == k.abiertos.Keys + {p}
  {
    if f !in k.gdt {
      var k1 := k.(abiertos := k.abiertos[p := [f] + Table(k, p)], gdt := k.gdt + [f], colas := k.colas[f := []]);
      Requeue(k1, p);
      hide UnshiftReady, Table;
    }
  }

  lemma CloseFrame(k: KState, p: Pid, f: File)
    requires f in Table(k, p) ==> f in k.colas
    ensures OnlyFiles(k, CloseFile(k, p, f)) && CloseFile(k, p, f).abiertos.Keys == k.abiertos.Keys
  {
    match Position(Table(k, p), f)
    case None =>
      assert CloseFile(k, p, f) == PushExit(k, p);
      Requeue(k, p);
    case Some(i) =>
      var k1 := k.(abiertos := k.abiertos[p := RemoveAt(Table(k, p), i)]);
      assert CloseFile(k, p, f) == FreeFile(PushReady(k1, p), f);
      assert k1.abiertos.Keys == k.abiertos.Keys;
      Requeue(k1, p);
      hide FreeFile, CloseFile, PushReady;
      FreeFrame(PushReady(k1, p), f);
  }

  lemma {:induction false} CloseAllFrame(k: KState, p: Pid)
    ensures OnlyFiles(k, CloseAll(k, p)) && CloseAll(k, p).abiertos.Keys == k.abiertos.Keys
    decreases |Table(k, p)|
  {
    var fs := Table(k, p);
    if fs != [] && fs[0] in k.colas {
      var k1 := k.(abiertos := k.abiertos[p := fs[1..]]);
      FreeFrame(k1, fs[0]);
      hide FreeFile;
      CloseAllFrame(FreeFile(k1, fs[0]), p);
    }
  }

  // ----- the invariant -----

  /** Every semaphore counts its list, up to posts still owed and a wait already passed. */
  ghost predicate SemsOk(k: KState) {
    && |k.nuevos| == Size(k.semNew)
    && |k.ready| == Size(k.semReady)
    && |k.exiting| == Size(k.semExit)
    && |k.fsQueue| == Size(k.semBlocked)
  }

  /** Slots: free ones, one held for the process about to be admitted, and one for each admitted
      process that is not yet torn down, make the configured degree of multiprogramming. */
  ghost predicate SlotsOk(k: KState, grado: nat) {
    && k.espacio + (if k.admitting then 1 else 0) + |k.abiertos.Keys| - |k.nuevos| == grado
    && k.abiertos.Keys <= k.seen
  }

  ghost predicate Inv(k: KState, w: map<Pid, Loc>, h: map<File, Pid>, grado: nat) {
    && SemsOk(k) && SlotsOk(k, grado) && Placed(k, w) && w.Keys == k.abiertos.Keys && ResOk(k) && FilesOk(k, h)
  }

  /** No step ever removes from an empty list or looks up a missing key. */
  lemma EnabledIsSafe(k: KState, w: map<Pid, Loc>, h: map<File, Pid>, grado: nat, s: Step)
    requires Inv(k, w, h, grado) && Enabled(k, s)
    ensures Safe(k, s)
  {
    FilesOkIsReady(k, h);
  }

  // ----- one process in hand -----

  ghost predicate Core(k: KState, h: map<File, Pid>, grado: nat) {
    SemsOk(k) && SlotsOk(k, grado) && ResOk(k) && FilesOk(k, h)
  }

  /** The invariant while process `p` is on no list. */
  ghost predicate InHand(k: KState, w: map<Pid, Loc>, h: map<File, Pid>, grado: nat, p: Pid) {
    Core(k, h, grado) && Placed(k, w) && p in k.abiertos && w.Keys == k.abiertos.Keys - {p}
  }

  lemma CoreKept(k: KState, k': KState, h: map<File, Pid>, grado: nat)
    requires Core(k, h, grado) && SemsOk(k') && k'.seen == k.seen
    requires k'.espacio + (if k'.admitting then 1 else 0) - |k'.nuevos| == k.espacio + (if k.admitting then 1 else 0) - |k.nuevos|
    requires k'.abiertos == k.abiertos && k'.gdt == k.gdt && k'.colas == k.colas
    requires k'.enUso == k.enUso && k'.disponibles == k.disponibles && k'.porProceso == k.porProceso
    ensures Core(k', h, grado)
  {
    hide ResOk, FilesOk, SemsOk;
    SameResources(k, k');
    SameFiles(k, k', h);
  }

  lemma TakeAway(k: KState, k': KState, w: map<Pid, Loc>, h: map<File, Pid>, grado: nat, l: Loc)
    requires Inv(k, w, h, grado) && |List(k, l)| == 1 && List(k', l) == [] && OnlyAt(k, k', l) && Core(k', h, grado)
    requires k'.abiertos == k.abiertos
    ensures InHand(k', w - {List(k, l)[0]}, h, grado, List(k, l)[0])
  {
    hide Core, List, OnlyAt, SemsOk, SlotsOk, ResOk, FilesOk;
    TakeKeeps(k, k', w, l, 0);
    assert Holds(List(k, l), w, l);
    assert List(k, l)[0] in List(k, l);
    hide Placed;
  }

  /** A process that a thread takes over is in hand. */
  lemma TakeOver(k: KState, w: map<Pid, Loc>, h: map<File, Pid>, grado: nat)
    requires Inv(k, w, h, grado)
    ensures k.running.Some? ==> InHand(Stopped(k), w - {k.running.value}, h, grado, k.running.value)
    ensures k.serving.Some? ==> InHand(Served(k), w - {k.serving.value.pid}, h, grado, k.serving.value.pid)
    ensures k.leaving.Some? ==> InHand(k.(leaving := None), w - {k.leaving.value}, h, grado, k.leaving.value)
  {
    hide Inv, InHand, Stopped, Served;
    if k.running.Some? { TakeRunning(k, w, h, grado); }
    if k.serving.Some? { TakeServing(k, w, h, grado); }
    if k.leaving.Some? { TakeLeaving(k, w, h, grado); }
  }

  lemma TakeRunning(k: KState, w: map<Pid, Loc>, h: map<File, Pid>, grado: nat)
    requires Inv(k, w, h, grado) && k.running.Some?
    ensures InHand(Stopped(k), w - {k.running.value}, h, grado, k.running.value)
  {
    var k1 := Stopped(k);
    assert List(k, Running) == [k.running.value] && OnlyAt(k, k1, Running) && List(k1, Running) == [] && SemsOk(k1);
    hide OnlyAt, List, SemsOk, SlotsOk, ResOk, FilesOk, Placed, InHand;
    CoreKept(k, k1, h, grado);
    TakeAway(k, k1, w, h, grado, Running);
  }

  lemma TakeServing(k: KState, w: map<Pid, Loc>, h: map<File, Pid>, grado: nat)
    requires Inv(k, w, h, grado) && k.serving.Some?
    ensures InHand(Served(k), w - {k.serving.value.pid}, h, grado, k.serving.value.pid)
  {
    var k1 := Served(k);
    assert List(k, Serving) == [k.serving.value.pid] && OnlyAt(k, k1, Serving) && List(k1, Serving) == [] && SemsOk(k1);
    hide OnlyAt, List, SemsOk, SlotsOk, ResOk, FilesOk, Placed, InHand;
    CoreKept(k, k1, h, grado);
    TakeAway(k, k1, w, h, grado, Serving);
  }

  lemma TakeLeaving(k: KState, w: map<Pid, Loc>, h: map<File, Pid>, grado: nat)
    requires Inv(k, w, h, grado) && k.leaving.Some?
    ensures InHand(k.(leaving := None), w - {k.leaving.value}, h, grado, k.leaving.value)
  {
    var k1 := k.(leaving := None);
    assert List(k, Leaving) == [k.leaving.value] && OnlyAt(k, k1, Leaving) && List(k1, Leaving) == [] && SemsOk(k1);
    hide OnlyAt, List, SemsOk, SlotsOk, ResOk, FilesOk, Placed, InHand;
    CoreKept(k, k1, h, grado);
    TakeAway(k, k1, w, h, grado, Leaving);
  }

  lemma QuietSems(k: KState, k': KState)
    requires SemsOk(k) && Quiet(k, k')
    ensures SemsOk(k')
  {
  }

  lemma QuietSlots(k: KState, k': KState, grado: nat)
    requires SlotsOk(k, grado) && Quiet(k, k') && k'.abiertos.Keys == k.abiertos.Keys
    ensures SlotsOk(k', grado)
  {
  }

  /** A process in hand is in no queue. */
  lemma InHandWaitsNowhere(k: KState, w: map<Pid, Loc>, p: Pid)
    requires Placed(k, w) && p !in w
    ensures NotQueued(k, p) && NotWaiting(k, p)
  {
    forall r ensures p !in At(k.enUso, r) { assert Holds(List(k, ResQ(r)), w, ResQ(r)); }
    forall f ensures p !in At(k.colas, f) { assert Holds(List(k, FileQ(f)), w, FileQ(f)); }
  }

  // ----- the operations keep the invariant -----

  lemma WaitKeepsInv(k: KState, w: map<Pid, Loc>, h: map<File, Pid>, grado: nat, p: Pid, r: Res) returns (w': map<Pid, Loc>)
    requires InHand(k, w, h, grado, p)
    ensures Inv(Wait(k, p, r), w', h, grado)
  {
    assert w.Keys + {p} == k.abiertos.Keys;
    hide Wait, Placed, ResOk, FilesOk, SemsOk, SlotsOk;
    var k' := Wait(k, p, r);
    WaitFrame(k, p, r);
    w' := WaitPlaces(k, w, p, r);
    WaitResources(k, p, r);
    assert forall q :: Table(k', q) == Table(k, q);
    SameFiles(k, k', h);
    hide Quiet;
    QuietSems(k, k');
    QuietSlots(k, k', grado);
  }

  lemma SignalKeepsInv(k: KState, w: map<Pid, Loc>, h: map<File, Pid>, grado: nat, p: Pid, r: Res) returns (w': map<Pid, Loc>)
    requires InHand(k, w, h, grado, p) && (r in k.disponibles ==> p in k.porProceso)
    ensures QueuesOk(k) && Inv(Signal(k, p, r), w', h, grado)
  {
    assert QueuesOk(k) && w.Keys + {p} == k.abiertos.Keys;
    hide Signal, Placed, ResOk, FilesOk, SemsOk, SlotsOk, QueuesOk;
    var k' := Signal(k, p, r);
    InHandWaitsNowhere(k, w, p);
    SignalFrame(k, p, r);
    w' := SignalPlaces(k, w, p, r);
    SignalResources(k, p, r);
    assert forall q :: Table(k', q) == Table(k, q);
    SameFiles(k, k', h);
    hide Quiet;
    QuietSems(k, k');
    QuietSlots(k, k', grado);
  }

  lemma OpenKeepsInv(k: KState, w: map<Pid, Loc>, h: map<File, Pid>, grado: nat, p: Pid, f: File) returns (w': map<Pid, Loc>)
    requires InHand(k, w, h, grado, p)
    ensures (f in k.gdt ==> f in k.colas) && Inv(OpenFile(k, p, f), w', Opened(k, h, p, f), grado)
  {
    assert f in k.gdt <==> f in k.colas;
    assert w.Keys + {p} == k.abiertos.Keys;
    hide OpenFile, Placed, ResOk, FilesOk, SemsOk, SlotsOk, Opened;
    var k' := OpenFile(k, p, f);
    OpenFrame(k, p, f);
    w' := OpenFilePlaces(k, w, p, f);
    OpenFiles(k, h, p, f);
    SameResources(k, k');
    assert k'.abiertos.Keys == k.abiertos.Keys;
    hide Quiet;
    QuietSems(k, k');
    QuietSlots(k, k', grado);
  }

  lemma CloseKeepsInv(k: KState, w: map<Pid, Loc>, h: map<File, Pid>, grado: nat, p: Pid, f: File)
    returns (w': map<Pid, Loc>, h': map<File, Pid>)
    requires InHand(k, w, h, grado, p)
    ensures (f in Table(k, p) ==> f in k.colas) && Inv(CloseFile(k, p, f), w', h', grado)
  {
    assert w.Keys + {p} == k.abiertos.Keys;
    InHandWaitsNowhere(k, w, p);
    if f in Table(k, p) { NotWaitingHolds(k, h, p, f); }
    hide CloseFile, Placed, ResOk, FilesOk, SemsOk, SlotsOk, Table;
    var k' := CloseFile(k, p, f);
    CloseFrame(k, p, f);
    w' := CloseFilePlaces(k, w, p, f);
    h' := CloseFiles(k, h, p, f);
    SameResources(k, k');
    hide Quiet;
    QuietSems(k, k');
    QuietSlots(k, k', grado);
  }

  lemma RequeueKeepsInv(k: KState, w: map<Pid, Loc>, h: map<File, Pid>, grado: nat, p: Pid)
    requires InHand(k, w, h, grado, p)
    ensures Inv(PushReady(k, p), w[p := Ready], h, grado)
    ensures Inv(UnshiftReady(k, p), w[p := Ready], h, grado)
    ensures Inv(PushExit(k, p), w[p := Exiting], h, grado)
  {
    hide PushReady, UnshiftReady, PushExit, Placed, ResOk, FilesOk, SemsOk, SlotsOk;
    Requeue(k, p);
    PushReadyPlaces(k, w, p);
    UnshiftReadyPlaces(k, w, p);
    PushExitPlaces(k, w, p);
    QuietSems(k, PushReady(k, p));
    QuietSems(k, UnshiftReady(k, p));
    QuietSems(k, PushExit(k, p));
    CoreKept(k, PushReady(k, p), h, grado);
    CoreKept(k, UnshiftReady(k, p), h, grado);
    CoreKept(k, PushExit(k, p), h, grado);
  }

  lemma AttendIs(k: KState, ok: bool)
    requires k.serving.Some? && FilesReady(k)
    ensures var req, p, k0 := k.serving.value.req, k.serving.value.pid, Served(k);
      && (req.FOpen? ==> (req.f in k0.gdt ==> req.f in k0.colas) && Attend(k, ok) == OpenFile(k0, p, req.f))
      && (req.FClose? ==> (req.f in Table(k0, p) ==> req.f in k0.colas) && Attend(k, ok) == CloseFile(k0, p, req.f))
      && (req.FTruncate? && ok ==> Attend(k, ok) == UnshiftReady(k0, p))
      && (req.FTruncate? && !ok ==> Attend(k, ok) == PushExit(k0, p))
      && (req.FSeek? || req.FUse? ==> Attend(k, ok) == UnshiftReady(k0, p))
  {
    hide OpenFile, CloseFile, UnshiftReady, PushExit;
  }

  lemma AttendKeepsInv(k: KState, w: map<Pid, Loc>, h: map<File, Pid>, grado: nat, ok: bool)
    returns (w': map<Pid, Loc>, h': map<File, Pid>)
    requires Inv(k, w, h, grado) && k.serving.Some?
    ensures FilesReady(k) && Inv(Attend(k, ok), w', h', grado)
  {
    FilesOkIsReady(k, h);
    TakeOver(k, w, h, grado);
    AttendIs(k, ok);
    hide Inv, InHand, OpenFile, CloseFile, UnshiftReady, PushExit, FilesReady, Attend;
    var p := k.serving.value.pid;
    var w1 := w - {p};
    h' := h;
    match k.serving.value.req
    case FOpen(f) =>
      w' := OpenKeepsInv(Served(k), w1, h, grado, p, f);
      h' := Opened(Served(k), h, p, f);
    case FClose(f) => w', h' := CloseKeepsInv(Served(k), w1, h, grado, p, f);
    case FTruncate(_) =>
      RequeueKeepsInv(Served(k), w1, h, grado, p);
      w' := if ok then w1[p := Ready] else w1[p := Exiting];
    case FSeek(_) =>
      RequeueKeepsInv(Served(k), w1, h, grado, p);
      w' := w1[p := Ready];
    case FUse(_) =>
      RequeueKeepsInv(Served(k), w1, h, grado, p);
      w' := w1[p := Ready];
  }

  /** Resources go back and files close before the process disappears. */
  lemma GiveBack(k: KState, w: map<Pid, Loc>, h: map<File, Pid>, grado: nat, p: Pid)
    returns (w': map<Pid, Loc>, h': map<File, Pid>)
    requires InHand(k, w, h, grado, p)
    ensures QueuesOk(k)
    ensures InHand(CloseAll(ReleaseAll(k, p), p), w', h', grado, p)
    ensures Table(CloseAll(ReleaseAll(k, p), p), p) == [] && Registered(CloseAll(ReleaseAll(k, p), p), p) == []
  {
    assert QueuesOk(k);
    InHandWaitsNowhere(k, w, p);
    var k1 := ReleaseAll(k, p);
    var k2 := CloseAll(k1, p);
    hide ReleaseAll, CloseAll, Placed, ResOk, FilesOk, SemsOk, SlotsOk, QueuesOk, Inv;
    ReleaseAllFrame(k, p);
    var w1 := ReleaseAllPlaces(k, w, p);
    ReleaseAllResources(k, p);
    hide Shifts;
    CloseAllFrame(k1, p);
    w' := CloseAllPlaces(k1, w1, p);
    InHandWaitsNowhere(k1, w1, p);
    assert forall q :: Table(k1, q) == Table(k, q);
    SameFiles(k, k1, h);
    h' := CloseAllFiles(k1, h, p);
    SameResources(k1, k2);
    assert Registered(k2, p) == Registered(k1, p);
    assert Quiet(k, k2);
    hide Quiet;
    QuietSems(k, k2);
    QuietSlots(k, k2, grado);
  }

  /** The process disappears, and its slot is free again. */
  lemma Forget(k: KState, w: map<Pid, Loc>, h: map<File, Pid>, grado: nat, p: Pid)
    requires InHand(k, w, h, grado, p) && Table(k, p) == []
    ensures Inv(k.(abiertos := k.abiertos - {p}, espacio := k.espacio + 1), w, h, grado)
  {
    var k' := k.(abiertos := k.abiertos - {p}, espacio := k.espacio + 1);
    assert w.Keys == k'.abiertos.Keys && k'.abiertos.Keys == k.abiertos.Keys - {p};
    assert SlotsOk(k', grado) && SemsOk(k');
    assert forall q :: Table(k', q) == Table(k, q);
    assert forall l :: List(k', l) == List(k, l);
    hide Placed, ResOk, FilesOk, SemsOk, SlotsOk, List, Table;
    SameListsPlaces(k, k', w);
    SameResources(k, k');
    SameFiles(k, k', h);
  }

  lemma TearDown(k: KState, w: map<Pid, Loc>, h: map<File, Pid>, grado: nat, p: Pid)
    returns (w': map<Pid, Loc>, h': map<File, Pid>)
    requires InHand(k, w, h, grado, p)
    ensures QueuesOk(k)
    ensures var k2 := CloseAll(ReleaseAll(k, p), p);
      && Inv(k2.(abiertos := k2.abiertos - {p}, espacio := k2.espacio + 1), w', h', grado)
      && Registered(k2, p) == []
  {
    hide Inv, InHand, ReleaseAll, CloseAll, Table, QueuesOk, Registered, Quiet;
    w', h' := GiveBack(k, w, h, grado, p);
    Forget(CloseAll(ReleaseAll(k, p), p), w', h', grado, p);
  }

  lemma DismissKeepsInv(k: KState, w: map<Pid, Loc>, h: map<File, Pid>, grado: nat)
    returns (w': map<Pid, Loc>, h': map<File, Pid>)
    requires Inv(k, w, h, grado) && k.leaving.Some?
    ensures QueuesOk(k) && Inv(Dismiss(k, k.leaving.value), w', h', grado)
    ensures Registered(Dismiss(k, k.leaving.value), k.leaving.value) == []
  {
    var p, k0 := k.leaving.value, k.(leaving := None);
    QueuesOf(k, w, h, grado);
    DismissIs(k, p);
    hide Inv, InHand, ReleaseAll, CloseAll, QueuesOk, Registered, Dismiss;
    TakeLeaving(k, w, h, grado);
    w', h' := TearDown(k0, w - {p}, h, grado, p);
  }

  lemma QueuesOf(k: KState, w: map<Pid, Loc>, h: map<File, Pid>, grado: nat)
    requires Inv(k, w, h, grado)
    ensures QueuesOk(k)
  {
  }

  lemma DismissIs(k: KState, p: Pid)
    requires QueuesOk(k)
    ensures QueuesOk(k.(leaving := None))
    ensures var k2 := CloseAll(ReleaseAll(k.(leaving := None), p), p);
      && Dismiss(k, p) == k2.(abiertos := k2.abiertos - {p}, espacio := k2.espacio + 1)
      && Registered(Dismiss(k, p), p) == Registered(k2, p)
  {
    hide ReleaseAll, CloseAll;
  }

  /** A console connects under a PID never used before. */
  lemma ArriveKeepsInv(k: KState, w: map<Pid, Loc>, h: map<File, Pid>, grado: nat, p: Pid)
    requires Inv(k, w, h, grado) && p !in k.seen
    ensures Inv(Arrived(k, p), w[p := New], h, grado)
  {
    var k' := Arrived(k, p);
    hide Placed, ResOk, FilesOk, SemsOk, SlotsOk, Table, OnlyAt, List, Arrived;
    ArriveSlots(k, grado, p);
    ArriveFrame(k, p);
    PutKeeps(k, k', w, New, p, |k.nuevos|);
    SameResources(k, k');
    SameFiles(k, k', h);
  }

  lemma ArriveFrame(k: KState, p: Pid)
    requires p !in k.abiertos
    ensures var k' := Arrived(k, p);
      && (SemsOk(k) ==> SemsOk(k')) && (forall q :: Table(k', q) == Table(k, q)) && OnlyAt(k, k', New)
      && List(k, New) == k.nuevos && List(k', New) == k.nuevos[..|k.nuevos|] + [p] + k.nuevos[|k.nuevos|..]
      && k'.enUso == k.enUso && k'.disponibles == k.disponibles && k'.porProceso == k.porProceso
      && k'.gdt == k.gdt && k'.colas == k.colas
  {
  }

  lemma ArriveSlots(k: KState, grado: nat, p: Pid)
    requires SlotsOk(k, grado) && p !in k.seen
    ensures SlotsOk(Arrived(k, p), grado) && p !in k.abiertos && Arrived(k, p).abiertos.Keys == k.abiertos.Keys + {p}
  {
    assert p !in k.abiertos.Keys && Arrived(k, p).abiertos.Keys == k.abiertos.Keys + {p};
  }

  // ----- plain steps -----

  lemma TickKeepsSems(k: KState, s: Step)
    requires SemsOk(k) && Signalling(s) && Enabled(k, s)
    ensures SemsOk(Tick(k, s))
    ensures var m := Tick(k, s); m.espacio + (if m.admitting then 1 else 0) == k.espacio + if k.admitting then 1 else 0
  {
  }

  lemma TickKeepsInv(k: KState, w: map<Pid, Loc>, h: map<File, Pid>, grado: nat, s: Step)
    requires Inv(k, w, h, grado) && Signalling(s) && Enabled(k, s)
    ensures Inv(Tick(k, s), w, h, grado)
  {
    hide Placed, ResOk, FilesOk, Enabled, Tick, SlotsOk;
    var k' := Tick(k, s);
    TickKeepsSems(k, s);
    assert forall l :: List(k', l) == List(k, l);
    hide SemsOk;
    SameListsPlaces(k, k', w);
    CoreKept(k, k', h, grado);
  }

  /** A plain step keeps lists and semaphores in step, and uses no slot. */
  lemma MoveKeepsSems(k: KState, s: Step)
    requires SemsOk(k) && Plain(s) && Enabled(k, s) && Safe(k, s)
    ensures SemsOk(Move(k, s))
    ensures var m := Move(k, s);
      && m.espacio + (if m.admitting then 1 else 0) - |m.nuevos| == k.espacio + (if k.admitting then 1 else 0) - |k.nuevos|
      && m.seen == k.seen
  {
    hide QueuesOk, FilesReady;
    MoveKeepsReadySem(k, s);
    hide PushReady, UnshiftReady;
  }

  lemma MoveKeepsReadySem(k: KState, s: Step)
    requires SemsOk(k) && Plain(s) && Enabled(k, s) && Safe(k, s)
    ensures |Move(k, s).ready| == Size(Move(k, s).semReady)
  {
    hide QueuesOk, FilesReady;
  }

  lemma ListedIsLive(k: KState, w: map<Pid, Loc>, l: Loc, i: nat)
    requires Placed(k, w) && i < |List(k, l)|
    ensures List(k, l)[i] in w && w[List(k, l)[i]] == l
  {
    var q := List(k, l);
    assert Holds(q, w, l);
    var p := q[i];
    assert p in q <==> p in w && w[p] == l;
  }

  lemma MovedIsLive(k: KState, w: map<Pid, Loc>, s: Step)
    requires Placed(k, w) && Plain(s) && Enabled(k, s) && Safe(k, s)
    ensures Moved(k, s).0 in w
  {
    if k.running.Some? { ListedIsLive(k, w, Running, 0); }
    match s
    case Admit => ListedIsLive(k, w, New, 0);
    case Dispatch => ListedIsLive(k, w, Ready, 0);
    case IoDone(i) => ListedIsLive(k, w, Sleeping, i);
    case TakeBlocked => ListedIsLive(k, w, FsQueue, 0);
    case TakeExit => ListedIsLive(k, w, Exiting, 0);
    case _ =>
  }

  lemma MoveKeepsInv(k: KState, w: map<Pid, Loc>, h: map<File, Pid>, grado: nat, s: Step) returns (w': map<Pid, Loc>)
    requires Inv(k, w, h, grado) && Plain(s) && Enabled(k, s) && Safe(k, s)
    ensures Inv(Move(k, s), w', h, grado)
  {
    hide Move, Moved, Enabled, Safe, Placed, SemsOk, SlotsOk, ResOk, FilesOk;
    w' := (w - {Moved(k, s).0})[Moved(k, s).0 := Moved(k, s).1];
    MovedIsLive(k, w, s);
    MovePlaces(k, w, s);
    MoveKeepsSems(k, s);
    CoreKept(k, Move(k, s), h, grado);
  }

  /** Every step keeps the invariant. */
  lemma StepKeepsInv(k: KState, w: map<Pid, Loc>, h: map<File, Pid>, grado: nat, s: Step)
    returns (w': map<Pid, Loc>, h': map<File, Pid>)
    requires Inv(k, w, h, grado) && Enabled(k, s)
    ensures Safe(k, s) && Inv(Next(k, s), w', h', grado)
  {
    EnabledIsSafe(k, w, h, grado, s);
    hide Inv, InHand, Wait, Signal, Attend, Dismiss, Tick, Move, Arrived, Stopped, QueuesOk, FilesReady;
    w', h' := w, h;
    if Signalling(s) {
      TickKeepsInv(k, w, h, grado, s);
    } else if Plain(s) {
      w' := MoveKeepsInv(k, w, h, grado, s);
    } else {
      match s
      case Arrive(p) => ArriveKeepsInv(k, w, h, grado, p); w' := w[p := New];
      case CallWait(r) =>
        TakeOver(k, w, h, grado);
        w' := WaitKeepsInv(Stopped(k), w - {k.running.value}, h, grado, k.running.value, r);
      case CallSignal(r) =>
        TakeOver(k, w, h, grado);
        StoppedBooks(k);
        w' := SignalKeepsInv(Stopped(k), w - {k.running.value}, h, grado, k.running.value, r);
      case Serve(ok) => w', h' := AttendKeepsInv(k, w, h, grado, ok);
      case Teardown => w', h' := DismissKeepsInv(k, w, h, grado);
    }
  }

  lemma StoppedBooks(k: KState)
    ensures Stopped(k).porProceso == k.porProceso && Stopped(k).disponibles == k.disponibles
  {
  }
}
