/** The lists each process keeps, of WAITs it has not undone and of files it has open: how every step changes
    them, and in which order an exit hands on what they name. */
module KernelBooks {
  import opened Sums
  import opened Kernel
  import opened KernelPlaces
  import opened KernelResources
  import opened KernelFiles
  import opened KernelSteps
  import opened KernelRuns

  /** `q'` is `q` without its first `x`. */
  ghost predicate WithoutFirstOne<T>(q: seq<T>, x: T, q': seq<T>) {
    exists i :: 0 <= i < |q| && q[i] == x && x !in q[..i] && q' == q[..i] + q[i + 1..]
  }

  lemma TakesFirst<T>(q: seq<T>, x: T)
    requires x in q
    ensures Position(q, x).Some? && WithoutFirstOne(q, x, RemoveAt(q, Position(q, x).value))
  {
    var i: int := Position(q, x).value;
    assert 0 <= i < |q| && q[i] == x && x !in q[..i] && RemoveAt(q, i) == q[..i] + q[i + 1..];
  }

  // ----- the WAITs a process has not undone -----

  /** What a step does to the WAITs of a process: one more at the end for a WAIT it makes, its first one for the
      resource gone for a SIGNAL it makes, none left once it is torn down, the same ones otherwise. */
  ghost predicate RegistersAs(k: KState, s: Step, p: Pid, q': seq<Res>)
    requires Enabled(k, s)
  {
    var q := Registered(k, p);
    match s
    case CallWait(r) => if k.running == Some(p) && r in k.disponibles then q' == q + [r] else q' == q
    case CallSignal(r) => if k.running == Some(p) && r in k.disponibles && r in q then WithoutFirstOne(q, r, q') else q' == q
    case Teardown => if k.leaving == Some(p) then q' == [] else q' == q
    case _ => q' == q
  }

  lemma {:induction false} ReleaseAllRegisters(k: KState, p: Pid, q: Pid)
    requires QueuesOk(k) && p != q
    ensures Registered(ReleaseAll(k, p), q) == Registered(k, q)
    decreases |Registered(k, p)|
  {
    var rs := Registered(k, p);
    if rs != [] && rs[0] in k.disponibles {
      var k1 := k.(porProceso := k.porProceso[p := rs[1..]]);
      ReleaseKeepsQueues(k1, rs[0]);
      hide Release;
      ReleaseAllRegisters(Release(k1, rs[0]), p, q);
    }
  }

  lemma DismissRegisters(k: KState, w: map<Pid, Loc>, h: map<File, Pid>, grado: nat, q: Pid)
    requires Inv(k, w, h, grado) && k.leaving.Some? && k.leaving.value != q
    ensures Registered(Dismiss(k, k.leaving.value), q) == Registered(k, q)
  {
    var p, k0 := k.leaving.value, k.(leaving := None);
    QueuesOf(k, w, h, grado);
    hide Inv, ReleaseAll, CloseAll;
    ReleaseAllRegisters(k0, p, q);
    CloseAllFrame(ReleaseAll(k0, p), p);
  }

  lemma WaitRegisters(k: KState, p: Pid, r: Res, q: Pid)
    ensures Registered(Wait(k, p, r), q) == if q == p && r in k.disponibles then Registered(k, q) + [r] else Registered(k, q)
  {
    WaitIs(k, p, r);
    hide Wait;
  }

  lemma SignalRegisters(k: KState, p: Pid, r: Res, q: Pid)
    requires QueuesOk(k) && (r in k.disponibles ==> p in k.porProceso)
    ensures q == p && r in k.disponibles && r in Registered(k, p) ==> WithoutFirstOne(Registered(k, q), r, Registered(Signal(k, p, r), q))
    ensures !(q == p && r in k.disponibles && r in Registered(k, p)) ==> Registered(Signal(k, p, r), q) == Registered(k, q)
  {
    if r in k.disponibles {
      var k1 := UnshiftReady(Unregister(k, p, r), p);
      assert k1.porProceso == Unregister(k, p, r).porProceso && QueuesOk(k1);
      ReleaseKeepsQueues(k1, r);
      if r in Registered(k, p) { TakesFirst(Registered(k, p), r); }
      hide Release, WithoutFirstOne, UnshiftReady;
    }
  }

  /** Every step changes them in this way. */
  lemma StepRegisters(k: KState, w: map<Pid, Loc>, h: map<File, Pid>, grado: nat, s: Step, p: Pid)
    requires Inv(k, w, h, grado) && Enabled(k, s)
    ensures Safe(k, s) && RegistersAs(k, s, p, Registered(Next(k, s), p))
  {
    EnabledIsSafe(k, w, h, grado, s);
    if s.CallWait? || s.CallSignal? {
      hide Inv, RegistersAs, Registered, FilesReady, QueuesOk;
      CallRegisters(k, s, p);
    } else if s.Teardown? {
      hide Inv, RegistersAs, Registered, Dismiss, FilesReady, QueuesOk;
      TeardownRegisters(k, w, h, grado, p);
    } else {
      hide Inv, Registered, Next, FilesReady, QueuesOk, Found;
      OthersRegister(k, s);
      SameRegistered(k, Next(k, s), p);
    }
  }

  lemma CallRegisters(k: KState, s: Step, p: Pid)
    requires Enabled(k, s) && Safe(k, s) && (s.CallWait? || s.CallSignal?)
    ensures RegistersAs(k, s, p, Registered(Next(k, s), p))
  {
    hide RegistersAs, Registered, Next, FilesReady, QueuesOk;
    if s.CallWait? { CallWaitRegisters(k, s.r, p); } else { CallSignalRegisters(k, s.r, p); }
  }

  lemma CallWaitRegisters(k: KState, r: Res, p: Pid)
    requires Enabled(k, CallWait(r)) && Safe(k, CallWait(r))
    ensures RegistersAs(k, CallWait(r), p, Registered(Next(k, CallWait(r)), p))
  {
    StoppedBooks(k);
    SameRegistered(k, Stopped(k), p);
    hide Wait, FilesReady, QueuesOk, Registered, Stopped;
    WaitRegisters(Stopped(k), k.running.value, r, p);
  }

  lemma CallSignalRegisters(k: KState, r: Res, p: Pid)
    requires Enabled(k, CallSignal(r)) && Safe(k, CallSignal(r))
    ensures RegistersAs(k, CallSignal(r), p, Registered(Next(k, CallSignal(r)), p))
  {
    StoppedBooks(k);
    SameRegistered(k, Stopped(k), p);
    SameRegistered(k, Stopped(k), k.running.value);
    assert QueuesOk(Stopped(k)) && Next(k, CallSignal(r)) == Signal(Stopped(k), k.running.value, r);
    hide Signal, FilesReady, WithoutFirstOne, QueuesOk, Registered, Stopped, Next;
    SignalRegisters(Stopped(k), k.running.value, r, p);
  }

  lemma TeardownRegisters(k: KState, w: map<Pid, Loc>, h: map<File, Pid>, grado: nat, p: Pid)
    requires Inv(k, w, h, grado) && k.leaving.Some? && Safe(k, Teardown)
    ensures RegistersAs(k, Teardown, p, Registered(Next(k, Teardown), p))
  {
    hide Inv, Dismiss, Registered, FilesReady;
    if k.leaving == Some(p) {
      var w', h' := DismissKeepsInv(k, w, h, grado);
    } else {
      DismissRegisters(k, w, h, grado, p);
    }
  }

  lemma SameRegistered(k: KState, k': KState, p: Pid)
    requires k'.porProceso == k.porProceso
    ensures Registered(k', p) == Registered(k, p)
  {
  }

  lemma OthersRegister(k: KState, s: Step)
    requires Enabled(k, s) && Safe(k, s) && !s.CallWait? && !s.CallSignal? && !s.Teardown?
    ensures Next(k, s).porProceso == k.porProceso
  {
    hide Tick, Move, Attend, FilesReady;
    if s.Arrive? { ArrivedBooks(k, s); }
    if s.Serve? { AttendBooks(k, s.ok); }
  }

  lemma ArrivedBooks(k: KState, s: Step)
    requires s.Arrive? && Enabled(k, s) && Safe(k, s)
    ensures Next(k, s).porProceso == k.porProceso
  {
  }

  // ----- the files a process has open -----

  /** What a step does to the files of a process: the file opened stands in front, the first entry of a file
      closed is gone, none is left after the teardown. A process that arrives has none. */
  ghost predicate ListsAs(k: KState, s: Step, p: Pid, q': seq<File>)
    requires Enabled(k, s)
  {
    var q := Table(k, p);
    match s
    case Serve(_) =>
      if k.serving.value.pid != p then q' == q
      else
        (match k.serving.value.req
         case FOpen(f) => q' == [f] + q
         case FClose(f) => if f in q then WithoutFirstOne(q, f, q') else q' == q
         case _ => q' == q)
    case Arrive(n) => if n == p then q' == [] else q' == q
    case Teardown => if k.leaving == Some(p) then q' == [] else q' == q
    case _ => q' == q
  }

  lemma OpenLists(k: KState, p: Pid, f: File, q: Pid)
    requires f in k.gdt ==> f in k.colas
    ensures Table(OpenFile(k, p, f), q) == if q == p then [f] + Table(k, q) else Table(k, q)
  {
    hide UnshiftReady;
    if f in k.gdt {}
    assert UnshiftReady(k, p).abiertos == k.abiertos by { Requeue(k, p); }
    if f !in k.gdt {
      var k1 := k.(abiertos := k.abiertos[p := [f] + Table(k, p)], gdt := k.gdt + [f], colas := k.colas[f := []]);
      Requeue(k1, p);
    }
  }

  lemma CloseLists(k: KState, p: Pid, f: File, q: Pid)
    requires f in Table(k, p) ==> f in k.colas
    ensures q == p && f in Table(k, p) ==> WithoutFirstOne(Table(k, q), f, Table(CloseFile(k, p, f), q))
    ensures !(q == p && f in Table(k, p)) ==> Table(CloseFile(k, p, f), q) == Table(k, q)
  {
    if f in Table(k, p) {
      TakesFirst(Table(k, p), f);
      var i := Position(Table(k, p), f).value;
      var k1 := PushReady(k.(abiertos := k.abiertos[p := RemoveAt(Table(k, p), i)]), p);
      FreeFrame(k1, f);
      assert CloseFile(k, p, f) == FreeFile(k1, f);
      hide FreeFile, CloseFile, WithoutFirstOne;
    }
  }

  lemma OpenRequestLists(k: KState, ok: bool, f: File, p: Pid)
    requires Enabled(k, Serve(ok)) && FilesReady(k) && k.serving.value.req == FOpen(f)
    ensures ListsAs(k, Serve(ok), p, Table(Attend(k, ok), p))
  {
    AttendIs(k, ok);
    hide Attend, OpenFile, FilesReady;
    OpenLists(Served(k), k.serving.value.pid, f, p);
  }

  lemma CloseRequestLists(k: KState, ok: bool, f: File, p: Pid)
    requires Enabled(k, Serve(ok)) && FilesReady(k) && k.serving.value.req == FClose(f)
    ensures ListsAs(k, Serve(ok), p, Table(Attend(k, ok), p))
  {
    AttendIs(k, ok);
    assert forall q :: Table(Served(k), q) == Table(k, q);
    hide Attend, CloseFile, FilesReady, WithoutFirstOne, Table;
    CloseLists(Served(k), k.serving.value.pid, f, p);
  }

  lemma OtherRequestLists(k: KState, ok: bool, p: Pid)
    requires Enabled(k, Serve(ok)) && FilesReady(k) && !k.serving.value.req.FOpen? && !k.serving.value.req.FClose?
    ensures ListsAs(k, Serve(ok), p, Table(Attend(k, ok), p))
  {
    AttendIs(k, ok);
    Requeue(Served(k), k.serving.value.pid);
    RequeuedLists(k, p);
    hide Attend, FilesReady, Table, UnshiftReady, PushExit, Quiet;
  }

  lemma RequeuedLists(k: KState, p: Pid)
    requires k.serving.Some?
    ensures Table(UnshiftReady(Served(k), k.serving.value.pid), p) == Table(k, p)
    ensures Table(PushExit(Served(k), k.serving.value.pid), p) == Table(k, p)
  {
  }

  lemma AttendLists(k: KState, ok: bool, p: Pid)
    requires Enabled(k, Serve(ok)) && FilesReady(k)
    ensures ListsAs(k, Serve(ok), p, Table(Attend(k, ok), p))
  {
    hide Attend, FilesReady, ListsAs, Table, Found;
    match k.serving.value.req
    case FOpen(f) => OpenRequestLists(k, ok, f, p);
    case FClose(f) => CloseRequestLists(k, ok, f, p);
    case FTruncate(_) => OtherRequestLists(k, ok, p);
    case FSeek(_) => OtherRequestLists(k, ok, p);
    case FUse(_) => OtherRequestLists(k, ok, p);
  }

  /** Every step changes them in this way. */
  lemma StepLists(k: KState, w: map<Pid, Loc>, h: map<File, Pid>, grado: nat, s: Step, p: Pid)
    requires Inv(k, w, h, grado) && Enabled(k, s)
    ensures Safe(k, s) && ListsAs(k, s, p, Table(Next(k, s), p))
  {
    EnabledIsSafe(k, w, h, grado, s);
    if s.Serve? {
      hide Inv, Attend, ListsAs, Table, FilesReady;
      AttendLists(k, s.ok, p);
    } else if s.Teardown? {
      hide Inv, Dismiss, FilesReady;
      TeardownLists(k, w, h, grado, p);
    } else if s.Arrive? {
      hide Inv, FilesReady;
      ArrivedLists(k, s, p);
    } else {
      hide Inv, Table;
      OthersList(k, s);
      SameTable(k, Next(k, s), p);
    }
  }

  lemma TeardownLists(k: KState, w: map<Pid, Loc>, h: map<File, Pid>, grado: nat, p: Pid)
    requires Inv(k, w, h, grado) && k.leaving.Some? && Safe(k, Teardown)
    ensures ListsAs(k, Teardown, p, Table(Next(k, Teardown), p))
  {
    hide Inv, Dismiss, Table, FilesReady;
    if k.leaving == Some(p) {
      TeardownLeavesNothing(k, w, h, grado);
    } else {
      DismissKeepsTable(k, k.leaving.value, p);
    }
  }

  lemma ArrivedLists(k: KState, s: Step, p: Pid)
    requires s.Arrive? && Enabled(k, s) && Safe(k, s)
    ensures ListsAs(k, s, p, Table(Next(k, s), p))
  {
  }

  lemma SameTable(k: KState, k': KState, p: Pid)
    requires k'.abiertos == k.abiertos
    ensures Table(k', p) == Table(k, p)
  {
  }

  lemma OthersList(k: KState, s: Step)
    requires Enabled(k, s) && Safe(k, s) && !s.Serve? && !s.Teardown? && !s.Arrive?
    ensures Next(k, s).abiertos == k.abiertos
  {
    hide Tick, Move, Wait, Signal, FilesReady;
    if s.CallWait? { WaitFrame(Stopped(k), k.running.value, s.r); }
    if s.CallSignal? { SignalFrame(Stopped(k), k.running.value, s.r); }
  }

  // ----- whom an exit wakes, in order -----

  /** The processes woken when each entry of `xs` in turn wakes the first one still in its line. */
  function WokenBy<K>(m: map<K, seq<Pid>>, xs: seq<K>): seq<Pid>
    decreases |xs|
  {
    if xs == [] then []
    else if At(m, xs[0]) == [] then WokenBy(m, xs[1..])
    else [At(m, xs[0])[0]] + WokenBy(m[xs[0] := At(m, xs[0])[1..]], xs[1..])
  }

  /** A line that is empty wakes nobody, whether or not it is in the dictionary. */
  lemma {:induction false} SameLines<K>(m: map<K, seq<Pid>>, m': map<K, seq<Pid>>, xs: seq<K>)
    requires forall x :: x in xs ==> At(m, x) == At(m', x)
    ensures WokenBy(m, xs) == WokenBy(m', xs)
    decreases |xs|
  {
    if xs != [] {
      assert xs[0] in xs && forall x :: x in xs[1..] ==> x in xs;
      if At(m, xs[0]) == [] {
        SameLines(m, m', xs[1..]);
      } else {
        SameLines(m[xs[0] := At(m, xs[0])[1..]], m'[xs[0] := At(m, xs[0])[1..]], xs[1..]);
      }
    }
  }

  lemma ReleaseWakes(k: KState, r: Res, rs: seq<Res>)
    requires QueuesOk(k) && r in k.disponibles
    ensures Release(k, r).ready + WokenBy(Release(k, r).enUso, rs) == k.ready + WokenBy(k.enUso, [r] + rs)
  {
    assert ([r] + rs)[1..] == rs;
    if r in k.enUso {
      SameLines(Release(k, r).enUso, k.enUso[r := k.enUso[r][1..]], rs);
    }
  }

  lemma {:induction false} ReleaseAllWakes(k: KState, p: Pid)
    requires ResOk(k) && NotQueued(k, p)
    ensures QueuesOk(k) && ReleaseAll(k, p).ready == k.ready + WokenBy(k.enUso, Registered(k, p))
    decreases |Registered(k, p)|
  {
    var rs := Registered(k, p);
    if rs != [] {
      assert rs[0] in rs && rs[0] in k.disponibles;
      var k1 := k.(porProceso := k.porProceso[p := rs[1..]]);
      ForgetKeepsResOk(k, p, rs[1..]);
      ReleaseKeepsQueues(k1, rs[0]);
      assert NotQueued(k1, p) && rs == [rs[0]] + rs[1..];
      hide ResOk, Release, WokenBy, NotQueued;
      ReleaseResources(k1, rs[0]);
      ReleaseWakes(k1, rs[0], rs[1..]);
      ReleaseAllWakes(Release(k1, rs[0]), p);
    }
  }

  lemma FreeWakes(k: KState, f: File, fs: seq<File>)
    requires f in k.colas
    ensures FreeFile(k, f).ready + WokenBy(FreeFile(k, f).colas, fs) == k.ready + WokenBy(k.colas, [f] + fs)
  {
    ColasAfterFree(k, f);
    ReadyAfterFree(k, f);
    assert ([f] + fs)[1..] == fs;
    hide FreeFile;
    if k.colas[f] == [] {
      SameLines(FreeFile(k, f).colas, k.colas, fs);
    } else {
      SameLines(FreeFile(k, f).colas, k.colas[f := k.colas[f][1..]], fs);
    }
  }

  lemma ReadyAfterFree(k: KState, f: File)
    requires f in k.colas
    ensures k.colas[f] == [] ==> FreeFile(k, f).ready == k.ready
    ensures k.colas[f] != [] ==> FreeFile(k, f).ready == k.ready + [k.colas[f][0]]
  {
    hide WithoutFirst;
    if k.colas[f] == [] {}
  }

  lemma {:induction false} CloseAllWakes(k: KState, h: map<File, Pid>, p: Pid)
    requires FilesOk(k, h) && NotWaiting(k, p)
    ensures CloseAll(k, p).ready == k.ready + WokenBy(k.colas, Table(k, p))
    decreases |Table(k, p)|
  {
    var fs := Table(k, p);
    if fs != [] {
      var k1 := k.(abiertos := k.abiertos[p := fs[1..]]);
      assert RemoveAt(fs, 0) == fs[1..] && fs == [fs[0]] + fs[1..];
      DropEntry(k, h, p, 0);
      assert fs[0] in k1.colas;
      hide Orphaned, FilesOk, FreeFile, WokenBy;
      FreeFileFiles(k1, h, fs[0]);
      FreeWakes(k1, fs[0], fs[1..]);
      CloseAllWakes(FreeFile(k1, fs[0]), Freed(k1, h, fs[0]), p);
    }
  }

  /** An exit wakes the first in line of each resource the process had not given back, in the order of its
      WAITs, then the first in line of each file it had open, the one opened last first; each goes to the end of
      the ready list. */
  lemma TeardownWakes(k: KState, w: map<Pid, Loc>, h: map<File, Pid>, grado: nat)
    requires Inv(k, w, h, grado) && k.leaving.Some?
    ensures Enabled(k, Teardown) && Safe(k, Teardown)
    ensures var p := k.leaving.value;
      Next(k, Teardown).ready == k.ready + WokenBy(k.enUso, Registered(k, p)) + WokenBy(k.colas, Table(k, p))
  {
    EnabledIsSafe(k, w, h, grado, Teardown);
    var p, k0 := k.leaving.value, k.(leaving := None);
    TakeLeaving(k, w, h, grado);
    InHandWaitsNowhere(k0, w - {p}, p);
    assert Registered(k0, p) == Registered(k, p) && Table(k0, p) == Table(k, p) && ResOk(k0) && FilesOk(k0, h);
    assert Next(k, Teardown).ready == CloseAll(ReleaseAll(k0, p), p).ready;
    hide Inv, InHand, Placed, ResOk, FilesOk, ReleaseAll, CloseAll, NotQueued, WokenBy, Next, Registered;
    ReleaseAllWakes(k0, p);
    ReleaseAllFrame(k0, p);
    var k1 := ReleaseAll(k0, p);
    SameTables(k0, k1, h, p);
    CloseAllWakes(k1, h, p);
  }

  lemma SameTables(k: KState, k': KState, h: map<File, Pid>, p: Pid)
    requires FilesOk(k, h) && NotWaiting(k, p) && k'.gdt == k.gdt && k'.colas == k.colas && k'.abiertos == k.abiertos
    ensures FilesOk(k', h) && NotWaiting(k', p) && Table(k', p) == Table(k, p)
  {
    assert forall q :: Table(k', q) == Table(k, q);
    SameFiles(k, k', h);
  }
}
