/** The kernel's shared lists, dictionaries and counters as one object, updated in place by the
    operations of its threads. Each is proved against the step function of the state machine. */
module KernelModule {
  import opened Sums
  import opened Kernel
  import opened KernelResources
  import opened KernelPlaces
  import opened KernelFiles
  import opened KernelSteps
  import opened KernelRuns

  /** The invariant holds for some assignment of places and of holders. */
  ghost predicate Sound(k: KState, grado: nat) { exists w, h :: Inv(k, w, h, grado) }

  lemma SoundStep(k: KState, grado: nat, s: Step)
    requires Sound(k, grado) && Enabled(k, s)
    ensures Safe(k, s) && Sound(Next(k, s), grado)
  {
    hide Inv, Next, Safe, Enabled;
    var w, h :| Inv(k, w, h, grado);
    var w', h' := StepKeepsInv(k, w, h, grado, s);
  }

  lemma AdmitTurn(k: KState, grado: nat)
    requires Sound(k, grado) && Enabled(k, Admit)
    ensures Safe(k, Admit) && k.nuevos != [] && Sound(Next(k, Admit), grado)
    ensures Next(k, Admit) == PushReady(k.(nuevos := k.nuevos[1..], semNew := k.semNew.(taken := false), admitting := false), k.nuevos[0])
  {
    SoundStep(k, grado, Admit);
    hide PushReady, QueuesOk, FilesReady, Sound;
  }

  lemma DispatchTurn(k: KState, grado: nat)
    requires Sound(k, grado) && Enabled(k, Dispatch)
    ensures Safe(k, Dispatch) && k.ready != [] && Sound(Next(k, Dispatch), grado)
    ensures Next(k, Dispatch) == k.(running := Some(k.ready[0]), ready := k.ready[1..], semReady := k.semReady.(taken := false))
  {
    SoundStep(k, grado, Dispatch);
    hide QueuesOk, FilesReady, Sound;
  }

  lemma WaitTurn(k: KState, grado: nat, r: Res)
    requires Sound(k, grado) && Enabled(k, CallWait(r))
    ensures Safe(k, CallWait(r)) && k.running.Some? && Sound(Next(k, CallWait(r)), grado)
    ensures Next(k, CallWait(r)) == Wait(Stopped(k), k.running.value, r)
  {
    SoundStep(k, grado, CallWait(r));
    hide Wait, Sound;
  }

  lemma SignalTurn(k: KState, grado: nat, r: Res)
    requires Sound(k, grado) && Enabled(k, CallSignal(r))
    ensures Safe(k, CallSignal(r)) && k.running.Some? && Sound(Next(k, CallSignal(r)), grado)
    ensures (r in k.disponibles ==> k.running.value in k.porProceso) && (r in k.enUso ==> k.enUso[r] != [])
    ensures (r in Stopped(k).disponibles ==> k.running.value in Stopped(k).porProceso) && (r in Stopped(k).enUso ==> Stopped(k).enUso[r] != [])
    ensures Next(k, CallSignal(r)) == Signal(Stopped(k), k.running.value, r)
  {
    SoundStep(k, grado, CallSignal(r));
    hide Signal, Sound;
  }

  lemma ServeTurn(k: KState, grado: nat, ok: bool)
    requires Sound(k, grado) && Enabled(k, Serve(ok))
    ensures Safe(k, Serve(ok)) && k.serving.Some? && Sound(Next(k, Serve(ok)), grado)
    ensures FilesReady(k) && Next(k, Serve(ok)) == Attend(k, ok)
    ensures k.serving.value.pid in k.abiertos
    ensures forall f :: (f in k.gdt ==> f in k.colas) && (f in Table(Served(k), k.serving.value.pid) ==> f in k.colas)
  {
    SoundStep(k, grado, Serve(ok));
    var w, h :| Inv(k, w, h, grado);
    TakeOver(k, w, h, grado);
    hide Attend, Inv;
  }

  lemma TeardownTurn(k: KState, grado: nat) returns (h: map<File, Pid>)
    requires Sound(k, grado) && Enabled(k, Teardown)
    ensures Safe(k, Teardown) && k.leaving.Some? && Sound(Next(k, Teardown), grado)
    ensures CanGo(k.(leaving := None), k.leaving.value, h)
    ensures Next(k, Teardown) == Gone(k.(leaving := None), k.leaving.value)
  {
    SoundStep(k, grado, Teardown);
    hide Sound, CanGo, Gone, Next, Inv, Safe, Enabled;
    TeardownIs(k);
    h := ExitPlan(k, grado);
  }

  lemma TeardownIs(k: KState)
    requires Enabled(k, Teardown) && Safe(k, Teardown)
    ensures k.leaving.Some? && QueuesOk(k.(leaving := None)) && Next(k, Teardown) == Gone(k.(leaving := None), k.leaving.value)
  {
    hide ReleaseAll, CloseAll;
  }

  /** What the two loops of an exit rely on. */
  ghost predicate CanGo(k: KState, p: Pid, h: map<File, Pid>) {
    && QueuesOk(k) && ResOk(k) && NotQueued(k, p)
    && var k1 := ReleaseAll(k, p);
    && FilesOk(k1, h) && NotWaiting(k1, p) && p in k1.abiertos
  }

  /** Both loops, the table gone and the slot free. */
  function Gone(k: KState, p: Pid): KState
    requires QueuesOk(k)
  {
    var k2 := CloseAll(ReleaseAll(k, p), p);
    k2.(abiertos := k2.abiertos - {p}, espacio := k2.espacio + 1)
  }

  lemma OpenFileIs(k: KState, p: Pid, f: File)
    requires p in k.abiertos && (f in k.gdt ==> f in k.colas)
    ensures f in k.gdt ==>
      OpenFile(k, p, f) == k.(abiertos := k.abiertos[p := [f] + k.abiertos[p]], colas := k.colas[f := k.colas[f] + [p]])
    ensures f !in k.gdt ==>
      OpenFile(k, p, f) ==
        UnshiftReady(k.(abiertos := k.abiertos[p := [f] + k.abiertos[p]], gdt := k.gdt + [f], colas := k.colas[f := []]), p)
  {
    hide UnshiftReady;
    if f in k.gdt {}
  }

  class Nucleo {
    var consolasNew: seq<Pid>
    var hayConsolasNew: Sem
    var consolasReady: seq<Pid>
    var hayConsolasReady: Sem
    var enEjecucion: Option<Pid>
    var durmiendo: seq<Pid>
    var consolasBlocked: seq<Node>
    var hayConsolasBlocked: Sem
    var atendido: Option<Node>
    var consolasExit: seq<Pid>
    var hayConsolasExit: Sem
    var saliendo: Option<Pid>
    var recursosEnUso: map<Res, seq<Pid>>
    var recursosDisponibles: map<Res, int>
    var recursosPorProceso: map<Pid, seq<Res>>
    var colasArchivos: map<File, seq<Pid>>
    var gdt: seq<File>
    var tablasArchivos: map<Pid, seq<File>>
    var hayEspacioReady: nat
    var admitiendo: bool
    ghost var vistos: set<Pid>
    ghost const grado: nat

    /** The invariant of the machine. */
    ghost predicate Valid()
      reads this
    {
      Sound(Snapshot(), grado)
    }

    /** The state of the machine. */
    ghost function Snapshot(): KState
      reads this
    {
      KState(consolasNew, consolasReady, enEjecucion, durmiendo, consolasBlocked, atendido, consolasExit, saliendo,
             recursosEnUso, recursosDisponibles, recursosPorProceso, colasArchivos, gdt, tablasArchivos,
             hayConsolasNew, hayConsolasReady, hayConsolasExit, hayConsolasBlocked, hayEspacioReady, admitiendo, vistos)
    }

    constructor (recursos: map<Res, int>, grado: nat)
      ensures Valid() && Snapshot() == Boot(recursos, grado) && this.grado == grado
    {
      consolasNew, consolasReady, consolasExit, durmiendo, consolasBlocked := [], [], [], [], [];
      hayConsolasNew, hayConsolasReady, hayConsolasExit, hayConsolasBlocked :=
        Sem(0, 0, false), Sem(0, 0, false), Sem(0, 0, false), Sem(0, 0, false);
      enEjecucion, atendido, saliendo := None, None, None;
      recursosEnUso, recursosDisponibles, recursosPorProceso := map[], recursos, map[];
      colasArchivos, gdt, tablasArchivos := map[], [], map[];
      hayEspacioReady, admitiendo, vistos := grado, false, {};
      this.grado := grado;
      new;
      BootIsOk(recursos, grado);
    }

    // ----- the scheduler lists; a post is owed until its own step -----

    method AgregarAReady(p: Pid)
      modifies this
      ensures Snapshot() == PushReady(old(Snapshot()), p)
    {
      consolasReady := consolasReady + [p];
      hayConsolasReady := hayConsolasReady.(owed := hayConsolasReady.owed + 1);
    }

    method AdelantarEnReady(p: Pid)
      modifies this
      ensures Snapshot() == UnshiftReady(old(Snapshot()), p)
    {
      consolasReady := [p] + consolasReady;
      hayConsolasReady := hayConsolasReady.(owed := hayConsolasReady.owed + 1);
    }

    method AgregarAExit(p: Pid)
      modifies this
      ensures Snapshot() == PushExit(old(Snapshot()), p)
    {
      consolasExit := consolasExit + [p];
      hayConsolasExit := hayConsolasExit.(owed := hayConsolasExit.owed + 1);
    }

    // ----- resources -----

    method RegistrarRecurso(p: Pid, r: Res)
      modifies this
      ensures Snapshot() == Register(old(Snapshot()), p, r)
    {
      var recursos := [];
      if p in recursosPorProceso {
        recursos := recursosPorProceso[p];
      }
      recursosPorProceso := recursosPorProceso[p := recursos + [r]];
    }

    method QuitarRecurso(p: Pid, r: Res)
      requires p in recursosPorProceso
      modifies this
      ensures Snapshot() == Unregister(old(Snapshot()), p, r)
    {
      match Position(recursosPorProceso[p], r)
      case None =>
      case Some(i) => recursosPorProceso := recursosPorProceso[p := RemoveAt(recursosPorProceso[p], i)];
    }

    method WaitRecurso(p: Pid, r: Res)
      modifies this
      ensures Snapshot() == Wait(old(Snapshot()), p, r)
    {
      WaitIs(Snapshot(), p, r);
      hide Wait, UnshiftReady, PushExit;
      if r !in recursosDisponibles {
        AgregarAExit(p);
        return;
      }
      RegistrarRecurso(p, r);
      if recursosDisponibles[r] >= 1 {
        recursosDisponibles := recursosDisponibles[r := recursosDisponibles[r] - 1];
        AdelantarEnReady(p);
      } else if r in recursosEnUso {
        recursosEnUso := recursosEnUso[r := recursosEnUso[r] + [p]];
      } else {
        recursosEnUso := recursosEnUso[r := [p]];
        assert [] + [p] == [p];
      }
    }

    method LiberarRecurso(r: Res)
      requires r in recursosDisponibles && (r in recursosEnUso ==> recursosEnUso[r] != [])
      modifies this
      ensures Snapshot() == Release(old(Snapshot()), r)
    {
      if r in recursosEnUso {
        var cola := recursosEnUso[r];
        var desbloqueado := cola[0];
        cola := cola[1..];
        if |cola| == 0 {
          recursosEnUso := recursosEnUso - {r};
        } else {
          recursosEnUso := recursosEnUso[r := cola];
        }
        AgregarAReady(desbloqueado);
      } else {
        recursosDisponibles := recursosDisponibles[r := recursosDisponibles[r] + 1];
      }
    }

    method SignalRecurso(p: Pid, r: Res)
      requires (r in recursosDisponibles ==> p in recursosPorProceso) && (r in recursosEnUso ==> recursosEnUso[r] != [])
      modifies this
      ensures Snapshot() == Signal(old(Snapshot()), p, r)
    {
      if r in recursosDisponibles {
        QuitarRecurso(p, r);
        AdelantarEnReady(p);
        LiberarRecurso(r);
      } else {
        AgregarAExit(p);
      }
    }

    /** The loop of `liberarRecursosDelProceso`: one turn for each entry there was at the start. */
    method LiberarRecursosDelProceso(p: Pid)
      requires ResOk(Snapshot()) && NotQueued(Snapshot(), p)
      modifies this
      ensures Snapshot() == ReleaseAll(old(Snapshot()), p)
      ensures p in recursosPorProceso ==> recursosPorProceso[p] == []
    {
      if p !in recursosPorProceso {
        return;
      }
      var cantidad := |recursosPorProceso[p]|;
      for i := 0 to cantidad
        invariant ResOk(Snapshot()) && NotQueued(Snapshot(), p)
        invariant p in recursosPorProceso && |recursosPorProceso[p]| == cantidad - i
        invariant ReleaseAll(Snapshot(), p) == ReleaseAll(old(Snapshot()), p)
      {
        ghost var k := Snapshot();
        var recurso := recursosPorProceso[p][0];
        assert recurso in Registered(k, p);
        ForgetKeepsResOk(k, p, recursosPorProceso[p][1..]);
        recursosPorProceso := recursosPorProceso[p := recursosPorProceso[p][1..]];
        ReleaseResources(Snapshot(), recurso);
        LiberarRecurso(recurso);
      }
    }

    // ----- files -----

    method LiberarArchivo(f: File)
      requires f in colasArchivos
      modifies this
      ensures Snapshot() == FreeFile(old(Snapshot()), f)
    {
      if colasArchivos[f] == [] {
        match Position(gdt, f) {
          case None =>
          case Some(i) => gdt := RemoveAt(gdt, i);
        }
        colasArchivos := colasArchivos - {f};
      } else {
        var desbloqueado := colasArchivos[f][0];
        colasArchivos := colasArchivos[f := colasArchivos[f][1..]];
        AgregarAReady(desbloqueado);
      }
    }

    method AbrirArchivo(p: Pid, f: File)
      requires p in tablasArchivos && (f in gdt ==> f in colasArchivos)
      modifies this
      ensures Snapshot() == OpenFile(old(Snapshot()), p, f)
    {
      hide OpenFile;
      if f !in gdt {
        AbrirNuevo(p, f);
      } else {
        EsperarArchivo(p, f);
      }
    }

    method AbrirNuevo(p: Pid, f: File)
      requires p in tablasArchivos && f !in gdt
      modifies this
      ensures Snapshot() == OpenFile(old(Snapshot()), p, f)
    {
      ghost var k := Snapshot();
      OpenFileIs(k, p, f);
      hide OpenFile, UnshiftReady;
      colasArchivos := colasArchivos[f := []];
      gdt := gdt + [f];
      tablasArchivos := tablasArchivos[p := [f] + tablasArchivos[p]];
      assert Snapshot() == k.(abiertos := tablasArchivos, gdt := gdt, colas := colasArchivos);
      AdelantarEnReady(p);
    }

    method EsperarArchivo(p: Pid, f: File)
      requires p in tablasArchivos && f in gdt && f in colasArchivos
      modifies this
      ensures Snapshot() == OpenFile(old(Snapshot()), p, f)
    {
      OpenFileIs(Snapshot(), p, f);
      hide OpenFile, UnshiftReady;
      tablasArchivos := tablasArchivos[p := [f] + tablasArchivos[p]];
      colasArchivos := colasArchivos[f := colasArchivos[f] + [p]];
    }

    method CerrarArchivo(p: Pid, f: File)
      requires p in tablasArchivos && (f in tablasArchivos[p] ==> f in colasArchivos)
      modifies this
      ensures Snapshot() == CloseFile(old(Snapshot()), p, f)
    {
      match Position(tablasArchivos[p], f)
      case None => AgregarAExit(p);
      case Some(i) =>
        tablasArchivos := tablasArchivos[p := RemoveAt(tablasArchivos[p], i)];
        AgregarAReady(p);
        LiberarArchivo(f);
    }

    /** The loop of `cerrarArchivosDelProceso`. */
    method CerrarArchivosDelProceso(p: Pid, ghost h: map<File, Pid>)
      requires p in tablasArchivos && FilesOk(Snapshot(), h) && NotWaiting(Snapshot(), p)
      modifies this
      ensures Snapshot() == CloseAll(old(Snapshot()), p)
      ensures p in tablasArchivos && tablasArchivos[p] == []
    {
      ghost var holder := h;
      var cantidad := |tablasArchivos[p]|;
      for i := 0 to cantidad
        invariant FilesOk(Snapshot(), holder) && NotWaiting(Snapshot(), p)
        invariant p in tablasArchivos && |tablasArchivos[p]| == cantidad - i
        invariant CloseAll(Snapshot(), p) == CloseAll(old(Snapshot()), p)
      {
        ghost var k := Snapshot();
        var f := tablasArchivos[p][0];
        NotWaitingHolds(k, holder, p, f);
        DropEntry(k, holder, p, 0);
        assert RemoveAt(tablasArchivos[p], 0) == tablasArchivos[p][1..];
        tablasArchivos := tablasArchivos[p := tablasArchivos[p][1..]];
        FreeFileFiles(Snapshot(), holder, f);
        holder := Freed(Snapshot(), holder, f);
        LiberarArchivo(f);
      }
    }

    // ----- turns of the threads -----

    /** `gestionadorReady`, once both waits are passed. */
    method Admitir()
      requires Valid() && Enabled(Snapshot(), Admit)
      modifies this
      ensures Safe(old(Snapshot()), Admit) && Snapshot() == Next(old(Snapshot()), Admit) && Valid()
    {
      hide Next, Enabled, Safe, Sound;
      ghost var k := Snapshot();
      AdmitTurn(k, grado);
      var p := consolasNew[0];
      consolasNew := consolasNew[1..];
      hayConsolasNew, admitiendo := hayConsolasNew.(taken := false), false;
      AgregarAReady(p);
      assert Snapshot() == Next(k, Admit);
    }

    /** `fifoRunning`, once its wait is passed: the process goes to the CPU. */
    method Despachar() returns (p: Pid)
      requires Valid() && Enabled(Snapshot(), Dispatch)
      modifies this
      ensures Safe(old(Snapshot()), Dispatch) && Snapshot() == Next(old(Snapshot()), Dispatch) && Valid()
      ensures old(consolasReady) != [] && p == old(consolasReady)[0]
    {
      hide Next, Enabled, Safe, Sound;
      ghost var k := Snapshot();
      DispatchTurn(k, grado);
      p := consolasReady[0];
      consolasReady := consolasReady[1..];
      hayConsolasReady := hayConsolasReady.(taken := false);
      enEjecucion := Some(p);
      assert Snapshot() == Next(k, Dispatch);
    }

    /** WAIT by the running process. */
    method EjecutarWait(r: Res)
      requires Valid() && Enabled(Snapshot(), CallWait(r))
      modifies this
      ensures Safe(old(Snapshot()), CallWait(r)) && Snapshot() == Next(old(Snapshot()), CallWait(r)) && Valid()
    {
      hide Next, Enabled, Safe, Sound, Wait;
      ghost var k := Snapshot();
      WaitTurn(k, grado, r);
      var p := enEjecucion.value;
      enEjecucion := None;
      WaitRecurso(p, r);
      assert Snapshot() == Next(k, CallWait(r));
    }

    /** SIGNAL by the running process. */
    method EjecutarSignal(r: Res)
      requires Valid() && Enabled(Snapshot(), CallSignal(r))
      modifies this
      ensures Safe(old(Snapshot()), CallSignal(r)) && Snapshot() == Next(old(Snapshot()), CallSignal(r)) && Valid()
    {
      hide Next, Enabled, Safe, Sound, Signal;
      ghost var k := Snapshot();
      SignalTurn(k, grado, r);
      var p := enEjecucion.value;
      enEjecucion := None;
      SignalRecurso(p, r);
      assert Snapshot() == Next(k, CallSignal(r));
    }

    /** One turn of `operarFS` with the node in hand; `ok` is the file system's answer. */
    method Atender(ok: bool)
      requires Valid() && Enabled(Snapshot(), Serve(ok))
      modifies this
      ensures Safe(old(Snapshot()), Serve(ok)) && Snapshot() == Next(old(Snapshot()), Serve(ok)) && Valid()
    {
      hide Next, Enabled, Safe, Sound, FilesReady, Table, OpenFile, CloseFile, PushExit, UnshiftReady;
      ghost var k := Snapshot();
      ServeTurn(k, grado, ok);
      var nodo := atendido.value;
      atendido := None;
      assert Snapshot() == Served(k);
      AtenderNodo(nodo, ok);
      assert Snapshot() == Next(k, Serve(ok));
    }

    method AtenderNodo(nodo: Node, ok: bool)
      requires nodo.pid in tablasArchivos
      requires forall f :: (f in gdt ==> f in colasArchivos) && (f in Table(Snapshot(), nodo.pid) ==> f in colasArchivos)
      modifies this
      ensures Snapshot() ==
        match nodo.req
        case FOpen(f) => OpenFile(old(Snapshot()), nodo.pid, f)
        case FClose(f) => CloseFile(old(Snapshot()), nodo.pid, f)
        case FTruncate(_) => if ok then UnshiftReady(old(Snapshot()), nodo.pid) else PushExit(old(Snapshot()), nodo.pid)
        case FSeek(_) => UnshiftReady(old(Snapshot()), nodo.pid)
        case FUse(_) => UnshiftReady(old(Snapshot()), nodo.pid)
    {
      hide OpenFile, CloseFile, PushExit, UnshiftReady;
      match nodo.req
      case FOpen(f) => AbrirArchivo(nodo.pid, f);
      case FClose(f) => CerrarArchivo(nodo.pid, f);
      case FTruncate(_) =>
        if ok {
          AdelantarEnReady(nodo.pid);
        } else {
          AgregarAExit(nodo.pid);
        }
      case FSeek(_) => AdelantarEnReady(nodo.pid);
      case FUse(_) => AdelantarEnReady(nodo.pid);
    }

    /** One turn of `gestionadorExit` with the process in hand. */
    method Terminar()
      requires Valid() && Enabled(Snapshot(), Teardown)
      modifies this
      ensures Safe(old(Snapshot()), Teardown) && Snapshot() == Next(old(Snapshot()), Teardown) && Valid()
    {
      hide Sound, CanGo, QueuesOk, Gone, Next, Enabled, Safe;
      ghost var k := Snapshot();
      ghost var h := TeardownTurn(k, grado);
      var p := saliendo.value;
      saliendo := None;
      Despedir(p, h);
      assert Snapshot() == Next(k, Teardown);
    }

    /** Resources, then files, then the slot. */
    method Despedir(p: Pid, ghost h: map<File, Pid>)
      requires CanGo(Snapshot(), p, h)
      modifies this
      ensures QueuesOk(old(Snapshot())) && Snapshot() == Gone(old(Snapshot()), p)
    {
      hide ResOk, FilesOk, ReleaseAll, CloseAll, NotQueued, NotWaiting, QueuesOk;
      LiberarRecursosDelProceso(p);
      CerrarArchivosDelProceso(p, h);
      tablasArchivos := tablasArchivos - {p};
      hayEspacioReady := hayEspacioReady + 1;
    }
  }

  /** The two loops of an exit find the books in order. */
  lemma ExitPlan(k: KState, grado: nat) returns (h: map<File, Pid>)
    requires Sound(k, grado) && k.leaving.Some?
    ensures CanGo(k.(leaving := None), k.leaving.value, h)
  {
    var w, h0 :| Inv(k, w, h0, grado);
    h := h0;
    var p, k0 := k.leaving.value, k.(leaving := None);
    QueuesOf(k, w, h, grado);
    TakeOver(k, w, h, grado);
    InHandWaitsNowhere(k0, w - {p}, p);
    ReleaseAllFrame(k0, p);
    hide ResOk, FilesOk, Placed, SemsOk, SlotsOk, ReleaseAll, QueuesOk;
    assert forall q :: Table(ReleaseAll(k0, p), q) == Table(k0, q);
    SameFiles(k0, ReleaseAll(k0, p), h);
  }
}
