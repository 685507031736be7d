/** Waiting is first in, first out: a step takes a queue's head or adds at its end, and whoever
    leaves a queue is ready to run. */
module KernelFifo {
  import opened Sums
  import opened Kernel
  import opened KernelFiles

  /** Only heads were taken. */
  ghost predicate Popped<T>(q: seq<T>, q': seq<T>) { exists n :: 0 <= n <= |q| && q' == q[n..] }

  lemma PoppedTwice<T>(a: seq<T>, b: seq<T>, c: seq<T>)
    requires Popped(a, b) && Popped(b, c)
    ensures Popped(a, c)
  {
    var n :| 0 <= n <= |a| && b == a[n..];
    var m :| 0 <= m <= |b| && c == b[m..];
    assert c == a[n + m..];
  }

  lemma PoppedNone<T>(q: seq<T>)
    ensures Popped(q, q)
  {
    assert q == q[0..];
  }

  ghost predicate Waiting(l: Loc) { l.ResQ? || l.FileQ? }

  /** Whoever was in the queue still is, or is ready. */
  ghost predicate Woken(q: seq<Pid>, q': seq<Pid>, ready: seq<Pid>) { forall p :: p in q ==> p in q' || p in ready }

  /** Every queue lost heads only, who were added at the end of the ready list; the schedulers' other
      lists are as they were. */
  ghost predicate Advances(k: KState, k': KState) {
    && k.ready <= k'.ready && k'.nuevos == k.nuevos && k'.fsQueue == k.fsQueue && k'.exiting == k.exiting
    && forall l {:trigger List(k', l)} :: Waiting(l) ==> Popped(List(k, l), List(k', l)) && Woken(List(k, l), List(k', l), k'.ready)
  }

  lemma AdvancesTwice(a: KState, b: KState, c: KState)
    requires Advances(a, b) && Advances(b, c)
    ensures Advances(a, c)
  {
    hide List, Popped;
    forall l | Waiting(l) ensures Popped(List(a, l), List(c, l)) && Woken(List(a, l), List(c, l), c.ready) {
      assert Popped(List(a, l), List(b, l)) && Popped(List(b, l), List(c, l));
      assert Woken(List(a, l), List(b, l), b.ready) && Woken(List(b, l), List(c, l), c.ready);
      PoppedTwice(List(a, l), List(b, l), List(c, l));
    }
  }

  /** Nobody left a queue. */
  lemma SameQueuesAdvance(k: KState, k': KState)
    requires k'.enUso == k.enUso && k'.colas == k.colas && k.ready <= k'.ready
    requires k'.nuevos == k.nuevos && k'.fsQueue == k.fsQueue && k'.exiting == k.exiting
    ensures Advances(k, k')
  {
    forall l | Waiting(l) ensures List(k', l) == List(k, l) && Popped(List(k, l), List(k', l)) {
      PoppedNone(List(k, l));
    }
  }

  /** The head of one queue went to the ready list. */
  lemma HeadAdvances(k: KState, k': KState, l: Loc)
    requires Waiting(l) && List(k, l) != [] && List(k', l) == List(k, l)[1..] && k'.ready == k.ready + [List(k, l)[0]]
    requires k'.nuevos == k.nuevos && k'.fsQueue == k.fsQueue && k'.exiting == k.exiting
    requires forall m :: Waiting(m) && m != l ==> List(k', m) == List(k, m)
    ensures Advances(k, k')
  {
    hide List;
    var q := List(k, l);
    assert q == [q[0]] + q[1..];
    forall m | Waiting(m) ensures Popped(List(k, m), List(k', m)) && Woken(List(k, m), List(k', m), k'.ready) {
      if m != l { PoppedNone(List(k, m)); } else { assert List(k', m) == q[1..]; }
    }
  }

  /** Of all queues only `l` can change: its head, if any, goes to the end of the ready list. */
  ghost predicate HeadWoken(k: KState, k': KState, l: Loc) {
    && (forall m {:trigger List(k', m)} :: Waiting(m) && m != l ==> List(k', m) == List(k, m))
    && (List(k, l) == [] ==> List(k', l) == [] && k'.ready == k.ready)
    && (List(k, l) != [] ==> List(k', l) == List(k, l)[1..] && k'.ready == k.ready + [List(k, l)[0]])
  }

  lemma ReleaseAdvances(k: KState, r: Res)
    requires QueuesOk(k) && r in k.disponibles
    ensures Advances(k, Release(k, r)) && HeadWoken(k, Release(k, r), ResQ(r))
  {
    if r in k.enUso {
      HeadAdvances(k, Release(k, r), ResQ(r));
    } else {
      SameQueuesAdvance(k, Release(k, r));
    }
  }

  lemma FreeAdvances(k: KState, f: File)
    requires f in k.colas
    ensures Advances(k, FreeFile(k, f)) && HeadWoken(k, FreeFile(k, f), FileQ(f))
  {
    var k' := FreeFile(k, f);
    hide WithoutFirst;
    assert k'.enUso == k.enUso;
    if k.colas[f] != [] {
      assert List(k', FileQ(f)) == List(k, FileQ(f))[1..] && k'.ready == k.ready + [List(k, FileQ(f))[0]];
      assert k'.nuevos == k.nuevos && k'.fsQueue == k.fsQueue && k'.exiting == k.exiting;
      hide FreeFile;
      OtherQueues(k, f);
      HeadAdvances(k, k', FileQ(f));
    } else {
      assert List(k', FileQ(f)) == List(k, FileQ(f));
      assert k'.ready == k.ready && k'.nuevos == k.nuevos && k'.fsQueue == k.fsQueue && k'.exiting == k.exiting;
      hide FreeFile;
      OtherQueues(k, f);
      hide List;
      SameListsAdvance(k, k');
    }
  }

  lemma OtherQueues(k: KState, f: File)
    requires f in k.colas
    ensures forall l :: Waiting(l) && l != FileQ(f) ==> List(FreeFile(k, f), l) == List(k, l)
  {
    assert FreeFile(k, f).enUso == k.enUso;
    forall l | Waiting(l) && l != FileQ(f) ensures List(FreeFile(k, f), l) == List(k, l) {
      match l
      case ResQ(_) => hide FreeFile;
      case FileQ(g) => AfterFree(k, f, g); hide FreeFile;
    }
  }

  lemma SameListsAdvance(k: KState, k': KState)
    requires k'.ready == k.ready && forall l :: Waiting(l) ==> List(k', l) == List(k, l)
    requires k'.nuevos == k.nuevos && k'.fsQueue == k.fsQueue && k'.exiting == k.exiting
    ensures Advances(k, k')
  {
    hide List;
    forall l | Waiting(l) ensures Popped(List(k, l), List(k', l)) {
      PoppedNone(List(k, l));
    }
  }

  lemma {:induction false} ReleaseAllAdvances(k: KState, p: Pid)
    requires QueuesOk(k)
    ensures Advances(k, ReleaseAll(k, p))
    decreases |Registered(k, p)|
  {
    var rs := Registered(k, p);
    if rs == [] || rs[0] !in k.disponibles {
      SameQueuesAdvance(k, k);
    } else {
      var k1 := k.(porProceso := k.porProceso[p := rs[1..]]);
      SameQueuesAdvance(k, k1);
      ReleaseKeepsQueues(k1, rs[0]);
      hide Advances, Release;
      ReleaseAdvances(k1, rs[0]);
      ReleaseAllAdvances(Release(k1, rs[0]), p);
      AdvancesTwice(k, k1, Release(k1, rs[0]));
      AdvancesTwice(k, Release(k1, rs[0]), ReleaseAll(k, p));
    }
  }

  lemma {:induction false} CloseAllAdvances(k: KState, p: Pid)
    ensures Advances(k, CloseAll(k, p))
    decreases |Table(k, p)|
  {
    var fs := Table(k, p);
    if fs == [] || fs[0] !in k.colas {
      SameQueuesAdvance(k, k);
    } else {
      var k1 := k.(abiertos := k.abiertos[p := fs[1..]]);
      SameQueuesAdvance(k, k1);
      assert FreeFile(k1, fs[0]).abiertos == k1.abiertos;
      hide Advances, FreeFile;
      FreeAdvances(k1, fs[0]);
      CloseAllAdvances(FreeFile(k1, fs[0]), p);
      AdvancesTwice(k, k1, FreeFile(k1, fs[0]));
      AdvancesTwice(k, FreeFile(k1, fs[0]), CloseAll(k, p));
    }
  }

  lemma DismissAdvances(k: KState, p: Pid)
    requires QueuesOk(k)
    ensures Advances(k, Dismiss(k, p))
  {
    var k0 := k.(leaving := None);
    var k1 := ReleaseAll(k0, p);
    var k2 := CloseAll(k1, p);
    SameQueuesAdvance(k, k0);
    SameQueuesAdvance(k2, Dismiss(k, p));
    hide Advances, ReleaseAll, CloseAll, QueuesOk;
    ReleaseAllAdvances(k0, p);
    CloseAllAdvances(k1, p);
    AdvancesTwice(k, k0, k1);
    AdvancesTwice(k, k1, k2);
    AdvancesTwice(k, k2, Dismiss(k, p));
  }

  lemma SignalIsFifo(k: KState, p: Pid, r: Res, l: Loc)
    requires QueuesOk(k) && (r in k.disponibles ==> p in k.porProceso) && Waiting(l)
    ensures FifoAt(k, Signal(k, p, r), l)
  {
    if r in k.disponibles {
      var k1 := UnshiftReady(Unregister(k, p, r), p);
      assert k1.enUso == k.enUso && k1.colas == k.colas;
      ReleaseAdvances(k1, r);
      hide Advances, Release, FifoAt, Unregister;
      AdvancesIsFifo(k1, Release(k1, r), l);
      StoppedFifo(k, k1, Release(k1, r), l);
    } else {
      SameQueueIsFifo(k, Signal(k, p, r), l);
    }
  }

  lemma CloseIsFifo(k: KState, p: Pid, f: File, l: Loc)
    requires (f in Table(k, p) ==> f in k.colas) && Waiting(l)
    ensures FifoAt(k, CloseFile(k, p, f), l)
  {
    match Position(Table(k, p), f)
    case None => SameQueueIsFifo(k, PushExit(k, p), l);
    case Some(i) =>
      var k1 := PushReady(k.(abiertos := k.abiertos[p := RemoveAt(Table(k, p), i)]), p);
      assert CloseFile(k, p, f) == FreeFile(k1, f) && k1.enUso == k.enUso && k1.colas == k.colas;
      hide Advances, FreeFile, CloseFile, FifoAt;
      FreeAdvances(k1, f);
      AdvancesIsFifo(k1, FreeFile(k1, f), l);
      StoppedFifo(k, k1, FreeFile(k1, f), l);
  }

  /** The last place in the queue at `l`, if it changed, is new. */
  ghost predicate FifoAt(k: KState, k': KState, l: Loc) {
    var q, q' := List(k, l), List(k', l);
    (Popped(q, q') && Woken(q, q', k'.ready)) || exists p :: q' == q + [p]
  }

  lemma AdvancesIsFifo(k: KState, k': KState, l: Loc)
    requires Advances(k, k') && Waiting(l)
    ensures FifoAt(k, k', l)
  {
    hide List, Popped, Woken;
    assert Popped(List(k, l), List(k', l));
  }

  lemma WaitIsFifo(k: KState, p: Pid, r: Res, l: Loc)
    requires Waiting(l)
    ensures FifoAt(k, Wait(k, p, r), l)
  {
    hide Popped;
    PoppedNone(List(k, l));
    assert List(Wait(k, p, r), l) == List(k, l) || List(Wait(k, p, r), l) == List(k, l) + [p];
    hide List, Wait;
  }

  lemma OpenIsFifo(k: KState, p: Pid, f: File, l: Loc)
    requires Waiting(l) && (f in k.gdt <==> f in k.colas)
    ensures FifoAt(k, OpenFile(k, p, f), l)
  {
    PoppedNone(List(k, l));
    assert List(OpenFile(k, p, f), l) == List(k, l) || List(OpenFile(k, p, f), l) == List(k, l) + [p];
  }

  lemma SameQueueIsFifo(k: KState, k': KState, l: Loc)
    requires Waiting(l) && k'.enUso == k.enUso && k'.colas == k.colas
    ensures FifoAt(k, k', l)
  {
    PoppedNone(List(k, l));
    assert List(k', l) == List(k, l);
  }

  /** In every step, a queue for a resource or a file loses heads only, who become ready, or gains
      one process at its end. */
  lemma StepIsFifo(k: KState, s: Step, l: Loc)
    requires Enabled(k, s) && Safe(k, s) && Waiting(l) && forall f :: f in k.gdt <==> f in k.colas
    ensures FifoAt(k, Next(k, s), l)
  {
    hide FifoAt, Wait, Signal, Attend, Dismiss, Advances, Waiting, Tick, Move;
    if Signalling(s) {
      SameQueueIsFifo(k, Tick(k, s), l);
    } else if Plain(s) {
      SameQueueIsFifo(k, Move(k, s), l);
    } else {
      match s
      case Arrive(p) => SameQueueIsFifo(k, Arrived(k, p), l);
      case CallWait(r) => WaitIsFifo(Stopped(k), k.running.value, r, l); StoppedFifo(k, Stopped(k), Next(k, s), l);
      case CallSignal(r) =>
        SignalIsFifo(Stopped(k), k.running.value, r, l);
        StoppedFifo(k, Stopped(k), Next(k, s), l);
      case Teardown =>
        DismissAdvances(k, k.leaving.value);
        AdvancesIsFifo(k, Next(k, s), l);
      case Serve(ok) => AttendIsFifo(k, ok, l);
    }
  }

  lemma AttendIsFifo(k: KState, ok: bool, l: Loc)
    requires k.serving.Some? && FilesReady(k) && Waiting(l) && forall f :: f in k.gdt <==> f in k.colas
    ensures FifoAt(k, Attend(k, ok), l)
  {
    hide FifoAt, OpenFile, CloseFile, Advances, Waiting;
    var k0, p := Served(k), k.serving.value.pid;
    match k.serving.value.req
    case FOpen(f) => OpenIsFifo(k0, p, f, l); StoppedFifo(k, k0, Attend(k, ok), l);
    case FClose(f) =>
      CloseIsFifo(k0, p, f, l);
      StoppedFifo(k, k0, Attend(k, ok), l);
    case FTruncate(_) => SameQueueIsFifo(k, Attend(k, ok), l);
    case FSeek(_) => SameQueueIsFifo(k, Attend(k, ok), l);
    case FUse(_) => SameQueueIsFifo(k, Attend(k, ok), l);
  }

  lemma StoppedFifo(k: KState, k0: KState, k': KState, l: Loc)
    requires Waiting(l) && k0.enUso == k.enUso && k0.colas == k.colas && FifoAt(k0, k', l)
    ensures FifoAt(k, k', l)
  {
    assert List(k0, l) == List(k, l);
  }
}
