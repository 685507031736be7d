/** Every process is in exactly one place: the two moves a list can make, and the kernel's operations
    as sequences of those moves. */
module KernelPlaces {
  import opened Sums
  import opened Kernel

  ghost predicate Distinct<T>(q: seq<T>) { forall i, j :: 0 <= i < j < |q| ==> q[i] != q[j] }

  /** The list at `l` holds exactly the processes that `w` puts there, each once. */
  ghost predicate Holds(q: seq<Pid>, w: map<Pid, Loc>, l: Loc) {
    Distinct(q) && forall p :: p in q <==> p in w && w[p] == l
  }

  /** `w` says where each process is. */
  ghost predicate Placed(k: KState, w: map<Pid, Loc>) { forall l :: Holds(List(k, l), w, l) }

  /** Only the list at `l` differs. */
  ghost predicate OnlyAt(k: KState, k': KState, l: Loc) { forall m :: m != l ==> List(k', m) == List(k, m) }

  lemma DistinctRemove<T>(q: seq<T>, i: nat)
    requires Distinct(q) && i < |q|
    ensures Distinct(RemoveAt(q, i)) && forall x :: x in RemoveAt(q, i) <==> x in q && x != q[i]
  {
    forall x | x in q && x != q[i] ensures x in RemoveAt(q, i) {
      var j :| 0 <= j < |q| && q[j] == x;
      assert RemoveAt(q, i)[if j < i then j else j - 1] == x;
    }
  }

  lemma DistinctInsert<T>(q: seq<T>, at: nat, x: T)
    requires Distinct(q) && at <= |q| && x !in q
    ensures Distinct(q[..at] + [x] + q[at..]) && forall y :: y in q[..at] + [x] + q[at..] <==> y in q || y == x
  {
    assert q == q[..at] + q[at..];
  }

  /** Taking a process off a list leaves it in hand. */
  lemma TakeKeeps(k: KState, k': KState, w: map<Pid, Loc>, l: Loc, i: nat)
    requires Placed(k, w) && i < |List(k, l)| && List(k', l) == RemoveAt(List(k, l), i) && OnlyAt(k, k', l)
    ensures Placed(k', w - {List(k, l)[i]})
  {
    var p := List(k, l)[i];
    hide List, RemoveAt;
    assert Holds(List(k, l), w, l);
    DistinctRemove(List(k, l), i);
    forall m ensures Holds(List(k', m), w - {p}, m) {
      assert Holds(List(k, m), w, m);
    }
  }

  /** Putting the process in hand on a list. */
  lemma PutKeeps(k: KState, k': KState, w: map<Pid, Loc>, l: Loc, p: Pid, at: nat)
    requires Placed(k, w) && p !in w && at <= |List(k, l)| && OnlyAt(k, k', l)
    requires List(k', l) == List(k, l)[..at] + [p] + List(k, l)[at..]
    ensures Placed(k', w[p := l])
  {
    hide List;
    assert Holds(List(k, l), w, l);
    DistinctInsert(List(k, l), at, p);
    forall m ensures Holds(List(k', m), w[p := l], m) {
      assert Holds(List(k, m), w, m);
    }
  }

  // ----- the three ways back to a scheduler list -----

  lemma PushReadyPlaces(k: KState, w: map<Pid, Loc>, p: Pid)
    requires Placed(k, w) && p !in w
    ensures Placed(PushReady(k, p), w[p := Ready])
  {
    assert List(PushReady(k, p), Ready) == k.ready[..|k.ready|] + [p] + k.ready[|k.ready|..];
    assert OnlyAt(k, PushReady(k, p), Ready);
    hide Placed;
    PutKeeps(k, PushReady(k, p), w, Ready, p, |k.ready|);
  }

  lemma UnshiftReadyPlaces(k: KState, w: map<Pid, Loc>, p: Pid)
    requires Placed(k, w) && p !in w
    ensures Placed(UnshiftReady(k, p), w[p := Ready])
  {
    assert List(UnshiftReady(k, p), Ready) == k.ready[..0] + [p] + k.ready[0..];
    assert OnlyAt(k, UnshiftReady(k, p), Ready);
    hide Placed;
    PutKeeps(k, UnshiftReady(k, p), w, Ready, p, 0);
  }

  lemma PushExitPlaces(k: KState, w: map<Pid, Loc>, p: Pid)
    requires Placed(k, w) && p !in w
    ensures Placed(PushExit(k, p), w[p := Exiting])
  {
    assert List(PushExit(k, p), Exiting) == k.exiting[..|k.exiting|] + [p] + k.exiting[|k.exiting|..];
    assert OnlyAt(k, PushExit(k, p), Exiting);
    hide Placed;
    PutKeeps(k, PushExit(k, p), w, Exiting, p, |k.exiting|);
  }

  /** States with the same lists have the same places. */
  lemma SameListsPlaces(k: KState, k': KState, w: map<Pid, Loc>)
    requires Placed(k, w) && forall l :: List(k', l) == List(k, l)
    ensures Placed(k', w)
  {
    hide List, Holds;
    forall l ensures Holds(List(k', l), w, l) {
      assert Holds(List(k, l), w, l);
    }
  }

  // ----- resources -----

  lemma ReleasePlaces(k: KState, w: map<Pid, Loc>, r: Res) returns (w': map<Pid, Loc>)
    requires Placed(k, w) && QueuesOk(k) && r in k.disponibles
    ensures Placed(Release(k, r), w') && w'.Keys == w.Keys
  {
    if r in k.enUso {
      var q, k1 := k.enUso[r][0], k.(enUso := Dequeue(k.enUso, r));
      assert List(k, ResQ(r))[0] == q;
      assert q in w;
      assert OnlyAt(k, k1, ResQ(r));
      assert List(k1, ResQ(r)) == RemoveAt(List(k, ResQ(r)), 0);
      hide Placed, List, Dequeue;
      TakeKeeps(k, k1, w, ResQ(r), 0);
      PushReadyPlaces(k1, w - {q}, q);
      w' := (w - {q})[q := Ready];
    } else {
      SameListsPlaces(k, Release(k, r), w);
      w' := w;
    }
  }

  lemma WaitPlaces(k: KState, w: map<Pid, Loc>, p: Pid, r: Res) returns (w': map<Pid, Loc>)
    requires Placed(k, w) && p !in w
    ensures Placed(Wait(k, p, r), w') && w'.Keys == w.Keys + {p}
  {
    if r !in k.disponibles {
      PushExitPlaces(k, w, p);
      w' := w[p := Exiting];
    } else if k.disponibles[r] >= 1 {
      var k1 := Register(k, p, r).(disponibles := k.disponibles[r := k.disponibles[r] - 1]);
      SameListsPlaces(k, k1, w);
      UnshiftReadyPlaces(k1, w, p);
      w' := w[p := Ready];
    } else {
      WaitBlocks(k, p, r);
      hide Placed, Wait, List;
      PutKeeps(k, Wait(k, p, r), w, ResQ(r), p, |At(k.enUso, r)|);
      w' := w[p := ResQ(r)];
    }
  }

  lemma WaitBlocks(k: KState, p: Pid, r: Res)
    requires r in k.disponibles && k.disponibles[r] < 1
    ensures var q, k' := List(k, ResQ(r)), Wait(k, p, r);
      && q == At(k.enUso, r) && List(k', ResQ(r)) == q[..|q|] + [p] + q[|q|..] && OnlyAt(k, k', ResQ(r))
  {
  }

  lemma SignalPlaces(k: KState, w: map<Pid, Loc>, p: Pid, r: Res) returns (w': map<Pid, Loc>)
    requires Placed(k, w) && p !in w && QueuesOk(k) && (r in k.disponibles ==> p in k.porProceso)
    ensures Placed(Signal(k, p, r), w') && w'.Keys == w.Keys + {p}
  {
    if r !in k.disponibles {
      PushExitPlaces(k, w, p);
      w' := w[p := Exiting];
    } else {
      var k1 := Unregister(k, p, r);
      SameListsPlaces(k, k1, w);
      UnshiftReadyPlaces(k1, w, p);
      w' := ReleasePlaces(UnshiftReady(k1, p), w[p := Ready], r);
    }
  }

  lemma {:induction false} ReleaseAllPlaces(k: KState, w: map<Pid, Loc>, p: Pid) returns (w': map<Pid, Loc>)
    requires Placed(k, w) && QueuesOk(k)
    ensures Placed(ReleaseAll(k, p), w') && w'.Keys == w.Keys
    decreases |Registered(k, p)|
  {
    var rs := Registered(k, p);
    if rs == [] || rs[0] !in k.disponibles {
      w' := w;
    } else {
      var k1 := k.(porProceso := k.porProceso[p := rs[1..]]);
      SameListsPlaces(k, k1, w);
      hide Placed, Release;
      ReleaseKeepsQueues(k1, rs[0]);
      var w1 := ReleasePlaces(k1, w, rs[0]);
      w' := ReleaseAllPlaces(Release(k1, rs[0]), w1, p);
    }
  }

  // ----- files -----

  lemma FreeFilePlaces(k: KState, w: map<Pid, Loc>, f: File) returns (w': map<Pid, Loc>)
    requires Placed(k, w) && f in k.colas
    ensures Placed(FreeFile(k, f), w') && w'.Keys == w.Keys
  {
    if k.colas[f] == [] {
      SameListsPlaces(k, FreeFile(k, f), w);
      w' := w;
    } else {
      var q, k1 := k.colas[f][0], k.(colas := k.colas[f := k.colas[f][1..]]);
      assert List(k, FileQ(f))[0] == q;
      assert q in w;
      assert OnlyAt(k, k1, FileQ(f));
      assert List(k1, FileQ(f)) == RemoveAt(List(k, FileQ(f)), 0);
      hide Placed, List;
      TakeKeeps(k, k1, w, FileQ(f), 0);
      PushReadyPlaces(k1, w - {q}, q);
      w' := (w - {q})[q := Ready];
    }
  }

  lemma OpenFilePlaces(k: KState, w: map<Pid, Loc>, p: Pid, f: File) returns (w': map<Pid, Loc>)
    requires Placed(k, w) && p !in w && (f in k.gdt <==> f in k.colas)
    ensures Placed(OpenFile(k, p, f), w') && w'.Keys == w.Keys + {p}
  {
    var k1 := k.(abiertos := k.abiertos[p := [f] + Table(k, p)]);
    if f in k.gdt {
      var q, k2 := k.colas[f], OpenFile(k, p, f);
      assert List(k2, FileQ(f)) == q[..|q|] + [p] + q[|q|..];
      assert OnlyAt(k, k2, FileQ(f));
      hide Placed;
      PutKeeps(k, k2, w, FileQ(f), p, |q|);
      w' := w[p := FileQ(f)];
    } else {
      var k2 := k1.(gdt := k.gdt + [f], colas := k.colas[f := []]);
      SameListsPlaces(k, k2, w);
      UnshiftReadyPlaces(k2, w, p);
      w' := w[p := Ready];
    }
  }

  lemma CloseFilePlaces(k: KState, w: map<Pid, Loc>, p: Pid, f: File) returns (w': map<Pid, Loc>)
    requires Placed(k, w) && p !in w && (f in Table(k, p) ==> f in k.colas)
    ensures Placed(CloseFile(k, p, f), w') && w'.Keys == w.Keys + {p}
  {
    match Position(Table(k, p), f)
    case None =>
      assert f !in Table(k, p);
      assert CloseFile(k, p, f) == PushExit(k, p);
      PushExitPlaces(k, w, p);
      w' := w[p := Exiting];
    case Some(i) =>
      var k1 := k.(abiertos := k.abiertos[p := RemoveAt(Table(k, p), i)]);
      assert CloseFile(k, p, f) == FreeFile(PushReady(k1, p), f);
      SameListsPlaces(k, k1, w);
      PushReadyPlaces(k1, w, p);
      w' := FreeFilePlaces(PushReady(k1, p), w[p := Ready], f);
  }

  lemma {:induction false} CloseAllPlaces(k: KState, w: map<Pid, Loc>, p: Pid) returns (w': map<Pid, Loc>)
    requires Placed(k, w)
    ensures Placed(CloseAll(k, p), w') && w'.Keys == w.Keys
    decreases |Table(k, p)|
  {
    var fs := Table(k, p);
    if fs == [] || fs[0] !in k.colas {
      w' := w;
    } else {
      var k1 := k.(abiertos := k.abiertos[p := fs[1..]]);
      SameListsPlaces(k, k1, w);
      assert FreeFile(k1, fs[0]).abiertos == k1.abiertos;
      hide Placed, FreeFile;
      var w1 := FreeFilePlaces(k1, w, fs[0]);
      w' := CloseAllPlaces(FreeFile(k1, fs[0]), w1, p);
    }
  }

  // ----- the schedulers' moves -----

  /** From one list to the end of another. */
  lemma ShiftPlaces(k: KState, k1: KState, k': KState, w: map<Pid, Loc>, l: Loc, i: nat, m: Loc)
    requires Placed(k, w) && i < |List(k, l)| && List(k1, l) == RemoveAt(List(k, l), i) && OnlyAt(k, k1, l)
    requires List(k', m) == List(k1, m) + [List(k, l)[i]] && OnlyAt(k1, k', m)
    ensures Placed(k', (w - {List(k, l)[i]})[List(k, l)[i] := m])
  {
    var p, q := List(k, l)[i], List(k1, m);
    assert q + [p] == q[..|q|] + [p] + q[|q|..];
    hide List, OnlyAt, RemoveAt, Placed;
    TakeKeeps(k, k1, w, l, i);
    PutKeeps(k1, k', w - {p}, m, p, |q|);
  }

  /** The running process leaves the CPU. */
  lemma StopPlaces(k: KState, w: map<Pid, Loc>)
    requires Placed(k, w) && k.running.Some?
    ensures Placed(Stopped(k), w - {k.running.value})
  {
    assert List(k, Running) == [k.running.value] && OnlyAt(k, Stopped(k), Running);
    hide Placed;
    TakeKeeps(k, Stopped(k), w, Running, 0);
  }

  lemma ReturnPlaces(k: KState, w: map<Pid, Loc>)
    requires Placed(k, w) && k.running.Some?
    ensures var p := k.running.value;
      && Placed(PushReady(Stopped(k), p), (w - {p})[p := Ready])
      && Placed(UnshiftReady(Stopped(k), p), (w - {p})[p := Ready])
      && Placed(PushExit(Stopped(k), p), (w - {p})[p := Exiting])
  {
    hide Placed, PushReady, UnshiftReady, PushExit;
    StopPlaces(k, w);
    PushReadyPlaces(Stopped(k), w - {k.running.value}, k.running.value);
    UnshiftReadyPlaces(Stopped(k), w - {k.running.value}, k.running.value);
    PushExitPlaces(Stopped(k), w - {k.running.value}, k.running.value);
  }

  lemma AdmitPlaces(k: KState, w: map<Pid, Loc>)
    requires Placed(k, w) && k.nuevos != []
    ensures Placed(PushReady(k.(nuevos := k.nuevos[1..], semNew := k.semNew.(taken := false), admitting := false), k.nuevos[0]),
                   (w - {k.nuevos[0]})[k.nuevos[0] := Ready])
  {
    var k1 := k.(nuevos := k.nuevos[1..], semNew := k.semNew.(taken := false), admitting := false);
    assert OnlyAt(k, k1, New) && OnlyAt(k1, PushReady(k1, k.nuevos[0]), Ready);
    hide Placed, OnlyAt;
    ShiftPlaces(k, k1, PushReady(k1, k.nuevos[0]), w, New, 0, Ready);
  }

  lemma DispatchPlaces(k: KState, w: map<Pid, Loc>)
    requires Placed(k, w) && k.ready != [] && k.running.None?
    ensures Placed(k.(running := Some(k.ready[0]), ready := k.ready[1..], semReady := k.semReady.(taken := false)),
                   (w - {k.ready[0]})[k.ready[0] := Running])
  {
    var k1 := k.(ready := k.ready[1..], semReady := k.semReady.(taken := false));
    var k' := k1.(running := Some(k.ready[0]));
    assert OnlyAt(k, k1, Ready) && OnlyAt(k1, k', Running);
    hide Placed, OnlyAt;
    ShiftPlaces(k, k1, k', w, Ready, 0, Running);
  }

  lemma IoPlaces(k: KState, w: map<Pid, Loc>)
    requires Placed(k, w) && k.running.Some?
    ensures Placed(Stopped(k).(sleeping := k.sleeping + [k.running.value]), (w - {k.running.value})[k.running.value := Sleeping])
  {
    var k' := Stopped(k).(sleeping := k.sleeping + [k.running.value]);
    assert List(k, Running) == [k.running.value] && OnlyAt(k, Stopped(k), Running) && OnlyAt(Stopped(k), k', Sleeping);
    hide Placed, OnlyAt;
    ShiftPlaces(k, Stopped(k), k', w, Running, 0, Sleeping);
  }

  lemma IoDonePlaces(k: KState, w: map<Pid, Loc>, i: nat)
    requires Placed(k, w) && i < |k.sleeping|
    ensures Placed(PushReady(k.(sleeping := RemoveAt(k.sleeping, i)), k.sleeping[i]), (w - {k.sleeping[i]})[k.sleeping[i] := Ready])
  {
    var k1 := k.(sleeping := RemoveAt(k.sleeping, i));
    assert OnlyAt(k, k1, Sleeping) && OnlyAt(k1, PushReady(k1, k.sleeping[i]), Ready);
    hide Placed, OnlyAt, RemoveAt;
    ShiftPlaces(k, k1, PushReady(k1, k.sleeping[i]), w, Sleeping, i, Ready);
  }

  lemma CallFsPlaces(k: KState, w: map<Pid, Loc>, req: Request)
    requires Placed(k, w) && k.running.Some?
    ensures Placed(Stopped(k).(fsQueue := k.fsQueue + [Node(k.running.value, req)], semBlocked := Owe(k.semBlocked)),
                   (w - {k.running.value})[k.running.value := FsQueue])
  {
    var k' := Stopped(k).(fsQueue := k.fsQueue + [Node(k.running.value, req)], semBlocked := Owe(k.semBlocked));
    assert List(k, Running) == [k.running.value] && OnlyAt(k, Stopped(k), Running) && OnlyAt(Stopped(k), k', FsQueue);
    assert List(k', FsQueue) == List(Stopped(k), FsQueue) + [k.running.value];
    hide Placed, OnlyAt;
    ShiftPlaces(k, Stopped(k), k', w, Running, 0, FsQueue);
  }

  lemma TakeBlockedPlaces(k: KState, w: map<Pid, Loc>)
    requires Placed(k, w) && k.fsQueue != [] && k.serving.None?
    ensures Placed(k.(serving := Some(k.fsQueue[0]), fsQueue := k.fsQueue[1..], semBlocked := k.semBlocked.(taken := false)),
                   (w - {k.fsQueue[0].pid})[k.fsQueue[0].pid := Serving])
  {
    var k1 := k.(fsQueue := k.fsQueue[1..], semBlocked := k.semBlocked.(taken := false));
    var k' := k1.(serving := Some(k.fsQueue[0]));
    assert OnlyAt(k, k1, FsQueue) && OnlyAt(k1, k', Serving);
    assert List(k1, FsQueue) == RemoveAt(List(k, FsQueue), 0);
    hide Placed, OnlyAt;
    ShiftPlaces(k, k1, k', w, FsQueue, 0, Serving);
  }

  lemma TakeExitPlaces(k: KState, w: map<Pid, Loc>)
    requires Placed(k, w) && k.exiting != [] && k.leaving.None?
    ensures Placed(k.(leaving := Some(k.exiting[0]), exiting := k.exiting[1..], semExit := k.semExit.(taken := false)),
                   (w - {k.exiting[0]})[k.exiting[0] := Leaving])
  {
    var k1 := k.(exiting := k.exiting[1..], semExit := k.semExit.(taken := false));
    var k' := k1.(leaving := Some(k.exiting[0]));
    assert OnlyAt(k, k1, Exiting) && OnlyAt(k1, k', Leaving);
    hide Placed, OnlyAt;
    ShiftPlaces(k, k1, k', w, Exiting, 0, Leaving);
  }

  /** The process a plain step moves, and where to. */
  function Moved(k: KState, s: Step): (Pid, Loc)
    requires Plain(s) && Enabled(k, s) && Safe(k, s)
  {
    match s
    case Admit => (k.nuevos[0], Ready)
    case Dispatch => (k.ready[0], Running)
    case Yield => (k.running.value, Ready)
    case Finish => (k.running.value, Exiting)
    case Io => (k.running.value, Sleeping)
    case SegmentOk => (k.running.value, Ready)
    case SegmentFail => (k.running.value, Exiting)
    case CallFs(_) => (k.running.value, FsQueue)
    case IoDone(i) => (k.sleeping[i], Ready)
    case TakeBlocked => (k.fsQueue[0].pid, Serving)
    case TakeExit => (k.exiting[0], Leaving)
  }

  /** A plain step moves one process from where it is, and nobody else. */
  lemma MovePlaces(k: KState, w: map<Pid, Loc>, s: Step)
    requires Placed(k, w) && Plain(s) && Enabled(k, s) && Safe(k, s)
    ensures Placed(Move(k, s), (w - {Moved(k, s).0})[Moved(k, s).0 := Moved(k, s).1])
  {
    hide Placed, PushReady, UnshiftReady, PushExit, Stopped, QueuesOk, FilesReady;
    match s
    case Admit => AdmitPlaces(k, w);
    case Dispatch => DispatchPlaces(k, w);
    case Yield => ReturnPlaces(k, w);
    case Finish => ReturnPlaces(k, w);
    case Io => IoPlaces(k, w);
    case SegmentOk => ReturnPlaces(k, w);
    case SegmentFail => ReturnPlaces(k, w);
    case CallFs(req) => CallFsPlaces(k, w, req);
    case IoDone(i) => IoDonePlaces(k, w, i);
    case TakeBlocked => TakeBlockedPlaces(k, w);
    case TakeExit => TakeExitPlaces(k, w);
  }
}
