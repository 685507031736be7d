/** Where WAIT and the exit thread race: in every reachable state with a process running and another one
    leaving, for each resource the latter still holds. */
module KernelWaitRuns {
  import opened Sums
  import opened Kernel
  import opened KernelPlaces
  import opened KernelResources
  import opened KernelFiles
  import opened KernelSteps
  import opened KernelRuns
  import opened KernelWaitRace

  /** The running process and the one that leaves, both in hand. */
  function BothInHand(k: KState): KState { k.(running := None, leaving := None) }

  lemma TwoInHand(k: KState, w: map<Pid, Loc>, h: map<File, Pid>, grado: nat)
    requires Inv(k, w, h, grado) && k.running.Some? && k.leaving.Some?
    ensures var p, q, k2 := k.running.value, k.leaving.value, BothInHand(k);
      p != q && Placed(k2, w - {p} - {q}) && ResOk(k2)
  {
    var k1, k2, p, q := Stopped(k), BothInHand(k), k.running.value, k.leaving.value;
    assert List(k, Leaving) == [q] && List(k1, Leaving) == [q] && List(k2, Leaving) == [] && OnlyAt(k1, k2, Leaving);
    assert List(k, Running) == [p];
    TakeOver(k, w, h, grado);
    assert Placed(k1, w - {p});
    assert Holds(List(k, Leaving), w, Leaving) && Holds(List(k, Running), w, Running);
    assert p in List(k, Running) && q in List(k, Leaving);
    SameResources(k, k2);
    hide List, OnlyAt, Placed, Inv, InHand, ResOk;
    TakeKeeps(k1, k2, w - {p}, Leaving, 0);
  }

  /** The loop of `liberarRecursosDelProceso` after `n` turns. */
  function ReleaseSome(k: KState, q: Pid, n: nat): KState
    requires QueuesOk(k)
    decreases n
  {
    var rs := Registered(k, q);
    if n == 0 || rs == [] || rs[0] !in k.disponibles then k
    else
      var k1 := k.(porProceso := k.porProceso[q := rs[1..]]);
      ReleaseKeepsQueues(k1, rs[0]);
      ReleaseSome(Release(k1, rs[0]), q, n - 1)
  }

  lemma {:induction false} ReleaseSomeKeeps(k: KState, w: map<Pid, Loc>, q: Pid, n: nat) returns (w': map<Pid, Loc>)
    requires ResOk(k) && NotQueued(k, q) && Placed(k, w) && n <= |Registered(k, q)|
    ensures QueuesOk(k) && ResOk(ReleaseSome(k, q, n)) && NotQueued(ReleaseSome(k, q, n), q)
    ensures Placed(ReleaseSome(k, q, n), w') && w'.Keys == w.Keys && Registered(ReleaseSome(k, q, n), q) == Registered(k, q)[n..]
    decreases n
  {
    assert QueuesOk(k);
    hide ResOk, Placed, QueuesOk, Release;
    if n == 0 {
      w' := w;
    } else {
      var w1 := ReleaseOne(k, w, q);
      var k1 := Release(k.(porProceso := k.porProceso[q := Registered(k, q)[1..]]), Registered(k, q)[0]);
      hide Registered, NotQueued;
      w' := ReleaseSomeKeeps(k1, w1, q, n - 1);
      assert Registered(k, q)[1..][n - 1..] == Registered(k, q)[n..];
    }
  }

  lemma ReleaseOne(k: KState, w: map<Pid, Loc>, q: Pid) returns (w': map<Pid, Loc>)
    requires ResOk(k) && NotQueued(k, q) && Placed(k, w) && Registered(k, q) != []
    ensures Registered(k, q)[0] in k.disponibles
    ensures var k0 := k.(porProceso := k.porProceso[q := Registered(k, q)[1..]]);
      && QueuesOk(k0)
      && var k1 := Release(k0, Registered(k, q)[0]);
         ResOk(k1) && NotQueued(k1, q) && Placed(k1, w') && w'.Keys == w.Keys && Registered(k1, q) == Registered(k, q)[1..]
  {
    var rs := Registered(k, q);
    var k0 := k.(porProceso := k.porProceso[q := rs[1..]]);
    assert rs[0] in Registered(k, q) && rs[0] in k.disponibles;
    ForgetKeepsResOk(k, q, rs[1..]);
    assert QueuesOk(k0) && NotQueued(k0, q);
    assert forall l :: List(k0, l) == List(k, l);
    hide ResOk, Placed, Release, List;
    SameListsPlaces(k, k0, w);
    ReleaseResources(k0, rs[0]);
    w' := ReleasePlaces(k0, w, rs[0]);
  }

  /** The state in which the exit thread has released `n` resources and taken the next one off the books of
      the process, while WAIT begins. */
  function RaceState(k: KState, n: nat): KState
    requires k.leaving.Some? && QueuesOk(BothInHand(k))
  {
    var q := k.leaving.value;
    var k1 := ReleaseSome(BothInHand(k), q, n);
    k1.(porProceso := k1.porProceso[q := if Registered(k1, q) == [] then [] else Registered(k1, q)[1..]])
  }

  lemma RaceStarts(k: KState, w: map<Pid, Loc>, h: map<File, Pid>, grado: nat, n: nat)
    requires Inv(k, w, h, grado) && k.running.Some? && k.leaving.Some? && n < |Registered(k, k.leaving.value)|
    ensures QueuesOk(BothInHand(k)) && k.running.value != k.leaving.value
    ensures var k2, x := RaceState(k, n), Registered(k, k.leaving.value)[n];
      QueuesOk(k2) && NoIdle(k2) && x in k2.disponibles && forall l :: k.running.value !in List(k2, l)
  {
    var p, q, k0 := k.running.value, k.leaving.value, BothInHand(k);
    TwoInHand(k, w, h, grado);
    InHandWaitsNowhere(k0, w - {p} - {q}, q);
    assert Registered(k0, q) == Registered(k, q) && QueuesOk(k0);
    hide Inv, ResOk, Placed, NotQueued, QueuesOk, Registered;
    var w' := ReleaseSomeKeeps(k0, w - {p} - {q}, q, n);
    TakenOff(ReleaseSome(k0, q, n), w', p, q);
  }

  lemma TakenOff(k: KState, w: map<Pid, Loc>, p: Pid, q: Pid)
    requires ResOk(k) && NotQueued(k, q) && Placed(k, w) && Registered(k, q) != [] && p !in w
    ensures var k2 := k.(porProceso := k.porProceso[q := Registered(k, q)[1..]]);
      QueuesOk(k2) && NoIdle(k2) && Registered(k, q)[0] in k2.disponibles && forall l :: p !in List(k2, l)
  {
    var k2 := k.(porProceso := k.porProceso[q := Registered(k, q)[1..]]);
    assert Registered(k, q)[0] in Registered(k, q);
    forall l ensures p !in List(k2, l) {
      assert List(k2, l) == List(k, l);
      assert Holds(List(k, l), w, l);
    }
  }

  /** From start-up, after any run with a process running and another one leaving: for each resource the
      latter still holds, in its turn of the releasing loop, WAIT for `r` beside it has in every schedule the
      outcome of one call after the other exactly when it is another resource, or an instance is free or
      owed, or more than one process is in line. */
  lemma EveryRunWaitsSafelyIff(recursos: map<Res, int>, grado: nat, ss: seq<Step>, r: Res)
    requires Run(Boot(recursos, grado), ss)
    requires var k := Final(Boot(recursos, grado), ss); k.running.Some? && k.leaving.Some?
    ensures QueuesOk(BothInHand(Final(Boot(recursos, grado), ss)))
    ensures var k := Final(Boot(recursos, grado), ss);
      forall n: nat :: n < |Registered(k, k.leaving.value)| ==>
        var k2, p, x := RaceState(k, n), k.running.value, Registered(k, k.leaving.value)[n];
        && QueuesOk(k2) && x in k2.disponibles
        && (r in k2.disponibles ==>
              ((forall i: nat, j: nat, l: nat :: Schedule(i, j, l) ==> Serial(k2, Raced(k2, p, r, x, i, j, l), p, r, x))
                <==> Harmless(k2, r, x)))
  {
    hide Boot, Run, Final, Inv, RaceState, Raced, Serial, QueuesOk, List, Registered, Harmless;
    BootIsOk(recursos, grado);
    var w, h := RunKeepsInv(Boot(recursos, grado), map[], map[], grado, ss);
    var k := Final(Boot(recursos, grado), ss);
    QueuesInHand(k, w, h, grado);
    forall n: nat | n < |Registered(k, k.leaving.value)|
      ensures var k2, p, x := RaceState(k, n), k.running.value, Registered(k, k.leaving.value)[n];
        && QueuesOk(k2) && x in k2.disponibles
        && (r in k2.disponibles ==>
              ((forall i: nat, j: nat, l: nat :: Schedule(i, j, l) ==> Serial(k2, Raced(k2, p, r, x, i, j, l), p, r, x))
                <==> Harmless(k2, r, x)))
    {
      RaceStarts(k, w, h, grado, n);
      if r in RaceState(k, n).disponibles {
        NoScheduleHarmsIff(RaceState(k, n), k.running.value, r, Registered(k, k.leaving.value)[n]);
      }
    }
  }

  lemma QueuesInHand(k: KState, w: map<Pid, Loc>, h: map<File, Pid>, grado: nat)
    requires Inv(k, w, h, grado)
    ensures QueuesOk(BothInHand(k))
  {
    QueuesOf(k, w, h, grado);
  }
}
