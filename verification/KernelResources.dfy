/** Accounting of resource instances through WAIT, SIGNAL and process exit. */
module KernelResources {
  import opened Sums
  import opened Kernel

  /** Registered uses of a resource over all processes. */
  ghost function Uses(pp: map<Pid, seq<Res>>, r: Res): int { Sum(map p | p in pp :: multiset(pp[p])[r]) }

  /** Free instances, plus registered uses, minus processes still queued. */
  ghost function Balance(k: KState, r: Res): int
    requires r in k.disponibles
  {
    k.disponibles[r] + Uses(k.porProceso, r) - |At(k.enUso, r)|
  }

  /** A process queued for a resource has it registered. */
  ghost predicate WaitersRegistered(k: KState) {
    forall r, p {:trigger p in At(k.enUso, r)} :: p in At(k.enUso, r) ==> r in Registered(k, p)
  }

  /** A queue exists only while nobody can be served, and every registered resource exists. */
  ghost predicate ResOk(k: KState) {
    && QueuesOk(k)
    && (forall r :: r in k.enUso ==> r in k.disponibles && k.disponibles[r] <= 0)
    && (forall p, r {:trigger r in Registered(k, p)} :: r in Registered(k, p) ==> r in k.disponibles)
    && WaitersRegistered(k)
  }

  ghost predicate NotQueued(k: KState, p: Pid) { forall r {:trigger At(k.enUso, r)} :: p !in At(k.enUso, r) }

  /** What one operation does to every balance. */
  ghost predicate Shifts(k: KState, k': KState, r: Res, d: int) {
    && k'.disponibles.Keys == k.disponibles.Keys
    && forall x :: x in k.disponibles ==> Balance(k', x) == Balance(k, x) + if x == r then d else 0
  }

  lemma ShiftsCompose(k: KState, k1: KState, k2: KState, r: Res, a: int, b: int)
    requires Shifts(k, k1, r, a) && Shifts(k1, k2, r, b)
    ensures Shifts(k, k2, r, a + b)
  {
    hide Balance;
    forall x | x in k.disponibles ensures Balance(k2, x) == Balance(k, x) + if x == r then a + b else 0 {
      assert x in k1.disponibles;
    }
  }

  lemma CountRemove<T>(s: seq<T>, i: nat)
    requires i < |s|
    ensures multiset(RemoveAt(s, i)) == multiset(s) - multiset{s[i]}
  {
    assert s == s[..i] + [s[i]] + s[i + 1..];
  }

  lemma UsesUpdate(pp: map<Pid, seq<Res>>, p: Pid, rs: seq<Res>, r: Res)
    ensures Uses(pp[p := rs], r) ==
      Uses(pp, r) + multiset(rs)[r] - (if p in pp then multiset(pp[p])[r] else 0)
  {
    var m := map q | q in pp :: multiset(pp[q])[r];
    SumUpdate(m, p, multiset(rs)[r]);
    var pp' := pp[p := rs];
    assert (map q | q in pp' :: multiset(pp'[q])[r]) == m[p := multiset(rs)[r]];
  }

  lemma RegisterShifts(k: KState, p: Pid, r: Res)
    ensures Shifts(k, Register(k, p, r), r, 1)
  {
    forall x | x in k.disponibles ensures Balance(Register(k, p, r), x) == Balance(k, x) + if x == r then 1 else 0 {
      UsesUpdate(k.porProceso, p, Registered(k, p) + [r], x);
    }
  }

  lemma UnregisterShifts(k: KState, p: Pid, r: Res)
    requires p in k.porProceso
    ensures Shifts(k, Unregister(k, p, r), r, if r in Registered(k, p) then -1 else 0)
    ensures Unregister(k, p, r) == k.(porProceso := k.porProceso[p := Registered(Unregister(k, p, r), p)])
    ensures forall x :: x in Registered(Unregister(k, p, r), p) ==> x in Registered(k, p)
  {
    match Position(k.porProceso[p], r)
    case None => assert k.porProceso == k.porProceso[p := k.porProceso[p]];
    case Some(i) =>
      RemovedShifts(k, p, r, i);
      hide Shifts;
  }

  lemma RemovedShifts(k: KState, p: Pid, r: Res, i: nat)
    requires p in k.porProceso && i < |k.porProceso[p]| && k.porProceso[p][i] == r
    ensures Shifts(k, k.(porProceso := k.porProceso[p := RemoveAt(k.porProceso[p], i)]), r, -1)
    ensures forall x :: x in RemoveAt(k.porProceso[p], i) ==> x in k.porProceso[p]
  {
    CountRemove(k.porProceso[p], i);
    forall x | x in k.disponibles
      ensures Uses(k.porProceso[p := RemoveAt(k.porProceso[p], i)], x) == Uses(k.porProceso, x) - if x == r then 1 else 0
    {
      UsesUpdate(k.porProceso, p, RemoveAt(k.porProceso[p], i), x);
    }
  }

  /** Entries of a process that waits for nothing can go. */
  lemma ForgetKeepsResOk(k: KState, p: Pid, rs: seq<Res>)
    requires ResOk(k) && NotQueued(k, p) && forall x :: x in rs ==> x in Registered(k, p)
    ensures ResOk(k.(porProceso := k.porProceso[p := rs]))
  {
    var k' := k.(porProceso := k.porProceso[p := rs]);
    forall q ensures Registered(k', q) == if q == p then rs else Registered(k, q) {}
    forall r, q | q in At(k'.enUso, r) ensures r in Registered(k', q) {
      assert p !in At(k.enUso, r);
    }
  }

  /** One more instance is handed to the first in line, or becomes free. */
  lemma ReleaseResources(k: KState, r: Res)
    requires ResOk(k) && r in k.disponibles
    ensures ResOk(Release(k, r)) && Shifts(k, Release(k, r), r, 1)
    ensures Release(k, r).porProceso == k.porProceso
    ensures forall p :: NotQueued(k, p) ==> NotQueued(Release(k, r), p)
  {
    ReleaseParts(k, r);
    var k' := Release(k, r);
    forall q ensures Registered(k', q) == Registered(k, q) {}
    hide Release, Registered, Uses;
    ReleaseKeepsResOk(k, k', r);
    hide ResOk;
    forall x | x in k.disponibles ensures Balance(k', x) == Balance(k, x) + if x == r then 1 else 0 {
      if x != r { assert At(k'.enUso, x) == At(k.enUso, x); }
    }
  }

  /** The queue loses its head, or there is one more free instance. */
  lemma ReleaseParts(k: KState, r: Res)
    requires QueuesOk(k) && r in k.disponibles
    ensures var k' := Release(k, r);
      && k'.porProceso == k.porProceso && QueuesOk(k')
      && (r in k.enUso ==> k'.disponibles == k.disponibles)
      && (r !in k.enUso ==> k'.disponibles == k.disponibles[r := k.disponibles[r] + 1])
      && (forall x :: At(k'.enUso, x) == if x == r && r in k.enUso then k.enUso[r][1..] else At(k.enUso, x))
      && (forall x :: x in k'.enUso ==> x in k.enUso)
  {
    if r in k.enUso {}
  }

  lemma ReleaseKeepsResOk(k: KState, k': KState, r: Res)
    requires ResOk(k) && QueuesOk(k') && forall q :: Registered(k', q) == Registered(k, q)
    requires r in k.disponibles && (r in k.enUso ==> k'.disponibles == k.disponibles)
    requires r !in k.enUso ==> k'.disponibles == k.disponibles[r := k.disponibles[r] + 1]
    requires forall x :: At(k'.enUso, x) == if x == r && r in k.enUso then k.enUso[r][1..] else At(k.enUso, x)
    requires forall x :: x in k'.enUso ==> x in k.enUso
    ensures ResOk(k') && forall p :: NotQueued(k, p) ==> NotQueued(k', p)
  {
    hide Registered;
    forall x, p | p in At(k'.enUso, x) ensures p in At(k.enUso, x) {
      if x == r && r in k.enUso { assert k.enUso[r] == [k.enUso[r][0]] + k.enUso[r][1..]; }
    }
  }

  lemma RegisterKeepsResOk(k: KState, p: Pid, r: Res)
    requires ResOk(k) && r in k.disponibles
    ensures ResOk(Register(k, p, r))
  {
    forall q ensures Registered(Register(k, p, r), q) == if q == p then Registered(k, p) + [r] else Registered(k, q) {}
  }

  lemma EnqueueKeepsResOk(k: KState, p: Pid, r: Res)
    requires ResOk(k) && r in Registered(k, p) && r in k.disponibles && k.disponibles[r] < 1
    ensures ResOk(k.(enUso := k.enUso[r := At(k.enUso, r) + [p]]))
  {
    var k' := k.(enUso := k.enUso[r := At(k.enUso, r) + [p]]);
    forall q ensures Registered(k', q) == Registered(k, q) {}
    forall x ensures At(k'.enUso, x) == if x == r then At(k.enUso, r) + [p] else At(k.enUso, x) {}
  }

  lemma TakeKeepsResOk(k: KState, p: Pid, r: Res)
    requires ResOk(k) && r in k.disponibles && k.disponibles[r] >= 1
    ensures ResOk(UnshiftReady(k.(disponibles := k.disponibles[r := k.disponibles[r] - 1]), p))
  {
    var k' := UnshiftReady(k.(disponibles := k.disponibles[r := k.disponibles[r] - 1]), p);
    forall q ensures Registered(k', q) == Registered(k, q) {}
  }

  lemma WaitKeepsResOk(k: KState, p: Pid, r: Res)
    requires ResOk(k)
    ensures ResOk(Wait(k, p, r))
  {
    if r !in k.disponibles {
      SameResources(k, PushExit(k, p));
    } else {
      var k1 := Register(k, p, r);
      RegisterKeepsResOk(k, p, r);
      assert r in Registered(k1, p);
      hide ResOk;
      if k.disponibles[r] >= 1 {
        TakeKeepsResOk(k1, p, r);
      } else {
        EnqueueKeepsResOk(k1, p, r);
      }
    }
  }

  lemma WaitShifts(k: KState, p: Pid, r: Res)
    ensures Shifts(k, Wait(k, p, r), r, 0)
  {
    if r in k.disponibles {
      var k1 := Register(k, p, r);
      RegisterShifts(k, p, r);
      WaitTakesOne(k, p, r);
      hide Balance, Wait, Register;
      ShiftsCompose(k, k1, Wait(k, p, r), r, 1, -1);
    } else {
      SameResources(k, PushExit(k, p));
    }
  }

  /** Once registered, the process takes a free instance or a place in the queue. */
  lemma WaitTakesOne(k: KState, p: Pid, r: Res)
    requires r in k.disponibles
    ensures Shifts(Register(k, p, r), Wait(k, p, r), r, -1)
  {
    WaitParts(k, p, r);
    var k1, k' := Register(k, p, r), Wait(k, p, r);
    assert k1.enUso == k.enUso && k1.disponibles == k.disponibles;
    hide Uses, Register, Wait;
  }

  lemma WaitParts(k: KState, p: Pid, r: Res)
    requires r in k.disponibles
    ensures var k' := Wait(k, p, r);
      && k'.porProceso == Register(k, p, r).porProceso
      && k'.disponibles == (if k.disponibles[r] >= 1 then k.disponibles[r := k.disponibles[r] - 1] else k.disponibles)
      && k'.enUso == if k.disponibles[r] >= 1 then k.enUso else k.enUso[r := At(k.enUso, r) + [p]]
  {
    hide Registered;
  }

  lemma WaitResources(k: KState, p: Pid, r: Res)
    requires ResOk(k)
    ensures ResOk(Wait(k, p, r)) && Shifts(k, Wait(k, p, r), r, 0)
  {
    WaitKeepsResOk(k, p, r);
    WaitShifts(k, p, r);
  }

  /** SIGNAL moves the balance only when the process had not registered the resource. */
  lemma SignalResources(k: KState, p: Pid, r: Res)
    requires ResOk(k) && NotQueued(k, p) && (r in k.disponibles ==> p in k.porProceso)
    ensures ResOk(Signal(k, p, r))
    ensures Shifts(k, Signal(k, p, r), r, if r in k.disponibles && r !in Registered(k, p) then 1 else 0)
  {
    if r in k.disponibles {
      hide ResOk, Release, Unregister, Balance, NotQueued, UnshiftReady;
      UnregisterShifts(k, p, r);
      var k1 := Unregister(k, p, r);
      ForgetKeepsResOk(k, p, Registered(k1, p));
      ReadyKeepsResources(k1, p);
      ReleaseResources(UnshiftReady(k1, p), r);
    } else {
      SameResources(k, PushExit(k, p));
    }
  }

  lemma ReadyKeepsResources(k: KState, p: Pid)
    ensures ResOk(k) ==> ResOk(UnshiftReady(k, p))
    ensures forall r :: Shifts(k, UnshiftReady(k, p), r, 0)
    ensures UnshiftReady(k, p).disponibles == k.disponibles && UnshiftReady(k, p).porProceso == k.porProceso
    ensures QueuesOk(k) ==> QueuesOk(UnshiftReady(k, p))
  {
    SameResources(k, UnshiftReady(k, p));
  }

  lemma SameResources(k: KState, k': KState)
    requires k'.enUso == k.enUso && k'.disponibles == k.disponibles && k'.porProceso == k.porProceso
    ensures ResOk(k) ==> ResOk(k')
    ensures forall r :: Shifts(k, k', r, 0)
    ensures forall p :: NotQueued(k, p) ==> NotQueued(k', p)
  {
    forall p ensures Registered(k', p) == Registered(k, p) {}
  }

  /** An exiting process gives everything back and ends with nothing registered. */
  lemma {:induction false} ReleaseAllResources(k: KState, p: Pid)
    requires ResOk(k) && NotQueued(k, p)
    ensures ResOk(ReleaseAll(k, p)) && Registered(ReleaseAll(k, p), p) == []
    ensures forall r :: Shifts(k, ReleaseAll(k, p), r, 0)
    decreases |Registered(k, p)|
  {
    var rs := Registered(k, p);
    if rs == [] {
    } else {
      assert rs[0] in rs;
      var k1 := k.(porProceso := k.porProceso[p := rs[1..]]);
      ForgetKeepsResOk(k, p, rs[1..]);
      HeadShifts(k, p);
      hide ResOk, Release, Balance, QueuesOk, Shifts;
      ReleaseResources(k1, rs[0]);
      ShiftsCompose(k, k1, Release(k1, rs[0]), rs[0], -1, 1);
      ReleaseAllResources(Release(k1, rs[0]), p);
      ShiftsZero(k, Release(k1, rs[0]), ReleaseAll(k, p), rs[0]);
    }
  }

  lemma ShiftsZero(k: KState, k1: KState, k2: KState, r: Res)
    requires Shifts(k, k1, r, 0) && forall x :: Shifts(k1, k2, x, 0)
    ensures forall x :: Shifts(k, k2, x, 0)
  {
    ShiftsCompose(k, k1, k2, r, 0, 0);
  }

  lemma HeadShifts(k: KState, p: Pid)
    requires Registered(k, p) != []
    ensures Shifts(k, k.(porProceso := k.porProceso[p := Registered(k, p)[1..]]), Registered(k, p)[0], -1)
  {
    var rs := Registered(k, p);
    assert rs == [rs[0]] + rs[1..];
    forall x | x in k.disponibles
      ensures Balance(k.(porProceso := k.porProceso[p := rs[1..]]), x) == Balance(k, x) - if x == rs[0] then 1 else 0
    {
      UsesUpdate(k.porProceso, p, rs[1..], x);
    }
  }

  // ----- what the balance means -----

  /** Instances a process has in hand: registered, and not waiting for one. */
  ghost function Held(k: KState, p: Pid, r: Res): int {
    (multiset(Registered(k, p))[r] as int) - multiset(At(k.enUso, r))[p]
  }

  lemma {:induction false} SumDifference<K>(a: map<K, int>, b: map<K, int>, c: map<K, int>)
    requires a.Keys == b.Keys == c.Keys && forall x :: x in a ==> c[x] == a[x] - b[x]
    ensures Sum(c) == Sum(a) - Sum(b)
    decreases |a|
  {
    if a == map[] {
      assert b.Keys == {} && c.Keys == {};
      assert b == map[] && c == map[];
    } else {
      var x :| x in a;
      SumMinus(a, x);
      SumMinus(b, x);
      SumMinus(c, x);
      SumDifference(a - {x}, b - {x}, c - {x});
    }
  }

  /** The balance is what is free plus what processes have in hand. */
  lemma BalanceIsFreePlusHeld(k: KState, r: Res)
    requires ResOk(k) && r in k.disponibles
    ensures Balance(k, r) == k.disponibles[r] + Sum(map p | p in k.porProceso :: Held(k, p, r))
  {
    var pp, q := k.porProceso, At(k.enUso, r);
    forall p | p in q ensures p in pp.Keys { assert r in Registered(k, p); }
    SumOfCounts(pp.Keys, q);
    var a: map<Pid, int> := map p | p in pp :: multiset(pp[p])[r];
    var b: map<Pid, int> := map p | p in pp.Keys :: multiset(q)[p];
    SumDifference(a, b, map p | p in pp :: Held(k, p, r));
  }
}
