/** WAIT in the scheduler thread against `liberar_recurso_y_actualizar_ready` in the exit thread. They share
    the dictionaries of free instances and of queues without a lock. Here they go turn by turn: WAIT reads
    the instances, looks the queue up, then takes an instance or gets in line; the release asks whether there
    is a queue, then wakes its head or frees an instance, then takes an emptied queue out. */
module KernelWaitRace {
  import opened Sums
  import opened Kernel
  import opened KernelPlaces
  import opened KernelResources
  import opened KernelFiles
  import opened KernelSteps
  import opened KernelRuns

  datatype Turn = Look | Find | Join | Check | Give | Trim

  type Queues = map<Res, seq<Pid>>

  /** What the two calls share: free instances, queues, and what came onto the ready list in front and
      behind; and what each thread saw. */
  datatype Race = Race(d: map<Res, int>, q: Queues, front: seq<Pid>, back: seq<Pid>, avail: bool, found: bool, queued: bool)

  function Owing(s: Sem, n: nat): Sem { s.(owed := s.owed + n) }

  /** The state of the kernel. */
  function Into(k: KState, s: Race): KState {
    k.(disponibles := s.d, enUso := s.q, ready := s.front + k.ready + s.back,
       semReady := Owing(k.semReady, |s.front| + |s.back|))
  }

  // ----- the turns -----

  /** An instance is taken, a queue made, or a place in one taken: in one that may have left the dictionary
      since it was found. */
  function JoinAs(s: Race, p: Pid, r: Res): Race
    requires r in s.d
  {
    if s.avail then s.(d := s.d[r := s.d[r] - 1], front := [p] + s.front)
    else if !s.found then s.(q := s.q[r := [p]])
    else if r in s.q then s.(q := s.q[r := s.q[r] + [p]])
    else s
  }

  function GiveAs(s: Race, x: Res): Race
    requires x in s.d
  {
    if !s.queued then s.(d := s.d[x := s.d[x] + 1])
    else if At(s.q, x) == [] then s
    else s.(q := s.q[x := s.q[x][1..]], back := s.back + [s.q[x][0]])
  }

  /** An emptied queue leaves the dictionary. */
  function Trimmed(s: Race, x: Res): Race { if s.queued && x in s.q && s.q[x] == [] then s.(q := s.q - {x}) else s }

  /** One turn: `p` waits for `r`, the exit thread releases `x`. */
  function Do(s: Race, p: Pid, r: Res, x: Res, t: Turn): (s': Race)
    requires r in s.d && x in s.d
    ensures s'.d.Keys == s.d.Keys
  {
    match t
    case Look => s.(avail := s.d[r] >= 1)
    case Find => s.(found := r in s.q)
    case Join => JoinAs(s, p, r)
    case Check => s.(queued := x in s.q)
    case Give => GiveAs(s, x)
    case Trim => Trimmed(s, x)
  }

  /** A schedule: WAIT has turns number `i`, `j` and `l`, the release the other three. */
  predicate Schedule(i: nat, j: nat, l: nat) { i < j < l < 6 }

  function TurnAt(i: nat, j: nat, l: nat, n: nat): Turn {
    if n == i then Look else if n == j then Find else if n == l then Join
    else
      var done := n - (if i < n then 1 else 0) - (if j < n then 1 else 0) - if l < n then 1 else 0;
      if done == 0 then Check else if done == 1 then Give else Trim
  }

  function After(k: KState, p: Pid, r: Res, x: Res, i: nat, j: nat, l: nat, n: nat): (s: Race)
    requires r in k.disponibles && x in k.disponibles
    ensures s.d.Keys == k.disponibles.Keys
  {
    if n == 0 then Race(k.disponibles, k.enUso, [], [], false, false, false)
    else Do(After(k, p, r, x, i, j, l, n - 1), p, r, x, TurnAt(i, j, l, n - 1))
  }

  /** The kernel once both calls are over. WAIT has registered the resource before it looks. */
  function Raced(k: KState, p: Pid, r: Res, x: Res, i: nat, j: nat, l: nat): KState
    requires r in k.disponibles && x in k.disponibles
  {
    Into(Register(k, p, r), After(k, p, r, x, i, j, l, 6))
  }

  // ----- the same on what the turns touch -----

  /** Free instances of a resource and its queue, None when it is not in the dictionary. */
  datatype Part = Part(d: int, q: Option<seq<Pid>>)

  /** `a` is the part of the resource waited for, `b` of the one released when that is another one; `front`
      and `back` are what came onto the ready list. */
  datatype Parts = Parts(same: bool, a: Part, b: Part, front: seq<Pid>, back: seq<Pid>, avail: bool, found: bool, queued: bool)

  function Freed(w: Parts): Part { if w.same then w.a else w.b }

  function SetFreed(w: Parts, y: Part): Parts { if w.same then w.(a := y) else w.(b := y) }

  function Turned(w: Parts, p: Pid, t: Turn): Parts {
    var y := Freed(w);
    match t
    case Look => w.(avail := w.a.d >= 1)
    case Find => w.(found := w.a.q.Some?)
    case Join =>
      if w.avail then w.(a := w.a.(d := w.a.d - 1), front := [p] + w.front)
      else if !w.found then w.(a := w.a.(q := Some([p])))
      else if w.a.q.Some? then w.(a := w.a.(q := Some(w.a.q.value + [p])))
      else w
    case Check => w.(queued := y.q.Some?)
    case Give =>
      if !w.queued then SetFreed(w, y.(d := y.d + 1))
      else if y.q.None? || y.q.value == [] then w
      else SetFreed(w, y.(q := Some(y.q.value[1..]))).(back := w.back + [y.q.value[0]])
    case Trim => if w.queued && y.q == Some([]) then SetFreed(w, y.(q := None)) else w
  }

  function QueueOf(q: Queues, r: Res): Option<seq<Pid>> { if r in q then Some(q[r]) else None }

  function Start(k: KState, r: Res, x: Res): Parts
    requires r in k.disponibles && x in k.disponibles
  {
    Parts(r == x, Part(k.disponibles[r], QueueOf(k.enUso, r)), Part(k.disponibles[x], QueueOf(k.enUso, x)), [], [],
          false, false, false)
  }

  /** `w` shows the race `s`, which left everything but `r` and `x` as in `k`. */
  ghost predicate Shows(s: Race, k: KState, r: Res, x: Res, w: Parts) {
    && r in s.d && x in s.d && w.same == (r == x)
    && s.avail == w.avail && s.found == w.found && s.queued == w.queued && s.front == w.front && s.back == w.back
    && w.a == Part(s.d[r], QueueOf(s.q, r)) && Freed(w) == Part(s.d[x], QueueOf(s.q, x))
    && s.d.Keys == k.disponibles.Keys && (forall y :: y in s.d && y != r && y != x ==> s.d[y] == k.disponibles[y])
    && (forall y :: y != r && y != x ==> QueueOf(s.q, y) == QueueOf(k.enUso, y))
  }

  lemma TurnShows(s: Race, k: KState, p: Pid, r: Res, x: Res, w: Parts, t: Turn)
    requires Shows(s, k, r, x, w)
    ensures Shows(Do(s, p, r, x, t), k, r, x, Turned(w, p, t))
  {
    match t
    case Join => JoinShows(s, k, p, r, x, w);
    case Give => GiveShows(s, k, p, r, x, w);
    case _ => hide JoinAs, GiveAs;
  }

  lemma JoinShows(s: Race, k: KState, p: Pid, r: Res, x: Res, w: Parts)
    requires Shows(s, k, r, x, w)
    ensures Shows(Do(s, p, r, x, Join), k, r, x, Turned(w, p, Join))
  {
  }

  lemma GiveShows(s: Race, k: KState, p: Pid, r: Res, x: Res, w: Parts)
    requires Shows(s, k, r, x, w)
    ensures Shows(Do(s, p, r, x, Give), k, r, x, Turned(w, p, Give))
  {
  }

  function PartsAfter(w: Parts, p: Pid, i: nat, j: nat, l: nat, n: nat): Parts {
    if n == 0 then w else Turned(PartsAfter(w, p, i, j, l, n - 1), p, TurnAt(i, j, l, n - 1))
  }

  lemma {:induction false} AfterShows(k: KState, p: Pid, r: Res, x: Res, i: nat, j: nat, l: nat, n: nat)
    requires r in k.disponibles && x in k.disponibles
    ensures Shows(After(k, p, r, x, i, j, l, n), k, r, x, PartsAfter(Start(k, r, x), p, i, j, l, n))
  {
    if n > 0 {
      AfterShows(k, p, r, x, i, j, l, n - 1);
      hide Shows, TurnAt, Turned, Do;
      TurnShows(After(k, p, r, x, i, j, l, n - 1), k, p, r, x, PartsAfter(Start(k, r, x), p, i, j, l, n - 1), TurnAt(i, j, l, n - 1));
    }
  }

  /** What the parts say of the kernel, what the threads saw apart. */
  predicate SameOutcome(v: Parts, w: Parts) { v.a == w.a && v.b == w.b && v.front == w.front && v.back == w.back }

  lemma SameMaps(s: Race, t: Race, k: KState, r: Res, x: Res, v: Parts, w: Parts)
    requires Shows(s, k, r, x, v) && Shows(t, k, r, x, w)
    ensures SameOutcome(v, w) ==> s.d == t.d && s.q == t.q && s.front == t.front && s.back == t.back
    ensures s.d == t.d && s.q == t.q && s.front == t.front && s.back == t.back ==>
      v.a == w.a && Freed(v) == Freed(w) && v.front == w.front && v.back == w.back
  {
    if SameOutcome(v, w) {
      assert Freed(v) == Freed(w);
      forall y ensures QueueOf(s.q, y) == QueueOf(t.q, y) {
        if y == r || y == x {} else { assert QueueOf(s.q, y) == QueueOf(k.enUso, y) == QueueOf(t.q, y); }
      }
      SameQueues(s.q, t.q);
    }
  }

  lemma SameQueues(a: Queues, b: Queues)
    requires forall y :: QueueOf(a, y) == QueueOf(b, y)
    ensures a == b
  {
    forall y ensures (y in a <==> y in b) && (y in a ==> a[y] == b[y]) { assert QueueOf(a, y) == QueueOf(b, y); }
  }

  // ----- one call after the other -----

  /** WAIT first, or the release first. */
  function WaitFirst(k: KState, p: Pid, r: Res, x: Res): KState
    requires r in k.disponibles && x in k.disponibles
  {
    Raced(k, p, r, x, 0, 1, 2)
  }

  function ReleaseFirst(k: KState, p: Pid, r: Res, x: Res): KState
    requires r in k.disponibles && x in k.disponibles
  {
    Raced(k, p, r, x, 3, 4, 5)
  }

  lemma Unroll(k: KState, p: Pid, r: Res, x: Res, i: nat, j: nat, l: nat)
    requires r in k.disponibles && x in k.disponibles
    ensures var s0 := Race(k.disponibles, k.enUso, [], [], false, false, false);
      var s3 := Do(Do(Do(s0, p, r, x, TurnAt(i, j, l, 0)), p, r, x, TurnAt(i, j, l, 1)), p, r, x, TurnAt(i, j, l, 2));
      After(k, p, r, x, i, j, l, 6) ==
        Do(Do(Do(s3, p, r, x, TurnAt(i, j, l, 3)), p, r, x, TurnAt(i, j, l, 4)), p, r, x, TurnAt(i, j, l, 5))
  {
    hide Do, TurnAt;
    var s0 := After(k, p, r, x, i, j, l, 0);
    var s1 := After(k, p, r, x, i, j, l, 1);
    var s2 := After(k, p, r, x, i, j, l, 2);
    var s3 := After(k, p, r, x, i, j, l, 3);
    var s4 := After(k, p, r, x, i, j, l, 4);
    var s5 := After(k, p, r, x, i, j, l, 5);
  }

  /** Undisturbed, the turns of WAIT are WAIT. */
  lemma WaitIs(k: KState, p: Pid, r: Res)
    requires r in k.disponibles
    ensures Wait(k, p, r) == Into(Register(k, p, r),
      JoinAs(Race(k.disponibles, k.enUso, [], [], k.disponibles[r] >= 1, r in k.enUso, false), p, r))
  {
    hide Registered;
    if k.disponibles[r] >= 1 {
      assert ([p] + []) + k.ready + [] == [p] + k.ready;
    } else {
      assert [] + k.ready + [] == k.ready && [] + [p] == [p];
    }
  }

  /** Undisturbed, the turns of the release are the release. */
  lemma ReleaseIs(k: KState, x: Res)
    requires QueuesOk(k) && x in k.disponibles
    ensures var s := GiveAs(Race(k.disponibles, k.enUso, [], [], false, false, x in k.enUso), x);
      Release(k, x) == Into(k, if x in s.q && s.q[x] == [] then s.(q := s.q - {x}) else s)
  {
    if x in k.enUso {
      var q := k.enUso[x];
      assert |q| == 1 ==> q[1..] == [];
      assert k.enUso[x := q[1..]] - {x} == k.enUso - {x};
      assert [] + k.ready + ([] + [q[0]]) == k.ready + [q[0]];
    } else {
      assert [] + k.ready + [] == k.ready;
    }
  }

  /** A call that comes second works on what the first one left. */
  lemma IntoTwice(k: KState, s: Race, t: Race)
    ensures Into(Into(k, s), t) == Into(k, t.(front := t.front + s.front, back := s.back + t.back))
  {
    assert t.front + (s.front + k.ready + s.back) + t.back == t.front + s.front + k.ready + (s.back + t.back);
  }

  lemma GiveAfter(s: Race, x: Res)
    requires x in s.d
    ensures var g := Trimmed(GiveAs(Race(s.d, s.q, [], [], false, false, x in s.q), x), x);
      var h := Trimmed(GiveAs(s.(queued := x in s.q), x), x);
      h.d == g.d && h.q == g.q && h.front == g.front + s.front && h.back == s.back + g.back
  {
    assert [] + s.front == s.front && s.back + [] == s.back;
    var g0 := Race(s.d, s.q, [], [], false, false, x in s.q);
    GiveIs(g0, x);
    GiveIs(s.(queued := x in s.q), x);
    hide GiveAs, Trimmed;
  }

  lemma GiveIs(s: Race, x: Res)
    requires x in s.d && (s.queued <==> x in s.q)
    ensures var h := Trimmed(GiveAs(s, x), x);
      && h.front == s.front
      && (x !in s.q ==> h.d == s.d[x := s.d[x] + 1] && h.q == s.q && h.back == s.back)
      && (x in s.q && s.q[x] == [] ==> h.d == s.d && h.q == s.q - {x} && h.back == s.back)
      && (x in s.q && |s.q[x]| == 1 ==> h.d == s.d && h.q == s.q - {x} && h.back == s.back + [s.q[x][0]])
      && (x in s.q && |s.q[x]| > 1 ==> h.d == s.d && h.q == s.q[x := s.q[x][1..]] && h.back == s.back + [s.q[x][0]])
  {
    if x in s.q && |s.q[x]| == 1 { assert s.q[x := s.q[x][1..]] - {x} == s.q - {x}; }
  }

  lemma JoinAfter(s: Race, p: Pid, r: Res)
    requires r in s.d
    ensures var g := JoinAs(Race(s.d, s.q, [], [], s.d[r] >= 1, r in s.q, false), p, r);
      var h := JoinAs(s.(avail := s.d[r] >= 1, found := r in s.q), p, r);
      h.d == g.d && h.q == g.q && h.front == g.front + s.front && h.back == s.back + g.back
  {
    assert [] + s.front == s.front && s.back + [] == s.back && ([p] + []) + s.front == [p] + s.front;
  }

  lemma SameInto(k: KState, s: Race, t: Race)
    requires s.d == t.d && s.q == t.q && s.front == t.front && s.back == t.back
    ensures Into(k, s) == Into(k, t)
  {
  }

  lemma TurnsInOrder()
    ensures TurnAt(0, 1, 2, 0) == Look && TurnAt(0, 1, 2, 1) == Find && TurnAt(0, 1, 2, 2) == Join
    ensures TurnAt(0, 1, 2, 3) == Check && TurnAt(0, 1, 2, 4) == Give && TurnAt(0, 1, 2, 5) == Trim
    ensures TurnAt(3, 4, 5, 0) == Check && TurnAt(3, 4, 5, 1) == Give && TurnAt(3, 4, 5, 2) == Trim
    ensures TurnAt(3, 4, 5, 3) == Look && TurnAt(3, 4, 5, 4) == Find && TurnAt(3, 4, 5, 5) == Join
  {
  }

  lemma WaitFirstTurns(k: KState, p: Pid, r: Res, x: Res)
    requires r in k.disponibles && x in k.disponibles
    ensures var s := JoinAs(Race(k.disponibles, k.enUso, [], [], k.disponibles[r] >= 1, r in k.enUso, false), p, r);
      x in s.d && After(k, p, r, x, 0, 1, 2, 6) == Trimmed(GiveAs(s.(queued := x in s.q), x), x)
  {
    hide After, TurnAt, GiveAs, Trimmed;
    Unroll(k, p, r, x, 0, 1, 2);
    TurnsInOrder();
    var s := JoinAs(Race(k.disponibles, k.enUso, [], [], k.disponibles[r] >= 1, r in k.enUso, false), p, r);
    assert s.d.Keys == k.disponibles.Keys;
    hide JoinAs;
  }

  lemma ReleaseFirstTurns(k: KState, p: Pid, r: Res, x: Res)
    requires r in k.disponibles && x in k.disponibles
    ensures var s := Trimmed(GiveAs(Race(k.disponibles, k.enUso, [], [], false, false, x in k.enUso), x), x);
      r in s.d && After(k, p, r, x, 3, 4, 5, 6) == JoinAs(s.(avail := s.d[r] >= 1, found := r in s.q), p, r)
  {
    hide After, TurnAt, JoinAs;
    Unroll(k, p, r, x, 3, 4, 5);
    TurnsInOrder();
    var s := Trimmed(GiveAs(Race(k.disponibles, k.enUso, [], [], false, false, x in k.enUso), x), x);
    assert s.d.Keys == k.disponibles.Keys;
    hide GiveAs, Trimmed;
  }

  lemma WaitKeepsQueues(k: KState, p: Pid, r: Res)
    requires QueuesOk(k) && r in k.disponibles
    ensures QueuesOk(Wait(k, p, r)) && Wait(k, p, r).disponibles.Keys == k.disponibles.Keys
  {
  }

  lemma WaitFirstIs(k: KState, p: Pid, r: Res, x: Res)
    requires QueuesOk(k) && r in k.disponibles && x in k.disponibles
    ensures QueuesOk(Wait(k, p, r)) && x in Wait(k, p, r).disponibles
    ensures WaitFirst(k, p, r, x) == Release(Wait(k, p, r), x)
  {
    WaitKeepsQueues(k, p, r);
    WaitIs(k, p, r);
    ReleaseIs(Wait(k, p, r), x);
    WaitFirstTurns(k, p, r, x);
    var s := JoinAs(Race(k.disponibles, k.enUso, [], [], k.disponibles[r] >= 1, r in k.enUso, false), p, r);
    GiveAfter(s, x);
    var g := Trimmed(GiveAs(Race(s.d, s.q, [], [], false, false, x in s.q), x), x);
    assert Wait(k, p, r).disponibles == s.d && Wait(k, p, r).enUso == s.q;
    hide JoinAs, GiveAs, After, Wait, Release, Register, Into, QueuesOk;
    IntoTwice(Register(k, p, r), s, g);
    SameInto(Register(k, p, r), After(k, p, r, x, 0, 1, 2, 6), g.(front := g.front + s.front, back := s.back + g.back));
  }

  lemma ReleasedParts(k: KState, x: Res)
    requires QueuesOk(k) && x in k.disponibles
    ensures var s := Trimmed(GiveAs(Race(k.disponibles, k.enUso, [], [], false, false, x in k.enUso), x), x);
      Release(k, x) == Into(k, s) && s.d.Keys == k.disponibles.Keys
  {
    ReleaseIs(k, x);
    var g := GiveAs(Race(k.disponibles, k.enUso, [], [], false, false, x in k.enUso), x);
    assert x !in k.enUso ==> g.q == k.enUso;
    assert g.d.Keys == k.disponibles.Keys && g.queued == (x in k.enUso);
    hide GiveAs, Release, QueuesOk;
  }

  lemma RegisterInto(k: KState, p: Pid, r: Res, s: Race)
    ensures Register(Into(k, s), p, r) == Into(Register(k, p, r), s)
    ensures Into(k, s).disponibles == s.d && Into(k, s).enUso == s.q
  {
  }

  lemma ReleaseFirstIs(k: KState, p: Pid, r: Res, x: Res)
    requires QueuesOk(k) && r in k.disponibles && x in k.disponibles
    ensures r in Release(k, x).disponibles && ReleaseFirst(k, p, r, x) == Wait(Release(k, x), p, r)
  {
    hide JoinAs, GiveAs, Trimmed, After, Wait, Release, Register, Into;
    ReleasedParts(k, x);
    ReleaseFirstTurns(k, p, r, x);
    var s := Trimmed(GiveAs(Race(k.disponibles, k.enUso, [], [], false, false, x in k.enUso), x), x);
    RegisterInto(k, p, r, s);
    WaitIs(Release(k, x), p, r);
    JoinAfter(s, p, r);
    var g := JoinAs(Race(s.d, s.q, [], [], s.d[r] >= 1, r in s.q, false), p, r);
    IntoTwice(Register(k, p, r), s, g);
    SameInto(Register(k, p, r), After(k, p, r, x, 3, 4, 5, 6), g.(front := g.front + s.front, back := s.back + g.back));
  }

  // ----- the twenty schedules, on the parts -----

  lemma PartsUnroll(w: Parts, p: Pid, i: nat, j: nat, l: nat)
    ensures var w3 := Turned(Turned(Turned(w, p, TurnAt(i, j, l, 0)), p, TurnAt(i, j, l, 1)), p, TurnAt(i, j, l, 2));
      PartsAfter(w, p, i, j, l, 6) ==
        Turned(Turned(Turned(w3, p, TurnAt(i, j, l, 3)), p, TurnAt(i, j, l, 4)), p, TurnAt(i, j, l, 5))
  {
    hide Turned, TurnAt;
    var w0 := PartsAfter(w, p, i, j, l, 0);
    var w1 := PartsAfter(w, p, i, j, l, 1);
    var w2 := PartsAfter(w, p, i, j, l, 2);
    var w3 := PartsAfter(w, p, i, j, l, 3);
    var w4 := PartsAfter(w, p, i, j, l, 4);
    var w5 := PartsAfter(w, p, i, j, l, 5);
  }

  /** Nothing has happened yet; a queue has somebody in it, and then no instance is free. */
  predicate Fresh(w: Parts) {
    && w.front == [] && w.back == [] && !w.avail && !w.found && !w.queued && (w.same ==> w.a == w.b)
    && (w.a.q.Some? ==> w.a.q.value != [] && w.a.d <= 0) && (w.b.q.Some? ==> w.b.q.value != [] && w.b.d <= 0)
  }

  /** Free instances: taking and giving do not meet. */
  lemma FreeParts(w: Parts, p: Pid, i: nat, j: nat, l: nat)
    requires Fresh(w) && Schedule(i, j, l) && w.same && w.a.d >= 1
    ensures SameOutcome(PartsAfter(w, p, i, j, l, 6), w.(front := [p]))
  {
    PartsUnroll(w, p, i, j, l);
    hide PartsAfter;
  }

  lemma QueueFacts(q: seq<Pid>, p: Pid)
    requires q != []
    ensures (q + [p])[1..] == q[1..] + [p] && (q + [p])[0] == q[0] && [] + [q[0]] == [q[0]] && [] + [p] == [p]
    ensures |q| == 1 ==> q[1..] == [] && q == [q[0]] && [p][1..] == []
  {
  }

  /** Somebody in line, and not the last one. */
  lemma LineParts(w: Parts, p: Pid, i: nat, j: nat, l: nat)
    requires Fresh(w) && Schedule(i, j, l) && w.same && w.a.q.Some? && |w.a.q.value| >= 2
    ensures SameOutcome(PartsAfter(w, p, i, j, l, 6),
      w.(a := w.a.(q := Some(w.a.q.value[1..] + [p])), back := [w.a.q.value[0]]))
  {
    QueueFacts(w.a.q.value, p);
    if l == 5 { LineLast(w, p, i, j); } else { LineEarly(w, p, i, j, l); }
  }

  lemma LineLast(w: Parts, p: Pid, i: nat, j: nat)
    requires Fresh(w) && i < j < 5 && w.same && w.a.q.Some? && |w.a.q.value| >= 2
    ensures SameOutcome(PartsAfter(w, p, i, j, 5, 6),
      w.(a := w.a.(q := Some(w.a.q.value[1..] + [p])), back := [w.a.q.value[0]]))
  {
    QueueFacts(w.a.q.value, p);
    PartsUnroll(w, p, i, j, 5);
    hide PartsAfter;
  }

  lemma LineEarly(w: Parts, p: Pid, i: nat, j: nat, l: nat)
    requires Fresh(w) && i < j < l < 5 && w.same && w.a.q.Some? && |w.a.q.value| >= 2
    ensures SameOutcome(PartsAfter(w, p, i, j, l, 6),
      w.(a := w.a.(q := Some(w.a.q.value[1..] + [p])), back := [w.a.q.value[0]]))
  {
    QueueFacts(w.a.q.value, p);
    if l == 4 { LineFour(w, p, i, j); } else { PartsUnroll(w, p, i, j, l); hide PartsAfter; }
  }

  lemma LineFour(w: Parts, p: Pid, i: nat, j: nat)
    requires Fresh(w) && i < j < 4 && w.same && w.a.q.Some? && |w.a.q.value| >= 2
    ensures SameOutcome(PartsAfter(w, p, i, j, 4, 6),
      w.(a := w.a.(q := Some(w.a.q.value[1..] + [p])), back := [w.a.q.value[0]]))
  {
    QueueFacts(w.a.q.value, p);
    PartsUnroll(w, p, i, j, 4);
    hide PartsAfter;
  }

  /** One process in line: it is woken, and the queue may be taken out while WAIT still holds it. */
  lemma OneParts(w: Parts, p: Pid, i: nat, j: nat, l: nat)
    requires Fresh(w) && Schedule(i, j, l) && w.same && w.a.q.Some? && |w.a.q.value| == 1
    ensures var q := if j < 4 && l == 5 then None else Some([p]);
      SameOutcome(PartsAfter(w, p, i, j, l, 6), w.(a := w.a.(q := q), back := w.a.q.value))
  {
    hide PartsAfter, SameOutcome;
    if l == 5 {
      if j < 4 { OneLost(w, p, i, j); } else { OneAnew(w, p, i); }
    } else {
      OneEarly(w, p, i, j, l);
    }
  }

  /** One process in line, nothing done yet. */
  function OneStart(d: int, h: Pid): Parts { Parts(true, Part(d, Some([h])), Part(d, Some([h])), [], [], false, false, false) }

  lemma StartsWithOne(w: Parts)
    requires Fresh(w) && w.same && w.a.q.Some? && |w.a.q.value| == 1
    ensures w.a.d <= 0 && w.a.q.value == [w.a.q.value[0]] && w == OneStart(w.a.d, w.a.q.value[0])
  {
  }

  lemma OneLost(w: Parts, p: Pid, i: nat, j: nat)
    requires Fresh(w) && i < j < 4 && w.same && w.a.q.Some? && |w.a.q.value| == 1
    ensures SameOutcome(PartsAfter(w, p, i, j, 5, 6), w.(a := w.a.(q := None), back := w.a.q.value))
  {
    StartsWithOne(w);
    hide PartsAfter, Fresh;
    OneThenLost(w.a.d, w.a.q.value[0], p, i, j);
  }

  /** Before WAIT joins, the release has done `r` turns, and WAIT has seen that nothing is free and, when it
      looked the queue up before the release took it out, the queue. */
  function OneState(d: int, h: Pid, i: nat, j: nat, n: nat): Parts {
    var r := Releases(i, j, 5, n);
    Parts(true, Part(d, if r < 2 then Some([h]) else if r == 2 then Some([]) else None), Part(d, Some([h])), [],
          if r < 2 then [] else [h], false, j < n && j < 4, r >= 1)
  }

  lemma {:induction false} OneWalk(d: int, h: Pid, p: Pid, i: nat, j: nat, n: nat)
    requires i < j < 5 && n <= 5 && d <= 0
    ensures PartsAfter(OneStart(d, h), p, i, j, 5, n) == OneState(d, h, i, j, n)
  {
    if n > 0 {
      OneWalk(d, h, p, i, j, n - 1);
      TurnMeaning(i, j, 5, n - 1);
      QueueFacts([h], p);
      hide TurnAt;
    }
  }

  lemma OneThenLost(d: int, h: Pid, p: Pid, i: nat, j: nat)
    requires i < j < 4 && d <= 0
    ensures SameOutcome(PartsAfter(OneStart(d, h), p, i, j, 5, 6), OneStart(d, h).(a := Part(d, None), back := [h]))
  {
    OneWalk(d, h, p, i, j, 5);
    assert TurnAt(i, j, 5, 5) == Join;
    OneJoins(d, h, p, i, j);
  }

  lemma OneJoins(d: int, h: Pid, p: Pid, i: nat, j: nat)
    requires i < j < 5 && PartsAfter(OneStart(d, h), p, i, j, 5, 5) == OneState(d, h, i, j, 5)
    ensures PartsAfter(OneStart(d, h), p, i, j, 5, 6) == Turned(OneState(d, h, i, j, 5), p, Join)
  {
    hide Turned, OneState, OneStart;
  }

  lemma OneAnew(w: Parts, p: Pid, i: nat)
    requires Fresh(w) && i < 4 && w.same && w.a.q.Some? && |w.a.q.value| == 1
    ensures SameOutcome(PartsAfter(w, p, i, 4, 5, 6), w.(a := w.a.(q := Some([p])), back := w.a.q.value))
  {
    StartsWithOne(w);
    hide PartsAfter, Fresh;
    OneThenAnew(w.a.d, w.a.q.value[0], p, i);
  }

  lemma OneThenAnew(d: int, h: Pid, p: Pid, i: nat)
    requires i < 4 && d <= 0
    ensures SameOutcome(PartsAfter(OneStart(d, h), p, i, 4, 5, 6), OneStart(d, h).(a := Part(d, Some([p])), back := [h]))
  {
    OneWalk(d, h, p, i, 4, 5);
    OneJoins(d, h, p, i, 4);
  }

  lemma OneEarly(w: Parts, p: Pid, i: nat, j: nat, l: nat)
    requires Fresh(w) && i < j < l < 5 && w.same && w.a.q.Some? && |w.a.q.value| == 1
    ensures SameOutcome(PartsAfter(w, p, i, j, l, 6), w.(a := w.a.(q := Some([p])), back := w.a.q.value))
  {
    StartsWithOne(w);
    hide PartsAfter, Fresh;
    if l == 4 { OneThenFour(w.a.d, w.a.q.value[0], p, i, j); } else { OneThenEarly(w.a.d, w.a.q.value[0], p, i, j, l); }
  }

  lemma OneThenEarly(d: int, h: Pid, p: Pid, i: nat, j: nat, l: nat)
    requires i < j < l < 4 && d <= 0
    ensures SameOutcome(PartsAfter(OneStart(d, h), p, i, j, l, 6), OneStart(d, h).(a := Part(d, Some([p])), back := [h]))
  {
    QueueFacts([h], p);
    PartsUnroll(OneStart(d, h), p, i, j, l);
    hide PartsAfter;
  }

  lemma OneThenFour(d: int, h: Pid, p: Pid, i: nat, j: nat)
    requires i < j < 4 && d <= 0
    ensures SameOutcome(PartsAfter(OneStart(d, h), p, i, j, 4, 6), OneStart(d, h).(a := Part(d, Some([p])), back := [h]))
  {
    QueueFacts([h], p);
    PartsUnroll(OneStart(d, h), p, i, j, 4);
    hide PartsAfter;
  }

  /** No instance and nobody in line. */
  lemma NoneParts(w: Parts, p: Pid, i: nat, j: nat, l: nat)
    requires Fresh(w) && Schedule(i, j, l) && w.same && w.a.q.None? && w.a.d <= 0
    ensures SameOutcome(PartsAfter(w, p, i, j, l, 6), NoneOutcome(w, p, i, l))
  {
    assert [p][1..] == [] && [] + [p] == [p];
    if l == 5 { NoneLast(w, p, i, j); } else { PartsUnroll(w, p, i, j, l); hide PartsAfter; }
  }

  lemma NoneLast(w: Parts, p: Pid, i: nat, j: nat)
    requires Fresh(w) && i < j < 5 && w.same && w.a.q.None? && w.a.d <= 0
    ensures SameOutcome(PartsAfter(w, p, i, j, 5, 6), NoneOutcome(w, p, i, 5))
  {
    assert [p][1..] == [] && [] + [p] == [p];
    PartsUnroll(w, p, i, j, 5);
    hide PartsAfter;
  }

  function NoneOutcome(w: Parts, p: Pid, i: nat, l: nat): Parts {
    if l < 3 then w.(back := [p])
    else if i >= 2 && w.a.d == 0 then w.(front := [p])
    else w.(a := Part(w.a.d + 1, Some([p])))
  }

  /** Two resources: each call does what it does alone. */
  function WaitAlone(w: Parts, p: Pid): Parts {
    if w.a.d >= 1 then w.(a := w.a.(d := w.a.d - 1), front := [p])
    else w.(a := w.a.(q := Some((if w.a.q.Some? then w.a.q.value else []) + [p])))
  }

  function ReleaseAlone(w: Parts): Parts {
    if w.b.q.None? then w.(b := w.b.(d := w.b.d + 1))
    else if w.b.q.value == [] then w
    else w.(b := w.b.(q := if |w.b.q.value| == 1 then None else Some(w.b.q.value[1..])), back := [w.b.q.value[0]])
  }

  /** Turns of the release among the first `n`. */
  function Releases(i: nat, j: nat, l: nat, n: nat): int {
    n - (if i < n then 1 else 0) - (if j < n then 1 else 0) - if l < n then 1 else 0
  }

  lemma TurnMeaning(i: nat, j: nat, l: nat, n: nat)
    requires Schedule(i, j, l) && n < 6
    ensures Releases(i, j, l, n + 1) == Releases(i, j, l, n) + if n == i || n == j || n == l then 0 else 1
    ensures n != i && n != j && n != l ==> 0 <= Releases(i, j, l, n) < 3
    ensures TurnAt(i, j, l, n) ==
      if n == i then Look else if n == j then Find else if n == l then Join
      else if Releases(i, j, l, n) == 0 then Check else if Releases(i, j, l, n) == 1 then Give else Trim
  {
  }

  /** The released resource once its head is woken, before an emptied queue is taken out. */
  function Headless(w: Parts): Part {
    if w.b.q.None? then w.b.(d := w.b.d + 1) else if w.b.q.value == [] then w.b else w.b.(q := Some(w.b.q.value[1..]))
  }

  /** Where each call is, of its own resource. */
  predicate Both(w: Parts, v: Parts, p: Pid, looked: bool, found: bool, joined: bool, turns: int) {
    var wait, given := WaitAlone(w, p), ReleaseAlone(w);
    && !v.same && (looked ==> v.avail == (w.a.d >= 1)) && (found ==> v.found == w.a.q.Some?)
    && v.a == (if joined then wait.a else w.a) && v.front == (if joined then wait.front else [])
    && (turns >= 1 ==> v.queued == w.b.q.Some?)
    && v.back == (if turns >= 2 then given.back else [])
    && v.b == (if turns >= 3 then given.b else if turns == 2 then Headless(w) else w.b)
  }

  lemma BothStep(w: Parts, v: Parts, p: Pid, looked: bool, found: bool, joined: bool, turns: int, t: Turn)
    requires Fresh(w) && !w.same && Both(w, v, p, looked, found, joined, turns) && 0 <= turns
    requires match t case Look => !joined case Find => !joined case Join => looked && found && !joined
                     case Check => turns == 0 case Give => turns == 1 case Trim => turns == 2
    ensures Both(w, Turned(v, p, t), p, looked || t.Look?, found || t.Find?, joined || t.Join?,
                 if t.Look? || t.Find? || t.Join? then turns else turns + 1)
  {
    assert [] + [p] == [p] && [p] + [] == [p];
    if w.b.q.Some? { QueueFacts(w.b.q.value, p); }
  }

  lemma {:induction false} OtherTrack(w: Parts, p: Pid, i: nat, j: nat, l: nat, n: nat)
    requires Fresh(w) && Schedule(i, j, l) && !w.same && n <= 6
    ensures Both(w, PartsAfter(w, p, i, j, l, n), p, n > i, n > j, n > l, Releases(i, j, l, n))
  {
    if n > 0 {
      OtherTrack(w, p, i, j, l, n - 1);
      TurnMeaning(i, j, l, n - 1);
      hide Both, TurnAt, Releases, Turned, Fresh;
      BothStep(w, PartsAfter(w, p, i, j, l, n - 1), p, n - 1 > i, n - 1 > j, n - 1 > l, Releases(i, j, l, n - 1), TurnAt(i, j, l, n - 1));
    }
  }

  lemma OtherParts(w: Parts, p: Pid, i: nat, j: nat, l: nat)
    requires Fresh(w) && Schedule(i, j, l) && !w.same
    ensures SameOutcome(PartsAfter(w, p, i, j, l, 6), ReleaseAlone(WaitAlone(w, p)))
  {
    OtherTrack(w, p, i, j, l, 6);
    hide PartsAfter;
  }

  // ----- when the outcome is that of one call after the other -----

  /** The threads do not meet where it matters: for a lone process in line, WAIT gets in line before the
      emptied queue is taken out, or looks for it afterwards; with no instance and nobody in line, WAIT is
      over before the release asks for a queue, or looks once the instance is free. */
  predicate Apart(k: KState, r: Res, i: nat, j: nat, l: nat)
    requires r in k.disponibles
  {
    if r in k.enUso then l < 5 || j >= 4 else l < 3 || i >= 2
  }

  /** Nothing can go wrong: another resource, or an instance free, or a debt of instances, or more than one
      process in line. */
  predicate Harmless(k: KState, r: Res, x: Res)
    requires r in k.disponibles
  {
    r != x || (if r in k.enUso then |k.enUso[r]| >= 2 else k.disponibles[r] != 0)
  }

  predicate Serial(k: KState, s: KState, p: Pid, r: Res, x: Res)
    requires QueuesOk(k) && r in k.disponibles && x in k.disponibles
  {
    WaitFirstIs(k, p, r, x);
    ReleaseFirstIs(k, p, r, x);
    s == Release(Wait(k, p, r), x) || s == Wait(Release(k, x), p, r)
  }

  /** No free instance of a resource somebody is in line for. */
  predicate NoIdle(k: KState) { forall r :: r in k.enUso && r in k.disponibles ==> k.disponibles[r] <= 0 }

  lemma StartsFresh(k: KState, r: Res, x: Res)
    requires QueuesOk(k) && NoIdle(k) && r in k.disponibles && x in k.disponibles
    ensures Fresh(Start(k, r, x))
  {
  }

  /** The parts decide the outcome. */
  lemma OutcomeIs(k: KState, p: Pid, r: Res, x: Res, i: nat, j: nat, l: nat, a: nat, b: nat, c: nat)
    requires r in k.disponibles && x in k.disponibles
    requires SameOutcome(PartsAfter(Start(k, r, x), p, i, j, l, 6), PartsAfter(Start(k, r, x), p, a, b, c, 6))
    ensures Raced(k, p, r, x, i, j, l) == Raced(k, p, r, x, a, b, c)
  {
    hide PartsAfter, After, SameOutcome, Shows, Register;
    AfterShows(k, p, r, x, i, j, l, 6);
    AfterShows(k, p, r, x, a, b, c, 6);
    SameMaps(After(k, p, r, x, i, j, l, 6), After(k, p, r, x, a, b, c, 6), k, r, x,
             PartsAfter(Start(k, r, x), p, i, j, l, 6), PartsAfter(Start(k, r, x), p, a, b, c, 6));
  }

  /** What the kernel has for the resource in the end. */
  lemma EndsWith(k: KState, p: Pid, r: Res, x: Res, i: nat, j: nat, l: nat)
    requires r in k.disponibles && x in k.disponibles
    ensures var w, s := PartsAfter(Start(k, r, x), p, i, j, l, 6), Raced(k, p, r, x, i, j, l);
      && r in s.disponibles && w.a == Part(s.disponibles[r], QueueOf(s.enUso, r))
      && s.ready == w.front + k.ready + w.back
      && s == Register(k, p, r).(disponibles := s.disponibles, enUso := s.enUso, ready := s.ready, semReady := s.semReady)
      && forall y :: y != r && y != x ==> QueueOf(s.enUso, y) == QueueOf(k.enUso, y)
  {
    hide PartsAfter, After;
    AfterShows(k, p, r, x, i, j, l, 6);
  }

  lemma GoodParts(k: KState, p: Pid, r: Res, x: Res, i: nat, j: nat, l: nat)
    requires QueuesOk(k) && NoIdle(k) && r in k.disponibles && x in k.disponibles && Schedule(i, j, l)
    requires Harmless(k, r, x) || Apart(k, r, i, j, l)
    ensures var w := Start(k, r, x); var v := PartsAfter(w, p, i, j, l, 6);
      SameOutcome(v, PartsAfter(w, p, 0, 1, 2, 6)) || SameOutcome(v, PartsAfter(w, p, 3, 4, 5, 6))
  {
    StartsFresh(k, r, x);
    var w := Start(k, r, x);
    hide PartsAfter, Fresh, QueuesOk, NoIdle;
    if r != x {
      OtherParts(w, p, i, j, l);
      OtherParts(w, p, 0, 1, 2);
    } else if r !in k.enUso && k.disponibles[r] >= 1 {
      FreeParts(w, p, i, j, l);
      FreeParts(w, p, 0, 1, 2);
    } else if r !in k.enUso {
      NoneParts(w, p, i, j, l);
      NoneParts(w, p, 0, 1, 2);
      NoneParts(w, p, 3, 4, 5);
    } else {
      InLineParts(k, p, r, i, j, l);
    }
  }

  lemma InLineParts(k: KState, p: Pid, r: Res, i: nat, j: nat, l: nat)
    requires QueuesOk(k) && NoIdle(k) && r in k.disponibles && r in k.enUso && Schedule(i, j, l)
    requires Harmless(k, r, r) || Apart(k, r, i, j, l)
    ensures SameOutcome(PartsAfter(Start(k, r, r), p, i, j, l, 6), PartsAfter(Start(k, r, r), p, 0, 1, 2, 6))
  {
    StartsFresh(k, r, r);
    assert |k.enUso[r]| >= 1;
    var w := Start(k, r, r);
    hide PartsAfter, Fresh, QueuesOk, NoIdle;
    if |k.enUso[r]| >= 2 {
      LineParts(w, p, i, j, l);
      LineParts(w, p, 0, 1, 2);
    } else {
      OneParts(w, p, i, j, l);
      OneParts(w, p, 0, 1, 2);
    }
  }

  lemma MeetInLine(k: KState, p: Pid, r: Res, i: nat, j: nat, l: nat)
    requires QueuesOk(k) && NoIdle(k) && r in k.disponibles && Schedule(i, j, l) && r in k.enUso && |k.enUso[r]| == 1
    ensures r in Raced(k, p, r, r, i, j, l).enUso <==> l < 5 || j >= 4
  {
    StartsFresh(k, r, r);
    hide PartsAfter, Fresh, QueuesOk, NoIdle, Raced;
    EndsWith(k, p, r, r, i, j, l);
    OneParts(Start(k, r, r), p, i, j, l);
  }

  lemma MeetFree(k: KState, p: Pid, r: Res, i: nat, j: nat, l: nat)
    requires QueuesOk(k) && NoIdle(k) && r in k.disponibles && Schedule(i, j, l) && r !in k.enUso && k.disponibles[r] == 0
    ensures var s := Raced(k, p, r, r, i, j, l);
      && r in s.disponibles && s.disponibles[r] == (if l < 3 || i >= 2 then 0 else 1)
      && (l >= 3 && i < 2 ==> r in s.enUso && s.enUso[r] == [p])
  {
    StartsFresh(k, r, r);
    hide PartsAfter, Fresh, QueuesOk, NoIdle, Raced;
    EndsWith(k, p, r, r, i, j, l);
    NoneParts(Start(k, r, r), p, i, j, l);
  }

  /** Where the threads meet, an instance is free with the process in line for it, or the process is in a
      queue that nobody has. */
  lemma TheyMeet(k: KState, p: Pid, r: Res, i: nat, j: nat, l: nat)
    requires QueuesOk(k) && NoIdle(k) && r in k.disponibles && Schedule(i, j, l)
    requires !Harmless(k, r, r) && !Apart(k, r, i, j, l)
    ensures var s := Raced(k, p, r, r, i, j, l);
      && r in s.disponibles
      && (r !in k.enUso ==> s.disponibles[r] == 1 && r in s.enUso && s.enUso[r] == [p])
      && (r in k.enUso ==> r !in s.enUso)
    ensures var s, t := WaitFirst(k, p, r, r), ReleaseFirst(k, p, r, r);
      && r in s.disponibles && r in t.disponibles
      && (r !in k.enUso ==> s.disponibles[r] == 0 && t.disponibles[r] == 0)
      && (r in k.enUso ==> r in s.enUso && r in t.enUso)
  {
    assert r in k.enUso ==> |k.enUso[r]| == 1;
    KeysStay(k, p, r, i, j, l);
    KeysStay(k, p, r, 0, 1, 2);
    KeysStay(k, p, r, 3, 4, 5);
    hide QueuesOk, NoIdle, Raced;
    if r in k.enUso {
      MeetInLine(k, p, r, i, j, l);
      MeetInLine(k, p, r, 0, 1, 2);
      MeetInLine(k, p, r, 3, 4, 5);
    } else {
      MeetFree(k, p, r, i, j, l);
      MeetFree(k, p, r, 0, 1, 2);
      MeetFree(k, p, r, 3, 4, 5);
    }
  }

  lemma KeysStay(k: KState, p: Pid, r: Res, i: nat, j: nat, l: nat)
    requires r in k.disponibles
    ensures r in Raced(k, p, r, r, i, j, l).disponibles
  {
    hide After;
  }

  lemma SerialWell(k: KState, p: Pid, r: Res, x: Res, i: nat, j: nat, l: nat)
    requires QueuesOk(k) && NoIdle(k) && r in k.disponibles && x in k.disponibles && Schedule(i, j, l)
    requires Harmless(k, r, x) || Apart(k, r, i, j, l)
    ensures Raced(k, p, r, x, i, j, l) == WaitFirst(k, p, r, x) || Raced(k, p, r, x, i, j, l) == ReleaseFirst(k, p, r, x)
  {
    GoodParts(k, p, r, x, i, j, l);
    hide PartsAfter, SameOutcome, QueuesOk, NoIdle, Raced, Harmless, Apart;
    if SameOutcome(PartsAfter(Start(k, r, x), p, i, j, l, 6), PartsAfter(Start(k, r, x), p, 0, 1, 2, 6)) {
      OutcomeIs(k, p, r, x, i, j, l, 0, 1, 2);
    } else {
      OutcomeIs(k, p, r, x, i, j, l, 3, 4, 5);
    }
  }

  lemma SerialMeans(k: KState, s: KState, p: Pid, r: Res, x: Res)
    requires QueuesOk(k) && r in k.disponibles && x in k.disponibles
    ensures Serial(k, s, p, r, x) <==> s == WaitFirst(k, p, r, x) || s == ReleaseFirst(k, p, r, x)
  {
    hide WaitFirst, ReleaseFirst, Wait, Release, QueuesOk;
    WaitFirstIs(k, p, r, x);
    ReleaseFirstIs(k, p, r, x);
  }

  /** When WAIT and a release run in two threads, the outcome is that of one call after the other exactly
      when the resources differ, or an instance is free or owed, or more than one process is in line, or the
      threads do not meet. */
  lemma WaitRaceIsSerialIff(k: KState, p: Pid, r: Res, x: Res, i: nat, j: nat, l: nat)
    requires QueuesOk(k) && NoIdle(k) && r in k.disponibles && x in k.disponibles && Schedule(i, j, l)
    ensures Serial(k, Raced(k, p, r, x, i, j, l), p, r, x) <==> Harmless(k, r, x) || Apart(k, r, i, j, l)
  {
    hide QueuesOk, NoIdle, Raced, Serial, WaitFirst, ReleaseFirst;
    SerialMeans(k, Raced(k, p, r, x, i, j, l), p, r, x);
    if Harmless(k, r, x) || Apart(k, r, i, j, l) {
      SerialWell(k, p, r, x, i, j, l);
    } else {
      TheyMeet(k, p, r, i, j, l);
    }
  }

  /** What can be told before the two calls. */
  lemma NoScheduleHarmsIff(k: KState, p: Pid, r: Res, x: Res)
    requires QueuesOk(k) && NoIdle(k) && r in k.disponibles && x in k.disponibles
    ensures (forall i: nat, j: nat, l: nat :: Schedule(i, j, l) ==> Serial(k, Raced(k, p, r, x, i, j, l), p, r, x))
      <==> Harmless(k, r, x)
  {
    hide Raced, Serial, Harmless, QueuesOk, NoIdle;
    forall i: nat, j: nat, l: nat | Schedule(i, j, l) && Harmless(k, r, x) ensures Serial(k, Raced(k, p, r, x, i, j, l), p, r, x) {
      WaitRaceIsSerialIff(k, p, r, x, i, j, l);
    }
    assert Schedule(0, 1, 5) && !Apart(k, r, 0, 1, 5);
    WaitRaceIsSerialIff(k, p, r, x, 0, 1, 5);
  }

  /** A process that took its place in a queue already taken out is on no list, with the resource
      registered. */
  lemma WaiterIsLost(k: KState, p: Pid, r: Res, i: nat, j: nat, m: Loc)
    requires QueuesOk(k) && NoIdle(k) && r in k.disponibles && r in k.enUso && |k.enUso[r]| == 1 && i < j < 4
    requires forall n :: p !in List(k, n)
    ensures p !in List(Raced(k, p, r, r, i, j, 5), m) && r in Registered(Raced(k, p, r, r, i, j, 5), p)
  {
    StartsFresh(k, r, r);
    hide PartsAfter, Fresh, QueuesOk, NoIdle, Raced;
    EndsWith(k, p, r, r, i, j, 5);
    OneParts(Start(k, r, r), p, i, j, 5);
    Nowhere(k, Raced(k, p, r, r, i, j, 5), p, r, m);
  }

  lemma Nowhere(k: KState, s: KState, p: Pid, r: Res, m: Loc)
    requires r in k.enUso && r !in s.enUso && s.ready == [] + k.ready + k.enUso[r]
    requires s == Register(k, p, r).(disponibles := s.disponibles, enUso := s.enUso, ready := s.ready, semReady := s.semReady)
    requires forall y :: y != r ==> QueueOf(s.enUso, y) == QueueOf(k.enUso, y)
    requires forall n :: p !in List(k, n)
    ensures p !in List(s, m) && r in Registered(s, p)
  {
    assert p !in List(k, m) && p !in List(k, ResQ(r)) && p !in List(k, Ready);
    match m
    case ResQ(y) => assert y != r ==> QueueOf(s.enUso, y) == QueueOf(k.enUso, y);
    case _ =>
  }
}
