/** The gate between the scheduler thread, which asks for compaction, and the file-system thread,
    whose pending reads and writes must finish first. */
module Gate {

  /** Where the scheduler thread is: between a petition's steps, or inside `compaction_manager`. */
  datatype Sched =
    | Idle
    | Counted(blocks: bool) // counted, not yet in the queue
    | Added                 // in the queue, not yet posted
    | Requested             // flag set
    | Waiting               // on the permission
    | Compacting(waited: bool)

  /** Where `operarFS` is. */
  datatype Attendant =
    | Head                   // about to read the counter
    | Checked                // the counter was 0, about to read the flag
    | FlagUp                 // the flag was up, about to post the permission
    | Posted                 // posted, about to clear the flag
    | Sleep                  // on the queue's semaphore
    | Taking                 // about to take a node
    | Serving(blocks: bool)

  datatype GState = GState(
    queue: seq<bool>,   // whether each queued node hinders compaction
    nodes: nat,         // hayConsolasBlocked
    blockers: int,      // compactionBlockers
    required: bool,     // compaction_required
    permission: nat,    // compaction_permission
    sched: Sched, fs: Attendant)

  datatype Step =
    | Count(blocks: bool) | Add | PostNode
    | Request | Check | Pass | Tables
    | HeadRead | HeadFlag | HeadPost | HeadClear | WaitNode | Take | Serve

  predicate Enabled(g: GState, s: Step) {
    match s
    case Count(_) => g.sched.Idle?
    case Add => g.sched.Counted?
    case PostNode => g.sched.Added?
    case Request => g.sched.Idle?
    case Check => g.sched.Requested?
    case Pass => g.sched.Waiting? && g.permission > 0
    case Tables => g.sched.Compacting?
    case HeadRead => g.fs.Head?
    case HeadFlag => g.fs.Checked?
    case HeadPost => g.fs.FlagUp?
    case HeadClear => g.fs.Posted?
    case WaitNode => g.fs.Sleep? && g.nodes > 0
    case Take => g.fs.Taking? && g.queue != []
    case Serve => g.fs.Serving?
  }

  function Next(g: GState, s: Step): GState
    requires Enabled(g, s)
  {
    match s
    case Count(b) => g.(sched := Counted(b), blockers := if b then g.blockers + 1 else g.blockers)
    case Add => g.(sched := Added, queue := g.queue + [g.sched.blocks])
    case PostNode => g.(sched := Idle, nodes := g.nodes + 1)
    case Request => g.(sched := Requested, required := true)
    case Check => g.(sched := if g.blockers > 0 then Waiting else Compacting(false))
    case Pass => g.(sched := Compacting(true), permission := g.permission - 1)
    case Tables => g.(sched := Idle)
    case HeadRead => g.(fs := if g.blockers == 0 then Checked else Sleep)
    case HeadFlag => g.(fs := if g.required then FlagUp else Sleep)
    case HeadPost => g.(fs := Posted, permission := g.permission + 1)
    case HeadClear => g.(fs := Sleep, required := false)
    case WaitNode => g.(fs := Taking, nodes := g.nodes - 1)
    case Take => g.(fs := Serving(g.queue[0]), queue := g.queue[1..])
    case Serve => g.(fs := Head, blockers := if g.fs.blocks then g.blockers - 1 else g.blockers)
  }

  const BOOT := GState([], 0, 0, false, 0, Idle, Head)

  predicate Run(g: GState, ss: seq<Step>)
    decreases |ss|
  {
    ss == [] || (Enabled(g, ss[0]) && Run(Next(g, ss[0]), ss[1..]))
  }

  function Final(g: GState, ss: seq<Step>): GState
    requires Run(g, ss)
    decreases |ss|
  {
    if ss == [] then g else Final(Next(g, ss[0]), ss[1..])
  }

  lemma StepThen(g: GState, s: Step, ss: seq<Step>)
    requires Enabled(g, s) && Run(Next(g, s), ss)
    ensures Run(g, [s] + ss) && Final(g, [s] + ss) == Final(Next(g, s), ss)
  {
    assert ([s] + ss)[1..] == ss;
  }

  // ----- the counter -----

  function Blocks(q: seq<bool>): nat { if q == [] then 0 else (if q[0] then 1 else 0) + Blocks(q[1..]) }

  lemma {:induction false} BlocksAppend(q: seq<bool>, b: bool)
    ensures Blocks(q + [b]) == Blocks(q) + if b then 1 else 0
  {
    if q != [] {
      BlocksAppend(q[1..], b);
      assert (q + [b])[1..] == q[1..] + [b];
    }
  }

  lemma {:induction false} NoBlocks(q: seq<bool>)
    ensures Blocks(q) == 0 <==> forall i :: 0 <= i < |q| ==> !q[i]
  {
    if q != [] {
      NoBlocks(q[1..]);
      assert forall i :: 1 <= i < |q| ==> q[i] == q[1..][i - 1];
    }
  }

  /** The counter counts reads and writes queued, in service, or about to be queued; the semaphore
      counts the queue, up to a post in flight and a wait already passed; a flag seen up stays up until
      the thread that saw it clears it. */
  predicate CountersOk(g: GState) {
    && g.blockers == Blocks(g.queue) + (if g.fs == Serving(true) then 1 else 0) + (if g.sched == Counted(true) then 1 else 0)
    && |g.queue| == g.nodes + (if g.sched.Added? then 1 else 0) + (if g.fs.Taking? then 1 else 0)
    && (g.fs.FlagUp? || g.fs.Posted? ==> g.required)
  }

  lemma StepKeepsCounters(g: GState, s: Step)
    requires CountersOk(g) && Enabled(g, s)
    ensures CountersOk(Next(g, s))
  {
    if s.Add? { BlocksAppend(g.queue, g.sched.blocks); }
  }

  /** Nothing that hinders compaction is queued, in service or on its way. */
  predicate Quiescent(g: GState) {
    (forall i :: 0 <= i < |g.queue| ==> !g.queue[i]) && g.fs != Serving(true) && g.sched != Counted(true)
  }

  lemma CounterIsExact(g: GState)
    requires CountersOk(g)
    ensures g.blockers >= 0 && (g.blockers == 0 <==> Quiescent(g))
  {
    NoBlocks(g.queue);
  }

  lemma {:induction false} RunKeepsCounters(g: GState, ss: seq<Step>)
    requires CountersOk(g) && Run(g, ss)
    ensures CountersOk(Final(g, ss))
    decreases |ss|
  {
    hide CountersOk, Next, Enabled;
    if ss != [] {
      StepKeepsCounters(g, ss[0]);
      RunKeepsCounters(Next(g, ss[0]), ss[1..]);
    }
  }

  // ----- one request, from the flag to the returned tables -----

  predicate Busy(g: GState) { g.sched.Requested? || g.sched.Waiting? || g.sched.Compacting? }

  /** The file-system thread has seen no pending work and may still post for it. */
  predicate HalfDone(g: GState) { g.fs.Checked? || g.fs.FlagUp? }

  /** What holds inside a request that began well. */
  predicate Guarded(g: GState) {
    && CountersOk(g)
    && (g.sched.Requested? || g.sched.Waiting? ==> g.blockers == 0 || (g.permission == 0 && !HalfDone(g)))
    && (g.sched.Compacting? ==> g.blockers == 0)
  }

  /** The guard a request needs: no pending reads or writes, or no permission left over and the
      file-system thread not between its look at the counter and its post. */
  predicate RequestGuard(g: GState) { g.blockers == 0 || (g.permission == 0 && !HalfDone(g)) }

  lemma RequestIsGuarded(g: GState)
    requires CountersOk(g) && g.sched.Idle?
    ensures Guarded(Next(g, Request)) <==> RequestGuard(g)
  {
  }

  lemma StepKeepsGuarded(g: GState, s: Step)
    requires Guarded(g) && Enabled(g, s) && (s.Request? ==> RequestGuard(g))
    ensures Guarded(Next(g, s))
  {
    StepKeepsCounters(g, s);
    CounterIsExact(g);
    CounterIsExact(Next(g, s));
    hide CountersOk, Quiescent;
  }

  /** Every request of the run was made with the guard up. */
  predicate GuardedRequests(g: GState, ss: seq<Step>)
    requires Run(g, ss)
    decreases |ss|
  {
    ss == [] || ((ss[0].Request? ==> RequestGuard(g)) && GuardedRequests(Next(g, ss[0]), ss[1..]))
  }

  lemma {:induction false} RunKeepsGuarded(g: GState, ss: seq<Step>)
    requires Guarded(g) && Run(g, ss) && GuardedRequests(g, ss)
    ensures Guarded(Final(g, ss))
    decreases |ss|
  {
    hide Guarded, RequestGuard;
    if ss != [] {
      StepKeepsGuarded(g, ss[0]);
      RunKeepsGuarded(Next(g, ss[0]), ss[1..]);
    }
  }

  /** From start-up, when every request meets the guard, memory is compacted only while no read or
      write is queued or in service, and none enters before the tables are back. */
  lemma EveryGuardedRunIsSafe(ss: seq<Step>)
    requires Run(BOOT, ss) && GuardedRequests(BOOT, ss) && Final(BOOT, ss).sched.Compacting?
    ensures Quiescent(Final(BOOT, ss))
  {
    RunKeepsGuarded(BOOT, ss);
    CounterIsExact(Final(BOOT, ss));
  }

  /** No read or write is counted between the look at the counter and the post of a loop head, and
      requests are made with no permission left over unless nothing is pending. */
  predicate Orderly(g: GState, ss: seq<Step>)
    requires Run(g, ss)
    decreases |ss|
  {
    ss == [] ||
    (&& !(HalfDone(g) && ss[0] == Count(true))
     && (ss[0].Request? ==> g.blockers == 0 || g.permission == 0)
     && Orderly(Next(g, ss[0]), ss[1..]))
  }

  predicate HeadOk(g: GState) { HalfDone(g) ==> g.blockers == 0 }

  lemma {:induction false} OrderlyIsGuarded(g: GState, ss: seq<Step>)
    requires CountersOk(g) && HeadOk(g) && Run(g, ss) && Orderly(g, ss)
    ensures GuardedRequests(g, ss)
    decreases |ss|
  {
    if ss != [] {
      StepKeepsCounters(g, ss[0]);
      assert HeadOk(Next(g, ss[0]));
      hide CountersOk, Next, Enabled;
      OrderlyIsGuarded(Next(g, ss[0]), ss[1..]);
    }
  }

  /** With the loop head as one step, from start-up: compaction runs only with no read or write queued
      or in service, as long as no permission is left over when one is asked for. */
  lemma EveryOrderlyRunIsSafe(ss: seq<Step>)
    requires Run(BOOT, ss) && Orderly(BOOT, ss) && Final(BOOT, ss).sched.Compacting?
    ensures Quiescent(Final(BOOT, ss))
  {
    OrderlyIsGuarded(BOOT, ss);
    EveryGuardedRunIsSafe(ss);
  }

  predicate OneRequest(ss: seq<Step>) {
    ss != [] && ss[0] == Request && forall i :: 0 <= i < |ss| ==> ss[i] != Tables
  }

  /** However a request goes on, memory is compacted with nothing pending. */
  ghost predicate SafeRequest(g: GState) {
    forall ss {:trigger Final(g, ss)} ::
      OneRequest(ss) && Run(g, ss) && Final(g, ss).sched.Compacting? ==> Quiescent(Final(g, ss))
  }

  lemma {:induction false} BusyMakesNoRequest(g: GState, ss: seq<Step>)
    requires Busy(g) && Run(g, ss) && forall i :: 0 <= i < |ss| ==> ss[i] != Tables
    ensures GuardedRequests(g, ss)
    decreases |ss|
  {
    if ss != [] {
      assert ss[0] != Tables;
      BusyMakesNoRequest(Next(g, ss[0]), ss[1..]);
    }
  }

  /** A request is safe exactly when its guard holds: both a permission left over by an earlier
      compaction and a half-done loop head let it through too early. */
  lemma RequestIsSafeIff(g: GState)
    requires CountersOk(g) && g.sched.Idle?
    ensures SafeRequest(g) <==> RequestGuard(g)
  {
    CounterIsExact(g);
    if RequestGuard(g) {
      forall ss | OneRequest(ss) && Run(g, ss) && Final(g, ss).sched.Compacting? ensures Quiescent(Final(g, ss)) {
        RequestIsGuarded(g);
        BusyMakesNoRequest(Next(g, Request), ss[1..]);
        RunKeepsGuarded(Next(g, Request), ss[1..]);
        CounterIsExact(Final(g, ss));
      }
    } else {
      EarlyCompaction(g);
    }
  }

  // ----- what a request leaves behind -----

  /** The flag is up and not about to be cleared. */
  predicate FlagStands(g: GState) { g.required && !g.fs.Posted? }

  /** In a request made with no permission outstanding and no clearing under way, the flag and the
      permission together say exactly once that somebody waits. */
  predicate Pending(g: GState) {
    var p := g.permission + if FlagStands(g) then 1 else 0;
    && (g.sched.Requested? || g.sched.Waiting? ==> p == 1)
    && (g.sched.Compacting? ==> p == if g.sched.waited then 0 else 1)
  }

  lemma StepKeepsPending(g: GState, s: Step)
    requires CountersOk(g) && Busy(g) && Pending(g) && Enabled(g, s) && s != Tables
    ensures Busy(Next(g, s)) && Pending(Next(g, s))
  {
  }

  lemma {:induction false} RunKeepsPending(g: GState, ss: seq<Step>)
    requires CountersOk(g) && Busy(g) && Pending(g) && Run(g, ss) && forall i :: 0 <= i < |ss| ==> ss[i] != Tables
    ensures CountersOk(Final(g, ss)) && Busy(Final(g, ss)) && Pending(Final(g, ss))
    decreases |ss|
  {
    hide CountersOk, Busy, Pending, Next, Enabled;
    if ss != [] {
      StepKeepsPending(g, ss[0]);
      StepKeepsCounters(g, ss[0]);
      RunKeepsPending(Next(g, ss[0]), ss[1..]);
    }
  }

  /** A request that had to wait leaves no permission, and no flag but one about to be cleared; one that
      did not wait leaves exactly one of a permission and a standing flag. */
  lemma WhatARequestLeaves(g: GState, ss: seq<Step>)
    requires CountersOk(g) && g.sched.Idle? && g.permission == 0 && !g.fs.Posted?
    requires OneRequest(ss) && Run(g, ss) && Final(g, ss).sched.Compacting?
    ensures var g' := Final(g, ss);
      if g'.sched.waited then g'.permission == 0 && !FlagStands(g') else g'.permission == if FlagStands(g') then 0 else 1
  {
    assert Pending(Next(g, Request));
    RunKeepsPending(Next(g, Request), ss[1..]);
  }

  // ----- lost wake-ups -----

  predicate FsStep(s: Step) {
    s.HeadRead? || s.HeadFlag? || s.HeadPost? || s.HeadClear? || s.WaitNode? || s.Take? || s.Serve?
  }

  /** Turns the file-system thread can still take before it must sleep on an empty queue. */
  function Fuel(g: GState): nat {
    7 * |g.queue| +
    match g.fs
    case Serving(_) => 7
    case Head => 6
    case Checked => 5
    case FlagUp => 4
    case Posted => 3
    case Sleep => 2
    case Taking => if g.queue == [] then 0 else 1
  }

  function Rank(g: GState): nat {
    match g.sched
    case Requested => 2
    case Waiting => 1
    case _ => 0
  }

  /** Inside a request every step, of either thread, uses something up. */
  lemma BusyStepIsDown(g: GState, s: Step)
    requires Busy(g) && Enabled(g, s) && s != Tables
    ensures Busy(Next(g, s)) && Fuel(Next(g, s)) + Rank(Next(g, s)) < Fuel(g) + Rank(g)
  {
  }

  /** So a request cannot go on for ever: its steps are bounded by the work queued when it is made. */
  lemma {:induction false} BusyIsBounded(g: GState, ss: seq<Step>)
    requires Busy(g) && Run(g, ss) && forall i :: 0 <= i < |ss| ==> ss[i] != Tables
    ensures |ss| <= Fuel(g) + Rank(g)
    decreases |ss|
  {
    hide Busy, Fuel, Rank, Next, Enabled;
    if ss != [] {
      assert ss[0] != Tables;
      BusyStepIsDown(g, ss[0]);
      BusyIsBounded(Next(g, ss[0]), ss[1..]);
    }
  }

  lemma RequestIsBounded(g: GState, ss: seq<Step>)
    requires g.sched.Idle? && OneRequest(ss) && Run(g, ss)
    ensures |ss| <= Fuel(g) + 3
  {
    BusyIsBounded(Next(g, Request), ss[1..]);
  }

  /** The scheduler will get through: it need not wait, or it finds a permission, or the flag stands
      and the file-system thread still has to look at it with nothing pending. */
  predicate Awake(g: GState) {
    && CountersOk(g)
    && (g.sched.Requested? ==> g.blockers == 0 || g.permission > 0 || FlagStands(g))
    && (g.sched.Waiting? && g.permission == 0 ==> FlagStands(g) && (g.blockers > 0 || g.fs.Head? || HalfDone(g)))
  }

  lemma StepKeepsAwake(g: GState, s: Step)
    requires Awake(g) && Busy(g) && Enabled(g, s) && s != Tables
    ensures Awake(Next(g, s)) && Busy(Next(g, s))
  {
    StepKeepsCounters(g, s);
    CounterIsExact(g);
    CounterIsExact(Next(g, s));
  }

  lemma {:induction false} RunKeepsAwake(g: GState, ss: seq<Step>)
    requires Awake(g) && Busy(g) && Run(g, ss) && forall i :: 0 <= i < |ss| ==> ss[i] != Tables
    ensures Awake(Final(g, ss)) && Busy(Final(g, ss))
    decreases |ss|
  {
    hide Awake, Busy, Next, Enabled;
    if ss != [] {
      assert ss[0] != Tables;
      StepKeepsAwake(g, ss[0]);
      RunKeepsAwake(Next(g, ss[0]), ss[1..]);
    }
  }

  /** While `compaction_manager` waits with no permission posted, only the file-system thread can go
      on, and it can. */
  lemma WaiterIsNotLost(g: GState)
    requires Awake(g) && g.sched.Waiting? && g.permission == 0
    ensures exists s :: Enabled(g, s) && FsStep(s)
    ensures forall s :: Enabled(g, s) ==> FsStep(s) && Fuel(Next(g, s)) < Fuel(g)
  {
    CounterIsExact(g);
    assert |g.queue| == g.nodes + if g.fs.Taking? then 1 else 0;
    match g.fs
    case Head => assert Enabled(g, HeadRead) && FsStep(HeadRead);
    case Checked => assert Enabled(g, HeadFlag) && FsStep(HeadFlag);
    case FlagUp => assert Enabled(g, HeadPost) && FsStep(HeadPost);
    case Sleep => assert Enabled(g, WaitNode) && FsStep(WaitNode);
    case Taking => assert Enabled(g, Take) && FsStep(Take);
    case Serving(b) => assert Enabled(g, Serve) && FsStep(Serve);
  }

  /** Neither thread can take another step of the request. */
  ghost predicate Ended(g: GState) { forall s :: Enabled(g, s) ==> s == Tables }

  /** However the request goes on, it ends with memory being compacted, never with a scheduler that
      waits for good. */
  ghost predicate AlwaysWoken(g: GState) {
    forall ss {:trigger Final(g, ss)} ::
      OneRequest(ss) && Run(g, ss) && Ended(Final(g, ss)) ==> Final(g, ss).sched.Compacting?
  }

  /** The guard: nothing pending, or a permission at hand, or no clearing of the flag under way. */
  predicate WakeGuard(g: GState) { g.blockers == 0 || g.permission > 0 || !g.fs.Posted? }

  /** A request is always woken exactly when its guard holds: the permission of an earlier request is
      posted before that request's flag is cleared, and the clearing can hit the new flag. */
  lemma RequestIsWokenIff(g: GState)
    requires CountersOk(g) && g.sched.Idle?
    ensures AlwaysWoken(g) <==> WakeGuard(g)
  {
    CounterIsExact(g);
    if WakeGuard(g) {
      forall ss | OneRequest(ss) && Run(g, ss) && Ended(Final(g, ss)) ensures Final(g, ss).sched.Compacting? {
        assert Awake(Next(g, Request));
        RunKeepsAwake(Next(g, Request), ss[1..]);
        EndedCompacts(Final(g, ss));
      }
    } else {
      LostRequest(g);
    }
  }

  lemma EndedCompacts(g: GState)
    requires Awake(g) && Busy(g)
    ensures !g.sched.Compacting? ==> !Ended(g)
  {
    if g.sched.Requested? {
      assert Enabled(g, Check);
    } else if g.sched.Waiting? && g.permission > 0 {
      assert Enabled(g, Pass);
    } else if g.sched.Waiting? {
      WaiterIsNotLost(g);
      var s :| Enabled(g, s) && FsStep(s);
      assert s != Tables;
    }
  }

  /** With the flag down and no permission, serving what is queued ends in a scheduler that waits for
      good. */
  lemma {:induction false} Drain(g: GState) returns (ss: seq<Step>)
    requires CountersOk(g) && g.sched.Waiting? && g.permission == 0 && !g.required
    ensures Run(g, ss) && Ended(Final(g, ss)) && Final(g, ss).sched.Waiting?
    ensures forall i :: 0 <= i < |ss| ==> ss[i] != Tables
    decreases Fuel(g)
  {
    if g.fs.Sleep? && g.nodes == 0 {
      ss := [];
    } else {
      var s := match g.fs
        case Head => HeadRead
        case Checked => HeadFlag
        case Sleep => WaitNode
        case Taking => Take
        case _ => Serve;
      assert Enabled(g, s);
      StepKeepsCounters(g, s);
      BusyStepIsDown(g, s);
      var rest := Drain(Next(g, s));
      StepThen(g, s, rest);
      ss := [s] + rest;
    }
  }

  lemma LostRequest(g: GState)
    requires CountersOk(g) && g.sched.Idle? && !WakeGuard(g)
    ensures !AlwaysWoken(g)
  {
    var g1 := Next(g, Request);
    var g2 := Next(g1, Check);
    var g3 := Next(g2, HeadClear);
    CounterIsExact(g);
    StepKeepsCounters(g, Request);
    StepKeepsCounters(g1, Check);
    StepKeepsCounters(g2, HeadClear);
    var ss := Drain(g3);
    StepThen(g2, HeadClear, ss);
    StepThen(g1, Check, [HeadClear] + ss);
    StepThen(g, Request, [Check] + ([HeadClear] + ss));
    assert OneRequest([Request] + ([Check] + ([HeadClear] + ss)));
  }

  /** In every state a run from start-up reaches, both questions about a request are settled by what can
      be read off when it is made. */
  lemma EveryRequestIsDecided(ss: seq<Step>)
    requires Run(BOOT, ss) && Final(BOOT, ss).sched.Idle?
    ensures SafeRequest(Final(BOOT, ss)) <==> RequestGuard(Final(BOOT, ss))
    ensures AlwaysWoken(Final(BOOT, ss)) <==> WakeGuard(Final(BOOT, ss))
  {
    RunKeepsCounters(BOOT, ss);
    hide CountersOk, SafeRequest, AlwaysWoken, RequestGuard, WakeGuard;
    RequestIsSafeIff(Final(BOOT, ss));
    RequestIsWokenIff(Final(BOOT, ss));
  }

  // ----- runs that go wrong -----

  /** Without the guard, a run that compacts with reads or writes pending. */
  lemma EarlyCompaction(g: GState)
    requires CountersOk(g) && g.sched.Idle? && !RequestGuard(g)
    ensures !SafeRequest(g)
  {
    CounterIsExact(g);
    var g1 := Next(g, Request);
    var g2 := Next(g1, Check);
    var ss: seq<Step>;
    if g.permission > 0 {
      StepThen(g2, Pass, []);
      ss := [Pass] + [];
    } else {
      var g3 := if g.fs.Checked? then Next(g2, HeadFlag) else g2;
      var g4 := Next(g3, HeadPost);
      StepThen(g4, Pass, []);
      StepThen(g3, HeadPost, [Pass] + []);
      ss := [HeadPost] + ([Pass] + []);
      if g.fs.Checked? {
        StepThen(g2, HeadFlag, ss);
        ss := [HeadFlag] + ss;
      }
    }
    StepThen(g1, Check, ss);
    StepThen(g, Request, [Check] + ss);
    var g' := Final(g, [Request] + ([Check] + ss));
    assert g'.queue == g.queue && g'.sched.Compacting? && !Quiescent(g');
  }

  lemma {:induction false} Then(g: GState, ss: seq<Step>, s: Step) returns (ss': seq<Step>)
    requires Run(g, ss) && Enabled(Final(g, ss), s)
    ensures ss' == ss + [s] && Run(g, ss') && Final(g, ss') == Next(Final(g, ss), s)
    decreases |ss|
  {
    hide Enabled, Next;
    ss' := ss + [s];
    if ss == [] {
      StepThen(g, s, []);
    } else {
      var rest := Then(Next(g, ss[0]), ss[1..], s);
      assert ss'[1..] == rest;
    }
  }

  /** The guard can fail: a compaction that did not wait leaves the flag set, the file-system thread
      then posts a permission nobody waits for, and the next request does not wait either. */
  lemma SkippedWaitLeavesAPermission() returns (ss: seq<Step>)
    ensures Run(BOOT, ss) && Final(BOOT, ss).sched.Idle? && !HalfDone(Final(BOOT, ss))
    ensures !RequestGuard(Final(BOOT, ss)) && !SafeRequest(Final(BOOT, ss))
  {
    ss := Then(BOOT, [], Request);
    ss := Then(BOOT, ss, Check);
    ss := Then(BOOT, ss, Tables);
    assert Final(BOOT, ss) == GState([], 0, 0, true, 0, Idle, Head);
    ss := ThenHead(ss, GState([], 0, 0, true, 0, Idle, Head));
    ss := Then(BOOT, ss, HeadClear);
    assert Final(BOOT, ss) == GState([], 0, 0, false, 1, Idle, Sleep);
    ss := ThenRead(ss, GState([], 0, 0, false, 1, Idle, Sleep));
    RequestIsSafeIff(Final(BOOT, ss));
  }

  /** It can also fail at the first request: a read counted while the file-system thread is between
      its look at the counter and its look at the flag. */
  lemma HalfDoneHeadLetsItThrough() returns (ss: seq<Step>)
    ensures Run(BOOT, ss) && Final(BOOT, ss).sched.Idle? && Final(BOOT, ss).permission == 0
    ensures !RequestGuard(Final(BOOT, ss)) && !SafeRequest(Final(BOOT, ss))
  {
    ss := Then(BOOT, [], HeadRead);
    assert Final(BOOT, ss) == GState([], 0, 0, false, 0, Idle, Checked);
    ss := ThenRead(ss, GState([], 0, 0, false, 0, Idle, Checked));
    RequestIsSafeIff(Final(BOOT, ss));
  }

  /** A wake-up can be lost: a request is woken, compacts and returns before the file-system thread
      clears its flag; the next one finds a read pending, waits, and has its own flag cleared. */
  lemma SlowClearLosesARequest() returns (ss: seq<Step>)
    ensures Run(BOOT, ss) && Final(BOOT, ss).sched.Idle? && Final(BOOT, ss).permission == 0
    ensures RequestGuard(Final(BOOT, ss)) && !AlwaysWoken(Final(BOOT, ss))
  {
    ss := Then(BOOT, [], HeadRead);
    ss := Then(BOOT, ss, HeadFlag);
    assert Final(BOOT, ss) == GState([], 0, 0, false, 0, Idle, Sleep);
    ss := ThenRead(ss, GState([], 0, 0, false, 0, Idle, Sleep));
    ss := ThenWaiting(ss);
    ss := ThenServed(ss);
    ss := ThenWoken(ss);
    ss := ThenRead(ss, GState([], 0, 0, true, 0, Idle, Posted));
    RequestIsWokenIff(Final(BOOT, ss));
  }

  /** A read is counted and queued. */
  lemma ThenRead(ss: seq<Step>, g: GState) returns (ss': seq<Step>)
    requires Run(BOOT, ss) && Final(BOOT, ss) == g && g.sched.Idle? && g.queue == []
    ensures Run(BOOT, ss')
    ensures Final(BOOT, ss') == g.(queue := [true], nodes := g.nodes + 1, blockers := g.blockers + 1)
  {
    ss' := Then(BOOT, ss, Count(true));
    ss' := Then(BOOT, ss', Add);
    ss' := Then(BOOT, ss', PostNode);
  }

  /** The loop head, as far as the post. */
  lemma ThenHead(ss: seq<Step>, g: GState) returns (ss': seq<Step>)
    requires Run(BOOT, ss) && Final(BOOT, ss) == g && g.fs.Head? && g.blockers == 0 && g.required
    ensures Run(BOOT, ss') && Final(BOOT, ss') == g.(fs := Posted, permission := g.permission + 1)
  {
    ss' := Then(BOOT, ss, HeadRead);
    ss' := Then(BOOT, ss', HeadFlag);
    ss' := Then(BOOT, ss', HeadPost);
  }

  /** Compaction is asked for with a read queued. */
  lemma ThenWaiting(ss: seq<Step>) returns (ss': seq<Step>)
    requires Run(BOOT, ss) && Final(BOOT, ss) == GState([true], 1, 1, false, 0, Idle, Sleep)
    ensures Run(BOOT, ss') && Final(BOOT, ss') == GState([true], 1, 1, true, 0, Waiting, Sleep)
  {
    ss' := Then(BOOT, ss, Request);
    ss' := Then(BOOT, ss', Check);
  }

  /** The read is served. */
  lemma ThenServed(ss: seq<Step>) returns (ss': seq<Step>)
    requires Run(BOOT, ss) && Final(BOOT, ss) == GState([true], 1, 1, true, 0, Waiting, Sleep)
    ensures Run(BOOT, ss') && Final(BOOT, ss') == GState([], 0, 0, true, 0, Waiting, Head)
  {
    ss' := Then(BOOT, ss, WaitNode);
    ss' := Then(BOOT, ss', Take);
    ss' := Then(BOOT, ss', Serve);
  }

  /** The request is woken, and its tables come back before its flag is cleared. */
  lemma ThenWoken(ss: seq<Step>) returns (ss': seq<Step>)
    requires Run(BOOT, ss) && Final(BOOT, ss) == GState([], 0, 0, true, 0, Waiting, Head)
    ensures Run(BOOT, ss') && Final(BOOT, ss') == GState([], 0, 0, true, 0, Idle, Posted)
  {
    ss' := ThenHead(ss, GState([], 0, 0, true, 0, Waiting, Head));
    ss' := ThenTables(ss', GState([], 0, 0, true, 1, Waiting, Posted));
  }

  /** The permission is taken, memory is compacted, and the tables come back. */
  lemma ThenTables(ss: seq<Step>, g: GState) returns (ss': seq<Step>)
    requires Run(BOOT, ss) && Final(BOOT, ss) == g && g.sched.Waiting? && g.permission > 0
    ensures Run(BOOT, ss') && Final(BOOT, ss') == g.(sched := Idle, permission := g.permission - 1)
  {
    ss' := Then(BOOT, ss, Pass);
    ss' := Then(BOOT, ss', Tables);
  }
}
