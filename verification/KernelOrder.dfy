/** The schedulers' lists keep their order: first in, first out, except that a process whose call
    was granted on the spot goes on before everybody else. */
module KernelOrder {
  import opened Sums
  import opened Kernel
  import opened KernelPlaces
  import opened KernelFiles
  import opened KernelSteps
  import opened KernelRuns
  import opened KernelFifo

  /** The lists a scheduler thread takes from. */
  predicate Scheduled(l: Loc) { l.New? || l.Ready? || l.FsQueue? || l.Exiting? }

  /** The step takes the head of the list. */
  predicate Takes(s: Step, l: Loc) {
    match s
    case Admit => l.New?
    case Dispatch => l.Ready?
    case TakeBlocked => l.FsQueue?
    case TakeExit => l.Exiting?
    case _ => false
  }

  /** The process that goes on at once: a granted WAIT, a SIGNAL, a segment created or deleted, a file
      nobody had open, a truncate that succeeded, a transfer or a seek. A closed file is not one. */
  function GoesOn(k: KState, s: Step): seq<Pid>
    requires Enabled(k, s)
  {
    match s
    case SegmentOk => [k.running.value]
    case CallWait(r) => if r in k.disponibles && k.disponibles[r] >= 1 then [k.running.value] else []
    case CallSignal(r) => if r in k.disponibles then [k.running.value] else []
    case Serve(ok) => if Granted(k, ok) then [k.serving.value.pid] else []
    case _ => []
  }

  predicate Granted(k: KState, ok: bool)
    requires k.serving.Some?
  {
    match k.serving.value.req
    case FOpen(f) => f !in k.gdt
    case FClose(_) => false
    case FTruncate(_) => ok
    case FSeek(_) => true
    case FUse(_) => true
  }

  /** `q` is in `q'` in order, behind `front` and ahead of whatever came later. */
  predicate Keeps(front: seq<Pid>, q: seq<Pid>, q': seq<Pid>) { front + q <= q' }

  function Front(k: KState, s: Step, l: Loc): seq<Pid>
    requires Enabled(k, s)
  {
    if l.Ready? then GoesOn(k, s) else []
  }

  /** What is behind the kept part of a list. */
  function Behind(q: seq<Pid>, front: seq<Pid>, kept: seq<Pid>): (back: seq<Pid>)
    ensures front + kept <= q ==> q == front + kept + back
  {
    if |front| + |kept| <= |q| then q[|front| + |kept|..] else []
  }

  lemma MoveKeepsOrder(k: KState, s: Step, l: Loc)
    requires Plain(s) && Enabled(k, s) && Safe(k, s) && Scheduled(l)
    ensures Keeps(Front(k, s, l), List(k, l)[if Takes(s, l) then 1 else 0..], List(Move(k, s), l))
  {
    hide QueuesOk, FilesReady, Safe, Enabled, Move, GoesOn, Pids;
    match l
    case Ready => MoveKeepsReady(k, s);
    case New => MoveKeepsNew(k, s);
    case FsQueue => MoveKeepsRest(k, s);
    case Exiting => MoveKeepsRest(k, s);
  }

  lemma MoveKeepsReady(k: KState, s: Step)
    requires Plain(s) && Enabled(k, s) && Safe(k, s)
    ensures Keeps(GoesOn(k, s), k.ready[if s.Dispatch? then 1 else 0..], Move(k, s).ready)
  {
    hide QueuesOk, FilesReady;
  }

  lemma MoveKeepsNew(k: KState, s: Step)
    requires Plain(s) && Enabled(k, s) && Safe(k, s)
    ensures Keeps([], k.nuevos[if s.Admit? then 1 else 0..], Move(k, s).nuevos)
  {
    hide QueuesOk, FilesReady, GoesOn;
  }

  lemma MoveKeepsRest(k: KState, s: Step)
    requires Plain(s) && Enabled(k, s) && Safe(k, s)
    ensures Keeps([], Pids(k.fsQueue)[if s.TakeBlocked? then 1 else 0..], Pids(Move(k, s).fsQueue))
    ensures Keeps([], k.exiting[if s.TakeExit? then 1 else 0..], Move(k, s).exiting)
  {
    hide QueuesOk, FilesReady, GoesOn;
  }

  lemma WaitKeepsOrder(k: KState, p: Pid, r: Res, l: Loc)
    requires Scheduled(l)
    ensures Keeps(if l.Ready? && r in k.disponibles && k.disponibles[r] >= 1 then [p] else [], List(k, l), List(Wait(k, p, r), l))
  {
    WaitIs(k, p, r);
    hide Wait, Registered, At;
  }

  lemma SignalKeepsOrder(k: KState, p: Pid, r: Res, l: Loc)
    requires QueuesOk(k) && (r in k.disponibles ==> p in k.porProceso) && Scheduled(l)
    ensures Keeps(if l.Ready? && r in k.disponibles then [p] else [], List(k, l), List(Signal(k, p, r), l))
  {
    if r in k.disponibles {
      ReleaseAdvances(UnshiftReady(Unregister(k, p, r), p), r);
      hide Release;
    }
  }

  lemma OpenKeepsOrder(k: KState, p: Pid, f: File, l: Loc)
    requires (f in k.gdt ==> f in k.colas) && Scheduled(l)
    ensures Keeps(if l.Ready? && f !in k.gdt then [p] else [], List(k, l), List(OpenFile(k, p, f), l))
  {
    hide Table;
    if f in k.gdt { hide UnshiftReady; }
  }

  lemma AttendKeepsOrder(k: KState, ok: bool, l: Loc)
    requires k.serving.Some? && FilesReady(k) && Scheduled(l)
    ensures Keeps(if l.Ready? && Granted(k, ok) then [k.serving.value.pid] else [], List(k, l), List(Attend(k, ok), l))
  {
    hide Attend, Granted, FilesReady, Scheduled, List, Keeps;
    match k.serving.value.req
    case FOpen(f) => OpenRequestOrder(k, ok, f, l);
    case FClose(f) => CloseRequestOrder(k, ok, f, l);
    case FTruncate(_) => RequeueRequestOrder(k, ok, l);
    case FSeek(_) => RequeueRequestOrder(k, ok, l);
    case FUse(_) => RequeueRequestOrder(k, ok, l);
  }

  lemma ServedList(k: KState, l: Loc)
    requires Scheduled(l)
    ensures List(Served(k), l) == List(k, l)
  {
  }

  lemma OpenRequestOrder(k: KState, ok: bool, f: File, l: Loc)
    requires k.serving.Some? && FilesReady(k) && Scheduled(l) && k.serving.value.req == FOpen(f)
    ensures Keeps(if l.Ready? && Granted(k, ok) then [k.serving.value.pid] else [], List(k, l), List(Attend(k, ok), l))
  {
    AttendIs(k, ok);
    hide Attend, OpenFile, Scheduled, List, FilesReady, Keeps;
    ServedList(k, l);
    OpenKeepsOrder(Served(k), k.serving.value.pid, f, l);
  }

  lemma CloseRequestOrder(k: KState, ok: bool, f: File, l: Loc)
    requires k.serving.Some? && FilesReady(k) && Scheduled(l) && k.serving.value.req == FClose(f)
    ensures Keeps(if l.Ready? && Granted(k, ok) then [k.serving.value.pid] else [], List(k, l), List(Attend(k, ok), l))
  {
    AttendIs(k, ok);
    hide Attend, CloseFile, Scheduled, List, FilesReady, Keeps, Table;
    ServedList(k, l);
    CloseKeepsOrder(Served(k), k.serving.value.pid, f, l);
  }

  lemma RequeueRequestOrder(k: KState, ok: bool, l: Loc)
    requires k.serving.Some? && FilesReady(k) && Scheduled(l) && !k.serving.value.req.FOpen? && !k.serving.value.req.FClose?
    ensures Keeps(if l.Ready? && Granted(k, ok) then [k.serving.value.pid] else [], List(k, l), List(Attend(k, ok), l))
  {
    AttendIs(k, ok);
    hide Attend, UnshiftReady, PushExit, Scheduled, List, FilesReady, Keeps;
    ServedList(k, l);
    RequeueKeepsOrder(Served(k), k.serving.value.pid, l);
  }

  lemma RequeueKeepsOrder(k: KState, p: Pid, l: Loc)
    requires Scheduled(l)
    ensures Keeps(if l.Ready? then [p] else [], List(k, l), List(UnshiftReady(k, p), l))
    ensures Keeps([], List(k, l), List(PushExit(k, p), l))
  {
  }

  /** A process that closes a file goes to the end of the ready list, ahead of whoever it wakes. */
  lemma CloseKeepsOrder(k: KState, p: Pid, f: File, l: Loc)
    requires (f in Table(k, p) ==> f in k.colas) && Scheduled(l)
    ensures Keeps([], List(k, l) + (if l.Ready? && f in Table(k, p) then [p] else []), List(CloseFile(k, p, f), l))
    ensures Keeps([], List(k, l), List(CloseFile(k, p, f), l))
  {
    match Position(Table(k, p), f)
    case None =>
    case Some(i) =>
      FreeAdvances(PushReady(k.(abiertos := k.abiertos[p := RemoveAt(Table(k, p), i)]), p), f);
      hide FreeFile;
  }

  lemma DismissKeepsOrder(k: KState, p: Pid, l: Loc)
    requires QueuesOk(k) && Scheduled(l)
    ensures Keeps([], List(k, l), List(Dismiss(k, p), l))
  {
    DismissAdvances(k, p);
    hide Dismiss, QueuesOk;
  }

  /** In every step a scheduler list loses its head when it is the list's turn and nothing else, keeps
      the rest in order, gains in front only the process that goes on, and gains others at its end. */
  lemma StepKeepsOrder(k: KState, s: Step, l: Loc)
    requires Enabled(k, s) && Safe(k, s) && Scheduled(l)
    ensures var kept := List(k, l)[if Takes(s, l) then 1 else 0..];
      && |Front(k, s, l)| <= 1
      && List(Next(k, s), l) == Front(k, s, l) + kept + Behind(List(Next(k, s), l), Front(k, s, l), kept)
  {
    StepPrefix(k, s, l);
    hide Next, Enabled, Safe, List;
  }

  lemma StepPrefix(k: KState, s: Step, l: Loc)
    requires Enabled(k, s) && Safe(k, s) && Scheduled(l)
    ensures Keeps(Front(k, s, l), List(k, l)[if Takes(s, l) then 1 else 0..], List(Next(k, s), l))
  {
    hide Wait, Signal, Attend, Dismiss, Move, FilesReady, Stopped;
    if Signalling(s) {
    } else if Plain(s) {
      MoveKeepsOrder(k, s, l);
    } else {
      SameLists(k, l);
      match s
      case Arrive(p) =>
      case CallWait(r) => WaitKeepsOrder(Stopped(k), k.running.value, r, l);
      case CallSignal(r) => SignalKeepsOrder(Stopped(k), k.running.value, r, l);
      case Serve(ok) => AttendKeepsOrder(k, ok, l);
      case Teardown => DismissKeepsOrder(k, k.leaving.value, l);
    }
  }

  lemma SameLists(k: KState, l: Loc)
    requires Scheduled(l)
    ensures List(Stopped(k), l) == List(k, l) && Stopped(k).disponibles == k.disponibles
    ensures Stopped(k).porProceso == k.porProceso && (QueuesOk(k) ==> QueuesOk(Stopped(k)))
  {
  }

  // ----- who runs next -----

  /** The process whose call was granted last, `p` when none was. */
  function Latest(k: KState, ss: seq<Step>, p: Pid): Pid
    requires Run(k, ss)
    decreases |ss|
  {
    if ss == [] then p
    else Latest(Apply(k, ss[0]), ss[1..], if GoesOn(k, ss[0]) == [] then p else GoesOn(k, ss[0])[0])
  }

  /** No dispatch, and no other call granted. */
  predicate Undisturbed(k: KState, ss: seq<Step>)
    requires Run(k, ss)
    decreases |ss|
  {
    ss == [] || (!ss[0].Dispatch? && GoesOn(k, ss[0]) == [] && Undisturbed(Apply(k, ss[0]), ss[1..]))
  }

  lemma {:induction false} UndisturbedStays(k: KState, ss: seq<Step>, p: Pid)
    requires Run(k, ss) && Undisturbed(k, ss)
    ensures Latest(k, ss, p) == p && forall i :: 0 <= i < |ss| ==> !ss[i].Dispatch?
    decreases |ss|
  {
    hide Enabled, Apply, GoesOn;
    if ss != [] { UndisturbedStays(Apply(k, ss[0]), ss[1..], p); }
  }

  lemma HeadAfter(k: KState, s: Step)
    requires Enabled(k, s) && Safe(k, s) && !s.Dispatch? && (k.ready != [] || GoesOn(k, s) != [])
    ensures Next(k, s).ready != []
    ensures Next(k, s).ready[0] == if GoesOn(k, s) != [] then GoesOn(k, s)[0] else k.ready[0]
  {
    StepKeepsOrder(k, s, Ready);
    hide GoesOn, Safe, Enabled, Next;
    assert List(Next(k, s), Ready) == Next(k, s).ready && List(k, Ready)[0..] == k.ready;
  }

  /** Until the next dispatch the head of the ready list is whoever's call was granted last, whatever
      else the threads do. */
  lemma {:induction false} LatestIsFirst(k: KState, w: map<Pid, Loc>, h: map<File, Pid>, grado: nat, ss: seq<Step>, p: Pid)
    requires Inv(k, w, h, grado) && Run(k, ss) && k.ready != [] && k.ready[0] == p
    requires forall i :: 0 <= i < |ss| ==> !ss[i].Dispatch?
    ensures Final(k, ss).ready != [] && Final(k, ss).ready[0] == Latest(k, ss, p)
    decreases |ss|
  {
    hide Inv, Enabled, Next, GoesOn, Safe;
    if ss != [] {
      var w1, h1 := StepKeepsInv(k, w, h, grado, ss[0]);
      HeadAfter(k, ss[0]);
      var q := if GoesOn(k, ss[0]) == [] then p else GoesOn(k, ss[0])[0];
      LatestIsFirst(Apply(k, ss[0]), w1, h1, grado, ss[1..], q);
    }
  }

  /** From start-up: after a step that grants a call, and any run of steps of all threads without a
      dispatch, the process dispatched is the one whose call was granted last; so it is the first one
      when no other call was granted in between. */
  lemma GrantedRunsNext(recursos: map<Res, int>, grado: nat, before: seq<Step>, s: Step, ss: seq<Step>)
    requires Run(Boot(recursos, grado), before) && Enabled(Final(Boot(recursos, grado), before), s) && !s.Dispatch?
    requires GoesOn(Final(Boot(recursos, grado), before), s) != []
    requires Run(Apply(Final(Boot(recursos, grado), before), s), ss) && forall i :: 0 <= i < |ss| ==> !ss[i].Dispatch?
    requires Enabled(Final(Apply(Final(Boot(recursos, grado), before), s), ss), Dispatch)
    ensures var k := Final(Boot(recursos, grado), before);
      var k1 := Apply(k, s);
      && Safe(Final(k1, ss), Dispatch)
      && Next(Final(k1, ss), Dispatch).running == Some(Latest(k1, ss, GoesOn(k, s)[0]))
      && (Undisturbed(k1, ss) ==> Next(Final(k1, ss), Dispatch).running == Some(GoesOn(k, s)[0]))
  {
    hide Inv, Enabled, Next, GoesOn, Safe, Boot, Apply;
    BootIsOk(recursos, grado);
    var k := Final(Boot(recursos, grado), before);
    var w, h := RunKeepsInv(Boot(recursos, grado), map[], map[], grado, before);
    var w1, h1 := StepKeepsInv(k, w, h, grado, s);
    HeadAfter(k, s);
    ApplyIs(k, s);
    var k1 := Apply(k, s);
    LatestIsFirst(k1, w1, h1, grado, ss, GoesOn(k, s)[0]);
    var w2, h2 := RunKeepsInv(k1, w1, h1, grado, ss);
    EnabledIsSafe(Final(k1, ss), w2, h2, grado, Dispatch);
    DispatchTakesHead(Final(k1, ss));
    if Undisturbed(k1, ss) { UndisturbedStays(k1, ss, GoesOn(k, s)[0]); }
  }

  lemma ApplyIs(k: KState, s: Step)
    requires Enabled(k, s) && Safe(k, s)
    ensures Apply(k, s) == Next(k, s)
  {
    hide Next, Enabled, Safe;
  }

  lemma DispatchTakesHead(k: KState)
    requires Enabled(k, Dispatch) && Safe(k, Dispatch)
    ensures k.ready != [] && Next(k, Dispatch).running == Some(k.ready[0])
  {
    hide QueuesOk, FilesReady;
  }

  // ----- which calls end a process -----

  /** The process a step sends to EXIT: it finished or failed, named a resource that does not exist,
      closed a file it had not opened, or could not be given the space it asked for. */
  function Ends(k: KState, s: Step): seq<Pid>
    requires Enabled(k, s)
  {
    match s
    case Finish => [k.running.value]
    case SegmentFail => [k.running.value]
    case CallWait(r) => if r in k.disponibles then [] else [k.running.value]
    case CallSignal(r) => if r in k.disponibles then [] else [k.running.value]
    case Serve(ok) => if Rejected(k, ok) then [k.serving.value.pid] else []
    case _ => []
  }

  predicate Rejected(k: KState, ok: bool)
    requires k.serving.Some?
  {
    match k.serving.value.req
    case FOpen(_) => false
    case FClose(f) => f !in Table(k, k.serving.value.pid)
    case FTruncate(_) => !ok
    case FSeek(_) => false
    case FUse(_) => false
  }

  lemma CloseEnds(k: KState, p: Pid, f: File)
    requires f in Table(k, p) ==> f in k.colas
    ensures CloseFile(k, p, f).exiting == k.exiting + if f in Table(k, p) then [] else [p]
  {
    match Position(Table(k, p), f)
    case None =>
    case Some(i) =>
      FreeAdvances(PushReady(k.(abiertos := k.abiertos[p := RemoveAt(Table(k, p), i)]), p), f);
      hide FreeFile;
  }

  lemma OpenEnds(k: KState, p: Pid, f: File)
    requires f in k.gdt ==> f in k.colas
    ensures OpenFile(k, p, f).exiting == k.exiting
  {
  }

  lemma AttendEnds(k: KState, ok: bool)
    requires k.serving.Some? && FilesReady(k)
    ensures Attend(k, ok).exiting == k.exiting + if Rejected(k, ok) then [k.serving.value.pid] else []
  {
    hide Attend, FilesReady, Rejected;
    match k.serving.value.req
    case FOpen(f) => OpenRequestEnds(k, ok, f);
    case FClose(f) => CloseRequestEnds(k, ok, f);
    case FTruncate(f) => TruncateRequestEnds(k, ok, f);
    case FSeek(_) => OtherRequestEnds(k, ok);
    case FUse(_) => OtherRequestEnds(k, ok);
  }

  lemma OpenRequestEnds(k: KState, ok: bool, f: File)
    requires k.serving.Some? && k.serving.value.req == FOpen(f) && FilesReady(k)
    ensures Attend(k, ok).exiting == k.exiting && !Rejected(k, ok)
  {
    AttendIs(k, ok);
    hide OpenFile, Attend;
    OpenEnds(Served(k), k.serving.value.pid, f);
  }

  lemma CloseRequestEnds(k: KState, ok: bool, f: File)
    requires k.serving.Some? && k.serving.value.req == FClose(f) && FilesReady(k)
    ensures Attend(k, ok).exiting == k.exiting + if Rejected(k, ok) then [k.serving.value.pid] else []
  {
    AttendIs(k, ok);
    hide CloseFile, Attend, FilesReady;
    CloseEnds(Served(k), k.serving.value.pid, f);
  }

  lemma TruncateRequestEnds(k: KState, ok: bool, f: File)
    requires k.serving.Some? && k.serving.value.req == FTruncate(f) && FilesReady(k)
    ensures Rejected(k, ok) <==> !ok
    ensures Attend(k, ok).exiting == k.exiting + if ok then [] else [k.serving.value.pid]
  {
    AttendIs(k, ok);
    hide Attend, FilesReady;
    if ok {}
  }

  lemma OtherRequestEnds(k: KState, ok: bool)
    requires k.serving.Some? && (k.serving.value.req.FSeek? || k.serving.value.req.FUse?) && FilesReady(k)
    ensures Attend(k, ok).exiting == k.exiting && !Rejected(k, ok)
  {
    AttendIs(k, ok);
    hide Attend, FilesReady;
  }

  lemma WaitEnds(k: KState, p: Pid, r: Res)
    ensures Wait(k, p, r).exiting == k.exiting + if r in k.disponibles then [] else [p]
  {
    WaitIs(k, p, r);
    hide Wait, Registered, At;
  }

  lemma SignalEnds(k: KState, p: Pid, r: Res)
    requires QueuesOk(k) && (r in k.disponibles ==> p in k.porProceso)
    ensures Signal(k, p, r).exiting == k.exiting + if r in k.disponibles then [] else [p]
  {
    if r in k.disponibles {
      ReleaseAdvances(UnshiftReady(Unregister(k, p, r), p), r);
      hide Release;
    }
  }

  /** The exit list gains exactly the process that ends, in every step of every thread. */
  lemma StepEnds(k: KState, s: Step)
    requires Enabled(k, s) && Safe(k, s)
    ensures Next(k, s).exiting == k.exiting[if s.TakeExit? then 1 else 0..] + Ends(k, s)
  {
    hide Wait, Signal, Attend, Dismiss, Move, FilesReady;
    if Signalling(s) {
    } else if Plain(s) {
      MoveEnds(k, s);
    } else {
      match s
      case Arrive(_) =>
      case CallWait(r) => WaitEnds(Stopped(k), k.running.value, r);
      case CallSignal(r) => SignalEnds(Stopped(k), k.running.value, r);
      case Serve(ok) => AttendEnds(k, ok);
      case Teardown => DismissAdvances(k, k.leaving.value);
    }
  }

  lemma MoveEnds(k: KState, s: Step)
    requires Plain(s) && Enabled(k, s) && Safe(k, s)
    ensures Move(k, s).exiting == k.exiting[if s.TakeExit? then 1 else 0..] + Ends(k, s)
  {
    hide QueuesOk, FilesReady;
  }
}
