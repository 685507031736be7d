/** The kernel's process life cycle as a state machine. Each step is what one thread does between
    two semaphore operations; a semaphore post may lag behind the list it counts. */
module Kernel {
  import opened Sums

  type Pid = int
  type Res = string
  type File = string

  /** Where a process is. */
  datatype Loc =
    | New | Ready | Running | Sleeping | ResQ(r: Res) | FsQueue | Serving | FileQ(f: File) | Exiting | Leaving

  /** `FUse` stands for a read or a write. */
  datatype Request = FOpen(f: File) | FClose(f: File) | FTruncate(f: File) | FSeek(f: File) | FUse(f: File)

  datatype Node = Node(pid: Pid, req: Request)

  /** A counting semaphore beside its list: `owed` elements were added and not yet posted; `taken`
      says the consumer passed its wait and has not yet removed the element. */
  datatype Sem = Sem(count: nat, owed: nat, taken: bool)

  datatype KState = KState(
    nuevos: seq<Pid>, ready: seq<Pid>, running: Option<Pid>, sleeping: seq<Pid>,
    fsQueue: seq<Node>, serving: Option<Node>, exiting: seq<Pid>, leaving: Option<Pid>,
    enUso: map<Res, seq<Pid>>,          // processes blocked on a resource
    disponibles: map<Res, int>,         // free instances
    porProceso: map<Pid, seq<Res>>,     // WAITs a process has not undone
    colas: map<File, seq<Pid>>,         // processes blocked on an open file
    gdt: seq<File>,                     // files open in the system
    abiertos: map<Pid, seq<File>>,      // open-file table of each process
    semNew: Sem, semReady: Sem, semExit: Sem, semBlocked: Sem,
    espacio: nat,                       // free multiprogramming slots
    admitting: bool,                    // a slot is held for the process about to be admitted
    seen: set<Pid>)                     // every PID handed out so far

  function Opt(o: Option<Pid>): seq<Pid> { if o.Some? then [o.value] else [] }

  function Pids(q: seq<Node>): (s: seq<Pid>)
    ensures |s| == |q| && forall i :: 0 <= i < |s| ==> s[i] == q[i].pid
  {
    seq(|q|, i requires 0 <= i < |q| => q[i].pid)
  }

  function At<K>(m: map<K, seq<Pid>>, x: K): seq<Pid> { if x in m then m[x] else [] }

  /** The processes at a place, in queue order. */
  function List(k: KState, l: Loc): seq<Pid> {
    match l
    case New => k.nuevos
    case Ready => k.ready
    case Running => Opt(k.running)
    case Sleeping => k.sleeping
    case ResQ(r) => At(k.enUso, r)
    case FsQueue => Pids(k.fsQueue)
    case Serving => if k.serving.Some? then [k.serving.value.pid] else []
    case FileQ(f) => At(k.colas, f)
    case Exiting => k.exiting
    case Leaving => Opt(k.leaving)
  }

  function Owe(s: Sem): Sem { s.(owed := s.owed + 1) }

  /** `list_add` on the ready list; the post is still owed. */
  function PushReady(k: KState, p: Pid): KState { k.(ready := k.ready + [p], semReady := Owe(k.semReady)) }

  /** `list_add_in_index` 0: the process goes on running next. */
  function UnshiftReady(k: KState, p: Pid): KState { k.(ready := [p] + k.ready, semReady := Owe(k.semReady)) }

  function PushExit(k: KState, p: Pid): KState { k.(exiting := k.exiting + [p], semExit := Owe(k.semExit)) }

  // ----- resources -----

  function Registered(k: KState, p: Pid): seq<Res> { if p in k.porProceso then k.porProceso[p] else [] }

  function Register(k: KState, p: Pid, r: Res): KState {
    k.(porProceso := k.porProceso[p := Registered(k, p) + [r]])
  }

  /** `quitarRecursoDelProceso`: the first matching entry, or nothing when there is none. */
  function Unregister(k: KState, p: Pid, r: Res): KState
    requires p in k.porProceso
  {
    match Position(k.porProceso[p], r)
    case None => k
    case Some(i) => k.(porProceso := k.porProceso[p := RemoveAt(k.porProceso[p], i)])
  }

  /** A queue without its head; an emptied queue leaves the dictionary. */
  function Dequeue(m: map<Res, seq<Pid>>, r: Res): map<Res, seq<Pid>>
    requires r in m && m[r] != []
  {
    if |m[r]| == 1 then m - {r} else m[r := m[r][1..]]
  }

  /** `liberar_recurso_y_actualizar_ready`: the instance goes to the first waiter, or back. */
  function Release(k: KState, r: Res): KState
    requires r in k.disponibles && (r in k.enUso ==> k.enUso[r] != [])
  {
    if r in k.enUso then PushReady(k.(enUso := Dequeue(k.enUso, r)), k.enUso[r][0])
    else k.(disponibles := k.disponibles[r := k.disponibles[r] + 1])
  }

  /** `wait_recurso_lista` for the process in hand. */
  function Wait(k: KState, p: Pid, r: Res): KState {
    if r !in k.disponibles then PushExit(k, p)
    else
      var k1 := Register(k, p, r);
      if k.disponibles[r] >= 1 then UnshiftReady(k1.(disponibles := k.disponibles[r := k.disponibles[r] - 1]), p)
      else k1.(enUso := k.enUso[r := At(k.enUso, r) + [p]])
  }

  /** `signal_recurso_lista` for the process in hand. */
  function Signal(k: KState, p: Pid, r: Res): KState
    requires (r in k.disponibles ==> p in k.porProceso) && (r in k.enUso ==> k.enUso[r] != [])
  {
    if r !in k.disponibles then PushExit(k, p)
    else Release(UnshiftReady(Unregister(k, p, r), p), r)
  }

  /** `liberarRecursosDelProceso`: everything still registered is released, in order. */
  function ReleaseAll(k: KState, p: Pid): KState
    requires QueuesOk(k)
    decreases |Registered(k, p)|
  {
    var rs := Registered(k, p);
    if rs == [] || rs[0] !in k.disponibles then k
    else
      var k1 := k.(porProceso := k.porProceso[p := rs[1..]]);
      ReleaseKeepsQueues(k1, rs[0]);
      ReleaseAll(Release(k1, rs[0]), p)
  }

  /** No queue that is in the dictionary is empty. */
  predicate QueuesOk(k: KState) { forall r :: r in k.enUso ==> k.enUso[r] != [] }

  lemma ReleaseKeepsQueues(k: KState, r: Res)
    requires QueuesOk(k) && r in k.disponibles
    ensures QueuesOk(Release(k, r)) && Release(k, r).porProceso == k.porProceso
    ensures Release(k, r).disponibles.Keys == k.disponibles.Keys
  {
  }

  // ----- files -----

  function Table(k: KState, p: Pid): seq<File> { if p in k.abiertos then k.abiertos[p] else [] }

  /** `list_remove_element`: the list without the first such entry. */
  function WithoutFirst<T(==)>(s: seq<T>, x: T): seq<T> {
    match Position(s, x)
    case None => s
    case Some(i) => RemoveAt(s, i)
  }

  /** `liberar_archivo`: the first waiter goes on, or the file leaves the system table. */
  function FreeFile(k: KState, f: File): KState
    requires f in k.colas
  {
    if k.colas[f] == [] then
      k.(colas := k.colas - {f}, gdt := WithoutFirst(k.gdt, f))
    else PushReady(k.(colas := k.colas[f := k.colas[f][1..]]), k.colas[f][0])
  }

  /** `process_f_open` for the process being served. */
  function OpenFile(k: KState, p: Pid, f: File): KState
    requires f in k.gdt ==> f in k.colas
  {
    var k1 := k.(abiertos := k.abiertos[p := [f] + Table(k, p)]);
    if f in k.gdt then k1.(colas := k.colas[f := k.colas[f] + [p]])
    else UnshiftReady(k1.(gdt := k.gdt + [f], colas := k.colas[f := []]), p)
  }

  /** `process_f_close` for the process being served. */
  function CloseFile(k: KState, p: Pid, f: File): KState
    requires f in Table(k, p) ==> f in k.colas
  {
    match Position(Table(k, p), f)
    case None => PushExit(k, p)
    case Some(i) => FreeFile(PushReady(k.(abiertos := k.abiertos[p := RemoveAt(Table(k, p), i)]), p), f)
  }

  /** `cerrarArchivosDelProceso`. */
  function CloseAll(k: KState, p: Pid): KState
    decreases |Table(k, p)|
  {
    var fs := Table(k, p);
    if fs == [] || fs[0] !in k.colas then k
    else CloseAll(FreeFile(k.(abiertos := k.abiertos[p := fs[1..]]), fs[0]), p)
  }

  // ----- steps -----

  datatype Step =
    | Arrive(p: Pid)
    | PostNew | PostReady | PostExit | PostBlocked
    | WaitNew | WaitSlot | Admit
    | WaitReady | Dispatch
    | Yield | Finish | Io | SegmentOk | SegmentFail
    | CallWait(r: Res) | CallSignal(r: Res) | CallFs(req: Request)
    | IoDone(i: nat)
    | WaitBlocked | TakeBlocked | Serve(ok: bool)
    | WaitExit | TakeExit | Teardown

  function Post(s: Sem): Sem
    requires s.owed > 0
  {
    Sem(s.count + 1, s.owed - 1, s.taken)
  }

  function Pass(s: Sem): Sem
    requires s.count > 0
  {
    Sem(s.count - 1, s.owed, true)
  }

  predicate CanPass(s: Sem) { s.count > 0 && !s.taken }

  /** The look-ups whose outcome a read, a write or a seek does not check. */
  predicate Found(k: KState, n: Node) {
    (n.req.FUse? ==> n.req.f in k.gdt) && (n.req.FSeek? ==> n.req.f in Table(k, n.pid))
  }

  /** When a step can happen: the semaphore is up, the thread is at that point, and the process has
      done what the code takes for granted (a SIGNAL of a known resource follows some WAIT, a file read
      or written is open in the system, a file sought in is open in the process's own table). */
  predicate Enabled(k: KState, s: Step) {
    match s
    case Arrive(p) => p !in k.seen
    case PostNew => k.semNew.owed > 0
    case PostReady => k.semReady.owed > 0
    case PostExit => k.semExit.owed > 0
    case PostBlocked => k.semBlocked.owed > 0
    case WaitNew => CanPass(k.semNew)
    case WaitSlot => k.semNew.taken && !k.admitting && k.espacio > 0
    case Admit => k.semNew.taken && k.admitting
    case WaitReady => CanPass(k.semReady) && k.running.None?
    case Dispatch => k.semReady.taken && k.running.None?
    case Yield => k.running.Some?
    case Finish => k.running.Some?
    case Io => k.running.Some?
    case SegmentOk => k.running.Some?
    case SegmentFail => k.running.Some?
    case CallWait(_) => k.running.Some?
    case CallSignal(r) => k.running.Some? && (r in k.disponibles ==> k.running.value in k.porProceso)
    case CallFs(_) => k.running.Some?
    case IoDone(i) => i < |k.sleeping|
    case WaitBlocked => CanPass(k.semBlocked) && k.serving.None?
    case TakeBlocked => k.semBlocked.taken && k.serving.None?
    case Serve(_) => k.serving.Some? && Found(k, k.serving.value)
    case WaitExit => CanPass(k.semExit) && k.leaving.None?
    case TakeExit => k.semExit.taken && k.leaving.None?
    case Teardown => k.leaving.Some?
  }

  /** The running process leaves the CPU and is in hand. */
  function Stopped(k: KState): KState { k.(running := None) }

  function Served(k: KState): KState { k.(serving := None) }

  predicate FilesReady(k: KState) {
    && (forall f :: f in k.gdt ==> f in k.colas)
    && (forall p, f :: p in k.abiertos && f in k.abiertos[p] ==> f in k.colas)
  }

  /** One turn of `operarFS` for the node in hand. */
  function Attend(k: KState, ok: bool): KState
    requires k.serving.Some? && FilesReady(k)
  {
    var p := k.serving.value.pid;
    match k.serving.value.req
    case FOpen(f) => OpenFile(Served(k), p, f)
    case FClose(f) => CloseFile(Served(k), p, f)
    case FTruncate(_) => if ok then UnshiftReady(Served(k), p) else PushExit(Served(k), p)
    case FSeek(_) => UnshiftReady(Served(k), p)
    case FUse(_) => UnshiftReady(Served(k), p)
  }

  /** One turn of `gestionadorExit` for the process in hand. */
  function Dismiss(k: KState, p: Pid): KState
    requires QueuesOk(k)
  {
    var k1 := CloseAll(ReleaseAll(k.(leaving := None), p), p);
    k1.(abiertos := k1.abiertos - {p}, espacio := k1.espacio + 1)
  }

  /** No list the step removes from is empty, and no dictionary lookup it makes fails. The code takes
      this for granted: that it holds in every reachable state is part of what is proved. */
  predicate Safe(k: KState, s: Step) {
    && QueuesOk(k) && FilesReady(k)
    && (s.Admit? ==> k.nuevos != [])
    && (s.Dispatch? ==> k.ready != [])
    && (s.TakeBlocked? ==> k.fsQueue != [])
    && (s.TakeExit? ==> k.exiting != [])
  }

  /** Posts and waits: no list changes. */
  predicate Signalling(s: Step) {
    s.PostNew? || s.PostReady? || s.PostExit? || s.PostBlocked? ||
    s.WaitNew? || s.WaitSlot? || s.WaitReady? || s.WaitBlocked? || s.WaitExit?
  }

  /** A process goes from one scheduler list to another: resources and files are left alone. */
  predicate Plain(s: Step) {
    s.Admit? || s.Dispatch? || s.Yield? || s.Finish? || s.Io? || s.SegmentOk? || s.SegmentFail? ||
    s.CallFs? || s.IoDone? || s.TakeBlocked? || s.TakeExit?
  }

  function Tick(k: KState, s: Step): (m: KState)
    requires Signalling(s) && Enabled(k, s)
    ensures m == k.(semNew := m.semNew, semReady := m.semReady, semExit := m.semExit, semBlocked := m.semBlocked,
                    espacio := m.espacio, admitting := m.admitting)
  {
    match s
    case PostNew => k.(semNew := Post(k.semNew))
    case PostReady => k.(semReady := Post(k.semReady))
    case PostExit => k.(semExit := Post(k.semExit))
    case PostBlocked => k.(semBlocked := Post(k.semBlocked))
    case WaitNew => k.(semNew := Pass(k.semNew))
    case WaitSlot => k.(espacio := k.espacio - 1, admitting := true)
    case WaitReady => k.(semReady := Pass(k.semReady))
    case WaitBlocked => k.(semBlocked := Pass(k.semBlocked))
    case WaitExit => k.(semExit := Pass(k.semExit))
  }

  function Move(k: KState, s: Step): (m: KState)
    requires Plain(s) && Enabled(k, s) && Safe(k, s)
    ensures m.enUso == k.enUso && m.disponibles == k.disponibles && m.porProceso == k.porProceso
    ensures m.colas == k.colas && m.gdt == k.gdt && m.abiertos == k.abiertos
  {
    match s
    case Admit => PushReady(k.(nuevos := k.nuevos[1..], semNew := k.semNew.(taken := false), admitting := false), k.nuevos[0])
    case Dispatch => k.(running := Some(k.ready[0]), ready := k.ready[1..], semReady := k.semReady.(taken := false))
    case Yield => PushReady(Stopped(k), k.running.value)
    case Finish => PushExit(Stopped(k), k.running.value)
    case Io => Stopped(k).(sleeping := k.sleeping + [k.running.value])
    case SegmentOk => UnshiftReady(Stopped(k), k.running.value)
    case SegmentFail => PushExit(Stopped(k), k.running.value)
    case CallFs(req) => Stopped(k).(fsQueue := k.fsQueue + [Node(k.running.value, req)], semBlocked := Owe(k.semBlocked))
    case IoDone(i) => PushReady(k.(sleeping := RemoveAt(k.sleeping, i)), k.sleeping[i])
    case TakeBlocked => k.(serving := Some(k.fsQueue[0]), fsQueue := k.fsQueue[1..], semBlocked := k.semBlocked.(taken := false))
    case TakeExit => k.(leaving := Some(k.exiting[0]), exiting := k.exiting[1..], semExit := k.semExit.(taken := false))
  }

  /** A console connects: its process is new, with no file open. */
  function Arrived(k: KState, p: Pid): KState {
    k.(nuevos := k.nuevos + [p], semNew := Owe(k.semNew), abiertos := k.abiertos[p := []], seen := k.seen + {p})
  }

  /** The state after a step. */
  function Next(k: KState, s: Step): KState
    requires Enabled(k, s) && Safe(k, s)
  {
    if Signalling(s) then Tick(k, s)
    else if Plain(s) then Move(k, s)
    else
      match s
      case Arrive(p) => Arrived(k, p)
      case CallWait(r) => Wait(Stopped(k), k.running.value, r)
      case CallSignal(r) => Signal(Stopped(k), k.running.value, r)
      case Serve(ok) => Attend(k, ok)
      case Teardown => Dismiss(k, k.leaving.value)
  }

  /** Start-up: nothing anywhere, all slots free. */
  function Boot(recursos: map<Res, int>, grado: nat): KState {
    KState([], [], None, [], [], None, [], None, map[], recursos, map[], map[], [], map[],
           Sem(0, 0, false), Sem(0, 0, false), Sem(0, 0, false), Sem(0, 0, false), grado, false, {})
  }
}
