/** F_OPEN in the file-system thread against `liberar_archivo` in the exit thread. They share the system
    file table and the dictionary of queues without a lock. Here they go turn by turn: F_OPEN looks the
    file up, then does the rest; `liberar_archivo` checks the queue, takes the file off the system table,
    then takes the queue out of the dictionary. */
module KernelRace {
  import opened Sums
  import opened Kernel
  import opened KernelPlaces
  import opened KernelFiles
  import opened KernelSteps
  import opened KernelRuns

  datatype Turn =
    | Look    // is the file in the system table?
    | Join    // the rest of F_OPEN
    | Check   // is the file's queue empty?
    | Unlist  // the file leaves the system table, or the first in line goes on
    | Drop    // the queue leaves the dictionary

  /** The shared state, what each thread saw, and whether a queue was looked up in vain. */
  datatype Race = Race(k: KState, found: bool, empty: bool, failed: bool)

  type Queues = map<File, seq<Pid>>

  /** The queues after the rest of F_OPEN, for a file that was found or was not. */
  function Joined(c: Queues, p: Pid, g: File, found: bool): Queues {
    if !found then c[g := []] else if g in c then c[g := c[g] + [p]] else c
  }

  /** The rest of F_OPEN. */
  function JoinAs(k: KState, p: Pid, g: File, found: bool): KState {
    k.(abiertos := k.abiertos[p := [g] + Table(k, p)],
       gdt := if found then k.gdt else k.gdt + [g],
       colas := Joined(k.colas, p, g, found),
       ready := if found then k.ready else [p] + k.ready,
       semReady := if found then k.semReady else Owe(k.semReady))
  }

  function Without(s: seq<File>, f: File): seq<File> {
    match Position(s, f) case None => s case Some(i) => RemoveAt(s, i)
  }

  /** The first in line of a queue that was not empty. */
  function Head(c: Queues, f: File, empty: bool): seq<Pid> {
    if empty || At(c, f) == [] then [] else [c[f][0]]
  }

  function Popped(c: Queues, f: File, empty: bool): Queues {
    if empty || At(c, f) == [] then c else c[f := c[f][1..]]
  }

  function UnlistAs(k: KState, f: File, empty: bool): KState {
    k.(gdt := if empty then Without(k.gdt, f) else k.gdt,
       colas := Popped(k.colas, f, empty),
       ready := k.ready + Head(k.colas, f, empty),
       semReady := if Head(k.colas, f, empty) == [] then k.semReady else Owe(k.semReady))
  }

  function DropAs(k: KState, f: File, empty: bool): KState {
    if empty then k.(colas := k.colas - {f}) else k
  }

  /** One turn: `p` opens `g`, the exit thread frees `f`. */
  function Do(x: Race, p: Pid, g: File, f: File, t: Turn): Race {
    match t
    case Look => x.(found := g in x.k.gdt)
    case Join => x.(k := JoinAs(x.k, p, g, x.found), failed := x.failed || (x.found && g !in x.k.colas))
    case Check => x.(empty := At(x.k.colas, f) == [])
    case Unlist => x.(k := UnlistAs(x.k, f, x.empty))
    case Drop => x.(k := DropAs(x.k, f, x.empty))
  }

  /** A schedule of the five turns: the look-up is number `i`, the rest of F_OPEN number `j`, and the
      exit thread has the other three. */
  predicate Schedule(i: nat, j: nat) { i < j < 5 }

  function TurnAt(i: nat, j: nat, n: nat): Turn {
    if n == i then Look
    else if n == j then Join
    else
      var done := n - (if i < n then 1 else 0) - if j < n then 1 else 0;
      if done == 0 then Check else if done == 1 then Unlist else Drop
  }

  /** The state after the first `n` turns. */
  function After(k: KState, p: Pid, g: File, f: File, i: nat, j: nat, n: nat): Race {
    if n == 0 then Race(k, false, false, false) else Do(After(k, p, g, f, i, j, n - 1), p, g, f, TurnAt(i, j, n - 1))
  }

  function Raced(k: KState, p: Pid, g: File, f: File, i: nat, j: nat): Race { After(k, p, g, f, i, j, 5) }

  /** The threads do not meet: F_OPEN is over before the queue is checked, or it looks once the file has
      left the system table and goes on once the queue has left the dictionary. */
  predicate Apart(i: nat, j: nat) { j == 1 || (i >= 2 && j == 4) }

  /** Nothing can go wrong: another file, or somebody is in line for it. */
  predicate Harmless(k: KState, g: File, f: File) { g != f || At(k.colas, f) != [] }

  // ----- the two operations one after the other -----

  lemma OpenIsJoin(k: KState, p: Pid, g: File)
    requires g in k.gdt ==> g in k.colas
    ensures OpenFile(k, p, g) == JoinAs(k, p, g, g in k.gdt)
  {
  }

  lemma FreeIsDrop(k: KState, f: File)
    requires f in k.colas
    ensures FreeFile(k, f) == DropAs(UnlistAs(k, f, k.colas[f] == []), f, k.colas[f] == [])
  {
  }

  lemma JoinGives(k: KState, p: Pid, g: File, found: bool)
    ensures var m := JoinAs(k, p, g, found);
      && m.gdt == (if found then k.gdt else k.gdt + [g]) && m.colas == Joined(k.colas, p, g, found)
      && m.abiertos == k.abiertos[p := [g] + Table(k, p)]
      && (found ==> m == k.(abiertos := m.abiertos, colas := m.colas))
  {
    hide Table, Joined;
  }

  lemma UnlistGives(k: KState, f: File, empty: bool)
    ensures var m := UnlistAs(k, f, empty);
      && m.gdt == (if empty then Without(k.gdt, f) else k.gdt) && m.colas == Popped(k.colas, f, empty)
      && m.abiertos == k.abiertos && (empty ==> m == k.(gdt := m.gdt) && m.colas == k.colas)
  {
    assert empty ==> Head(k.colas, f, empty) == [] && k.ready + [] == k.ready;
    hide Without, Popped, Head;
  }

  lemma DropGives(k: KState, f: File, empty: bool)
    ensures DropAs(k, f, empty) == k.(colas := if empty then k.colas - {f} else k.colas)
  {
  }

  // ----- turns that commute -----

  lemma PositionIs(s: seq<File>, i: nat)
    requires i < |s| && s[i] !in s[..i]
    ensures Position(s, s[i]) == Some(i)
  {
    var j := Position(s, s[i]).value;
    forall a | 0 <= a < i ensures s[a] != s[i] { assert s[..i][a] == s[a]; }
    forall a | 0 <= a < j ensures s[a] != s[i] { assert s[..j][a] == s[a]; }
  }

  lemma WithoutLast(s: seq<File>, f: File, g: File)
    requires f != g
    ensures Without(s + [g], f) == Without(s, f) + [g]
  {
    match Position(s, f)
    case None => assert f !in s + [g];
    case Some(i) =>
      assert (s + [g])[..i] == s[..i];
      PositionIs(s + [g], i);
  }

  lemma QueuesCommute(c: Queues, p: Pid, g: File, f: File, found: bool, empty: bool)
    requires g != f || (found && !empty)
    requires !empty ==> At(c, f) != []
    ensures Popped(Joined(c, p, g, found), f, empty) == Joined(Popped(c, f, empty), p, g, found)
    ensures Head(Joined(c, p, g, found), f, empty) == Head(c, f, empty)
  {
    if !empty && g == f { assert (c[f] + [p])[1..] == c[f][1..] + [p]; }
  }

  lemma JoinUnlist(k: KState, p: Pid, g: File, f: File, found: bool, empty: bool)
    requires g != f || (found && !empty)
    requires !empty ==> At(k.colas, f) != []
    ensures UnlistAs(JoinAs(k, p, g, found), f, empty) == JoinAs(UnlistAs(k, f, empty), p, g, found)
  {
    QueuesCommute(k.colas, p, g, f, found, empty);
    if empty { WithoutLast(k.gdt, f, g); }
    hide Popped, Joined, Head, Without, At;
    assert [p] + (k.ready + Head(k.colas, f, empty)) == [p] + k.ready + Head(k.colas, f, empty);
  }

  lemma JoinDrop(k: KState, p: Pid, g: File, f: File, found: bool, empty: bool)
    requires g != f || !empty
    ensures DropAs(JoinAs(k, p, g, found), f, empty) == JoinAs(DropAs(k, f, empty), p, g, found)
  {
    assert empty ==> Joined(k.colas, p, g, found) - {f} == Joined(k.colas - {f}, p, g, found);
    hide Joined;
  }

  // ----- schedules that do no harm -----

  /** Turns of the exit thread among the first `n`. */
  function FreerTurns(i: nat, j: nat, n: nat): int { n - (if i < n then 1 else 0) - if j < n then 1 else 0 }

  function PartFreed(k: KState, f: File, empty: bool, turns: int): KState {
    if turns <= 1 then k else if turns == 2 then UnlistAs(k, f, empty) else DropAs(UnlistAs(k, f, empty), f, empty)
  }

  /** What `liberar_archivo` has done so far leaves the look-ups of F_OPEN as they were. */
  lemma StillThere(k: KState, g: File, f: File, turns: int)
    requires Harmless(k, g, f)
    ensures var m := PartFreed(k, f, At(k.colas, f) == [], turns);
      (g in m.gdt <==> g in k.gdt) && (g in m.colas <==> g in k.colas)
  {
    var empty := At(k.colas, f) == [];
    WithoutOthers(k.gdt, f, g);
    UnlistGives(k, f, empty);
    DropGives(UnlistAs(k, f, empty), f, empty);
    assert g in Popped(k.colas, f, empty) <==> g in k.colas;
    hide Without, UnlistAs, DropAs, Popped;
  }

  lemma WithoutOthers(s: seq<File>, f: File, g: File)
    ensures g != f ==> (g in Without(s, f) <==> g in s)
  {
    match Position(s, f)
    case None =>
    case Some(i) =>
      assert s == s[..i] + [s[i]] + s[i + 1..];
  }

  lemma TurnMeaning(i: nat, j: nat, n: nat)
    requires Schedule(i, j) && n < 5
    ensures 0 <= FreerTurns(i, j, n) && FreerTurns(i, j, n + 1) == FreerTurns(i, j, n) + if n == i || n == j then 0 else 1
    ensures TurnAt(i, j, n) ==
      if n == i then Look else if n == j then Join
      else if FreerTurns(i, j, n) == 0 then Check else if FreerTurns(i, j, n) == 1 then Unlist else Drop
    ensures n != i && n != j ==> FreerTurns(i, j, n) < 3
  {
  }

  /** The state a harmless schedule is in: the exit thread's turns so far, and then F_OPEN. */
  predicate OnTrack(k: KState, p: Pid, g: File, f: File, x: Race, looked: bool, joined: bool, turns: int) {
    var empty := At(k.colas, f) == [];
    && x.k == (if joined then JoinAs(PartFreed(k, f, empty, turns), p, g, g in k.gdt) else PartFreed(k, f, empty, turns))
    && (looked ==> x.found == (g in k.gdt)) && (turns >= 1 ==> x.empty == empty) && !x.failed
  }

  lemma StaysOnTrack(k: KState, p: Pid, g: File, f: File, x: Race, looked: bool, joined: bool, turns: int, t: Turn)
    requires Harmless(k, g, f) && f in k.gdt && (forall e :: e in k.gdt <==> e in k.colas)
    requires OnTrack(k, p, g, f, x, looked, joined, turns) && 0 <= turns
    requires match t case Look => !joined case Join => looked && !joined
                     case Check => turns == 0 case Unlist => turns == 1 case Drop => turns == 2
    ensures OnTrack(k, p, g, f, Do(x, p, g, f, t), looked || t.Look?, joined || t.Join?,
                    if t.Look? || t.Join? then turns else turns + 1)
  {
    var empty := At(k.colas, f) == [];
    StillThere(k, g, f, turns);
    if t.Check? { CheckSeesSame(k, p, g, f); }
    hide JoinAs, UnlistAs, DropAs, Harmless;
    if t.Unlist? && joined { JoinUnlist(k, p, g, f, g in k.gdt, empty) by { HarmlessMeans(k, g, f); } }
    if t.Drop? && joined { JoinDrop(UnlistAs(k, f, empty), p, g, f, g in k.gdt, empty) by { HarmlessMeans(k, g, f); } }
  }

  lemma HarmlessMeans(k: KState, g: File, f: File)
    requires Harmless(k, g, f)
    ensures g != f || At(k.colas, f) != []
  {
  }

  lemma {:induction false} AfterHarmless(k: KState, p: Pid, g: File, f: File, i: nat, j: nat, n: nat)
    requires Schedule(i, j) && n <= 5 && Harmless(k, g, f) && f in k.gdt && forall e :: e in k.gdt <==> e in k.colas
    ensures OnTrack(k, p, g, f, After(k, p, g, f, i, j, n), n > i, n > j, FreerTurns(i, j, n))
  {
    if n > 0 {
      AfterHarmless(k, p, g, f, i, j, n - 1);
      TurnMeaning(i, j, n - 1);
      hide OnTrack, TurnAt, FreerTurns, Do, Harmless;
      StaysOnTrack(k, p, g, f, After(k, p, g, f, i, j, n - 1), n - 1 > i, n - 1 > j, FreerTurns(i, j, n - 1), TurnAt(i, j, n - 1));
    }
  }

  lemma CheckSeesSame(k: KState, p: Pid, g: File, f: File)
    requires Harmless(k, g, f) && f in k.gdt && forall e :: e in k.gdt <==> e in k.colas
    ensures At(JoinAs(k, p, g, g in k.gdt).colas, f) == [] <==> At(k.colas, f) == []
  {
  }

  /** Then every schedule ends like the two operations one after the other. */
  lemma HarmlessIsSerial(k: KState, p: Pid, g: File, f: File, i: nat, j: nat)
    requires Schedule(i, j) && Harmless(k, g, f) && f in k.gdt && forall e :: e in k.gdt <==> e in k.colas
    ensures g in FreeFile(k, f).gdt ==> g in FreeFile(k, f).colas
    ensures !Raced(k, p, g, f, i, j).failed && Raced(k, p, g, f, i, j).k == OpenFile(FreeFile(k, f), p, g)
  {
    AfterHarmless(k, p, g, f, i, j, 5);
    FreeIsDrop(k, f);
    StillThere(k, g, f, 3);
    hide FreeFile, OpenFile, JoinAs, UnlistAs, DropAs, After;
    OpenIsJoin(FreeFile(k, f), p, g);
  }

  // ----- the last holder's file -----

  lemma Unroll(k: KState, p: Pid, g: File, f: File, i: nat, j: nat)
    ensures Raced(k, p, g, f, i, j) ==
      Do(Do(Do(Do(Do(Race(k, false, false, false), p, g, f, TurnAt(i, j, 0)), p, g, f, TurnAt(i, j, 1)),
                  p, g, f, TurnAt(i, j, 2)), p, g, f, TurnAt(i, j, 3)), p, g, f, TurnAt(i, j, 4))
  {
    hide Do, TurnAt;
    assert After(k, p, g, f, i, j, 0) == Race(k, false, false, false);
    assert After(k, p, g, f, i, j, 2) == Do(After(k, p, g, f, i, j, 1), p, g, f, TurnAt(i, j, 1));
    assert After(k, p, g, f, i, j, 4) == Do(After(k, p, g, f, i, j, 3), p, g, f, TurnAt(i, j, 3));
  }

  lemma WithoutIt(s: seq<File>, f: File)
    requires Distinct(s)
    ensures f !in Without(s, f)
  {
    match Position(s, f)
    case None =>
    case Some(i) => DistinctRemove(s, i);
  }

  /** F_OPEN first: the process is first in line, and is given the file. */
  lemma OpenedFirst(k: KState, p: Pid, f: File)
    requires f in k.gdt && f in k.colas && k.colas[f] == []
    ensures !Raced(k, p, f, f, 0, 1).failed && f in OpenFile(k, p, f).colas
    ensures Raced(k, p, f, f, 0, 1).k == FreeFile(OpenFile(k, p, f), f)
  {
    Unroll(k, p, f, f, 0, 1);
    OpenIsJoin(k, p, f);
    FreeIsDrop(OpenFile(k, p, f), f);
    assert At(JoinAs(k, p, f, true).colas, f) == [p];
    hide JoinAs, UnlistAs, DropAs, OpenFile, FreeFile;
  }

  /** `liberar_archivo` first: the file is opened anew. */
  lemma FreedFirst(k: KState, p: Pid, f: File, i: nat)
    requires 2 <= i < 4 && f in k.gdt && f in k.colas && k.colas[f] == [] && Distinct(k.gdt)
    ensures !Raced(k, p, f, f, i, 4).failed && f !in FreeFile(k, f).gdt
    ensures Raced(k, p, f, f, i, 4).k == OpenFile(FreeFile(k, f), p, f)
  {
    hide Without, JoinAs, UnlistAs, DropAs, OpenFile, FreeFile, Distinct;
    Unroll(k, p, f, f, i, 4);
    FreeIsDrop(k, f);
    WithoutIt(k.gdt, f);
    UnlistGives(k, f, true);
    DropGives(UnlistAs(k, f, true), f, true);
    OpenIsJoin(FreeFile(k, f), p, f);
  }

  /** The order in which the changes fall when the look-up comes before the file leaves the table. */
  lemma MeetOrder(k: KState, p: Pid, f: File, i: nat, j: nat)
    requires i < 2 <= j < 5 && f in k.gdt && f in k.colas && k.colas[f] == []
    ensures var x := Raced(k, p, f, f, i, j);
      && (j == 2 ==> !x.failed && x.k == DropAs(UnlistAs(JoinAs(k, p, f, true), f, true), f, true))
      && (j == 3 ==> !x.failed && x.k == DropAs(JoinAs(UnlistAs(k, f, true), p, f, true), f, true))
      && (j == 4 ==> x.failed && x.k == JoinAs(DropAs(UnlistAs(k, f, true), f, true), p, f, true))
  {
    hide Without, JoinAs, UnlistAs, DropAs;
    Unroll(k, p, f, f, i, j);
    UnlistGives(k, f, true);
    DropGives(UnlistAs(k, f, true), f, true);
  }

  /** They meet, and the look-up found the file: the process lists a file the system does not, and is
      in no line for it. */
  lemma TheyMeet(k: KState, p: Pid, f: File, i: nat, j: nat)
    requires i < 2 <= j < 5 && f in k.gdt && f in k.colas && k.colas[f] == [] && Distinct(k.gdt)
    ensures var x := Raced(k, p, f, f, i, j);
      && f in Table(x.k, p) && f !in x.k.gdt && f !in x.k.colas && (x.failed <==> j == 4)
      && (forall e :: e != f ==> At(x.k.colas, e) == At(k.colas, e))
      && x.k == k.(abiertos := x.k.abiertos, gdt := x.k.gdt, colas := x.k.colas)
  {
    hide Without, JoinAs, UnlistAs, DropAs, Distinct;
    MeetOrder(k, p, f, i, j);
    WithoutIt(k.gdt, f);
    var k1, k2 := JoinAs(k, p, f, true), UnlistAs(k, f, true);
    JoinGives(k, p, f, true);
    UnlistGives(k1, f, true);
    DropGives(UnlistAs(k1, f, true), f, true);
    UnlistGives(k, f, true);
    JoinGives(k2, p, f, true);
    DropGives(JoinAs(k2, p, f, true), f, true);
    DropGives(k2, f, true);
    JoinGives(DropAs(k2, f, true), p, f, true);
  }

  /** They meet, and the look-up did not find the file: the system lists a file that has no queue. */
  lemma QueueIsLost(k: KState, p: Pid, f: File)
    requires f in k.gdt && f in k.colas && k.colas[f] == [] && Distinct(k.gdt)
    ensures var x := Raced(k, p, f, f, 2, 3); f in x.k.gdt && f !in x.k.colas && !x.failed
  {
    hide Without, JoinAs, UnlistAs, DropAs, Distinct;
    Unroll(k, p, f, f, 2, 3);
    WithoutIt(k.gdt, f);
    UnlistGives(k, f, true);
    var k2 := UnlistAs(k, f, true);
    JoinGives(k2, p, f, false);
    DropGives(JoinAs(k2, p, f, false), f, true);
  }

  // ----- when the files stay exclusive -----

  /** The system table in another order. */
  lemma Reordered(k: KState, k': KState, h: map<File, Pid>)
    requires FilesOk(k, h) && Distinct(k'.gdt) && (forall e :: e in k'.gdt <==> e in k.gdt)
    requires k'.colas == k.colas && forall q :: Table(k', q) == Table(k, q)
    ensures FilesOk(k', h)
  {
    forall q, e ensures Count(k', q, e) == Count(k, q, e) && Share(k', h, q, e) == Share(k, h, q, e) {}
  }

  lemma OrphanTables(k: KState, h: map<File, Pid>, f: File)
    requires Orphaned(k, h, f)
    ensures Distinct(k.gdt) && f in k.gdt && f in k.colas && forall e :: e in k.gdt <==> e in k.colas
  {
  }

  lemma FreedThenOpened(k: KState, h: map<File, Pid>, p: Pid, g: File, f: File) returns (h': map<File, Pid>)
    requires Orphaned(k, h, f)
    ensures f in k.colas && (g in FreeFile(k, f).gdt ==> g in FreeFile(k, f).colas)
    ensures FilesOk(OpenFile(FreeFile(k, f), p, g), h')
  {
    OrphanTables(k, h, f);
    FreeFileFiles(k, h, f);
    hide FreeFile, OpenFile, Orphaned;
    OpenedReady(FreeFile(k, f), Freed(k, h, f), g);
    OpenFiles(FreeFile(k, f), Freed(k, h, f), p, g);
    h' := Opened(FreeFile(k, f), Freed(k, h, f), p, g);
  }

  /** With nobody in line, the order of the two calls decides the place of the file in the system table
      and of the process in the ready list, and nothing else. */
  lemma EitherOrder(k: KState, p: Pid, f: File)
    requires f in k.gdt && f in k.colas && k.colas[f] == [] && Distinct(k.gdt)
    ensures f !in FreeFile(k, f).gdt && f in OpenFile(k, p, f).colas
    ensures var a, b := OpenFile(FreeFile(k, f), p, f), FreeFile(OpenFile(k, p, f), f);
      a.colas == b.colas && a.abiertos == b.abiertos && b.gdt == k.gdt && forall e :: e in a.gdt <==> e in b.gdt
  {
    OpenIsJoin(k, p, f);
    FreeIsDrop(k, f);
    var k1, k2 := JoinAs(k, p, f, true), UnlistAs(k, f, true);
    WithoutIt(k.gdt, f);
    JoinGives(k, p, f, true);
    UnlistGives(k, f, true);
    DropGives(k2, f, true);
    var k3 := DropAs(k2, f, true);
    OpenIsJoin(k3, p, f);
    JoinGives(k3, p, f, false);
    hide FreeFile, OpenFile, Distinct, JoinAs, UnlistAs, DropAs, Without;
    assert k1.colas[f] == [p];
    FreeIsDrop(k1, f);
    UnlistGives(k1, f, false);
    DropGives(UnlistAs(k1, f, false), f, false);
    assert [p][1..] == [];
    forall e ensures e in Without(k.gdt, f) + [f] <==> e in k.gdt { WithoutOthers(k.gdt, f, e); }
  }

  lemma OpenedThenFreed(k: KState, h: map<File, Pid>, p: Pid, f: File) returns (h': map<File, Pid>)
    requires Orphaned(k, h, f) && At(k.colas, f) == []
    ensures f in k.colas && f in OpenFile(k, p, f).colas && FilesOk(FreeFile(OpenFile(k, p, f), f), h')
  {
    OrphanTables(k, h, f);
    h' := FreedThenOpened(k, h, p, f, f);
    hide FreeFile, OpenFile, Orphaned, FilesOk, Distinct;
    EitherOrder(k, p, f);
    Reordered(OpenFile(FreeFile(k, f), p, f), FreeFile(OpenFile(k, p, f), f), h');
  }

  lemma CallsAreDefined(k: KState, h: map<File, Pid>, p: Pid, g: File, f: File)
    requires Orphaned(k, h, f)
    ensures f in k.colas && (g in FreeFile(k, f).gdt ==> g in FreeFile(k, f).colas) && f in OpenFile(k, p, f).colas
  {
    OrphanTables(k, h, f);
    var h' := FreedThenOpened(k, h, p, g, f);
    hide Orphaned, FreeFile;
  }

  /** The outcome of one call after the other. */
  predicate Serial(k: KState, x: Race, p: Pid, g: File, f: File)
    requires f in k.colas && (g in FreeFile(k, f).gdt ==> g in FreeFile(k, f).colas) && f in OpenFile(k, p, f).colas
  {
    !x.failed && (x.k == OpenFile(FreeFile(k, f), p, g) || (g == f && x.k == FreeFile(OpenFile(k, p, f), f)))
  }

  lemma GoodSchedule(k: KState, h: map<File, Pid>, p: Pid, g: File, f: File, i: nat, j: nat) returns (h': map<File, Pid>)
    requires Orphaned(k, h, f) && Schedule(i, j) && (Harmless(k, g, f) || Apart(i, j))
    requires f in k.colas && (g in FreeFile(k, f).gdt ==> g in FreeFile(k, f).colas) && f in OpenFile(k, p, f).colas
    ensures Serial(k, Raced(k, p, g, f, i, j), p, g, f) && FilesOk(Raced(k, p, g, f, i, j).k, h')
  {
    OrphanTables(k, h, f);
    hide Orphaned, OpenFile, FreeFile, Raced, Distinct, FilesOk;
    h' := FreedThenOpened(k, h, p, g, f);
    if Harmless(k, g, f) {
      HarmlessIsSerial(k, p, g, f, i, j);
    } else {
      h' := ApartSchedule(k, h, p, f, i, j);
    }
  }

  lemma ApartSchedule(k: KState, h: map<File, Pid>, p: Pid, f: File, i: nat, j: nat) returns (h': map<File, Pid>)
    requires Orphaned(k, h, f) && Schedule(i, j) && At(k.colas, f) == [] && Apart(i, j) && f in k.colas
    requires (f in FreeFile(k, f).gdt ==> f in FreeFile(k, f).colas) && f in OpenFile(k, p, f).colas
    ensures Serial(k, Raced(k, p, f, f, i, j), p, f, f) && FilesOk(Raced(k, p, f, f, i, j).k, h')
  {
    OrphanTables(k, h, f);
    hide Orphaned, OpenFile, FreeFile, Raced, Distinct, FilesOk, Serial;
    if j == 1 {
      OpenedFirst(k, p, f);
      SerialFirst(k, Raced(k, p, f, f, i, j), p, f);
      h' := OpenedThenFreed(k, h, p, f);
    } else {
      FreedFirst(k, p, f, i);
      SerialSecond(k, Raced(k, p, f, f, i, j), p, f);
      h' := FreedThenOpened(k, h, p, f, f);
    }
  }

  lemma SerialFirst(k: KState, x: Race, p: Pid, f: File)
    requires f in k.colas && (f in FreeFile(k, f).gdt ==> f in FreeFile(k, f).colas) && f in OpenFile(k, p, f).colas
    requires !x.failed && x.k == FreeFile(OpenFile(k, p, f), f)
    ensures Serial(k, x, p, f, f)
  {
    hide OpenFile, FreeFile;
  }

  lemma SerialSecond(k: KState, x: Race, p: Pid, f: File)
    requires f in k.colas && (f in FreeFile(k, f).gdt ==> f in FreeFile(k, f).colas) && f in OpenFile(k, p, f).colas
    requires !x.failed && x.k == OpenFile(FreeFile(k, f), p, f)
    ensures Serial(k, x, p, f, f)
  {
    hide OpenFile, FreeFile;
  }

  lemma BadSchedule(k: KState, h: map<File, Pid>, p: Pid, g: File, f: File, i: nat, j: nat)
    requires Orphaned(k, h, f) && Schedule(i, j) && !Harmless(k, g, f) && !Apart(i, j)
    ensures !Exclusive(Raced(k, p, g, f, i, j).k, f)
  {
    OrphanTables(k, h, f);
    hide Orphaned, Raced, Distinct;
    if i < 2 { TheyMeet(k, p, f, i, j); } else { QueueIsLost(k, p, f); }
  }

  /** When `liberar_archivo` and F_OPEN run in two threads, every file keeps its one holder exactly when
      somebody is in line for the freed file, or the files differ, or the threads do not meet; the
      outcome is then that of one call after the other. */
  lemma RaceKeepsExclusiveIff(k: KState, h: map<File, Pid>, p: Pid, g: File, f: File, i: nat, j: nat)
    requires Orphaned(k, h, f) && Schedule(i, j)
    ensures f in k.colas && (g in FreeFile(k, f).gdt ==> g in FreeFile(k, f).colas) && f in OpenFile(k, p, f).colas
    ensures Harmless(k, g, f) || Apart(i, j) ==> Serial(k, Raced(k, p, g, f, i, j), p, g, f)
    ensures (forall e :: Exclusive(Raced(k, p, g, f, i, j).k, e)) <==> Harmless(k, g, f) || Apart(i, j)
  {
    CallsAreDefined(k, h, p, g, f);
    hide Orphaned, OpenFile, FreeFile, Raced, FilesOk, Serial, Harmless, Apart, Exclusive;
    if Harmless(k, g, f) || Apart(i, j) {
      var h' := GoodSchedule(k, h, p, g, f, i, j);
      AllExclusive(Raced(k, p, g, f, i, j).k, h');
    } else {
      BadSchedule(k, h, p, g, f, i, j);
    }
  }

  lemma AllExclusive(k: KState, h: map<File, Pid>)
    requires FilesOk(k, h)
    ensures forall e :: Exclusive(k, e)
  {
    forall e ensures Exclusive(k, e) { FilesAreExclusive(k, h, e); }
  }

  /** What a caller can tell before the two calls: no schedule does harm exactly when the files differ
      or somebody is in line. */
  lemma NoScheduleHarmsIff(k: KState, h: map<File, Pid>, p: Pid, g: File, f: File)
    requires Orphaned(k, h, f)
    ensures (forall i: nat, j: nat, e :: Schedule(i, j) ==> Exclusive(Raced(k, p, g, f, i, j).k, e)) <==> Harmless(k, g, f)
  {
    hide Orphaned, Raced, Exclusive, Harmless;
    forall i: nat, j: nat, e | Schedule(i, j) && Harmless(k, g, f) ensures Exclusive(Raced(k, p, g, f, i, j).k, e) {
      RaceKeepsExclusiveIff(k, h, p, g, f, i, j);
    }
    assert Schedule(0, 2) && !Apart(0, 2);
    RaceKeepsExclusiveIff(k, h, p, g, f, 0, 2);
  }

  /** A process that found the file and did not get the answer in time is on no list any more. */
  lemma OpenerIsLost(k: KState, h: map<File, Pid>, p: Pid, f: File, i: nat, j: nat, l: Loc)
    requires Orphaned(k, h, f) && At(k.colas, f) == [] && i < 2 <= j < 5
    requires forall m :: p !in List(k, m)
    ensures p !in List(Raced(k, p, f, f, i, j).k, l)
  {
    OrphanTables(k, h, f);
    hide Orphaned, Raced;
    TheyMeet(k, p, f, i, j);
    var k' := Raced(k, p, f, f, i, j).k;
    assert p !in List(k, l);
    match l
    case FileQ(e) => assert At(k'.colas, e) == if e == f then [] else At(k.colas, e);
    case _ =>
  }

  // ----- where it can happen -----

  /** The process being served and the one that leaves, both in hand, and the resources of the second
      one released. */
  function BothInHand(k: KState): KState { k.(serving := None, leaving := None) }

  lemma TwoInHand(k: KState, w: map<Pid, Loc>, h: map<File, Pid>, grado: nat)
    requires Inv(k, w, h, grado) && k.serving.Some? && k.leaving.Some?
    ensures QueuesOk(BothInHand(k)) && Placed(BothInHand(k), w - {k.serving.value.pid} - {k.leaving.value})
    ensures w - {k.serving.value.pid} - {k.leaving.value} != w ==> k.serving.value.pid != k.leaving.value
    ensures FilesOk(BothInHand(k), h) && k.serving.value.pid != k.leaving.value
  {
    var k1, k2, p, q := Served(k), BothInHand(k), k.serving.value.pid, k.leaving.value;
    assert List(k, Leaving) == [q] && List(k1, Leaving) == [q] && List(k2, Leaving) == [] && OnlyAt(k1, k2, Leaving);
    assert List(k, Serving) == [p];
    TakeOver(k, w, h, grado);
    assert Placed(k1, w - {p}) && p in w;
    assert Holds(List(k, Leaving), w, Leaving) && Holds(List(k, Serving), w, Serving);
    assert p in List(k, Serving) && q in List(k, Leaving);
    assert forall e :: Table(k2, e) == Table(k, e);
    SameFiles(k, k2, h);
    hide List, OnlyAt, Placed, Inv, InHand;
    TakeKeeps(k1, k2, w - {p}, Leaving, 0);
    QueuesOf(k, w, h, grado);
  }

  // ----- every turn of the closing loop -----

  /** The loop of `cerrarArchivosDelProceso` after `n` turns. */
  function CloseSome(k: KState, q: Pid, n: nat): KState
    decreases n
  {
    var fs := Table(k, q);
    if n == 0 || fs == [] || fs[0] !in k.colas then k
    else CloseSome(FreeFile(k.(abiertos := k.abiertos[q := fs[1..]]), fs[0]), q, n - 1)
  }

  lemma CloseAllStep(k: KState, q: Pid)
    requires Table(k, q) != [] && Table(k, q)[0] in k.colas
    ensures CloseAll(k, q) == CloseAll(FreeFile(k.(abiertos := k.abiertos[q := Table(k, q)[1..]]), Table(k, q)[0]), q)
  {
    hide FreeFile;
  }

  /** It is on the way to the loop's result. */
  lemma {:induction false} CloseSomeGoesOn(k: KState, q: Pid, n: nat)
    ensures CloseAll(CloseSome(k, q, n), q) == CloseAll(k, q)
    decreases n
  {
    hide FreeFile, CloseAll, Table;
    var fs := Table(k, q);
    if n > 0 && fs != [] && fs[0] in k.colas {
      CloseAllStep(k, q);
      CloseSomeGoesOn(FreeFile(k.(abiertos := k.abiertos[q := fs[1..]]), fs[0]), q, n - 1);
    }
  }

  /** A file is listed once by a process that waits for none. */
  lemma ListedOnce(k: KState, h: map<File, Pid>, q: Pid, i: nat)
    requires FilesOk(k, h) && NotWaiting(k, q) && 0 < i < |Table(k, q)|
    ensures Table(k, q)[i] != Table(k, q)[0]
  {
    var t := Table(k, q);
    NotWaitingHolds(k, h, q, t[0]);
    assert t == [t[0]] + t[1..];
    assert t[1..][i - 1] == t[i];
  }

  /** One turn: the first file is freed, and no queue but its own changes. */
  lemma CloseOne(k: KState, w: map<Pid, Loc>, h: map<File, Pid>, q: Pid) returns (w': map<Pid, Loc>, h': map<File, Pid>)
    requires Placed(k, w) && FilesOk(k, h) && NotWaiting(k, q) && Table(k, q) != []
    ensures Table(k, q)[0] in k.colas
    ensures var k' := FreeFile(k.(abiertos := k.abiertos[q := Table(k, q)[1..]]), Table(k, q)[0]);
      && Placed(k', w') && w'.Keys == w.Keys && FilesOk(k', h') && NotWaiting(k', q) && Table(k', q) == Table(k, q)[1..]
      && forall f :: f != Table(k, q)[0] ==> At(k'.colas, f) == At(k.colas, f)
  {
    hide Placed, FreeFile, FilesOk, Orphaned, At, NotWaiting;
    var fs := Table(k, q);
    var k1 := k.(abiertos := k.abiertos[q := fs[1..]]);
    OneOff(k, h, q);
    SameListsOf(k, k1, w);
    FreeFileFiles(k1, h, fs[0]);
    forall f | f != fs[0] ensures At(FreeFile(k1, fs[0]).colas, f) == At(k.colas, f) { AfterFree(k1, fs[0], f); }
    w' := FreeFilePlaces(k1, w, fs[0]);
    h' := Freed(k1, h, fs[0]);
  }

  lemma OneOff(k: KState, h: map<File, Pid>, q: Pid)
    requires FilesOk(k, h) && NotWaiting(k, q) && Table(k, q) != []
    ensures var k1 := k.(abiertos := k.abiertos[q := Table(k, q)[1..]]);
      Orphaned(k1, h, Table(k, q)[0]) && Table(k, q)[0] in k.colas && NotWaiting(k1, q)
  {
    assert RemoveAt(Table(k, q), 0) == Table(k, q)[1..];
    hide FilesOk, Orphaned;
    DropEntry(k, h, q, 0);
    OrphanTables(k.(abiertos := k.abiertos[q := Table(k, q)[1..]]), h, Table(k, q)[0]);
  }

  lemma SameListsOf(k: KState, k1: KState, w: map<Pid, Loc>)
    requires Placed(k, w) && k1 == k.(abiertos := k1.abiertos)
    ensures Placed(k1, w)
  {
    assert forall l :: List(k1, l) == List(k, l);
    hide Placed;
    SameListsPlaces(k, k1, w);
  }

  lemma {:induction false} CloseSomeKeeps(k: KState, w: map<Pid, Loc>, h: map<File, Pid>, q: Pid, n: nat)
    returns (w': map<Pid, Loc>, h': map<File, Pid>)
    requires Placed(k, w) && FilesOk(k, h) && NotWaiting(k, q) && n <= |Table(k, q)|
    ensures var k' := CloseSome(k, q, n);
      && Placed(k', w') && w'.Keys == w.Keys && FilesOk(k', h') && NotWaiting(k', q) && Table(k', q) == Table(k, q)[n..]
      && forall i :: n <= i < |Table(k, q)| ==> At(k'.colas, Table(k, q)[i]) == At(k.colas, Table(k, q)[i])
    decreases n
  {
    hide Placed, FilesOk, NotWaiting, FreeFile, Table, At;
    if n == 0 {
      w', h' := w, h;
    } else {
      var fs := Table(k, q);
      var w1, h1 := CloseOne(k, w, h, q);
      var k1 := FreeFile(k.(abiertos := k.abiertos[q := fs[1..]]), fs[0]);
      w', h' := CloseSomeKeeps(k1, w1, h1, q, n - 1);
      assert fs[1..][n - 1..] == fs[n..];
      forall i | n <= i < |fs| ensures At(CloseSome(k, q, n).colas, fs[i]) == At(k.colas, fs[i]) {
        ListedOnce(k, h, q, i);
        assert fs[1..][i - 1] == fs[i];
      }
    }
  }

  /** The state in which the exit thread, with `n` files closed, has taken the next one off the table of
      the process and is about to free it, while F_OPEN begins. */
  function RaceState(k: KState, n: nat): KState
    requires k.leaving.Some? && QueuesOk(BothInHand(k))
  {
    var q := k.leaving.value;
    var k1 := CloseSome(ReleaseAll(BothInHand(k), q), q, n);
    k1.(abiertos := k1.abiertos[q := if Table(k1, q) == [] then [] else Table(k1, q)[1..]])
  }

  /** With an F_OPEN being served and a process leaving, the two threads are about to run as above for
      every file of that process in turn; the queue of the file is the one it has now. */
  lemma RaceStarts(k: KState, w: map<Pid, Loc>, h: map<File, Pid>, grado: nat, n: nat) returns (h': map<File, Pid>)
    requires Inv(k, w, h, grado) && k.serving.Some? && k.leaving.Some? && n < |Table(k, k.leaving.value)|
    ensures QueuesOk(BothInHand(k)) && k.serving.value.pid != k.leaving.value
    ensures var k2, f := RaceState(k, n), Table(k, k.leaving.value)[n];
      && Orphaned(k2, h', f) && At(k2.colas, f) == At(k.colas, f) && forall l :: k.serving.value.pid !in List(k2, l)
  {
    var p, q, k0 := k.serving.value.pid, k.leaving.value, BothInHand(k);
    TwoInHand(k, w, h, grado);
    var w3 := ReleaseAllPlaces(k0, w - {p} - {q}, q);
    ReleaseAllFrame(k0, q);
    var k1 := ReleaseAll(k0, q);
    assert forall e :: Table(k1, e) == Table(k0, e) == Table(k, e);
    SameFiles(k0, k1, h);
    InHandWaitsNowhere(k1, w3, q);
    hide Inv, ReleaseAll, QueuesOk, FilesOk, NotWaiting, Placed;
    var w4;
    w4, h' := CloseSomeKeeps(k1, w3, h, q, n);
    TakenOff(CloseSome(k1, q, n), w4, h', p, q);
  }

  lemma TakenOff(k: KState, w: map<Pid, Loc>, h: map<File, Pid>, p: Pid, q: Pid)
    requires Placed(k, w) && FilesOk(k, h) && NotWaiting(k, q) && Table(k, q) != [] && p !in w
    ensures var k2 := k.(abiertos := k.abiertos[q := Table(k, q)[1..]]);
      Orphaned(k2, h, Table(k, q)[0]) && forall l :: p !in List(k2, l)
  {
    var k2 := k.(abiertos := k.abiertos[q := Table(k, q)[1..]]);
    assert RemoveAt(Table(k, q), 0) == Table(k, q)[1..];
    hide FilesOk, Orphaned, NotWaiting;
    DropEntry(k, h, q, 0);
    forall l ensures p !in List(k2, l) {
      assert List(k2, l) == List(k, l);
      assert Holds(List(k, l), w, l);
    }
  }

  /** No schedule of the two calls harms. */
  ghost predicate Unharmed(k2: KState, p: Pid, g: File, f: File) {
    forall i: nat, j: nat, e :: Schedule(i, j) ==> Exclusive(Raced(k2, p, g, f, i, j).k, e)
  }

  /** From start-up, after any run with an F_OPEN of `g` being served and a process leaving: for each file of
      that process, in its turn of the closing loop, no schedule harms exactly when it is another file or
      somebody is in line for it now; and with nobody in line the process that opens can be lost. */
  lemma EveryRunRacesSafelyIff(recursos: map<Res, int>, grado: nat, ss: seq<Step>)
    requires Run(Boot(recursos, grado), ss)
    requires var k := Final(Boot(recursos, grado), ss);
      k.serving.Some? && k.serving.value.req.FOpen? && k.leaving.Some?
    ensures var k := Final(Boot(recursos, grado), ss);
      var p, g, fs := k.serving.value.pid, k.serving.value.req.f, Table(k, k.leaving.value);
      && QueuesOk(BothInHand(k))
      && (forall n: nat :: n < |fs| ==> (Unharmed(RaceState(k, n), p, g, fs[n]) <==> g != fs[n] || At(k.colas, g) != []))
      && ((forall n: nat :: n < |fs| ==> Unharmed(RaceState(k, n), p, g, fs[n])) <==> g !in fs || At(k.colas, g) != [])
      && (forall n: nat, i: nat, j: nat, l :: n < |fs| && g == fs[n] && At(k.colas, g) == [] && i < 2 <= j < 5 ==>
            p !in List(Raced(RaceState(k, n), p, g, g, i, j).k, l))
  {
    hide Boot, Run, Final, Inv, RaceState, Raced, Orphaned, Unharmed, List, QueuesOk;
    BootIsOk(recursos, grado);
    var w, h := RunKeepsInv(Boot(recursos, grado), map[], map[], grado, ss);
    var k := Final(Boot(recursos, grado), ss);
    QueuesInHand(k, w, h, grado);
    var p, g, fs := k.serving.value.pid, k.serving.value.req.f, Table(k, k.leaving.value);
    forall n: nat | n < |fs| ensures Unharmed(RaceState(k, n), p, g, fs[n]) <==> g != fs[n] || At(k.colas, g) != [] {
      var h' := RaceStarts(k, w, h, grado, n);
      UnharmedIff(RaceState(k, n), h', p, g, fs[n]);
    }
    forall n: nat, i: nat, j: nat, l | n < |fs| && g == fs[n] && At(k.colas, g) == [] && i < 2 <= j < 5
      ensures p !in List(Raced(RaceState(k, n), p, g, g, i, j).k, l)
    {
      var h' := RaceStarts(k, w, h, grado, n);
      OpenerIsLost(RaceState(k, n), h', p, g, i, j, l);
    }
  }

  lemma QueuesInHand(k: KState, w: map<Pid, Loc>, h: map<File, Pid>, grado: nat)
    requires Inv(k, w, h, grado)
    ensures QueuesOk(BothInHand(k))
  {
    QueuesOf(k, w, h, grado);
  }

  lemma UnharmedIff(k2: KState, h: map<File, Pid>, p: Pid, g: File, f: File)
    requires Orphaned(k2, h, f)
    ensures Unharmed(k2, p, g, f) <==> g != f || At(k2.colas, f) != []
  {
    hide Orphaned, Raced, Exclusive;
    NoScheduleHarmsIff(k2, h, p, g, f);
  }
}
