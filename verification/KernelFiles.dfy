/** Exclusive use of open files: one holder a file, everybody else that lists it is queued. */
module KernelFiles {
  import opened Sums
  import opened Kernel
  import opened KernelPlaces
  import opened KernelResources

  /** Entries for a file in a process's open-file table. */
  ghost function Count(k: KState, p: Pid, f: File): nat { multiset(Table(k, p))[f] }

  /** Entries a process should have: one if it is the holder, and one for each place in the queue. */
  ghost function Share(k: KState, h: map<File, Pid>, p: Pid, f: File): nat {
    multiset(At(k.colas, f))[p] + if f in h && h[f] == p then 1 else 0
  }

  ghost predicate TablesMatch(k: KState, h: map<File, Pid>) {
    Distinct(k.gdt) && h.Keys == k.colas.Keys && forall f :: f in k.gdt <==> f in k.colas
  }

  /** `h` gives the holder of every open file. */
  ghost predicate FilesOk(k: KState, h: map<File, Pid>) {
    TablesMatch(k, h) && forall p, f {:trigger Count(k, p, f)} :: Count(k, p, f) == Share(k, h, p, f)
  }

  /** The holder of `f` has dropped its entry, and nobody has been chosen yet. */
  ghost predicate Orphaned(k: KState, h: map<File, Pid>, f: File) {
    && TablesMatch(k, h) && f in k.colas
    && forall p, g {:trigger Count(k, p, g)} ::
        Count(k, p, g) == if g == f then multiset(At(k.colas, f))[p] else Share(k, h, p, g)
  }

  ghost predicate NotWaiting(k: KState, p: Pid) { forall f {:trigger At(k.colas, f)} :: p !in At(k.colas, f) }

  lemma CountIsShare(k: KState, h: map<File, Pid>, p: Pid, f: File)
    requires FilesOk(k, h)
    ensures Count(k, p, f) == Share(k, h, p, f) && (f in h <==> f in k.gdt) && (f !in h ==> At(k.colas, f) == [])
  {
  }

  lemma FilesOkIsReady(k: KState, h: map<File, Pid>)
    requires FilesOk(k, h)
    ensures FilesReady(k)
  {
    forall p, f | p in k.abiertos && f in k.abiertos[p] ensures f in k.colas {
      assert Count(k, p, f) > 0;
    }
  }

  lemma SameFiles(k: KState, k': KState, h: map<File, Pid>)
    requires FilesOk(k, h) && k'.gdt == k.gdt && k'.colas == k.colas && forall p :: Table(k', p) == Table(k, p)
    ensures FilesOk(k', h)
  {
    forall p, f ensures Count(k', p, f) == Count(k, p, f) && Share(k', h, p, f) == Share(k, h, p, f) {}
  }

  ghost function Opened(k: KState, h: map<File, Pid>, p: Pid, f: File): map<File, Pid> {
    if f in k.gdt then h else h[f := p]
  }

  lemma AfterOpen(k: KState, p: Pid, f: File, q: Pid, g: File)
    requires f in k.gdt <==> f in k.colas
    ensures var k' := OpenFile(k, p, f);
      && Table(k', q) == (if q == p then [f] + Table(k, p) else Table(k, q))
      && At(k'.colas, g) == if g == f && f in k.gdt then At(k.colas, f) + [p] else At(k.colas, g)
  {
  }

  lemma OpenMatches(k: KState, h: map<File, Pid>, p: Pid, f: File)
    requires TablesMatch(k, h)
    ensures TablesMatch(OpenFile(k, p, f), Opened(k, h, p, f))
  {
    if f !in k.gdt {
      DistinctInsert(k.gdt, |k.gdt|, f);
      assert k.gdt + [f] == k.gdt[..|k.gdt|] + [f] + k.gdt[|k.gdt|..];
      hide Distinct;
    } else {
      hide Distinct;
    }
  }

  lemma OpenPoint(k: KState, h: map<File, Pid>, p: Pid, f: File, q: Pid, g: File)
    requires FilesOk(k, h)
    ensures Count(OpenFile(k, p, f), q, g) == Share(OpenFile(k, p, f), Opened(k, h, p, f), q, g)
  {
    hide Table, At, OpenFile, FilesOk;
    CountIsShare(k, h, q, g);
    CountIsShare(k, h, p, f);
    OpenedReady(k, h, f);
    AfterOpen(k, p, f, q, g);
    CountAround(Table(k, p), f, g);
    CountAround(At(k.colas, f), p, q);
  }

  lemma OpenedReady(k: KState, h: map<File, Pid>, f: File)
    requires FilesOk(k, h)
    ensures f in k.gdt <==> f in k.colas
  {
  }

  lemma CountAround<T>(s: seq<T>, x: T, y: T)
    ensures multiset([x] + s)[y] == multiset(s)[y] + if x == y then 1 else 0
    ensures multiset(s + [x])[y] == multiset(s)[y] + if x == y then 1 else 0
  {
  }

  /** Opening makes the process the holder of a new file, or the last in line of an open one. */
  lemma OpenFiles(k: KState, h: map<File, Pid>, p: Pid, f: File)
    requires FilesOk(k, h)
    ensures FilesOk(OpenFile(k, p, f), Opened(k, h, p, f))
  {
    var k', h' := OpenFile(k, p, f), Opened(k, h, p, f);
    OpenMatches(k, h, p, f);
    hide Table, At, OpenFile, Opened, Distinct, Count, Share, TablesMatch;
    forall q, g ensures Count(k', q, g) == Share(k', h', q, g) { OpenPoint(k, h, p, f, q, g); }
  }

  /** A listed file of a process that is in no queue: the process is its holder, by one entry. */
  lemma NotWaitingHolds(k: KState, h: map<File, Pid>, p: Pid, f: File)
    requires FilesOk(k, h) && NotWaiting(k, p) && f in Table(k, p)
    ensures f in h && h[f] == p && Count(k, p, f) == 1
  {
    assert Count(k, p, f) > 0;
    assert p !in At(k.colas, f);
  }

  lemma DropEntry(k: KState, h: map<File, Pid>, p: Pid, i: nat)
    requires FilesOk(k, h) && NotWaiting(k, p) && i < |Table(k, p)|
    ensures Orphaned(k.(abiertos := k.abiertos[p := RemoveAt(Table(k, p), i)]), h, Table(k, p)[i])
  {
    var f, k' := Table(k, p)[i], k.(abiertos := k.abiertos[p := RemoveAt(Table(k, p), i)]);
    assert TablesMatch(k', h) && f in k'.colas by { NotWaitingHolds(k, h, p, f); }
    hide Table, At, RemoveAt, Distinct, Count, Share, TablesMatch;
    forall q, g ensures Count(k', q, g) == if g == f then multiset(At(k'.colas, f))[q] else Share(k', h, q, g) {
      DropPoint(k, h, p, i, q, g);
    }
  }

  lemma DropPoint(k: KState, h: map<File, Pid>, p: Pid, i: nat, q: Pid, g: File)
    requires FilesOk(k, h) && NotWaiting(k, p) && i < |Table(k, p)|
    ensures var f, k' := Table(k, p)[i], k.(abiertos := k.abiertos[p := RemoveAt(Table(k, p), i)]);
      Count(k', q, g) == if g == f then multiset(At(k.colas, f))[q] else Share(k, h, q, g)
    ensures Share(k.(abiertos := k.abiertos[p := RemoveAt(Table(k, p), i)]), h, q, g) == Share(k, h, q, g)
  {
    var f, k' := Table(k, p)[i], k.(abiertos := k.abiertos[p := RemoveAt(Table(k, p), i)]);
    NotWaitingHolds(k, h, p, f);
    CountRemove(Table(k, p), i);
    assert Table(k', q) == if q == p then RemoveAt(Table(k, p), i) else Table(k, q);
    assert Count(k, q, g) == Share(k, h, q, g);
    hide Table, RemoveAt, FilesOk;
  }

  ghost function Freed(k: KState, h: map<File, Pid>, f: File): map<File, Pid>
    requires f in k.colas
  {
    if k.colas[f] == [] then h - {f} else h[f := k.colas[f][0]]
  }

  lemma ColasAfterFree(k: KState, f: File)
    requires f in k.colas
    ensures k.colas[f] == [] ==> FreeFile(k, f).colas == k.colas - {f}
    ensures k.colas[f] != [] ==> FreeFile(k, f).colas == k.colas[f := k.colas[f][1..]]
  {
    hide WithoutFirst;
  }

  lemma AfterFree(k: KState, f: File, g: File)
    requires f in k.colas
    ensures var k' := FreeFile(k, f);
      && k'.abiertos == k.abiertos
      && At(k'.colas, g) == if g == f && k.colas[f] != [] then k.colas[f][1..] else At(k.colas, g)
  {
    hide WithoutFirst;
    ColasAfterFree(k, f);
    if k.colas[f] == [] {}
  }

  lemma GdtAfterFree(k: KState, f: File)
    requires Distinct(k.gdt) && f in k.gdt && f in k.colas
    ensures var k' := FreeFile(k, f);
      Distinct(k'.gdt) && forall g :: g in k'.gdt <==> g in k.gdt && (g != f || k.colas[f] != [])
  {
    if k.colas[f] == [] {
      var i := Position(k.gdt, f).value;
      assert FreeFile(k, f).gdt == RemoveAt(k.gdt, i);
      hide FreeFile;
      DistinctRemove(k.gdt, i);
    }
  }

  lemma FreeMatches(k: KState, h: map<File, Pid>, f: File)
    requires TablesMatch(k, h) && f in k.colas
    ensures TablesMatch(FreeFile(k, f), Freed(k, h, f))
  {
    hide FreeFile, Distinct;
    GdtAfterFree(k, f);
    ColasAfterFree(k, f);
    var c, c', h' := k.colas, FreeFile(k, f).colas, Freed(k, h, f);
    assert c'.Keys == if c[f] == [] then c.Keys - {f} else c.Keys;
    assert h'.Keys == c'.Keys;
  }

  /** The head of the line trades its place for the file. */
  lemma HeadCount(q: seq<Pid>, p: Pid)
    requires q != []
    ensures multiset(q)[p] == multiset(q[1..])[p] + if q[0] == p then 1 else 0
  {
    assert q == [q[0]] + q[1..];
    CountAround(q[1..], q[0], p);
  }

  lemma FreePoint(k: KState, h: map<File, Pid>, f: File, p: Pid, g: File)
    requires Orphaned(k, h, f)
    ensures Count(FreeFile(k, f), p, g) == Share(FreeFile(k, f), Freed(k, h, f), p, g)
  {
    hide Table, FreeFile, Orphaned, At;
    OrphanCount(k, h, f, p, g);
    AfterFree(k, f, g);
    if k.colas[f] != [] {
      HeadCount(k.colas[f], p);
    }
  }

  lemma OrphanCount(k: KState, h: map<File, Pid>, f: File, p: Pid, g: File)
    requires Orphaned(k, h, f)
    ensures f in k.colas && At(k.colas, f) == k.colas[f] && Table(FreeFile(k, f), p) == Table(k, p)
    ensures Count(k, p, g) == if g == f then multiset(At(k.colas, f))[p] else Share(k, h, p, g)
  {
  }

  /** The first in line becomes the holder; with no line, the file leaves the system table. */
  lemma FreeFileFiles(k: KState, h: map<File, Pid>, f: File)
    requires Orphaned(k, h, f)
    ensures FilesOk(FreeFile(k, f), Freed(k, h, f))
    ensures FreeFile(k, f).abiertos == k.abiertos
    ensures forall p :: NotWaiting(k, p) ==> NotWaiting(FreeFile(k, f), p)
  {
    var k', h' := FreeFile(k, f), Freed(k, h, f);
    FreeMatches(k, h, f);
    AfterFree(k, f, f);
    forall g ensures forall p :: p in At(k'.colas, g) ==> p in At(k.colas, g) { AfterFree(k, f, g); }
    hide Table, At, FreeFile, Freed, Distinct, Count, Share, TablesMatch;
    forall p, g ensures Count(k', p, g) == Share(k', h', p, g) { FreePoint(k, h, f, p, g); }
  }

  lemma CloseFiles(k: KState, h: map<File, Pid>, p: Pid, f: File) returns (h': map<File, Pid>)
    requires FilesOk(k, h) && NotWaiting(k, p)
    requires f in Table(k, p) ==> f in k.colas
    ensures FilesOk(CloseFile(k, p, f), h')
  {
    match Position(Table(k, p), f)
    case None =>
      assert f !in Table(k, p);
      assert CloseFile(k, p, f) == PushExit(k, p);
      SameFiles(k, PushExit(k, p), h);
      h' := h;
    case Some(i) =>
      var k1 := k.(abiertos := k.abiertos[p := RemoveAt(Table(k, p), i)]);
      assert CloseFile(k, p, f) == FreeFile(PushReady(k1, p), f);
      DropEntry(k, h, p, i);
      SameOrphan(k1, PushReady(k1, p), h, f);
      hide FreeFile, FilesOk;
      FreeFileFiles(PushReady(k1, p), h, f);
      h' := Freed(k1, h, f);
  }

  lemma SameOrphan(k: KState, k': KState, h: map<File, Pid>, f: File)
    requires Orphaned(k, h, f) && k'.gdt == k.gdt && k'.colas == k.colas && k'.abiertos == k.abiertos
    ensures Orphaned(k', h, f)
  {
    forall p, g ensures Count(k', p, g) == Count(k, p, g) && Share(k', h, p, g) == Share(k, h, p, g) {}
  }

  /** An exiting process ends with no file open. */
  lemma {:induction false} CloseAllFiles(k: KState, h: map<File, Pid>, p: Pid) returns (h': map<File, Pid>)
    requires FilesOk(k, h) && NotWaiting(k, p)
    ensures FilesOk(CloseAll(k, p), h') && Table(CloseAll(k, p), p) == []
    decreases |Table(k, p)|
  {
    var fs := Table(k, p);
    if fs == [] {
      h' := h;
    } else {
      NotWaitingHolds(k, h, p, fs[0]);
      DropEntry(k, h, p, 0);
      assert RemoveAt(fs, 0) == fs[1..];
      var k1 := k.(abiertos := k.abiertos[p := fs[1..]]);
      FreeFileFiles(k1, h, fs[0]);
      hide FreeFile, Orphaned;
      h' := CloseAllFiles(FreeFile(k1, fs[0]), Freed(k1, h, fs[0]), p);
    }
  }

  // ----- exclusivity -----

  /** Over all tables, an open file has one entry more than its queue is long. */
  lemma EntriesOfOpenFile(k: KState, h: map<File, Pid>, f: File)
    requires FilesOk(k, h) && f in k.gdt
    ensures Sum(map p | p in k.abiertos :: multiset(k.abiertos[p])[f]) == 1 + |k.colas[f]|
  {
    var q := k.colas[f] + [h[f]];
    SharesOf(k, h, f, q);
    forall p: Pid | p in q ensures p in k.abiertos.Keys {}
    forall p: Pid | p in k.abiertos ensures multiset(k.abiertos[p])[f] == multiset(q)[p] {}
    SumOfCounts(k.abiertos.Keys, q);
    assert (map p | p in k.abiertos :: multiset(k.abiertos[p])[f]) == map p | p in k.abiertos.Keys :: multiset(q)[p];
  }

  /** The entries are those of its holder and of the processes in line. */
  lemma SharesOf(k: KState, h: map<File, Pid>, f: File, q: seq<Pid>)
    requires FilesOk(k, h) && f in k.gdt && q == k.colas[f] + [h[f]]
    ensures forall p :: p in q ==> p in k.abiertos.Keys
    ensures forall p :: p in k.abiertos ==> multiset(k.abiertos[p])[f] == multiset(q)[p]
  {
    forall p ensures Count(k, p, f) == multiset(q)[p] {}
    hide FilesOk;
    forall p | p in q ensures p in k.abiertos.Keys { assert Count(k, p, f) > 0; }
    forall p | p in k.abiertos ensures multiset(k.abiertos[p])[f] == multiset(q)[p] { assert Count(k, p, f) == multiset(q)[p]; }
  }
}
