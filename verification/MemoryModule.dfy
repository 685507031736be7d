/** The memory module as it runs: global lists, shared segment records and one byte buffer, all
    updated in place. Each method is tied to the request it implements on values. */
module MemoryModule {
  import opened Sums
  import opened Holes
  import opened Memory
  import opened Compaction
  import opened MemoryRuns

  class Memoria {
    const total: int
    const algoritmo: Policy
    const segmento0: Segmento
    var huecosLibres: seq<Hueco>
    var tablas: map<Pid, seq<Segmento>>
    const userSpace: array<char>
    ghost var live: set<Segmento>  // the records malloc has handed out and free has not taken back

    ghost function Snapshot(): Mem
      reads this, live, userSpace
    {
      Mem(total, segmento0, huecosLibres, map s | s in live :: Seg(s.id, s.base, s.limite), tablas, userSpace[..])
    }

    ghost predicate Valid()
      reads this, live, userSpace
    {
      Inv(Snapshot())
    }

    constructor (total: int, size0: int, algoritmo: Policy)
      requires 0 < size0 <= total
      ensures Valid() && this.algoritmo == algoritmo
      ensures fresh(live) && fresh(userSpace)
      ensures Snapshot() == Start(total, size0, segmento0)
    {
      var s := new Segmento(0, 0, size0);
      var space := new char[total](_ => BLANK);
      this.total, this.algoritmo, segmento0, userSpace := total, algoritmo, s, space;
      huecosLibres := Place([Hueco(0, total)], 0, size0);
      tablas, live := map[], {s};
      new;
      StartIsOk(total, size0, s);
      assert Snapshot().segs == Start(total, size0, s).segs;
      assert Snapshot().space == Start(total, size0, s).space;
    }

    method AlojarNuevoHueco(base: int, lim: int)
      modifies this`huecosLibres
      ensures huecosLibres == Alojar(old(huecosLibres), base, lim)
    {
      var inferior := EndingAt(huecosLibres, base);
      var superior := StartingAt(huecosLibres, base + lim);
      if inferior.Some? && superior.Some? {
        var i, j := inferior.value, superior.value;
        var h := huecosLibres[i];
        huecosLibres := huecosLibres[i := Hueco(h.pos, h.size + lim + huecosLibres[j].size)];
        huecosLibres := RemoveAt(huecosLibres, j);
      } else if inferior.Some? {
        var h := huecosLibres[inferior.value];
        huecosLibres := huecosLibres[inferior.value := Hueco(h.pos, h.size + lim)];
      } else if superior.Some? {
        var h := huecosLibres[superior.value];
        huecosLibres := huecosLibres[superior.value := Hueco(base, h.size + lim)];
      } else {
        huecosLibres := huecosLibres + [Hueco(base, lim)];
      }
    }

    method CallocSegment(pid: Pid, id: int, size: int) returns (answer: int, ghost r: Segmento)
      requires Valid() && pid in tablas && size > 0
      modifies this
      ensures Valid() && fresh(r)
      ensures (Snapshot(), answer) == Create(algoritmo, old(Snapshot()), pid, id, size, r)
      ensures answer == 0 ==> live == old(live) + {r}
      ensures answer != 0 ==> live == old(live)
    {
      ghost var m := Snapshot();
      var nuevo := new Segmento(id, 0, size);
      r := nuevo;
      var elegido := Pick(algoritmo, huecosLibres, size);
      if elegido.None? {
        answer := if Total(huecosLibres) >= size then 1 else -1;
      } else {
        var i := elegido.value;
        var hueco := huecosLibres[i];
        nuevo.base := hueco.pos;
        tablas := tablas[pid := tablas[pid] + [nuevo]];
        if hueco.size - size == 0 {
          huecosLibres := RemoveAt(huecosLibres, i);
        } else {
          huecosLibres := huecosLibres[i := Hueco(hueco.pos + size, hueco.size - size)];
        }
        live := live + {nuevo};
        answer := 0;
        assert Snapshot().segs == m.segs[r := Seg(id, hueco.pos, size)];
      }
      assert (Snapshot(), answer) == Create(algoritmo, m, pid, id, size, r);
      CreateKeepsPartition(algoritmo, m, pid, id, size, r);
      CreateKeepsTables(algoritmo, m, pid, id, size, r);
    }

    method CreateSegment(pid: Pid, id: int, size: int) returns (answer: int, ghost r: Segmento)
      requires Valid() && (pid in tablas ==> size > 0)
      modifies this
      ensures Valid()
      ensures pid in old(tablas) ==> fresh(r) && (Snapshot(), answer) == Create(algoritmo, old(Snapshot()), pid, id, size, r)
      ensures pid !in old(tablas) ==> answer == 0 && Snapshot() == NewProcess(old(Snapshot()), pid)
    {
      hide Inv;
      if pid !in tablas {
        ghost var m := Snapshot();
        tablas := tablas[pid := [segmento0]];
        answer, r := 0, segmento0;
        assert Snapshot() == NewProcess(m, pid);
        NewKeepsTables(m, pid);
      } else {
        answer, r := CallocSegment(pid, id, size);
      }
    }

    /** `free` of a record whose bytes go back to the hole list. */
    method Liberar(s: Segmento)
      requires s in live
      modifies this
      ensures Snapshot() == FreeSeg(old(Snapshot()), s) && live == old(live) - {s}
    {
      ghost var m := Snapshot();
      AlojarNuevoHueco(s.base, s.limite);
      live := live - {s};
      assert Snapshot().segs == m.segs - {s};
    }

    method DeleteSegment(pid: Pid, id: int)
      requires Valid() && Enabled(Snapshot(), OpDelete(pid, id))
      modifies this
      ensures Valid() && Snapshot() == Delete(old(Snapshot()), pid, id)
    {
      hide Alojar, Partition, TablesOk;
      ghost var m := Snapshot();
      DeleteKeepsInv(m, pid, id);
      if pid !in tablas { return; }
      ghost var e := EntryOf(m, m.tables[pid], id);
      forall k | 0 <= k < |tablas[pid]| ensures tablas[pid][k] in live { TableRef(m, pid, k); }
      var i := IndexOfId(tablas[pid], id);
      EntryIsFirst(m, tablas[pid], id, i);
      var s := tablas[pid][i];
      tablas := tablas[pid := RemoveAt(tablas[pid], i)];
      assert Snapshot() == m.(tables := m.tables[pid := RemoveAt(m.tables[pid], i)]);
      Liberar(s);
      assert Snapshot() == Delete(m, pid, id);
    }

    /** `list_remove_by_condition` on the segment ID. */
    method IndexOfId(t: seq<Segmento>, id: int) returns (i: nat)
      requires exists k :: 0 <= k < |t| && t[k].id == id
      ensures i < |t| && t[i].id == id && forall k :: 0 <= k < i ==> t[k].id != id
    {
      i := 0;
      while t[i].id != id
        invariant i < |t| && forall k :: 0 <= k < i ==> t[k].id != id
        decreases |t| - i
      {
        i := i + 1;
      }
    }

    method ExitProcess(pid: Pid)
      requires Valid() && pid in tablas
      modifies this
      ensures Valid() && Snapshot() == Exit(old(Snapshot()), pid)
    {
      hide Alojar, Partition, Exit;
      ghost var m := Snapshot();
      assert |tablas[pid]| > 0;
      hide TablesOk;
      ApplyKeepsInv(m, OpExit(pid));
      ExitReleases(m, pid);
      var tabla := tablas[pid];
      tablas := tablas - {pid};
      assert Snapshot() == m.(tables := m.tables - {pid});
      LiberarTabla(tabla);
    }

    /** The loop over the entries past the shared first one. */
    method LiberarTabla(tabla: seq<Segmento>)
      requires |tabla| > 0 && Releasable(Snapshot(), tabla[1..])
      modifies this
      ensures Snapshot() == FreeAll(old(Snapshot()), tabla[1..])
    {
      hide Alojar;
      ghost var goal := FreeAll(Snapshot(), tabla[1..]);
      var i := 1;
      while i < |tabla|
        invariant 1 <= i <= |tabla|
        invariant Releasable(Snapshot(), tabla[i..])
        invariant FreeAll(Snapshot(), tabla[i..]) == goal
        decreases |tabla| - i
      {
        assert tabla[i..][0] == tabla[i] && tabla[i..][1..] == tabla[i + 1..];
        Liberar(tabla[i]);
        i := i + 1;
      }
      assert tabla[i..] == [];
    }

    method AnyKey<K>(keys: set<K>) returns (p: K)
      requires keys != {}
      ensures p in keys
    {
      p :| p in keys;
    }

    /** `dictionary_elements` and `list_flatten`: all entries of all tables, in any order. */
    method TablaGlobal() returns (global: seq<Segmento>)
      ensures forall s :: s in global <==> exists p :: p in tablas && s in tablas[p]
    {
      global := [];
      var keys: set<Pid> := tablas.Keys;
      while keys != {}
        invariant keys <= tablas.Keys
        invariant forall s :: s in global <==> exists p :: p in tablas.Keys - keys && s in tablas[p]
        decreases |keys|
      {
        var p := AnyKey(keys);
        global := global + tablas[p];
        keys := keys - {p};
      }
    }

    /** `list_filter` and `list_get_minimum`: the lowest listed segment above an address. */
    method PrimeroPorEncima(global: seq<Segmento>, pos: int) returns (s: Segmento?)
      ensures s == null ==> forall k :: 0 <= k < |global| ==> global[k].base <= pos
      ensures s != null ==> s in global && s.base > pos
      ensures s != null ==> forall k :: 0 <= k < |global| && global[k].base > pos ==> s.base <= global[k].base
    {
      s := null;
      for i := 0 to |global|
        invariant s == null ==> forall k :: 0 <= k < i ==> global[k].base <= pos
        invariant s != null ==> s in global && s.base > pos
        invariant s != null ==> forall k :: 0 <= k < i && global[k].base > pos ==> s.base <= global[k].base
      {
        if global[i].base > pos && (s == null || global[i].base < s.base) { s := global[i]; }
      }
    }

    /** The `memmove` and the `memset` of one compaction turn. */
    method Deslizar(to: int, from: int, n: int)
      requires 0 <= to <= from && 0 <= n && from + n <= userSpace.Length
      modifies userSpace
      ensures userSpace[..] == Slide(old(userSpace[..]), to, from, n)
      ensures forall k :: from <= k < from + n ==> userSpace[k] == BLANK
      ensures forall k :: to <= k < to + n && k < from ==> userSpace[k] == old(userSpace[from + (k - to)])
      ensures forall k :: 0 <= k < userSpace.Length && !(from <= k < from + n) && !(to <= k < to + n) ==>
        userSpace[k] == old(userSpace[k])
    {
      forall k | 0 <= k < n { userSpace[to + k] := userSpace[from + k]; }
      forall k | from <= k < from + n { userSpace[k] := BLANK; }
    }

    method ReallocSegment(s: Segmento, f: nat)
      requires f < |huecosLibres|
      modifies this`huecosLibres, s`base
      ensures s.base == old(huecosLibres[f].pos)
      ensures huecosLibres == Alojar(RemoveAt(old(huecosLibres), f), old(huecosLibres[f].pos) + s.limite, old(huecosLibres[f].size))
    {
      hide Alojar, RemoveAt;
      var hueco := huecosLibres[f];
      huecosLibres := RemoveAt(huecosLibres, f);
      s.base := hueco.pos;
      AlojarNuevoHueco(s.base + s.limite, hueco.size);
    }

    method CompactarSegmentos()
      requires Valid() && |huecosLibres| > 0
      modifies this`huecosLibres, live, userSpace
      ensures Valid() && Snapshot() == Compact(old(Snapshot()))
    {
      hide Partition, TablesOk, Compact, Above;
      ghost var m0 := Snapshot();
      CompactKeepsTables(m0);
      var global := TablaGlobal();
      var done := false;
      while !done
        invariant Valid() && |huecosLibres| > 0 && tablas == old(tablas) && live == old(live)
        invariant Compact(Snapshot()) == Compact(m0)
        invariant done ==> Compact(Snapshot()) == Snapshot()
        decreases !done, |Above(Snapshot())|
      {
        done := Turno(global);
        if done { CompactDone(Snapshot()); }
      }
    }

    /** One turn of the compaction loop; true when no segment is left above the lowest hole. */
    method Turno(global: seq<Segmento>) returns (done: bool)
      requires Valid() && |huecosLibres| > 0
      requires forall s :: s in global <==> exists p :: p in tablas && s in tablas[p]
      modifies this`huecosLibres, live, userSpace
      ensures Valid() && |huecosLibres| > 0
      ensures Compact(Snapshot()) == Compact(old(Snapshot()))
      ensures done ==> Snapshot() == old(Snapshot()) && Above(Snapshot()) == {}
      ensures !done ==> |Above(Snapshot())| < |Above(old(Snapshot()))|
    {
      hide Compact, Alojar, RemoveAt, Canonical, SegsOk, Free, Used, TablesOk, Slide;
      ghost var m := Snapshot();
      var f := FirstHole(huecosLibres);
      HoleInRange(m, f);
      var s := PrimeroPorEncima(global, huecosLibres[f].pos);
      forall r | r in m.segs && m.segs[r].base > m.holes[f].pos ensures r in global { AboveIsListed(m, r, global); }
      forall r | r in global ensures r in m.segs { ListedIsLive(m, r, global); }
      done := s == null;
      if !done {
        assert IsNext(m, s);
        SegInRange(m, s);
        CompactAdvances(m, s);
        StepKeepsTables(m, s);
        Mover(s, f);
      }
    }

    method Mover(s: Segmento, f: nat)
      requires s in live && f < |huecosLibres| && f == FirstHole(huecosLibres)
      requires 0 <= huecosLibres[f].pos <= s.base && 0 <= s.limite && s.base + s.limite <= userSpace.Length
      modifies this`huecosLibres, s`base, userSpace
      ensures Snapshot() == Step(old(Snapshot()), s)
    {
      hide Alojar, RemoveAt, Slide;
      ghost var m := Snapshot();
      Deslizar(huecosLibres[f].pos, s.base, s.limite);
      ReallocSegment(s, f);
      assert Snapshot().segs == m.segs[s := m.segs[s].(base := m.holes[f].pos)];
    }

    method Escribir(addr: int, value: seq<char>)
      requires Valid() && 0 <= addr <= addr + |value| <= userSpace.Length
      modifies userSpace
      ensures Valid() && Snapshot() == Write(old(Snapshot()), addr, value)
    {
      hide Inv;
      ghost var m := Snapshot();
      ApplyKeepsInv(m, OpWrite(addr, value));
      forall k | 0 <= k < |value| { userSpace[addr + k] := value[k]; }
      assert userSpace[..] == Write(m, addr, value).space;
      assert Snapshot() == Write(m, addr, value);
    }
  }

  lemma CompactDone(m: Mem)
    requires Partition(m) && |m.holes| > 0 && Above(m) == {}
    ensures Compact(m) == m
  {
  }

  lemma SegInRange(m: Mem, r: Segmento)
    requires Partition(m) && r in m.segs
    ensures 0 < m.segs[r].limite && m.segs[r].base + m.segs[r].limite <= |m.space|
  {
  }

  lemma EntryIsFirst(m: Mem, t: seq<Segmento>, id: int, i: nat)
    requires (forall k :: 0 <= k < |t| ==> t[k] in m.segs)
    requires i < |t| && m.segs[t[i]].id == id && forall k :: 0 <= k < i ==> m.segs[t[k]].id != id
    ensures EntryOf(m, t, id) == Some(i)
  {
  }

  lemma StepKeepsTables(m: Mem, r: Segmento)
    requires Inv(m) && |m.holes| > 0 && IsNext(m, r)
    ensures 0 <= m.holes[FirstHole(m.holes)].pos <= m.segs[r].base
    ensures Inv(Step(m, r))
  {
    StepKeepsPartition(m, r);
    HoleInRange(m, FirstHole(m.holes));
    assert r != m.seg0;
  }
}
