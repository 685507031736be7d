/** The state of the memory module and the requests it serves, as values. */
module Memory {
  import opened Sums
  import opened Holes

  /** The record `malloc` returns for a segment; tables share these by reference. */
  class Segmento {
    var id: int
    var base: int
    var limite: int

    constructor (id: int, base: int, limite: int)
      ensures this.id == id && this.base == base && this.limite == limite
    {
      this.id, this.base, this.limite := id, base, limite;
    }
  }

  /** The contents of a segment record. */
  datatype Seg = Seg(id: int, base: int, limite: int) {
    predicate Has(b: int) { base <= b < base + limite }
  }

  type Pid = int

  /** `segs` holds the record behind every live reference, the shared segment 0 included once. */
  datatype Mem = Mem(
    total: int,
    seg0: Segmento,
    holes: seq<Hueco>,
    segs: map<Segmento, Seg>,
    tables: map<Pid, seq<Segmento>>,
    space: seq<char>)

  // ----- the partition of [0, total) -----

  predicate Disjoint(a: Seg, b: Seg) {
    a.base + a.limite <= b.base || b.base + b.limite <= a.base
  }

  ghost predicate Used(segs: map<Segmento, Seg>, b: int) {
    exists r :: r in segs && segs[r].Has(b)
  }

  ghost predicate SegsOk(segs: map<Segmento, Seg>, total: int) {
    && (forall r :: r in segs ==> 0 < segs[r].limite && 0 <= segs[r].base && segs[r].base + segs[r].limite <= total)
    && (forall r, s {:trigger Disjoint(segs[r], segs[s])} ::
          r in segs && s in segs && r != s ==> Disjoint(segs[r], segs[s]))
  }

  /** The free bytes are exactly the bytes of `[0, total)` that no live segment uses. */
  ghost predicate Partition(m: Mem) {
    && Canonical(m.holes)
    && SegsOk(m.segs, m.total)
    && |m.space| == m.total
    && forall b :: Free(m.holes, b) <==> 0 <= b < m.total && !Used(m.segs, b)
  }

  /** Process tables: segment 0 first, with ID 0 and at address 0, everything else owned by one table
      at one index. */
  ghost predicate TablesOk(m: Mem) {
    && m.seg0 in m.segs && m.segs[m.seg0].base == 0 && m.segs[m.seg0].id == 0
    && (forall p :: p in m.tables ==> |m.tables[p]| > 0 && m.tables[p][0] == m.seg0)
    && (forall p, i, r :: At(m.tables, p, i, r) ==> r in m.segs && r != m.seg0)
    && (forall p, i, q, j, r :: At(m.tables, p, i, r) && At(m.tables, q, j, r) ==> p == q && i == j)
    && (forall r :: r in m.segs && r != m.seg0 ==> Listed(m.tables, r))
  }

  /** Entry `i` of the table of `p`, past the shared first entry, is `r`. */
  predicate At(tables: map<Pid, seq<Segmento>>, p: Pid, i: int, older r: Segmento) {
    p in tables && 0 < i < |tables[p]| && tables[p][i] == r
  }

  ghost predicate Listed(tables: map<Pid, seq<Segmento>>, r: Segmento) {
    exists p, i :: At(tables, p, i, r)
  }

  ghost predicate Inv(m: Mem) { Partition(m) && TablesOk(m) }

  /** Read out: each byte is in exactly one hole or in exactly one live segment, never both. */
  lemma EveryByteHasOnePlace(m: Mem, b: int)
    requires Partition(m) && 0 <= b < m.total
    ensures (exists i :: 0 <= i < |m.holes| && m.holes[i].Has(b)) <==> !exists r :: r in m.segs && m.segs[r].Has(b)
    ensures forall i, j :: 0 <= i < |m.holes| && 0 <= j < |m.holes| && m.holes[i].Has(b) && m.holes[j].Has(b) ==> i == j
    ensures forall r, s :: r in m.segs && s in m.segs && m.segs[r].Has(b) && m.segs[s].Has(b) ==> r == s
  {
    assert Free(m.holes, b) <==> !Used(m.segs, b);
    forall i, j | 0 <= i < |m.holes| && 0 <= j < |m.holes| && m.holes[i].Has(b) && m.holes[j].Has(b)
      ensures i == j
    {
      assert i != j ==> Apart(m.holes[i], m.holes[j]);
    }
    forall r, s | r in m.segs && s in m.segs && m.segs[r].Has(b) && m.segs[s].Has(b)
      ensures r == s
    {
      assert r != s ==> Disjoint(m.segs[r], m.segs[s]);
    }
  }

  // ----- allocation -----

  /** Shrink the chosen hole from below, or drop it when the segment fills it. */
  function Place(h: seq<Hueco>, i: nat, size: int): seq<Hueco>
    requires i < |h|
  {
    if h[i].size - size == 0 then RemoveAt(h, i)
    else h[i := Hueco(h[i].pos + size, h[i].size - size)]
  }

  lemma PlaceTakesSpan(h: seq<Hueco>, i: nat, size: int)
    requires Canonical(h) && i < |h| && 0 < size <= h[i].size
    ensures Canonical(Place(h, i, size)) && Total(Place(h, i, size)) == Total(h) - size
    ensures forall b :: Free(Place(h, i, size), b) <==> Free(h, b) && !(h[i].pos <= b < h[i].pos + size)
  {
    if h[i].size == size {
      RemoveTakesSpan(h, i);
    } else {
      var x := Hueco(h[i].pos + size, h[i].size - size);
      TotalUpdate(h, i, x);
      forall k | 0 <= k < |h| && k != i ensures Apart(h[k], x) { assert Apart(h[k], h[i]); }
      CanonicalUpdate(h, i, x);
      forall b ensures Free(h[i := x], b) <==> Free(h, b) && !(h[i].pos <= b < h[i].pos + size) {
        ByteAfterShrink(h, i, x, b);
      }
    }
  }

  lemma ByteAfterShrink(h: seq<Hueco>, i: nat, x: Hueco, b: int)
    requires Canonical(h) && i < |h| && h[i].pos < x.pos < x.pos + x.size == h[i].pos + h[i].size
    ensures Free(h[i := x], b) <==> Free(h, b) && !(h[i].pos <= b < x.pos)
  {
    var r := h[i := x];
    if Free(r, b) {
      var k :| 0 <= k < |r| && r[k].Has(b);
      assert h[k].Has(b);
      assert k != i ==> Apart(h[k], h[i]);
    }
    if Free(h, b) && !(h[i].pos <= b < x.pos) {
      var k :| 0 <= k < |h| && h[k].Has(b);
      assert r[k].Has(b);
    }
  }

  /** `calloc_segment` into a process table: the new state and the answer sent to the kernel,
      0 allocated, 1 only compaction can make room, -1 not enough memory. `r` is the new record. */
  function Create(policy: Policy, m: Mem, pid: Pid, id: int, size: int, r: Segmento): (Mem, int)
    requires pid in m.tables
  {
    match Pick(policy, m.holes, size)
    case None => (m, if Total(m.holes) >= size then 1 else -1)
    case Some(i) =>
      (m.(holes := Place(m.holes, i, size),
          segs := m.segs[r := Seg(id, m.holes[i].pos, size)],
          tables := m.tables[pid := m.tables[pid] + [r]]), 0)
  }

  /** `create_segment` for a process without a table: it gets a copy of the initial table. */
  function NewProcess(m: Mem, pid: Pid): Mem {
    m.(tables := m.tables[pid := [m.seg0]])
  }

  // ----- release -----

  function FreeSeg(m: Mem, r: Segmento): Mem
    requires r in m.segs
  {
    m.(holes := Alojar(m.holes, m.segs[r].base, m.segs[r].limite), segs := m.segs - {r})
  }

  /** The table entry `delete_segment` removes: the first one with the ID, None when there is none. */
  function EntryOf(m: Mem, t: seq<Segmento>, id: int): (i: Option<nat>)
    ensures i.Some? ==> i.value < |t| && t[i.value] in m.segs && m.segs[t[i.value]].id == id
    ensures forall j :: 0 <= j < (if i.Some? then i.value else |t|) && t[j] in m.segs ==> m.segs[t[j]].id != id
  {
    Find(t, (r: Segmento) => r in m.segs && m.segs[r].id == id)
  }

  function Delete(m: Mem, pid: Pid, id: int): Mem {
    if pid !in m.tables then m
    else
      var t := m.tables[pid];
      match EntryOf(m, t, id)
      case None => m
      case Some(i) => FreeSeg(m.(tables := m.tables[pid := RemoveAt(t, i)]), t[i])
  }

  ghost predicate Releasable(m: Mem, rs: seq<Segmento>) {
    && (forall i :: 0 <= i < |rs| ==> rs[i] in m.segs)
    && (forall i, j :: 0 <= i < j < |rs| ==> rs[i] != rs[j])
  }

  function FreeAll(m: Mem, rs: seq<Segmento>): Mem
    decreases |rs|
  {
    if rs == [] || rs[0] !in m.segs then m else FreeAll(FreeSeg(m, rs[0]), rs[1..])
  }

  /** The EXIT request: every entry but the shared first one is released, in table order. */
  function Exit(m: Mem, pid: Pid): Mem
    requires pid in m.tables
  {
    var t := m.tables[pid];
    FreeAll(m.(tables := m.tables - {pid}), if t == [] then [] else t[1..])
  }

  // ----- what every request keeps -----

  lemma CreateKeepsPartition(policy: Policy, m: Mem, pid: Pid, id: int, size: int, r: Segmento)
    requires Partition(m) && pid in m.tables && size > 0 && r !in m.segs
    ensures Partition(Create(policy, m, pid, id, size, r).0)
  {
    match Pick(policy, m.holes, size)
    case None =>
    case Some(i) =>
      var m', a := Create(policy, m, pid, id, size, r).0, m.holes[i].pos;
      PlaceTakesSpan(m.holes, i, size);
      forall b ensures Used(m'.segs, b) <==> Used(m.segs, b) || a <= b < a + size {
        if Used(m.segs, b) { var s :| s in m.segs && m.segs[s].Has(b); assert m'.segs[s].Has(b); }
        if a <= b < a + size { assert m'.segs[r].Has(b); }
      }
      forall b | a <= b < a + size ensures Free(m.holes, b) { assert m.holes[i].Has(b); }
      assert Free(m.holes, a) && Free(m.holes, a + size - 1);
      forall s | s in m.segs ensures Disjoint(m.segs[s], m'.segs[r]) {
        assert m.segs[s].Has(m.segs[s].base) && Used(m.segs, m.segs[s].base);
        assert m.segs[s].Has(a) ==> Used(m.segs, a);
      }
      forall s, u | s in m'.segs && u in m'.segs && s != u ensures Disjoint(m'.segs[s], m'.segs[u]) {
        if s in m.segs && u in m.segs { assert Disjoint(m.segs[s], m.segs[u]); }
      }
  }

  lemma FreeSegKeepsPartition(m: Mem, r: Segmento)
    requires Partition(m) && r in m.segs
    ensures Partition(FreeSeg(m, r))
    ensures forall b :: Free(FreeSeg(m, r).holes, b) <==> Free(m.holes, b) || m.segs[r].Has(b)
  {
    hide Alojar, Canonical, Total;
    var m', s := FreeSeg(m, r), m.segs[r];
    forall b | s.Has(b) ensures !Free(m.holes, b) { assert Used(m.segs, b); }
    AlojarFreesSpan(m.holes, s.base, s.limite);
    forall b ensures Used(m'.segs, b) <==> Used(m.segs, b) && !s.Has(b) {
      if Used(m.segs, b) && !s.Has(b) {
        var q :| q in m.segs && m.segs[q].Has(b);
        assert m'.segs[q].Has(b);
      }
      if Used(m'.segs, b) {
        var q :| q in m'.segs && m'.segs[q].Has(b);
        assert Disjoint(m.segs[q], s);
      }
    }
    forall q, u | q in m'.segs && u in m'.segs && q != u ensures Disjoint(m'.segs[q], m'.segs[u]) {
      assert Disjoint(m.segs[q], m.segs[u]);
    }
  }

  lemma {:induction false} FreeAllKeepsPartition(m: Mem, rs: seq<Segmento>)
    requires Partition(m) && Releasable(m, rs)
    ensures Partition(FreeAll(m, rs))
    ensures Total(FreeAll(m, rs).holes) >= Total(m.holes)
    decreases |rs|
  {
    if rs != [] {
      FreeSegKeepsPartition(m, rs[0]);
      FreeSegTotal(m, rs[0]);
      FreeAllKeepsPartition(FreeSeg(m, rs[0]), rs[1..]);
    }
  }

  function Elems(rs: seq<Segmento>): set<Segmento> { set r | r in rs }

  lemma {:induction false} FreeAllRemoves(m: Mem, rs: seq<Segmento>)
    requires Releasable(m, rs)
    ensures FreeAll(m, rs) == m.(segs := m.segs - Elems(rs), holes := FreeAll(m, rs).holes)
    decreases |rs|
  {
    hide Alojar;
    if rs == [] {
      assert m.segs - Elems(rs) == m.segs;
    } else {
      var m' := FreeSeg(m, rs[0]);
      FreeAllRemoves(m', rs[1..]);
      assert Elems(rs) == {rs[0]} + Elems(rs[1..]) by { assert rs == [rs[0]] + rs[1..]; }
      assert m.segs - Elems(rs) == m'.segs - Elems(rs[1..]);
    }
  }

  lemma FreeSegTotal(m: Mem, r: Segmento)
    requires Partition(m) && r in m.segs
    ensures Total(FreeSeg(m, r).holes) == Total(m.holes) + m.segs[r].limite
  {
    forall b | m.segs[r].Has(b) ensures !Free(m.holes, b) { assert Used(m.segs, b); }
    AlojarFreesSpan(m.holes, m.segs[r].base, m.segs[r].limite);
  }
}
